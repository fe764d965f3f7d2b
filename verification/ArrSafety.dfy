/**
 Safety of the *arr poller over whole runs.

 `Runs` plays any turns the passes may give any items, in any order, interleaved with whatever
 other writers do. Every run leaves a sound trail that agrees with the rows and the guards;
 everything else here is read off a sound trail.
 A turn goes by its row as it reads when the turn starts; `ArrFetched` is about a cleanup that
 goes by an older one.
 */
module ArrSafety {
  import opened Common
  import opened RetryBackoff
  import opened ArrLifecycle
  import opened ArrStory

  // --- Runs ---------------------------------------------------------------------------------------

  datatype Play = Play(id: ItemId, turn: Turn)

  /** Every id that ever had a row has a cell; the trail records the steps taken. */
  datatype World = World(cells: map<ItemId, Cell>, trail: seq<Step>)

  const EMPTY_CELL := Cell(None, None, 0, None, None, 0)

  function CellOf(row: Row): Cell { Cell(Some(row), None, 0, None, None, 0) }

  /** A fresh process: the rows it finds, and no guards. */
  function Start(rows: map<ItemId, Row>): World { World(map i | i in rows :: CellOf(rows[i]), []) }

  function CellAt(w: World, i: ItemId): Cell { if i in w.cells then w.cells[i] else EMPTY_CELL }

  /** Row ids are never reused: `item.id` is AUTOINCREMENT. */
  predicate CanPlay(w: World, p: Play) {
    Enabled(CellAt(w, p.id), p.id, p.turn)
    && (p.turn.Outside? && p.turn.step.RowAdded? ==> p.id !in w.cells)
  }

  /** The world after a play; one that cannot be made changes nothing. */
  function Played(w: World, p: Play): World {
    if !CanPlay(w, p) then w
    else
      var c := CellAt(w, p.id);
      var steps := TurnSteps(c, p.id, p.turn);
      World(w.cells[p.id := Effects(c, steps)], w.trail + steps)
  }

  predicate Runs(w: World, plays: seq<Play>)
    decreases |plays|
  {
    plays != [] ==> CanPlay(w, plays[0]) && Runs(Played(w, plays[0]), plays[1..])
  }

  function After(w: World, plays: seq<Play>): World
    requires Runs(w, plays)
    decreases |plays|
  {
    if plays == [] then w else After(Played(w, plays[0]), plays[1..])
  }

  /** The trail is sound, and it agrees with every item's row and guards. */
  ghost predicate Truthful(rows: map<ItemId, Row>, w: World) {
    && Sound(rows, w.trail)
    && (forall i: ItemId :: Agrees(CellAt(w, i), Tell(rows, w.trail, i)) && AtRest(Tell(rows, w.trail, i)))
    && (forall i: ItemId :: i !in w.cells ==> !Tell(rows, w.trail, i).facts.used)
  }

  lemma {:induction false} SoundExtends(rows: map<ItemId, Row>, trail: seq<Step>, c: Cell, id: ItemId, steps: seq<Step>)
    requires Sound(rows, trail) && Allowed(c, Tell(rows, trail, id), id, steps)
    ensures Sound(rows, trail + steps)
    ensures Tell(rows, trail + steps, id) == AdvanceAll(Tell(rows, trail, id), steps)
    ensures forall j: ItemId :: j != id ==> Tell(rows, trail + steps, j) == Tell(rows, trail, j)
    decreases |steps|
  {
    if steps == [] {
      assert trail + steps == trail;
    } else {
      var e := steps[0];
      assert (trail + [e])[..|trail|] == trail;
      TellNext(rows, trail, e, id);
      SoundExtends(rows, trail + [e], Effect(c, e), id, steps[1..]);
      assert trail + [e] + steps[1..] == trail + steps;
      forall j: ItemId | j != id
        ensures Tell(rows, trail + steps, j) == Tell(rows, trail, j)
      {
        TellNext(rows, trail, e, j);
      }
    }
  }

  lemma TurnKeepsTruth(rows: map<ItemId, Row>, w: World, p: Play)
    requires Truthful(rows, w) && CanPlay(w, p)
    ensures Truthful(rows, Played(w, p))
  {
    var c := CellAt(w, p.id);
    var steps := TurnSteps(c, p.id, p.turn);
    TurnIsAllowed(c, Tell(rows, w.trail, p.id), p.id, p.turn);
    SoundExtends(rows, w.trail, c, p.id, steps);
    var v := Played(w, p);
    forall i: ItemId
      ensures Agrees(CellAt(v, i), Tell(rows, v.trail, i)) && AtRest(Tell(rows, v.trail, i))
      ensures i !in v.cells ==> !Tell(rows, v.trail, i).facts.used
    {
      if i != p.id {
        assert CellAt(v, i) == CellAt(w, i);
      }
    }
  }

  lemma {:induction false} RunKeepsTruth(rows: map<ItemId, Row>, w: World, plays: seq<Play>)
    requires Truthful(rows, w) && Runs(w, plays)
    ensures Truthful(rows, After(w, plays))
    decreases |plays|
  {
    if plays != [] {
      TurnKeepsTruth(rows, w, plays[0]);
      RunKeepsTruth(rows, Played(w, plays[0]), plays[1..]);
    }
  }

  /** Every run from a fresh process is truthful. */
  lemma EveryRunIsTruthful(rows: map<ItemId, Row>, plays: seq<Play>)
    requires Runs(Start(rows), plays)
    ensures Truthful(rows, After(Start(rows), plays))
  {
    var w := Start(rows);
    forall i: ItemId
      ensures Agrees(CellAt(w, i), Tell(rows, w.trail, i)) && AtRest(Tell(rows, w.trail, i))
      ensures i !in w.cells ==> !Tell(rows, w.trail, i).facts.used
    {
    }
    RunKeepsTruth(rows, w, plays);
  }

  // --- Reading a trail ------------------------------------------------------------------------------

  /** The last step taken for item `i`. */
  function LastOf(trail: seq<Step>, i: ItemId): Option<Step> {
    if trail == [] then None
    else if trail[|trail| - 1].id == i then Some(trail[|trail| - 1])
    else LastOf(trail[..|trail| - 1], i)
  }

  lemma {:induction false} LastIsTold(rows: map<ItemId, Row>, trail: seq<Step>, i: ItemId)
    ensures Tell(rows, trail, i).last == LastOf(trail, i)
  {
    if trail != [] {
      LastIsTold(rows, trail[..|trail| - 1], i);
    }
  }

  /** Steps that decide the association status. */
  predicate Decides(e: Step, i: ItemId) {
    e.id == i && (e.Matched? || e.Pushed? || e.WentDropped? || e.WentImported? || e.WentGone?
                  || e.WentCleaned? || e.RowAdded?)
  }

  lemma OnlyDecidersDecide(f: Facts, e: Step)
    requires !Decides(e, e.id)
    ensures FactsAfter(f, e).status == f.status && FactsAfter(f, e).statusAt == f.statusAt
  {
  }

  lemma OnlyGoingDroppedDrops(f: Facts, e: Step)
    requires Decides(e, e.id) && (e.RowAdded? ==> Fresh(e.row)) && FactsAfter(f, e).status == Dropped
    ensures e.WentDropped?
  {
  }

  predicate DeleteAttempt(e: Step, i: ItemId) {
    e.id == i && (e.SourceDeleted? || e.SourceDeleteFailed? || e.SourceDeleteWithheld?)
  }

  // --- Source deletes follow a confirmed import -------------------------------------------------------

  /** From `trail[j]` on, the only thing that has happened to the status is the cleanup. */
  predicate OnlyCleanedSince(trail: seq<Step>, j: nat, i: ItemId) {
    forall m :: j <= m < |trail| && Decides(trail[m], i) ==> trail[m].WentCleaned?
  }

  /** The status goes back to an import commit with evidence in hand, or to the starting row. */
  ghost predicate GoesBackToImport(rows: map<ItemId, Row>, trail: seq<Step>, i: ItemId) {
    || (i in rows && AfterImport(rows[i].status) && OnlyCleanedSince(trail, 0, i))
    || (exists j :: 0 <= j < |trail| && trail[j].id == i && trail[j].WentImported? && trail[j].events > 0
                    && OnlyCleanedSince(trail, j + 1, i))
  }

  lemma {:induction false} ImportedGoesBack(rows: map<ItemId, Row>, trail: seq<Step>, i: ItemId)
    requires Sound(rows, trail) && AfterImport(Tell(rows, trail, i).facts.status)
    ensures GoesBackToImport(rows, trail, i)
  {
    if trail != [] {
      var n := |trail| - 1;
      var before := trail[..n];
      var e := trail[n];
      if e.id == i && e.WentImported? {
        assert OnlyCleanedSince(trail, n + 1, i);
      } else {
        ImportedGoesBack(rows, before, i);
        assert forall m :: 0 <= m < n ==> trail[m] == before[m];
        if !(i in rows && AfterImport(rows[i].status) && OnlyCleanedSince(before, 0, i)) {
          var j :| 0 <= j < n && before[j].id == i && before[j].WentImported? && before[j].events > 0
                   && OnlyCleanedSince(before, j + 1, i);
          assert trail[j].WentImported? && OnlyCleanedSince(trail, j + 1, i);
        }
      }
    }
  }

  /** A remote source is only ever touched while imported or cleaned, and that goes back to an import. */
  lemma SourceDeletesFollowImport(rows: map<ItemId, Row>, trail: seq<Step>, k: nat, i: ItemId)
    requires Sound(rows, trail) && k < |trail| && DeleteAttempt(trail[k], i)
    ensures var f := Tell(rows, trail[..k], i).facts; AfterImport(f.status) && f.owed && !f.deleted
    ensures GoesBackToImport(rows, trail[..k], i)
  {
    SoundAt(rows, trail, k);
    ImportedGoesBack(rows, trail[..k], i);
  }

  /** The evidence for an import commit is the item's immediately preceding step. */
  lemma ImportCommitsHaveEvidence(rows: map<ItemId, Row>, trail: seq<Step>, k: nat)
    requires Sound(rows, trail) && k < |trail| && trail[k].WentImported?
    ensures var before := LastOf(trail[..k], trail[k].id);
            && before.Some?
            && (match before.value
                case Checked(_, v, _, n, confirmed) => v == SawImport && confirmed && 0 < n <= trail[k].events
                case Rechecked(_, n) => 0 < n <= trail[k].events
                case HealTried(_, _, n) => 0 < n <= trail[k].events
                case _ => false)
  {
    SoundAt(rows, trail, k);
    LastIsTold(rows, trail[..k], trail[k].id);
  }

  lemma {:induction false} DeletionIsRemembered(rows: map<ItemId, Row>, trail: seq<Step>, j: nat, i: ItemId)
    requires Sound(rows, trail) && j < |trail| && trail[j].id == i
    requires trail[j].SourceDeleted? || trail[j].SourceGoneElsewhere?
    ensures var f := Tell(rows, trail, i).facts; f.deleted && f.used
  {
    var n := |trail| - 1;
    if j == n {
      UsedOncePresent(rows, trail[..n], i);
    } else {
      DeletionIsRemembered(rows, trail[..n], j, i);
    }
  }

  lemma {:induction false} UsedOncePresent(rows: map<ItemId, Row>, trail: seq<Step>, i: ItemId)
    ensures Tell(rows, trail, i).facts.present ==> Tell(rows, trail, i).facts.used
  {
    if trail != [] {
      UsedOncePresent(rows, trail[..|trail| - 1], i);
    }
  }

  /** At most one source delete succeeds for a row, and none is even attempted once it is gone. */
  lemma SourceIsDeletedAtMostOnce(rows: map<ItemId, Row>, trail: seq<Step>, j: nat, k: nat, i: ItemId)
    requires Sound(rows, trail) && j < k < |trail| && trail[j].id == i
    requires trail[j].SourceDeleted? || trail[j].SourceGoneElsewhere?
    ensures !DeleteAttempt(trail[k], i)
  {
    SoundAt(rows, trail, k);
    assert trail[..k][j] == trail[j];
    DeletionIsRemembered(rows, trail[..k], j, i);
  }

  // --- The ladder: source before local -------------------------------------------------------------

  predicate SettlesDebt(e: Step, i: ItemId) { e.id == i && (e.SourceDeleted? || e.DebtDropped? || e.RowAdded?) }

  lemma {:induction false} DebtStaysUntilSettled(rows: map<ItemId, Row>, trail: seq<Step>, j: nat, i: ItemId)
    requires j < |trail| && trail[j].id == i && trail[j].DebtRecorded?
    requires forall m :: j < m < |trail| ==> !SettlesDebt(trail[m], i)
    ensures Tell(rows, trail, i).facts.owed
  {
    var n := |trail| - 1;
    if j < n {
      assert forall m :: j < m < n ==> trail[..n][m] == trail[m];
      DebtStaysUntilSettled(rows, trail[..n], j, i);
    }
  }

  lemma {:induction false} StartingDebtStaysUntilSettled(rows: map<ItemId, Row>, trail: seq<Step>, i: ItemId)
    requires i in rows && rows[i].debt.Some?
    requires forall m :: 0 <= m < |trail| ==> !SettlesDebt(trail[m], i)
    ensures Tell(rows, trail, i).facts.owed
  {
    if trail != [] {
      var before := trail[..|trail| - 1];
      assert forall m :: 0 <= m < |before| ==> before[m] == trail[m];
      StartingDebtStaysUntilSettled(rows, before, i);
    }
  }

  /** A debt on the row the process started with is settled by a delete or dropped: no row is added twice. */
  lemma StartingDebtIsSettled(rows: map<ItemId, Row>, trail: seq<Step>, k: nat, i: ItemId)
    requires Sound(rows, trail) && k < |trail| && i in rows && rows[i].debt.Some?
             && !Tell(rows, trail[..k], i).facts.owed
    ensures exists m :: 0 <= m < k && trail[m].id == i && (trail[m].SourceDeleted? || trail[m].DebtDropped?)
  {
    if forall m :: 0 <= m < k ==> !SettlesDebt(trail[m], i) {
      assert forall m :: 0 <= m < k ==> trail[..k][m] == trail[m];
      StartingDebtStaysUntilSettled(rows, trail[..k], i);
      assert false;
    }
    var m :| 0 <= m < k && SettlesDebt(trail[m], i);
    SoundAt(rows, trail, m);
    OnceUsedAlwaysUsed(rows, trail[..m], 0, i);
  }

  /**
   Local bytes go only when the import is confirmed, nothing is corrupt, busy or owed, and
   re-download was suppressed just before; and any source debt was settled first.
   */
  lemma LocalRemovalIsLast(rows: map<ItemId, Row>, trail: seq<Step>, k: nat, i: ItemId)
    requires Sound(rows, trail) && k < |trail| && trail[k].id == i && trail[k].LocalRemoved?
    ensures var f := Tell(rows, trail[..k], i).facts;
            f.status == Imported && f.state != Corrupt && !f.owed && !trail[k].activeJob
    ensures LastOf(trail[..k], i) == Some(SuppressionSet(i))
    ensures GoesBackToImport(rows, trail[..k], i)
    ensures forall j :: 0 <= j < k && trail[j].id == i && trail[j].DebtRecorded? ==>
              exists m :: j < m < k && trail[m].id == i && (trail[m].SourceDeleted? || trail[m].DebtDropped?)
    ensures i in rows && rows[i].debt.Some? ==>
              exists m :: 0 <= m < k && trail[m].id == i && (trail[m].SourceDeleted? || trail[m].DebtDropped?)
  {
    SoundAt(rows, trail, k);
    LastIsTold(rows, trail[..k], i);
    ImportedGoesBack(rows, trail[..k], i);
    if i in rows && rows[i].debt.Some? {
      StartingDebtIsSettled(rows, trail, k, i);
    }
    forall j | 0 <= j < k && trail[j].id == i && trail[j].DebtRecorded?
      ensures exists m :: j < m < k && trail[m].id == i && (trail[m].SourceDeleted? || trail[m].DebtDropped?)
    {
      if forall m :: j < m < k ==> !SettlesDebt(trail[m], i) {
        assert forall m :: j < m < k ==> trail[..k][m] == trail[m];
        DebtStaysUntilSettled(rows, trail[..k], j, i);
        assert false;
      }
      var m :| j < m < k && SettlesDebt(trail[m], i);
      if trail[m].RowAdded? {
        RowsAreAddedOnce(rows, trail, j, m, i);
        assert false;
      }
    }
  }

  lemma {:induction false} OnceUsedAlwaysUsed(rows: map<ItemId, Row>, trail: seq<Step>, j: nat, i: ItemId)
    requires j <= |trail| && Tell(rows, trail[..j], i).facts.used
    ensures Tell(rows, trail, i).facts.used
    decreases |trail|
  {
    if j < |trail| {
      var n := |trail| - 1;
      assert trail[..n][..j] == trail[..j];
      OnceUsedAlwaysUsed(rows, trail[..n], j, i);
    } else {
      assert trail[..j] == trail;
    }
  }

  /** Nothing is inserted under an id that some step has already concerned. */
  lemma RowsAreAddedOnce(rows: map<ItemId, Row>, trail: seq<Step>, j: nat, m: nat, i: ItemId)
    requires Sound(rows, trail) && j < m < |trail| && trail[j].id == i && trail[m].id == i
    ensures !trail[m].RowAdded?
  {
    SoundAt(rows, trail, j);
    SoundAt(rows, trail, m);
    UsedOncePresent(rows, trail[..j], i);
    TellNext(rows, trail[..j], trail[j], i);
    assert trail[..j + 1] == trail[..j] + [trail[j]];
    assert trail[..m][..j + 1] == trail[..j + 1];
    OnceUsedAlwaysUsed(rows, trail[..m], j + 1, i);
  }

  lemma {:induction false} GoneForGood(rows: map<ItemId, Row>, trail: seq<Step>, n: nat, i: ItemId)
    requires Sound(rows, trail) && n <= |trail|
    requires var f := Tell(rows, trail[..n], i).facts; f.deleted && f.used
    ensures var f := Tell(rows, trail, i).facts; f.deleted && f.used
    decreases |trail|
  {
    if n < |trail| {
      var before := trail[..|trail| - 1];
      assert before[..n] == trail[..n];
      GoneForGood(rows, before, n, i);
    } else {
      assert trail[..n] == trail;
    }
  }

  /** A debt recorded when the source is already gone is never paid, and it blocks the cleanup. */
  lemma LateDebtBlocksCleanup(rows: map<ItemId, Row>, trail: seq<Step>, debt: nat, k: nat, i: ItemId)
    requires Sound(rows, trail) && debt < k < |trail| && trail[debt].id == i && trail[debt].DebtRecorded?
    requires Tell(rows, trail[..debt], i).facts.deleted
    requires forall m :: debt < m < k && trail[m].id == i ==> !trail[m].DebtDropped?
    ensures !DeleteAttempt(trail[k], i)
    ensures trail[k].id == i ==> !trail[k].LocalRemoved? && !trail[k].WentCleaned?
  {
    SoundAt(rows, trail, debt);
    UsedOncePresent(rows, trail[..debt], i);
    StillGone(rows, trail, debt, k, i);
    SoundAt(rows, trail, k);
    if trail[k].id == i && (trail[k].LocalRemoved? || trail[k].WentCleaned?) {
      forall m | debt < m < k
        ensures !SettlesDebt(trail[..k][m], i)
      {
        if SettlesDebt(trail[m], i) {
          StillGone(rows, trail, debt, m, i);
          SoundAt(rows, trail, m);
        }
      }
      DebtStaysUntilSettled(rows, trail[..k], debt, i);
    }
  }

  lemma StillGone(rows: map<ItemId, Row>, trail: seq<Step>, n: nat, k: nat, i: ItemId)
    requires Sound(rows, trail) && n <= k < |trail|
    requires var f := Tell(rows, trail[..n], i).facts; f.deleted && f.used
    ensures var f := Tell(rows, trail[..k], i).facts; f.deleted && f.used
  {
    SoundAt(rows, trail, k);
    assert trail[..k][..n] == trail[..n];
    GoneForGood(rows, trail[..k], n, i);
  }

  // --- Two fresh, agreeing checks ------------------------------------------------------------------

  /** The last time a poll pass looked for item `i` in the queue and got an answer. */
  function LastCheck(trail: seq<Step>, i: ItemId): Option<Step> {
    if trail == [] then None
    else
      var e := trail[|trail| - 1];
      if e.id == i && (e.StillInQueue? || e.Checked?) then Some(e) else LastCheck(trail[..|trail| - 1], i)
  }

  /** The candidacy a check leaves behind. */
  function Candidacy(check: Option<Step>): Option<Pending> {
    if check.Some? && check.value.Checked? && !check.value.confirmed
    then Some(Pending(check.value.verdict, check.value.downloadId))
    else None
  }

  lemma {:induction false} OpenIsLastCheck(rows: map<ItemId, Row>, trail: seq<Step>, i: ItemId)
    ensures Tell(rows, trail, i).open == Candidacy(LastCheck(trail, i))
  {
    if trail != [] {
      OpenIsLastCheck(rows, trail[..|trail| - 1], i);
    }
  }

  /** The pending map is the history of checks, item by item, in every run. */
  lemma PendingRefinesHistory(rows: map<ItemId, Row>, plays: seq<Play>, i: ItemId)
    requires Runs(Start(rows), plays)
    ensures var w := After(Start(rows), plays); CellAt(w, i).pending == Candidacy(LastCheck(w.trail, i))
  {
    EveryRunIsTruthful(rows, plays);
    OpenIsLastCheck(rows, After(Start(rows), plays).trail, i);
  }

  lemma DeletesKeepStatus(c: Cell, steps: seq<Step>)
    requires c.row.Some? && |steps| <= 1
    requires forall e :: e in steps ==> e.SourceDeleted? || e.SourceDeleteFailed? || e.SourceDeleteWithheld?
    ensures Effects(c, steps).row.Some? && Effects(c, steps).row.value.status == c.row.value.status
  {
    if steps != [] {
      assert steps[0] in steps && steps[1..] == [];
      assert Effects(c, steps) == Effect(c, steps[0]);
    }
  }

  lemma ImportEndsImported(c: Cell, id: ItemId, events: nat, d: DeleteSetup, at: Instant)
    requires c.row.Some?
    ensures var end := Effects(c, ImportTurn(c.row.value, id, events, d, at));
            end.row.Some? && end.row.value.status == Imported
  {
    var del := DeleteTurn(c.row.value, id, d).0;
    assert ImportTurn(c.row.value, id, events, d, at)[1..] == del;
    DeletesKeepStatus(Effect(c, WentImported(id, events, at)), del);
  }

  /** What a check reads off its history answer. */
  function Reading(history: HistoryAnswer): Verdict
    requires history.History?
  {
    if true in history.importFlags then SawImport else SawNothing
  }

  lemma CheckOutcome(c: Cell, id: ItemId, queued: bool, history: HistoryAnswer, d: DeleteSetup, at: Instant)
    requires c.row.Some?
    ensures var end := Effects(c, CheckTurn(c, id, queued, history, d, at));
            var agreed := !queued && history.History?
                          && c.pending == Some(Pending(Reading(history), c.row.value.downloadId));
            && end.row.Some?
            && end.row.value.status == (if !agreed then c.row.value.status
                                        else if Reading(history) == SawImport then Imported else Dropped)
  {
    var steps := CheckTurn(c, id, queued, history, d, at);
    if !queued && history.History? {
      AnyImportCounts(history.importFlags);
      var e := steps[0];
      var c' := Effect(c, e);
      assert Effects(c, steps) == Effects(c', steps[1..]);
      if !e.confirmed {
        assert steps[1..] == [];
      } else if e.verdict == SawImport {
        assert steps[1..] == ImportTurn(c'.row.value, id, |history.importFlags|, d, at);
        ImportEndsImported(c', id, |history.importFlags|, d, at);
      } else {
        var f := WentDropped(id, at);
        assert steps[1..] == [f] && [f][1..] == [];
        assert Effects(c', [f]) == Effect(c', f);
      }
    }
  }

  /**
   After any run, an import check moves its item to imported or dropped exactly when it
   completes and the previous check, not overtaken by "still in queue", said the same about
   the same download.
   */
  lemma LeavesExactlyWhenTwoChecksAgree(rows: map<ItemId, Row>, plays: seq<Play>, id: ItemId, queued: bool,
                                        history: HistoryAnswer, d: DeleteSetup, at: Instant)
    requires Runs(Start(rows), plays)
    requires var c := CellAt(After(Start(rows), plays), id); c.row.Some? && Tracked(c.row.value.status)
    ensures var w := After(Start(rows), plays);
            var row := CellAt(w, id).row.value;
            var end := CellAt(Played(w, Play(id, CheckImport(queued, history, d, at))), id);
            var agreed := !queued && history.History?
                          && Candidacy(LastCheck(w.trail, id)) == Some(Pending(Reading(history), row.downloadId));
            && end.row.Some?
            && end.row.value.status == (if !agreed then row.status
                                        else if true in history.importFlags then Imported else Dropped)
  {
    PendingRefinesHistory(rows, plays, id);
    CheckOutcome(CellAt(After(Start(rows), plays), id), id, queued, history, d, at);
  }

  /** A rematch starts from no candidacy: the check before it never counts towards the next verdict. */
  lemma RematchNeedsTwoFreshChecks(rows: map<ItemId, Row>, trail: seq<Step>, k: nat)
    requires Sound(rows, trail) && k < |trail|
    ensures trail[k].Matched? ==> Candidacy(LastCheck(trail[..k], trail[k].id)) == None
    ensures trail[k].Checked? ==>
              (trail[k].confirmed <==>
               Candidacy(LastCheck(trail[..k], trail[k].id)) == Some(Pending(trail[k].verdict, trail[k].downloadId)))
  {
    SoundAt(rows, trail, k);
    OpenIsLastCheck(rows, trail[..k], trail[k].id);
  }

  // --- Gone only after six quiet hours -----------------------------------------------------------------

  /** Item `i` went dropped at `t0`, at `trail[j]` or (`j == -1`) before the process started; nothing since. */
  predicate DroppedSince(rows: map<ItemId, Row>, trail: seq<Step>, i: ItemId, j: int, t0: Instant) {
    && -1 <= j < |trail|
    && (if j == -1 then i in rows && rows[i].status == Dropped && rows[i].statusAt == t0
        else trail[j] == WentDropped(i, t0))
    && (forall m :: j < m < |trail| ==> !Decides(trail[m], i))
  }

  predicate NoImportSeenSince(trail: seq<Step>, i: ItemId, j: int) {
    forall m :: 0 <= m < |trail| && j < m && trail[m].id == i && trail[m].Rechecked? ==> trail[m].imports == 0
  }

  /** A last step that leaves the item dropped, and does not drop it, does not decide its status. */
  lemma LeftDropped(rows: map<ItemId, Row>, trail: seq<Step>, i: ItemId)
    requires Sound(rows, trail) && trail != [] && Tell(rows, trail, i).facts.status == Dropped
    requires var e := trail[|trail| - 1]; !(e.id == i && e.WentDropped?)
    ensures !Decides(trail[|trail| - 1], i)
    ensures var f := Tell(rows, trail[..|trail| - 1], i).facts;
            f.status == Dropped && f.statusAt == Tell(rows, trail, i).facts.statusAt
  {
    var e := trail[|trail| - 1];
    var f := Tell(rows, trail[..|trail| - 1], i).facts;
    if Decides(e, i) {
      OnlyGoingDroppedDrops(f, e);
    } else if e.id == i {
      OnlyDecidersDecide(f, e);
    }
  }

  lemma {:induction false} DroppedGoesBack(rows: map<ItemId, Row>, trail: seq<Step>, i: ItemId) returns (j: int)
    requires Sound(rows, trail) && Tell(rows, trail, i).facts.status == Dropped
    ensures DroppedSince(rows, trail, i, j, Tell(rows, trail, i).facts.statusAt)
    ensures Tell(rows, trail, i).quiet ==> NoImportSeenSince(trail, i, j)
  {
    if trail == [] {
      j := -1;
    } else {
      var n := |trail| - 1;
      var e := trail[n];
      if e.id == i && e.WentDropped? {
        j := n;
      } else {
        LeftDropped(rows, trail, i);
        j := DroppedGoesBack(rows, trail[..n], i);
        assert forall m :: 0 <= m < n ==> trail[..n][m] == trail[m];
      }
    }
  }

  /** `gone` is committed only after six hours of being dropped, every lookup meanwhile showing no import. */
  lemma GoneNeedsSixQuietHours(rows: map<ItemId, Row>, trail: seq<Step>, k: nat, i: ItemId)
    returns (j: int, t0: Instant)
    requires Sound(rows, trail) && k < |trail| && trail[k].id == i && trail[k].WentGone?
    ensures DroppedSince(rows, trail[..k], i, j, t0)
    ensures trail[k].at - t0 >= 6 * 3600
    ensures NoImportSeenSince(trail[..k], i, j) && LastOf(trail[..k], i) == Some(Rechecked(i, 0))
  {
    SoundAt(rows, trail, k);
    LastIsTold(rows, trail[..k], i);
    t0 := Tell(rows, trail[..k], i).facts.statusAt;
    j := DroppedGoesBack(rows, trail[..k], i);
  }

  // --- Retry budgets ------------------------------------------------------------------------------------

  /** Consecutive failing sweeps of item `i` at the end of the trail. */
  function SweepStreak(trail: seq<Step>, i: ItemId): nat {
    if trail == [] then 0
    else
      var e := trail[|trail| - 1];
      if e.id == i && e.SweepTried? then (if e.ok then 0 else SweepStreak(trail[..|trail| - 1], i) + 1)
      else SweepStreak(trail[..|trail| - 1], i)
  }

  /** Completed heal attempts of item `i` since its last success. */
  function HealStreak(trail: seq<Step>, i: ItemId): nat {
    if trail == [] then 0
    else
      var e := trail[|trail| - 1];
      if e.id == i && e.HealTried? then (if e.imports > 0 then 0 else HealStreak(trail[..|trail| - 1], i) + 1)
      else HealStreak(trail[..|trail| - 1], i)
  }

  /** Polls of the scan command item `i` was last pushed with. */
  function PollsOfCommand(trail: seq<Step>, i: ItemId): nat {
    if trail == [] then 0
    else
      var e := trail[|trail| - 1];
      if e.id == i && e.Pushed? then 0
      else PollsOfCommand(trail[..|trail| - 1], i) + (if e.id == i && e.CommandPolled? then 1 else 0)
  }

  function CountPauses(trail: seq<Step>, i: ItemId): nat {
    if trail == [] then 0
    else CountPauses(trail[..|trail| - 1], i) + (if trail[|trail| - 1] == SweepPaused(i) then 1 else 0)
  }

  function CountGiveUps(trail: seq<Step>, i: ItemId): nat {
    if trail == [] then 0
    else CountGiveUps(trail[..|trail| - 1], i) + (if trail[|trail| - 1] == HealGaveUp(i) then 1 else 0)
  }

  lemma {:induction false} StreaksAreTold(rows: map<ItemId, Row>, trail: seq<Step>, i: ItemId)
    ensures var st := Tell(rows, trail, i);
            && st.sweeps.tries == SweepStreak(trail, i) && st.sweeps.stops == CountPauses(trail, i)
            && st.heals.tries == HealStreak(trail, i) && st.heals.stops == CountGiveUps(trail, i)
            && st.polls == PollsOfCommand(trail, i)
  {
    if trail != [] {
      StreaksAreTold(rows, trail[..|trail| - 1], i);
    }
  }

  /** In every run: the streaks stay in budget, and each exhausted one was announced exactly once. */
  lemma BudgetsHold(rows: map<ItemId, Row>, plays: seq<Play>, i: ItemId)
    requires Runs(Start(rows), plays)
    ensures var trail := After(Start(rows), plays).trail;
            && SweepStreak(trail, i) <= 5
            && CountPauses(trail, i) == (if SweepStreak(trail, i) == 5 then 1 else 0)
            && HealStreak(trail, i) <= 10
            && CountGiveUps(trail, i) == (if HealStreak(trail, i) == 10 then 1 else 0)
            && PollsOfCommand(trail, i) <= 5
  {
    EveryRunIsTruthful(rows, plays);
    var w := After(Start(rows), plays);
    assert Agrees(CellAt(w, i), Tell(rows, w.trail, i)) && AtRest(Tell(rows, w.trail, i));
    StreaksAreTold(rows, w.trail, i);
  }

  lemma {:induction false} SweepTimeIsTold(rows: map<ItemId, Row>, trail: seq<Step>, j: nat, i: ItemId)
    requires j < |trail| && trail[j].id == i && trail[j].SweepTried? && !trail[j].ok
    requires forall m :: j < m < |trail| && trail[m].id == i ==> !trail[m].SweepTried?
    ensures Tell(rows, trail, i).sweeps.triedAt == trail[j].at && Tell(rows, trail, i).sweeps.tries > 0
  {
    var n := |trail| - 1;
    if j < n {
      assert forall m :: 0 <= m < n ==> trail[..n][m] == trail[m];
      SweepTimeIsTold(rows, trail[..n], j, i);
    }
  }

  /** A sweep retries only under budget, never after the paused event, and only once its delay is over. */
  lemma SweepRespectsBudgetAndDelay(rows: map<ItemId, Row>, trail: seq<Step>, k: nat, i: ItemId)
    requires Sound(rows, trail) && k < |trail| && trail[k].id == i && trail[k].SweepTried?
    ensures SweepStreak(trail[..k], i) < 5 && CountPauses(trail[..k], i) == 0
    ensures forall j :: 0 <= j < k && trail[j].id == i && trail[j].SweepTried? && !trail[j].ok
                        && (forall m :: j < m < k && trail[m].id == i ==> !trail[m].SweepTried?)
              ==> SweepStreak(trail[..k], i) > 0
                  && trail[k].at >= trail[j].at + DelayAfter(SweepStreak(trail[..k], i))
  {
    SoundAt(rows, trail, k);
    StreaksAreTold(rows, trail[..k], i);
    forall j | 0 <= j < k && trail[j].id == i && trail[j].SweepTried? && !trail[j].ok
               && (forall m :: j < m < k && trail[m].id == i ==> !trail[m].SweepTried?)
      ensures SweepStreak(trail[..k], i) > 0
              && trail[k].at >= trail[j].at + DelayAfter(SweepStreak(trail[..k], i))
    {
      assert forall m :: 0 <= m < k ==> trail[..k][m] == trail[m];
      SweepTimeIsTold(rows, trail[..k], j, i);
    }
  }

  lemma {:induction false} HealTimeIsTold(rows: map<ItemId, Row>, trail: seq<Step>, j: nat, i: ItemId)
    requires j < |trail| && trail[j].id == i && trail[j].HealTried? && trail[j].imports == 0
    requires forall m :: j < m < |trail| && trail[m].id == i ==> !trail[m].HealTried?
    ensures Tell(rows, trail, i).heals.triedAt == trail[j].at && Tell(rows, trail, i).heals.tries > 0
  {
    var n := |trail| - 1;
    if j < n {
      assert forall m :: 0 <= m < n ==> trail[..n][m] == trail[m];
      HealTimeIsTold(rows, trail[..n], j, i);
    }
  }

  /** The same for the lookups that try to heal a stranded gone row. */
  lemma HealRespectsBudgetAndDelay(rows: map<ItemId, Row>, trail: seq<Step>, k: nat, i: ItemId)
    requires Sound(rows, trail) && k < |trail| && trail[k].id == i && trail[k].HealTried?
    ensures HealStreak(trail[..k], i) < 10 && CountGiveUps(trail[..k], i) == 0
    ensures forall j :: 0 <= j < k && trail[j].id == i && trail[j].HealTried? && trail[j].imports == 0
                        && (forall m :: j < m < k && trail[m].id == i ==> !trail[m].HealTried?)
              ==> HealStreak(trail[..k], i) > 0
                  && trail[k].at >= trail[j].at + DelayAfter(HealStreak(trail[..k], i))
  {
    SoundAt(rows, trail, k);
    StreaksAreTold(rows, trail[..k], i);
    forall j | 0 <= j < k && trail[j].id == i && trail[j].HealTried? && trail[j].imports == 0
               && (forall m :: j < m < k && trail[m].id == i ==> !trail[m].HealTried?)
      ensures HealStreak(trail[..k], i) > 0
              && trail[k].at >= trail[j].at + DelayAfter(HealStreak(trail[..k], i))
    {
      assert forall m :: 0 <= m < k ==> trail[..k][m] == trail[m];
      HealTimeIsTold(rows, trail[..k], j, i);
    }
  }

  // --- The poller never writes item.state ------------------------------------------------------------------

  lemma {:induction false} StepsKeepState(c: Cell, steps: seq<Step>)
    requires c.row.Some? && forall e :: e in steps ==> !ByOther(e)
    ensures Effects(c, steps).row.Some? && Effects(c, steps).row.value.state == c.row.value.state
    decreases |steps|
  {
    if steps != [] {
      assert steps[0] in steps;
      StepsKeepState(Effect(c, steps[0]), steps[1..]);
    }
  }

  /** No turn of the poller changes the row's `state`. */
  lemma PollerNeverWritesState(c: Cell, id: ItemId, t: Turn)
    requires Enabled(c, id, t) && !t.Outside?
    ensures var after := Effects(c, TurnSteps(c, id, t));
            after.row.Some? && after.row.value.state == c.row.value.state
  {
    StepsKeepState(c, TurnSteps(c, id, t));
  }
}
