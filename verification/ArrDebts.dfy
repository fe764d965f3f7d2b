/**
 When the poller can still pay a source debt.

 An imported item that owes its source delete cannot be cleaned. If the debt cannot be paid
 either, the item stays where it is: whatever turns it is given and whatever they are answered.
 */
module ArrDebts {
  import opened Common
  import opened RetryBackoff
  import opened ArrLifecycle
  import opened ArrSafety
  import opened ArrOutcomes
  import opened ArrPass

  predicate PausedSweep(c: Cell) { c.sweep.Some? && c.sweep.value.paused }

  /** One sweep can pay a debt exactly when the source is there and the sweep has not been paused. */
  lemma SweepCanPayExactlyWhen(c: Cell, id: ItemId)
    requires c.row.Some? && c.row.value.debt.Some?
    ensures (exists d, now :: AfterSweep(c, id, d, now).row.value.debt.None?)
            <==> !c.row.value.remoteDeleted && !PausedSweep(c)
  {
    if !c.row.value.remoteDeleted && !PausedSweep(c) {
      var now := if c.sweep.Some? then c.sweep.value.nextAttemptAt else 0;
      assert AfterSweep(c, id, DeleteSetup(true, true, DeleteWorks), now).row.value.debt.None?;
    }
  }

  // --- Whole runs, for a queue that keeps its mode -------------------------------------------------------

  /** The turn was taken for a queue in this mode, by a process wired, or not, to delete. */
  predicate TakenIn(t: Turn, moveMode: bool, wired: bool) {
    match t
    case CheckImport(_, _, d, _) => d.moveMode == moveMode && d.wired == wired
    case CheckDropped(_, d, _) => d.moveMode == moveMode && d.wired == wired
    case HealGone(_, d, _, _) => d.moveMode == moveMode && d.wired == wired
    case SweepDelete(d, _) => d.moveMode == moveMode && d.wired == wired
    case Outside(_) => false
    case _ => true
  }

  predicate TakenByPoller(plays: seq<Play>, moveMode: bool, wired: bool) {
    forall p :: p in plays ==> TakenIn(p.turn, moveMode, wired)
  }

  /** An imported item whose source delete is owed. */
  predicate Owing(c: Cell) { c.row.Some? && c.row.value.status == Imported && c.row.value.debt.Some? }

  predicate Payable(c: Cell, moveMode: bool, wired: bool) {
    moveMode && wired && c.row.Some? && !c.row.value.remoteDeleted && !PausedSweep(c)
  }

  lemma TurnLeavesItOwing(w: World, p: Play, id: ItemId, moveMode: bool, wired: bool)
    requires CanPlay(w, p) && TakenIn(p.turn, moveMode, wired)
    requires var c := CellAt(w, id); Owing(c) && !Payable(c, moveMode, wired)
    ensures var c := CellAt(Played(w, p), id);
            Owing(c) && !Payable(c, moveMode, wired) && c.row.value.suppressed == CellAt(w, id).row.value.suppressed
  {
    if p.id == id {
      TurnEffects(CellAt(w, id), id, p.turn);
    }
  }

  lemma {:induction false} StuckForGood(w: World, plays: seq<Play>, id: ItemId, moveMode: bool, wired: bool)
    requires Runs(w, plays) && TakenByPoller(plays, moveMode, wired)
    requires var c := CellAt(w, id); Owing(c) && !Payable(c, moveMode, wired)
    ensures var c := CellAt(After(w, plays), id);
            Owing(c) && !Payable(c, moveMode, wired) && c.row.value.suppressed == CellAt(w, id).row.value.suppressed
    decreases |plays|
  {
    if plays != [] {
      assert plays[0] in plays && forall p :: p in plays[1..] ==> p in plays;
      TurnLeavesItOwing(w, plays[0], id, moveMode, wired);
      StuckForGood(Played(w, plays[0]), plays[1..], id, moveMode, wired);
    }
  }

  predicate Pays(w: World, plays: seq<Play>, id: ItemId, moveMode: bool, wired: bool) {
    Runs(w, plays) && TakenByPoller(plays, moveMode, wired)
    && (CellAt(After(w, plays), id).row.Some? ==> CellAt(After(w, plays), id).row.value.debt.None?)
  }

  /** Some run of the poller pays the debt exactly when the queue is in move mode, the process can delete,
      the source is there, and the sweep has not been paused; otherwise no run ever cleans the item. */
  lemma DebtIsPaidExactlyWhen(w: World, id: ItemId, moveMode: bool, wired: bool)
    requires Owing(CellAt(w, id))
    ensures (exists plays :: Pays(w, plays, id, moveMode, wired)) <==> Payable(CellAt(w, id), moveMode, wired)
  {
    var c := CellAt(w, id);
    if Payable(c, moveMode, wired) {
      var now := if c.sweep.Some? then c.sweep.value.nextAttemptAt else 0;
      var p := Play(id, SweepDelete(DeleteSetup(true, true, DeleteWorks), now));
      TurnEffects(c, id, p.turn);
      assert Runs(Played(w, p), [p][1..]) && After(w, [p]) == Played(w, p);
      assert Pays(w, [p], id, moveMode, wired);
    } else if plays :| Pays(w, plays, id, moveMode, wired) {
      StuckForGood(w, plays, id, moveMode, wired);
      assert false;
    }
  }

  // --- The ways to get stuck are reached -----------------------------------------------------------------

  /** One more turn of item `id`, which leaves it in the cell given. */
  lemma Goes(w: World, plays: seq<Play>, id: ItemId, t: Turn, c: Cell) returns (more: seq<Play>)
    requires Runs(w, plays) && Enabled(CellAt(After(w, plays), id), id, t) && !t.Outside?
    requires c == AfterTurn(CellAt(After(w, plays), id), id, t)
    ensures more == plays + [Play(id, t)] && Runs(w, more) && CellAt(After(w, more), id) == c
  {
    more := plays + [Play(id, t)];
    TurnEffects(CellAt(After(w, plays), id), id, t);
    RunsExtend(w, plays, Play(id, t));
  }

  lemma DebtIsRecorded(w: World, id: ItemId, evidence: VerifyEvidence)
    requires CellAt(w, id).row.Some?
    ensures CanPlay(w, Play(id, Outside(DebtRecorded(id, evidence))))
    ensures var c := CellAt(w, id);
            CellAt(Played(w, Play(id, Outside(DebtRecorded(id, evidence)))), id)
            == c.(row := Some(c.row.value.(debt := Some(evidence))))
  {
    OneEffect(CellAt(w, id), DebtRecorded(id, evidence));
  }

  lemma OwesAnew(w: World, plays: seq<Play>, id: ItemId, evidence: VerifyEvidence) returns (more: seq<Play>)
    requires Runs(w, plays) && CellAt(After(w, plays), id).row.Some?
    ensures more == plays + [Play(id, Outside(DebtRecorded(id, evidence)))] && Runs(w, more)
    ensures var c := CellAt(After(w, plays), id);
            CellAt(After(w, more), id) == c.(row := Some(c.row.value.(debt := Some(evidence))))
  {
    more := plays + [Play(id, Outside(DebtRecorded(id, evidence)))];
    DebtIsRecorded(After(w, plays), id, evidence);
    RunsExtend(w, plays, Play(id, Outside(DebtRecorded(id, evidence))));
  }

  /** The item as it stands once its source is deleted, its local copy cleaned, and its release matched again. */
  function Rematched(row: Row, again: string): Row {
    row.(remoteDeleted := true, debt := None, suppressed := true, status := Detected, statusAt := 0,
         downloadId := Some(again))
  }

  const MOVE := DeleteSetup(true, true, DeleteWorks)

  lemma SourceGoesThenLocal(id: ItemId, row: Row) returns (plays: seq<Play>)
    requires row.status == Imported && row.debt.Some? && !row.remoteDeleted && row.state == Verified
    ensures plays == [Play(id, SweepDelete(MOVE, 0))] + [Play(id, Cleanup(false, RemovalWorks, 0))]
    ensures Runs(Start(map[id := row]), plays)
    ensures CellAt(After(Start(map[id := row]), plays), id)
            == CellOf(row.(remoteDeleted := true, debt := None, suppressed := true, status := Cleaned, statusAt := 0))
  {
    var w := Start(map[id := row]);
    var deleted := row.(remoteDeleted := true, debt := None);
    plays := Goes(w, [], id, SweepDelete(MOVE, 0), CellOf(deleted));
    plays := Goes(w, plays, id, Cleanup(false, RemovalWorks, 0),
                  CellOf(deleted.(suppressed := true, status := Cleaned, statusAt := 0)));
  }

  lemma ImportedByTwoChecks(w: World, plays: seq<Play>, id: ItemId, row: Row) returns (more: seq<Play>)
    requires Runs(w, plays) && CellAt(After(w, plays), id) == CellOf(row)
    requires row.status == Detected && row.remoteDeleted
    ensures var check := Play(id, CheckImport(false, History([true]), MOVE, 0));
            more == plays + [check] + [check] && Runs(w, more)
    ensures CellAt(After(w, more), id) == CellOf(row.(status := Imported, statusAt := 0))
  {
    var check := CheckImport(false, History([true]), MOVE, 0);
    assert CountImports([true]) == 1 + CountImports([]);
    more := Goes(w, plays, id, check, CellOf(row).(pending := Some(Pending(SawImport, row.downloadId))));
    more := Goes(w, more, id, check, CellOf(row.(status := Imported, statusAt := 0)));
  }

  lemma NothingPays(w: World, id: ItemId, row: Row)
    requires CellAt(w, id) == CellOf(row) && row.status == Imported && row.debt.Some? && row.remoteDeleted
    ensures Owing(CellAt(w, id)) && forall more :: !Pays(w, more, id, true, true)
  {
    DebtIsPaidExactlyWhen(w, id, true, true);
  }

  /** The plays of `SecondReleaseGetsStuck`. */
  function SecondRelease(id: ItemId, again: string, evidence: VerifyEvidence): seq<Play> {
    var check := Play(id, CheckImport(false, History([true]), MOVE, 0));
    [Play(id, SweepDelete(MOVE, 0))] + [Play(id, Cleanup(false, RemovalWorks, 0))]
    + [Play(id, MatchItem(Some(again), 0))]
    + [Play(id, Outside(DebtRecorded(id, evidence)))] + [check] + [check]
  }

  /** The source is deleted, the item cleaned; its release comes again under another download id, its
      pipeline records a debt, and it is imported again: a run to a debt no run will pay. */
  lemma SecondReleaseGetsStuck(id: ItemId, row: Row, again: string)
    requires row.status == Imported && row.debt.Some? && !row.remoteDeleted && row.state == Verified
    requires row.downloadId != Some(again)
    ensures var plays := SecondRelease(id, again, row.debt.value);
            Runs(Start(map[id := row]), plays)
            && Owing(CellAt(After(Start(map[id := row]), plays), id))
            && forall more :: !Pays(After(Start(map[id := row]), plays), more, id, true, true)
  {
    var w := Start(map[id := row]);
    var plays := SourceGoesThenLocal(id, row);
    plays := Goes(w, plays, id, MatchItem(Some(again), 0), CellOf(Rematched(row, again)));
    plays := OwesAnew(w, plays, id, row.debt.value);
    var owing := Rematched(row, again).(debt := row.debt);
    plays := ImportedByTwoChecks(w, plays, id, owing);
    assert plays == SecondRelease(id, again, row.debt.value);
    NothingPays(After(w, plays), id, owing.(status := Imported, statusAt := 0));
  }

  /** A queue taken out of move mode while an item owes its source leaves the item stuck, source and all. */
  lemma ModeSwitchGetsStuck(id: ItemId, row: Row, wired: bool)
    requires row.status == Imported && row.debt.Some? && !row.remoteDeleted
    ensures var w := Start(map[id := row]);
            (exists plays :: Pays(w, plays, id, true, true)) && forall plays :: !Pays(w, plays, id, false, wired)
  {
    DebtIsPaidExactlyWhen(Start(map[id := row]), id, true, true);
    DebtIsPaidExactlyWhen(Start(map[id := row]), id, false, wired);
  }

  lemma {:induction false} FailingSweeps(id: ItemId, row: Row, n: nat) returns (plays: seq<Play>)
    requires row.status == Imported && OwesSource(row) && n <= MAX_SOURCE_DELETE_RETRY_ATTEMPTS
    ensures Runs(Start(map[id := row]), plays) && |plays| == n && TakenByPoller(plays, true, true)
    ensures var c := CellAt(After(Start(map[id := row]), plays), id);
            && c.row == Some(row) && (c.sweep.Some? <==> n > 0)
            && (n > 0 ==>
                  c.sweep.value.attempts == n && (c.sweep.value.paused <==> n == MAX_SOURCE_DELETE_RETRY_ATTEMPTS))
  {
    if n == 0 {
      plays := [];
    } else {
      plays := FailingSweeps(id, row, n - 1);
      var c := CellAt(After(Start(map[id := row]), plays), id);
      var t := SweepDelete(DeleteSetup(true, true, DeleteFails),
                           if c.sweep.Some? then c.sweep.value.nextAttemptAt else 0);
      plays := Goes(Start(map[id := row]), plays, id, t, AfterTurn(c, id, t));
    }
  }

  /** Five failing sweeps in a row leave the item stuck too, although its source is there to be deleted. */
  lemma PausedSweepGetsStuck(id: ItemId, row: Row) returns (plays: seq<Play>)
    requires row.status == Imported && OwesSource(row)
    ensures Runs(Start(map[id := row]), plays) && |plays| == 5 && TakenByPoller(plays, true, true)
    ensures var w := After(Start(map[id := row]), plays);
            CellAt(w, id).row == Some(row) && forall more :: !Pays(w, more, id, true, true)
  {
    plays := FailingSweeps(id, row, 5);
    DebtIsPaidExactlyWhen(After(Start(map[id := row]), plays), id, true, true);
  }
}
