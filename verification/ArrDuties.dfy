/**
 What one pass of the poller must do: which items it gives which turns, in which order, and when it
 may stop short.

 All of it is said of the plays a pass makes and of the rows at the moment it reaches each phase.
 */
module ArrDuties {
  import opened Common
  import opened ArrLifecycle
  import opened ArrSafety
  import opened ArrOutcomes
  import opened ArrMatching
  import opened ArrPass

  // --- Reading plays -----------------------------------------------------------------------------------------

  datatype Kind = Matching | Notifying | Checking | Rechecking | Healing | Sweeping | Polling | Cleaning | ByOthers

  function KindOf(t: Turn): Kind {
    match t
    case MatchItem(_, _) => Matching
    case RetryNotify(_, _, _, _) => Notifying
    case CheckImport(_, _, _, _) => Checking
    case CheckDropped(_, _, _) => Rechecking
    case HealGone(_, _, _, _) => Healing
    case SweepDelete(_, _) => Sweeping
    case PollCommand(_) => Polling
    case Cleanup(_, _, _) => Cleaning
    case Outside(_) => ByOthers
  }

  /** The phases in their order: matching, then notify and check, and one for each kind after that. */
  function Order(k: Kind): nat {
    match k
    case Matching => 0
    case Notifying => 1
    case Checking => 1
    case Rechecking => 2
    case Healing => 3
    case Sweeping => 4
    case Polling => 5
    case Cleaning => 6
    case ByOthers => 7
  }

  /** The turns of one kind that the plays give item `id`. */
  function Given(plays: seq<Play>, id: ItemId, k: Kind): seq<Turn> {
    if plays == [] then []
    else
      var p := plays[|plays| - 1];
      Given(plays[..|plays| - 1], id, k) + (if p.id == id && KindOf(p.turn) == k then [p.turn] else [])
  }

  /** The world after the plays. */
  function Seen(w: World, plays: seq<Play>): World {
    if plays == [] then w else Played(Seen(w, plays[..|plays| - 1]), plays[|plays| - 1])
  }

  /** The plays before the first one of phase `r` or later. */
  function Before(plays: seq<Play>, r: nat): seq<Play> {
    if plays == [] || Order(KindOf(plays[0].turn)) >= r then [] else [plays[0]] + Before(plays[1..], r)
  }

  /** The row of item `id` when the plays reach phase `r`. */
  function RowAt(w: World, plays: seq<Play>, r: nat, id: ItemId): Option<Row> {
    CellAt(Seen(w, Before(plays, r)), id).row
  }

  lemma {:induction false} GivenJoins(a: seq<Play>, b: seq<Play>, id: ItemId, k: Kind)
    ensures Given(a + b, id, k) == Given(a, id, k) + Given(b, id, k)
  {
    if b == [] {
      assert a + b == a;
    } else {
      var n := |b| - 1;
      GivenJoins(a, b[..n], id, k);
      assert (a + b)[..|a| + n] == a + b[..n];
    }
  }

  lemma {:induction false} SeenJoins(w: World, a: seq<Play>, b: seq<Play>)
    ensures Seen(w, a + b) == Seen(Seen(w, a), b)
  {
    if b == [] {
      assert a + b == a;
    } else {
      var n := |b| - 1;
      SeenJoins(w, a, b[..n]);
      assert (a + b)[..|a| + n] == a + b[..n];
    }
  }

  lemma {:induction false} NothingOfKind(plays: seq<Play>, id: ItemId, k: Kind)
    requires forall p :: p in plays ==> p.id != id || KindOf(p.turn) != k
    ensures Given(plays, id, k) == []
  {
    if plays != [] {
      var n := |plays| - 1;
      assert plays[n] in plays && forall p :: p in plays[..n] ==> p in plays;
      NothingOfKind(plays[..n], id, k);
    }
  }

  lemma {:induction false} UntouchedCell(w: World, plays: seq<Play>, id: ItemId)
    requires forall p :: p in plays ==> p.id != id
    ensures CellAt(Seen(w, plays), id) == CellAt(w, id)
  {
    if plays != [] {
      var n := |plays| - 1;
      assert plays[n] in plays && forall p :: p in plays[..n] ==> p in plays;
      UntouchedCell(w, plays[..n], id);
    }
  }

  /** A play makes a request of the instance, and the request fails. */
  predicate RequestFails(c: Cell, t: Turn) {
    match t
    case CheckImport(stillInQueue, history, _, _) => !stillInQueue && history == LookupFailed
    case CheckDropped(history, _, _) => history == LookupFailed
    case HealGone(history, _, _, now) =>
      && c.row.Some? && c.row.value.downloadId.Some? && history == LookupFailed
      && (c.heal.None? || (!c.heal.value.paused && c.heal.value.nextAttemptAt <= now))
    case PollCommand(answer) => answer == PollFailed
    case _ => false
  }

  predicate FailsAt(w: World, plays: seq<Play>, m: nat)
    requires m < |plays|
  {
    RequestFails(CellAt(Seen(w, plays[..m]), plays[m].id), plays[m].turn)
  }

  /** A request fails just where the plays break off. */
  predicate StopsAtFailure(w: World, plays: seq<Play>, finished: bool) {
    && (!finished ==> plays != [])
    && forall m :: 0 <= m < |plays| ==> (FailsAt(w, plays, m) <==> !finished && m == |plays| - 1)
  }

  // --- One phase -----------------------------------------------------------------------------------------------

  predicate Distinct(ids: seq<ItemId>) { forall i, j :: 0 <= i < j < |ids| ==> ids[i] != ids[j] }

  /** A stretch of a pass that makes these plays, from `p` to `q`. */
  predicate Stretch(p: Progress, q: Progress, plays: seq<Play>) {
    && q.plays == p.plays + plays && q.world == Seen(p.world, plays)
    && (if p.going then StopsAtFailure(p.world, plays, q.going) else q == p && plays == [])
  }

  lemma StretchesJoin(p: Progress, q: Progress, r: Progress, a: seq<Play>, b: seq<Play>)
    requires Stretch(p, q, a) && Stretch(q, r, b)
    ensures Stretch(p, r, a + b)
  {
    SeenJoins(p.world, a, b);
    if p.going && q.going {
      forall m | 0 <= m < |a + b|
        ensures FailsAt(p.world, a + b, m) <==> !r.going && m == |a + b| - 1
      {
        if m < |a| {
          assert (a + b)[..m] == a[..m] && !FailsAt(p.world, a, m);
        } else {
          assert (a + b)[..m] == a + b[..m - |a|];
          SeenJoins(p.world, a, b[..m - |a|]);
          assert FailsAt(q.world, b, m - |a|) <==> !r.going && m - |a| == |b| - 1;
        }
      }
    } else {
      assert a + b == a;
    }
  }

  lemma OneTurn(p: Progress, id: ItemId, t: Turn)
    requires p.going && Enabled(CellAt(p.world, id), id, t) && !t.Outside?
    ensures Stretch(p, Give(p, id, t), [Play(id, t)])
    ensures forall j, k :: Given([Play(id, t)], j, k) == if j == id && k == KindOf(t) then [t] else []
  {
    var one := [Play(id, t)];
    assert one[..0] == [];
    assert Seen(p.world, one) == Played(p.world, Play(id, t));
    assert FailsAt(p.world, one, 0) == RequestFails(CellAt(p.world, id), t) == Aborts(CellAt(p.world, id), t);
    forall j, k
      ensures Given(one, j, k) == if j == id && k == KindOf(t) then [t] else []
    {
      assert Given(one, j, k) == Given([], j, k) + (if j == id && KindOf(t) == k then [t] else []);
    }
  }

  lemma NoTurn(p: Progress)
    ensures Stretch(p, p, [])
  {
  }

  function KindOfPhase(ph: Phase): Kind {
    match ph
    case DroppedPhase => Rechecking
    case HealPhase => Healing
    case SweepPhase => Sweeping
    case CommandPhase => Polling
    case CleanupPhase => Cleaning
  }

  /** Item `id` is given the phase's turn exactly when it is of the queue and the phase wants it as it reads in `w`. */
  predicate ServesOne(w: World, plays: seq<Play>, ph: Phase, ids: seq<ItemId>, a: PassAnswers, id: ItemId) {
    Given(plays, id, KindOfPhase(ph))
    == if id in ids && Wants(ph, CellAt(w, id), a) then [TurnFor(ph, id, a)] else []
  }

  predicate OfPhase(ph: Phase, ids: seq<ItemId>, plays: seq<Play>) {
    forall x :: x in plays ==> x.id in ids && KindOf(x.turn) == KindOfPhase(ph)
  }

  /** Each item a phase wants gets the phase's turn, and no other item gets one. */
  lemma {:induction false} PhaseGives(p: Progress, ph: Phase, ids: seq<ItemId>, a: PassAnswers)
    returns (plays: seq<Play>)
    requires Distinct(ids)
    ensures var q := RunPhase(p, ph, ids, a);
            && Stretch(p, q, plays) && OfPhase(ph, ids, plays)
            && (q.going ==> p.going && forall id :: ServesOne(p.world, plays, ph, ids, a, id))
    decreases |ids|
  {
    if !p.going || ids == [] {
      plays := [];
      NoTurn(p);
    } else {
      var (id, rest) := (ids[0], ids[1..]);
      var q := GiveWanted(p, ph, id, a);
      var first := FirstGiven(p, ph, id, a);
      var others := PhaseGives(q, ph, rest, a);
      plays := first + others;
      StretchesJoin(p, q, RunPhase(p, ph, ids, a), first, others);
      assert ids == [id] + rest && id !in rest;
      if RunPhase(p, ph, ids, a).going {
        forall j
          ensures ServesOne(p.world, plays, ph, ids, a, j)
        {
          assert ServesOne(p.world, first, ph, [id], a, j) && ServesOne(q.world, others, ph, rest, a, j);
          RestIsServed(p.world, q.world, ph, id, rest, a, first, others, j);
        }
      }
    }
  }

  lemma RestIsServed(w: World, v: World, ph: Phase, id: ItemId, rest: seq<ItemId>, a: PassAnswers, first: seq<Play>,
                     others: seq<Play>, j: ItemId)
    requires id !in rest && (j != id ==> CellAt(v, j) == CellAt(w, j))
    requires ServesOne(w, first, ph, [id], a, j) && ServesOne(v, others, ph, rest, a, j)
    ensures ServesOne(w, first + others, ph, [id] + rest, a, j)
  {
    GivenJoins(first, others, j, KindOfPhase(ph));
  }

  lemma FirstGiven(p: Progress, ph: Phase, id: ItemId, a: PassAnswers) returns (plays: seq<Play>)
    requires p.going
    ensures var q := GiveWanted(p, ph, id, a);
            && Stretch(p, q, plays) && OfPhase(ph, [id], plays)
            && (forall j :: ServesOne(p.world, plays, ph, [id], a, j))
            && forall j :: j != id ==> CellAt(q.world, j) == CellAt(p.world, j)
  {
    if Wants(ph, CellAt(p.world, id), a) {
      plays := [Play(id, TurnFor(ph, id, a))];
      OneTurn(p, id, TurnFor(ph, id, a));
    } else {
      plays := [];
      NoTurn(p);
    }
  }

  // --- Matching -------------------------------------------------------------------------------------------------

  /** Item `ids[i]` is matched to the record chosen for it, if any. */
  predicate MatchesOne(plays: seq<Play>, ids: seq<ItemId>, chosen: seq<Option<nat>>, records: seq<QueueRecord>,
                       at: Instant, i: nat)
    requires i < |ids| == |chosen|
  {
    && (chosen[i].Some? ==> chosen[i].value < |records|)
    && Given(plays, ids[i], Matching)
       == if chosen[i].Some? then [MatchItem(records[chosen[i].value].downloadId, at)] else []
  }

  predicate HasChoice(ids: seq<ItemId>, chosen: seq<Option<nat>>, id: ItemId)
    requires |ids| == |chosen|
  {
    exists i :: 0 <= i < |ids| && id == ids[i] && chosen[i].Some?
  }

  predicate OfMatches(ids: seq<ItemId>, chosen: seq<Option<nat>>, plays: seq<Play>)
    requires |ids| == |chosen|
  {
    forall x :: x in plays ==> KindOf(x.turn) == Matching && HasChoice(ids, chosen, x.id)
  }

  predicate MayMatch(w: World, ids: seq<ItemId>, chosen: seq<Option<nat>>, records: seq<QueueRecord>, at: Instant,
                     i: nat)
    requires i < |ids| == |chosen|
  {
    chosen[i].Some? ==>
      chosen[i].value < |records|
      && Enabled(CellAt(w, ids[i]), ids[i], MatchItem(records[chosen[i].value].downloadId, at))
  }

  /** Each item with a record chosen for it is matched to that record, and no other item is matched. */
  lemma {:induction false} MatchesGive(p: Progress, ids: seq<ItemId>, chosen: seq<Option<nat>>,
                                       records: seq<QueueRecord>, at: Instant) returns (plays: seq<Play>)
    requires p.going && Distinct(ids) && |ids| == |chosen|
    requires forall c :: c in chosen && c.Some? ==> c.value < |records|
    requires forall i :: 0 <= i < |ids| ==> MayMatch(p.world, ids, chosen, records, at, i)
    ensures var q := RunMatches(p, ids, chosen, records, at);
            Stretch(p, q, plays) && q.going && OfMatches(ids, chosen, plays)
    ensures forall i :: 0 <= i < |ids| ==> MatchesOne(plays, ids, chosen, records, at, i)
    decreases |ids|
  {
    if ids == [] {
      plays := [];
      NoTurn(p);
    } else {
      var (rest, others) := (ids[1..], chosen[1..]);
      assert chosen[0] in chosen && forall c :: c in others ==> c in chosen;
      assert MayMatch(p.world, ids, chosen, records, at, 0);
      var q := TakeMatch(p, ids[0], chosen[0], records, at);
      var first := FirstMatched(p, ids[0], chosen[0], records, at);
      forall i | 0 <= i < |rest|
        ensures MayMatch(q.world, rest, others, records, at, i)
      {
        assert MayMatch(p.world, ids, chosen, records, at, i + 1) && ids[i + 1] != ids[0];
      }
      var more := MatchesGive(q, rest, others, records, at);
      plays := first + more;
      StretchesJoin(p, q, RunMatches(p, ids, chosen, records, at), first, more);
      assert ids == [ids[0]] + rest && chosen == [chosen[0]] + others;
      RestIsMatched(ids[0], chosen[0], rest, others, records, at, first, more);
    }
  }

  lemma FirstMatched(p: Progress, id: ItemId, choice: Option<nat>, records: seq<QueueRecord>, at: Instant)
    returns (plays: seq<Play>)
    requires p.going && MayMatch(p.world, [id], [choice], records, at, 0)
    ensures Stretch(p, TakeMatch(p, id, choice, records, at), plays) && TakeMatch(p, id, choice, records, at).going
    ensures OfMatches([id], [choice], plays) && MatchesOne(plays, [id], [choice], records, at, 0)
    ensures forall j :: j != id ==> CellAt(TakeMatch(p, id, choice, records, at).world, j) == CellAt(p.world, j)
  {
    if choice.Some? {
      var t := MatchItem(records[choice.value].downloadId, at);
      plays := [Play(id, t)];
      OneTurn(p, id, t);
      assert [id][0] == id && [choice][0].Some?;
    } else {
      plays := [];
      NoTurn(p);
    }
  }

  lemma RestIsMatched(id: ItemId, choice: Option<nat>, rest: seq<ItemId>, others: seq<Option<nat>>,
                      records: seq<QueueRecord>, at: Instant, first: seq<Play>, more: seq<Play>)
    requires |rest| == |others| && id !in rest
    requires OfMatches([id], [choice], first) && MatchesOne(first, [id], [choice], records, at, 0)
    requires OfMatches(rest, others, more)
    requires forall i :: 0 <= i < |rest| ==> MatchesOne(more, rest, others, records, at, i)
    ensures OfMatches([id] + rest, [choice] + others, first + more)
    ensures forall i :: 0 <= i <= |rest| ==> MatchesOne(first + more, [id] + rest, [choice] + others, records, at, i)
  {
    MatchesOfAll(id, choice, rest, others, first, more);
    forall i | 0 <= i <= |rest|
      ensures MatchesOne(first + more, [id] + rest, [choice] + others, records, at, i)
    {
      if i == 0 {
        FirstStaysMatched(id, choice, rest, others, records, at, first, more);
      } else {
        assert MatchesOne(more, rest, others, records, at, i - 1);
        OtherStaysMatched(id, choice, rest, others, records, at, first, more, i - 1);
      }
    }
  }

  lemma MatchesOfAll(id: ItemId, choice: Option<nat>, rest: seq<ItemId>, others: seq<Option<nat>>, first: seq<Play>,
                     more: seq<Play>)
    requires |rest| == |others| && OfMatches([id], [choice], first) && OfMatches(rest, others, more)
    ensures OfMatches([id] + rest, [choice] + others, first + more)
  {
    var (ids, chosen) := ([id] + rest, [choice] + others);
    forall j | HasChoice([id], [choice], j) || HasChoice(rest, others, j)
      ensures HasChoice(ids, chosen, j)
    {
      if i :| 0 <= i < |rest| && j == rest[i] && others[i].Some? {
        assert ids[i + 1] == j && chosen[i + 1].Some?;
      } else {
        assert ids[0] == j && chosen[0].Some?;
      }
    }
  }

  lemma FirstStaysMatched(id: ItemId, choice: Option<nat>, rest: seq<ItemId>, others: seq<Option<nat>>,
                          records: seq<QueueRecord>, at: Instant, first: seq<Play>, more: seq<Play>)
    requires |rest| == |others| && id !in rest && OfMatches(rest, others, more)
    requires MatchesOne(first, [id], [choice], records, at, 0)
    ensures MatchesOne(first + more, [id] + rest, [choice] + others, records, at, 0)
  {
    GivenJoins(first, more, id, Matching);
    NothingOfKind(more, id, Matching);
  }

  lemma OtherStaysMatched(id: ItemId, choice: Option<nat>, rest: seq<ItemId>, others: seq<Option<nat>>,
                          records: seq<QueueRecord>, at: Instant, first: seq<Play>, more: seq<Play>, i: nat)
    requires |rest| == |others| && id !in rest && OfMatches([id], [choice], first)
    requires i < |rest| && MatchesOne(more, rest, others, records, at, i)
    ensures MatchesOne(first + more, [id] + rest, [choice] + others, records, at, i + 1)
  {
    GivenJoins(first, more, rest[i], Matching);
    NothingOfKind(first, rest[i], Matching);
  }

  // --- Notify and check ---------------------------------------------------------------------------------------------

  /** A notify retry leaves the item tracked, under the download id and the name it had. */
  lemma NotifyKeepsTracked(c: Cell, id: ItemId, t: Turn)
    requires t.RetryNotify? && Enabled(c, id, t)
    ensures var row := Effects(c, TurnSteps(c, id, t)).row;
            && row.Some? && Tracked(row.value.status)
            && row.value.downloadId == c.row.value.downloadId && row.value.relPath == c.row.value.relPath
  {
    TurnEffects(c, id, t);
  }

  lemma {:induction false} SameRecord(row: Row, other: Row, records: seq<QueueRecord>, names: NameTest)
    requires row.downloadId == other.downloadId && row.relPath == other.relPath
    ensures CurrentRecord(row, records, names) == CurrentRecord(other, records, names)
  {
    if records != [] {
      SameRecord(row, other, records[1..], names);
    }
  }

  function Retried(p: Progress, id: ItemId, a: PassAnswers): seq<Turn> {
    var c := CellAt(p.world, id);
    if c.row.Some? && c.row.value.status == Detected
    then [RetryNotify(a.activeJob(id), a.bytesFound(id), a.push(id), a.wall)] else []
  }

  /** A retry is followed at once by the check of the same item. */
  predicate RetryThenCheck(plays: seq<Play>) {
    forall m :: 0 <= m < |plays| && KindOf(plays[m].turn) == Notifying ==>
      m + 1 < |plays| && plays[m + 1].id == plays[m].id && KindOf(plays[m + 1].turn) == Checking
  }

  lemma PairsJoin(a: seq<Play>, b: seq<Play>)
    requires RetryThenCheck(a) && RetryThenCheck(b)
    ensures RetryThenCheck(a + b)
  {
  }

  predicate TrackedAt(w: World, id: ItemId) { CellAt(w, id).row.Some? && Tracked(CellAt(w, id).row.value.status) }

  lemma OneIsRetried(p: Progress, id: ItemId, a: PassAnswers) returns (plays: seq<Play>)
    requires p.going && TrackedAt(p.world, id)
    ensures var q := Notify(p, id, a);
            && Stretch(p, q, plays) && q.going && TrackedAt(q.world, id)
            && |plays| <= 1 && (forall x :: x in plays ==> x.id == id && KindOf(x.turn) == Notifying)
            && Given(plays, id, Notifying) == Retried(p, id, a) && Given(plays, id, Checking) == []
            && (forall j :: j != id ==> CellAt(q.world, j) == CellAt(p.world, j))
            && var (row, was) := (CellAt(q.world, id).row.value, CellAt(p.world, id).row.value);
               row.downloadId == was.downloadId && row.relPath == was.relPath
  {
    var c := CellAt(p.world, id);
    plays := [];
    if c.row.value.status == Detected {
      var t := RetryNotify(a.activeJob(id), a.bytesFound(id), a.push(id), a.wall);
      OneTurn(p, id, t);
      NotifyKeepsTracked(c, id, t);
      plays := [Play(id, t)];
    } else {
      NoTurn(p);
    }
  }

  /** One tracked item: the retry if it is detected, and the check. */
  lemma OneIsChecked(p: Progress, id: ItemId, records: seq<QueueRecord>, names: NameTest, a: PassAnswers)
    returns (plays: seq<Play>)
    requires p.going && TrackedAt(p.world, id)
    ensures var q := CheckOne(p, id, records, names, a);
            && Stretch(p, q, plays) && RetryThenCheck(plays) && OfChecks([id], plays)
            && ChecksOne(p.world, plays, id, records, names, a)
            && forall j :: j != id ==> CellAt(q.world, j) == CellAt(p.world, j)
  {
    var q := Notify(p, id, a);
    var (c, d) := (CellAt(p.world, id), CellAt(q.world, id));
    var first := OneIsRetried(p, id, a);
    var check := CheckFor(id, c, records, names, a);
    SameRecord(c.row.value, d.row.value, records, names);
    OneTurn(q, id, check);
    plays := first + [Play(id, check)];
    StretchesJoin(p, q, CheckOne(p, id, records, names, a), first, [Play(id, check)]);
    RetryAndCheck(first, id, check);
  }

  lemma RetryAndCheck(first: seq<Play>, id: ItemId, check: Turn)
    requires |first| <= 1 && (forall x :: x in first ==> x.id == id && KindOf(x.turn) == Notifying)
             && check.CheckImport?
    ensures var plays := first + [Play(id, check)];
            && RetryThenCheck(plays) && OfChecks([id], plays)
            && Given(plays, id, Checking) == [check] && Given(plays, id, Notifying) == Given(first, id, Notifying)
  {
    var plays := first + [Play(id, check)];
    assert plays[..|first|] == first;
    NothingOfKind(first, id, Checking);
  }

  /** A tracked item is checked, and its push retried if it is detected. */
  predicate ChecksOne(w: World, plays: seq<Play>, id: ItemId, records: seq<QueueRecord>, names: NameTest,
                      a: PassAnswers)
  {
    && CellAt(w, id).row.Some?
    && Given(plays, id, Checking) == [CheckFor(id, CellAt(w, id), records, names, a)]
    && Given(plays, id, Notifying) == if CellAt(w, id).row.value.status == Detected
                                      then [RetryNotify(a.activeJob(id), a.bytesFound(id), a.push(id), a.wall)] else []
  }

  predicate OfChecks(tracked: seq<ItemId>, plays: seq<Play>) {
    forall x :: x in plays ==> x.id in tracked && (KindOf(x.turn) == Notifying || KindOf(x.turn) == Checking)
  }

  /** Each tracked item is checked once, after a retry of its push if it is still detected; nobody else is. */
  lemma {:induction false} ChecksGive(p: Progress, tracked: seq<ItemId>, records: seq<QueueRecord>, names: NameTest,
                                      a: PassAnswers) returns (plays: seq<Play>)
    requires Distinct(tracked) && (p.going ==> forall id :: id in tracked ==> TrackedAt(p.world, id))
    ensures var q := RunChecks(p, tracked, records, names, a);
            && Stretch(p, q, plays) && RetryThenCheck(plays) && OfChecks(tracked, plays)
            && (q.going ==> p.going && forall id :: id in tracked ==> ChecksOne(p.world, plays, id, records, names, a))
    decreases |tracked|
  {
    if !p.going || tracked == [] {
      plays := [];
      NoTurn(p);
    } else {
      var (id, rest) := (tracked[0], tracked[1..]);
      var q := CheckOne(p, id, records, names, a);
      var first := OneIsChecked(p, id, records, names, a);
      assert tracked == [id] + rest && id !in rest;
      forall j | j in rest
        ensures TrackedAt(q.world, j) && CellAt(q.world, j) == CellAt(p.world, j)
      {
        assert j in tracked && j != id;
      }
      var others := ChecksGive(q, rest, records, names, a);
      plays := first + others;
      ChecksJoin(p, q, RunChecks(p, tracked, records, names, a), id, rest, first, others, records, names, a);
    }
  }

  lemma ChecksJoin(p: Progress, q: Progress, r: Progress, id: ItemId, rest: seq<ItemId>, first: seq<Play>,
                   others: seq<Play>, records: seq<QueueRecord>, names: NameTest, a: PassAnswers)
    requires p.going && Stretch(p, q, first) && Stretch(q, r, others)
    requires RetryThenCheck(first) && RetryThenCheck(others) && OfChecks([id], first) && OfChecks(rest, others)
    requires id !in rest && ChecksOne(p.world, first, id, records, names, a)
    requires forall j :: j in rest ==> CellAt(q.world, j) == CellAt(p.world, j)
    requires r.going ==> forall j :: j in rest ==> ChecksOne(q.world, others, j, records, names, a)
    ensures Stretch(p, r, first + others) && RetryThenCheck(first + others) && OfChecks([id] + rest, first + others)
    ensures r.going ==> forall j :: j in [id] + rest ==> ChecksOne(p.world, first + others, j, records, names, a)
  {
    StretchesJoin(p, q, r, first, others);
    PairsJoin(first, others);
    if r.going {
      RestIsChecked(p.world, q.world, id, rest, first, others, records, names, a);
    }
  }

  lemma RestIsChecked(w: World, v: World, id: ItemId, rest: seq<ItemId>, first: seq<Play>, others: seq<Play>,
                      records: seq<QueueRecord>, names: NameTest, a: PassAnswers)
    requires id !in rest && OfChecks([id], first) && OfChecks(rest, others)
    requires ChecksOne(w, first, id, records, names, a)
    requires forall j :: j in rest ==> CellAt(v, j) == CellAt(w, j) && ChecksOne(v, others, j, records, names, a)
    ensures forall j :: j in [id] + rest ==> ChecksOne(w, first + others, j, records, names, a)
  {
    forall j | j in [id] + rest
      ensures ChecksOne(w, first + others, j, records, names, a)
    {
      GivenJoins(first, others, j, Notifying);
      GivenJoins(first, others, j, Checking);
      if j == id {
        NothingOfKind(others, j, Notifying);
        NothingOfKind(others, j, Checking);
      } else {
        assert ChecksOne(v, others, j, records, names, a);
        NothingOfKind(first, j, Notifying);
        NothingOfKind(first, j, Checking);
      }
    }
  }

  // --- The parts of a pass -----------------------------------------------------------------------------------------

  function Join(parts: seq<seq<Play>>): seq<Play> {
    if parts == [] then [] else Join(parts[..|parts| - 1]) + parts[|parts| - 1]
  }

  lemma {:induction false} JoinSplits(parts: seq<seq<Play>>, r: nat)
    requires r < |parts|
    ensures Join(parts) == Join(parts[..r]) + parts[r] + Join(parts[r + 1..])
    decreases |parts|
  {
    var n := |parts| - 1;
    if r < n {
      JoinSplits(parts[..n], r);
      assert parts[..n][..r] == parts[..r] && parts[..n][r + 1..] == parts[r + 1..][..n - r - 1];
    } else {
      assert parts[r + 1..] == [];
    }
  }

  lemma {:induction false} InSomePart(parts: seq<seq<Play>>, x: Play) returns (i: nat)
    requires x in Join(parts)
    ensures i < |parts| && x in parts[i]
  {
    var n := |parts| - 1;
    if x in parts[n] {
      i := n;
    } else {
      i := InSomePart(parts[..n], x);
    }
  }

  /** Part `r` is phase `r`, for the items of the queue. */
  predicate InPhaseOrder(ids: seq<ItemId>, parts: seq<seq<Play>>) {
    forall r, x :: 0 <= r < |parts| && x in parts[r] ==> Order(KindOf(x.turn)) == r && x.id in ids
  }

  /** After part `r` the pass that began in `w` stands at `ps[r]`. */
  predicate StandsAt(w: World, parts: seq<seq<Play>>, ps: seq<Progress>)
    requires |parts| == |ps|
  {
    forall r :: 0 <= r < |ps| ==> Stretch(Progress(w, [], true), ps[r], Join(parts[..r + 1]))
  }

  /** Once it has stopped it makes no more plays. */
  predicate StopsForGood(parts: seq<seq<Play>>, ps: seq<Progress>)
    requires |parts| == |ps|
  {
    forall r, i :: 0 <= r < i < |ps| && !ps[r].going ==> !ps[i].going && parts[i] == []
  }

  predicate InParts(w: World, ids: seq<ItemId>, parts: seq<seq<Play>>, ps: seq<Progress>) {
    |parts| == |ps| && InPhaseOrder(ids, parts) && StandsAt(w, parts, ps) && StopsForGood(parts, ps)
  }

  lemma StandsOn(w: World, parts: seq<seq<Play>>, ps: seq<Progress>, part: seq<Play>, q: Progress)
    requires |parts| == |ps| && ps != [] && StandsAt(w, parts, ps) && Stretch(ps[|ps| - 1], q, part)
    ensures StandsAt(w, parts + [part], ps + [q])
  {
    var (more, n) := (parts + [part], |parts|);
    assert parts[..n] == parts && more[..n] == parts && more[..n + 1] == more;
    StretchesJoin(Progress(w, [], true), ps[n - 1], q, Join(parts), part);
    forall r | 0 <= r < n + 1
      ensures Stretch(Progress(w, [], true), (ps + [q])[r], Join(more[..r + 1]))
    {
      if r < n {
        assert more[..r + 1] == parts[..r + 1];
      }
    }
  }

  lemma OnePartMore(w: World, ids: seq<ItemId>, parts: seq<seq<Play>>, ps: seq<Progress>, part: seq<Play>, q: Progress)
    requires InParts(w, ids, parts, ps) && ps != [] && Stretch(ps[|ps| - 1], q, part)
    requires forall x :: x in part ==> Order(KindOf(x.turn)) == |parts| && x.id in ids
    ensures InParts(w, ids, parts + [part], ps + [q])
  {
    StandsOn(w, parts, ps, part, q);
    StopsForGoodStill(parts, ps, part, q);
  }

  lemma StopsForGoodStill(parts: seq<seq<Play>>, ps: seq<Progress>, part: seq<Play>, q: Progress)
    requires |parts| == |ps| && ps != [] && StopsForGood(parts, ps) && Stretch(ps[|ps| - 1], q, part)
    ensures StopsForGood(parts + [part], ps + [q])
  {
  }

  lemma {:induction false} TrackedAre(w: World, ids: seq<ItemId>)
    requires Distinct(ids)
    ensures Distinct(TrackedOf(w, ids))
    ensures forall id :: id in TrackedOf(w, ids) <==> id in ids && TrackedAt(w, id)
  {
    if ids != [] {
      var rest := TrackedOf(w, ids[1..]);
      TrackedAre(w, ids[1..]);
      assert ids == [ids[0]] + ids[1..];
      assert forall i :: 0 <= i < |rest| ==> rest[i] in rest && rest[i] in ids[1..];
      assert forall i :: 0 <= i < |ids| - 1 ==> ids[1..][i] == ids[i + 1];
      assert ids[0] !in ids[1..];
    }
  }

  function PhaseAt(r: nat): Phase
    requires 2 <= r <= 6
  {
    if r == 2 then DroppedPhase else if r == 3 then HealPhase else if r == 4 then SweepPhase
    else if r == 5 then CommandPhase else CleanupPhase
  }

  /** One later phase more. */
  lemma PhaseIsPart(w: World, ids: seq<ItemId>, parts: seq<seq<Play>>, ps: seq<Progress>, a: PassAnswers)
    returns (part: seq<Play>, q: Progress)
    requires InParts(w, ids, parts, ps) && 2 <= |ps| <= 6 && Distinct(ids)
    ensures q == RunPhase(ps[|ps| - 1], PhaseAt(|ps|), ids, a) && InParts(w, ids, parts + [part], ps + [q])
    ensures q.going ==> PhaseServes(ps[|ps| - 1], part, |ps|, ids, a)
  {
    var (p, r) := (ps[|ps| - 1], |ps|);
    q := RunPhase(p, PhaseAt(r), ids, a);
    part := PhaseGives(p, PhaseAt(r), ids, a);
    OnePartMore(w, ids, parts, ps, part, q);
  }

  ghost predicate PhaseServes(p: Progress, part: seq<Play>, r: nat, ids: seq<ItemId>, a: PassAnswers)
    requires 2 <= r <= 6
  {
    forall id :: ServesOne(p.world, part, PhaseAt(r), ids, a, id)
  }

  /** Each item is matched to the record the greedy matching gives it. */
  predicate MatchesServe(w: World, plays: seq<Play>, ids: seq<ItemId>, records: seq<QueueRecord>, names: NameTest,
                         a: PassAnswers)
    requires forall id :: id in ids ==> CellAt(w, id).row.Some?
  {
    forall i :: 0 <= i < |ids| ==>
      MatchesOne(plays, ids, Greedy(RowsOf(w, ids), records, {}, names), records, a.wall, i)
  }

  ghost predicate ChecksServe(w: World, part: seq<Play>, ids: seq<ItemId>, records: seq<QueueRecord>, names: NameTest,
                              a: PassAnswers)
  {
    forall id :: id in ids && TrackedAt(w, id) ==> ChecksOne(w, part, id, records, names, a)
  }

  lemma ChosenMayBeMatched(w: World, ids: seq<ItemId>, records: seq<QueueRecord>, names: NameTest, at: Instant, i: nat)
    requires (forall id :: id in ids ==> CellAt(w, id).row.Some?) && i < |ids|
    requires Greedy(RowsOf(w, ids), records, {}, names)[i].Some?
    ensures var r := Greedy(RowsOf(w, ids), records, {}, names)[i].value;
            && r < |records| && !TrackedAt(w, ids[i])
            && Enabled(CellAt(w, ids[i]), ids[i], MatchItem(records[r].downloadId, at))
  {
    var (items, id) := (RowsOf(w, ids), ids[i]);
    assert id in ids && items[i] == CellAt(w, id).row.value;
    var r := Greedy(items, records, {}, names)[i].value;
    GreedyTakesExactly(items, records, names, i, r);
    TakerMayBeMatched(CellAt(w, id), id, items[i], records[r], names, at);
  }

  lemma TakerMayBeMatched(c: Cell, id: ItemId, row: Row, record: QueueRecord, names: NameTest, at: Instant)
    requires c.row == Some(row) && MayTake(row, record, names)
    ensures !Tracked(row.status) && Enabled(c, id, MatchItem(record.downloadId, at))
  {
  }

  lemma OnePart(w: World, ids: seq<ItemId>, part: seq<Play>, p: Progress)
    requires Stretch(Progress(w, [], true), p, part)
    requires forall x :: x in part ==> Order(KindOf(x.turn)) == 0 && x.id in ids
    ensures InParts(w, ids, [part], [p])
  {
    assert [part][..1] == [part] && [part][..0] == [] && Join([part]) == [] + part == part;
  }

  /** The first part commits the matches, and leaves the tracked items alone. */
  lemma MatchesArePart(w: World, ids: seq<ItemId>, records: seq<QueueRecord>, names: NameTest, a: PassAnswers)
    returns (part: seq<Play>)
    requires Distinct(ids) && forall id :: id in ids ==> CellAt(w, id).row.Some?
    ensures forall c :: c in Greedy(RowsOf(w, ids), records, {}, names) && c.Some? ==> c.value < |records|
    ensures var p := RunMatches(Progress(w, [], true), ids, Greedy(RowsOf(w, ids), records, {}, names), records,
                                a.wall);
            && p.going && InParts(w, ids, [part], [p]) && MatchesServe(w, part, ids, records, names, a)
            && forall id :: id in ids && TrackedAt(w, id) ==> CellAt(p.world, id) == CellAt(w, id)
  {
    var chosen := Greedy(RowsOf(w, ids), records, {}, names);
    var start := Progress(w, [], true);
    ChoicesAreRecords(RowsOf(w, ids), records, names);
    forall i | 0 <= i < |ids|
      ensures MayMatch(w, ids, chosen, records, a.wall, i) && (chosen[i].Some? ==> !TrackedAt(w, ids[i]))
    {
      if chosen[i].Some? {
        ChosenMayBeMatched(w, ids, records, names, a.wall, i);
      }
    }
    part := MatchesGive(start, ids, chosen, records, a.wall);
    assert forall i :: 0 <= i < |ids| ==> ids[i] in ids;
    OnePart(w, ids, part, RunMatches(start, ids, chosen, records, a.wall));
    forall id | id in ids && TrackedAt(w, id)
      ensures CellAt(Seen(w, part), id) == CellAt(w, id)
    {
      UntouchedCell(w, part, id);
    }
  }

  /** Every later phase that was finished gave each item its due. */
  ghost predicate AllServe(parts: seq<seq<Play>>, ps: seq<Progress>, ids: seq<ItemId>, a: PassAnswers)
    requires |parts| == |ps| <= 7
  {
    forall r :: 2 <= r < |ps| && ps[r].going ==> PhaseServes(ps[r - 1], parts[r], r, ids, a)
  }

  /** The pass from phase `r` on. */
  function RunFrom(p: Progress, r: nat, ids: seq<ItemId>, a: PassAnswers): Progress
    requires 2 <= r <= 7
    decreases 7 - r
  {
    if r == 7 then p else RunFrom(RunPhase(p, PhaseAt(r), ids, a), r + 1, ids, a)
  }

  lemma ServesOn(parts: seq<seq<Play>>, ps: seq<Progress>, ids: seq<ItemId>, a: PassAnswers, part: seq<Play>,
                 q: Progress)
    requires |parts| == |ps| && 2 <= |ps| <= 6 && AllServe(parts, ps, ids, a)
    requires q.going ==> PhaseServes(ps[|ps| - 1], part, |ps|, ids, a)
    ensures AllServe(parts + [part], ps + [q], ids, a)
  {
    var (more, qs) := (parts + [part], ps + [q]);
    forall r | 2 <= r < |qs| && qs[r].going
      ensures PhaseServes(qs[r - 1], more[r], r, ids, a)
    {
      if r < |ps| {
        assert PhaseServes(ps[r - 1], parts[r], r, ids, a);
      }
    }
  }

  lemma {:induction false} LaterParts(w: World, ids: seq<ItemId>, parts: seq<seq<Play>>, ps: seq<Progress>,
                                      a: PassAnswers) returns (all: seq<seq<Play>>, qs: seq<Progress>)
    requires InParts(w, ids, parts, ps) && 2 <= |ps| <= 7 && Distinct(ids) && AllServe(parts, ps, ids, a)
    ensures |qs| == 7 && InParts(w, ids, all, qs) && AllServe(all, qs, ids, a)
    ensures parts <= all && ps <= qs && qs[6] == RunFrom(ps[|ps| - 1], |ps|, ids, a)
    decreases 7 - |ps|
  {
    if |ps| == 7 {
      all, qs := parts, ps;
    } else {
      var part, q := PhaseIsPart(w, ids, parts, ps, a);
      ServesOn(parts, ps, ids, a, part, q);
      all, qs := LaterParts(w, ids, parts + [part], ps + [q], a);
    }
  }

  lemma FirstParts(w: World, ids: seq<ItemId>, records: seq<QueueRecord>, names: NameTest, a: PassAnswers)
    returns (parts: seq<seq<Play>>, ps: seq<Progress>)
    requires Distinct(ids) && forall id :: id in ids ==> CellAt(w, id).row.Some?
    ensures forall c :: c in Greedy(RowsOf(w, ids), records, {}, names) && c.Some? ==> c.value < |records|
    ensures var p := RunMatches(Progress(w, [], true), ids, Greedy(RowsOf(w, ids), records, {}, names), records,
                                a.wall);
            |ps| == 2 && InParts(w, ids, parts, ps) && ps[1] == RunChecks(p, TrackedOf(w, ids), records, names, a)
    ensures ps[0].going && MatchesServe(w, parts[0], ids, records, names, a)
    ensures ps[1].going ==> ChecksServe(w, parts[1], ids, records, names, a)
    ensures RetryThenCheck(parts[1]) && forall x :: x in parts[1] ==> TrackedAt(w, x.id)
  {
    var matches := MatchesArePart(w, ids, records, names, a);
    var p := RunMatches(Progress(w, [], true), ids, Greedy(RowsOf(w, ids), records, {}, names), records, a.wall);
    TrackedAre(w, ids);
    var checks := ChecksGive(p, TrackedOf(w, ids), records, names, a);
    var q := RunChecks(p, TrackedOf(w, ids), records, names, a);
    OnePartMore(w, ids, [matches], [p], checks, q);
    parts, ps := [matches] + [checks], [p] + [q];
  }

  lemma PassRunsOn(w: World, ids: seq<ItemId>, records: seq<QueueRecord>, names: NameTest, a: PassAnswers)
    requires forall id :: id in ids ==> CellAt(w, id).row.Some?
    requires forall c :: c in Greedy(RowsOf(w, ids), records, {}, names) && c.Some? ==> c.value < |records|
    ensures var p := RunMatches(Progress(w, [], true), ids, Greedy(RowsOf(w, ids), records, {}, names), records,
                                a.wall);
            Pass(w, ids, records, names, a) == RunFrom(RunChecks(p, TrackedOf(w, ids), records, names, a), 2, ids, a)
  {
  }

  /** The seven parts of a pass, and what each gives. */
  lemma PassInParts(w: World, ids: seq<ItemId>, records: seq<QueueRecord>, names: NameTest, a: PassAnswers)
    returns (parts: seq<seq<Play>>, ps: seq<Progress>)
    requires Distinct(ids) && forall id :: id in ids ==> CellAt(w, id).row.Some?
    ensures |ps| == 7 && InParts(w, ids, parts, ps) && ps[6] == Pass(w, ids, records, names, a)
    ensures ps[0].going && MatchesServe(w, parts[0], ids, records, names, a)
    ensures ps[1].going ==> ChecksServe(w, parts[1], ids, records, names, a)
    ensures RetryThenCheck(parts[1]) && forall x :: x in parts[1] ==> TrackedAt(w, x.id)
    ensures AllServe(parts, ps, ids, a)
  {
    var firsts, qs := FirstParts(w, ids, records, names, a);
    PassRunsOn(w, ids, records, names, a);
    parts, ps := LaterParts(w, ids, firsts, qs, a);
    assert parts[0] == firsts[0] && parts[1] == firsts[1] && ps[0] == qs[0] && ps[1] == qs[1];
  }

  lemma GivenInPart(ids: seq<ItemId>, parts: seq<seq<Play>>, r: nat, id: ItemId, k: Kind)
    requires InPhaseOrder(ids, parts) && r < |parts| && Order(k) == r
    ensures Given(Join(parts), id, k) == Given(parts[r], id, k)
  {
    JoinSplits(parts, r);
    GivenJoins(Join(parts[..r]) + parts[r], Join(parts[r + 1..]), id, k);
    GivenJoins(Join(parts[..r]), parts[r], id, k);
    forall x | x in Join(parts[..r])
      ensures KindOf(x.turn) != k
    {
      var i := InSomePart(parts[..r], x);
    }
    NothingOfKind(Join(parts[..r]), id, k);
    forall x | x in Join(parts[r + 1..])
      ensures KindOf(x.turn) != k
    {
      var i := InSomePart(parts[r + 1..], x);
      assert parts[r + 1..][i] == parts[r + 1 + i];
    }
    NothingOfKind(Join(parts[r + 1..]), id, k);
  }

  lemma {:induction false} BeforeIs(a: seq<Play>, b: seq<Play>, r: nat)
    requires forall x :: x in a ==> Order(KindOf(x.turn)) < r
    requires forall x :: x in b ==> Order(KindOf(x.turn)) >= r
    ensures Before(a + b, r) == a
  {
    if a == [] {
      assert a + b == b;
      assert b != [] ==> b[0] in b;
    } else {
      assert a[0] in a && (a + b)[1..] == a[1..] + b;
      BeforeIs(a[1..], b, r);
    }
  }

  /** When the plays reach phase `r`, the world is as the part before left it. */
  lemma PhaseIsReached(w: World, ids: seq<ItemId>, parts: seq<seq<Play>>, ps: seq<Progress>, r: nat)
    requires InParts(w, ids, parts, ps) && 1 <= r < |parts|
    ensures Seen(w, Before(Join(parts), r)) == ps[r - 1].world
  {
    JoinSplits(parts, r);
    forall x | x in Join(parts[..r])
      ensures Order(KindOf(x.turn)) < r
    {
      var i := InSomePart(parts[..r], x);
    }
    forall x | x in parts[r] + Join(parts[r + 1..])
      ensures Order(KindOf(x.turn)) >= r
    {
      if x in Join(parts[r + 1..]) {
        var i := InSomePart(parts[r + 1..], x);
        assert parts[r + 1..][i] == parts[r + 1 + i];
      }
    }
    assert Join(parts[..r]) + parts[r] + Join(parts[r + 1..]) == Join(parts[..r]) + (parts[r] + Join(parts[r + 1..]));
    BeforeIs(Join(parts[..r]), parts[r] + Join(parts[r + 1..]), r);
    assert parts[..r - 1 + 1] == parts[..r];
    assert Stretch(Progress(w, [], true), ps[r - 1], Join(parts[..r - 1 + 1]));
  }

  /** The pass has finished, or gone beyond phase `r`. */
  predicate PhaseOver(plays: seq<Play>, finished: bool, r: nat) {
    finished || (plays != [] && Order(KindOf(plays[|plays| - 1].turn)) > r)
  }

  lemma PhaseOverMeansGoing(ids: seq<ItemId>, parts: seq<seq<Play>>, ps: seq<Progress>, r: nat)
    requires InPhaseOrder(ids, parts) && |parts| == |ps| && StopsForGood(parts, ps) && r < |parts|
    requires PhaseOver(Join(parts), ps[|ps| - 1].going, r)
    ensures ps[r].going
  {
    var plays := Join(parts);
    if !ps[r].going && plays != [] && !ps[|ps| - 1].going {
      var i := InSomePart(parts, plays[|plays| - 1]);
    }
  }

  lemma {:induction false} JoinIsOrdered(ids: seq<ItemId>, parts: seq<seq<Play>>)
    requires InPhaseOrder(ids, parts)
    ensures forall m, n :: 0 <= m < n < |Join(parts)| ==>
              Order(KindOf(Join(parts)[m].turn)) <= Order(KindOf(Join(parts)[n].turn))
  {
    if parts != [] {
      var (init, last) := (parts[..|parts| - 1], parts[|parts| - 1]);
      JoinIsOrdered(ids, init);
      forall x | x in Join(init)
        ensures Order(KindOf(x.turn)) < |parts| - 1
      {
        var i := InSomePart(init, x);
      }
      assert forall m :: 0 <= m < |Join(init)| ==> Join(init)[m] in Join(init);
      assert forall m :: 0 <= m < |last| ==> last[m] in last;
    }
  }

  // --- The duties of a pass ------------------------------------------------------------------------------------------

  /** The record is the item's: by download id where the row has one, by name otherwise. */
  predicate Names(row: Row, record: QueueRecord, names: NameTest) {
    if row.downloadId.Some? then record.downloadId == row.downloadId else names(record, row.relPath)
  }

  /** The first listed record of the item is not one already imported. */
  predicate StillListed(row: Row, records: seq<QueueRecord>, names: NameTest) {
    exists r :: 0 <= r < |records| && Names(row, records[r], names) && records[r].trackedState != Some("imported")
                && forall q :: 0 <= q < r ==> !Names(row, records[q], names)
  }

  lemma {:induction false} FirstNamed(row: Row, records: seq<QueueRecord>, names: NameTest) returns (r: nat)
    ensures r <= |records| && forall q :: 0 <= q < r ==> !Names(row, records[q], names)
    ensures r < |records| ==> Names(row, records[r], names) && CurrentRecord(row, records, names) == Some(records[r])
    ensures r == |records| ==> CurrentRecord(row, records, names) == None
  {
    if records == [] || Names(row, records[0], names) {
      r := 0;
    } else {
      var n := FirstNamed(row, records[1..], names);
      r := n + 1;
      assert forall q :: 0 < q < r ==> records[q] == records[1..][q - 1];
    }
  }

  lemma LingersIsStillListed(row: Row, records: seq<QueueRecord>, names: NameTest)
    ensures Lingers(row, records, names) <==> StillListed(row, records, names)
  {
    var r := FirstNamed(row, records, names);
  }

  /** An item that was detected or notified when the pass began is checked for its import, once, and a detected
      one has its push retried, once; no other item is. */
  predicate CheckedDuly(w: World, ids: seq<ItemId>, records: seq<QueueRecord>, names: NameTest, a: PassAnswers,
                        plays: seq<Play>, id: ItemId)
  {
    var row := CellAt(w, id).row;
    && Given(plays, id, Checking)
       == (if id in ids && row.Some? && row.value.status in {Detected, ArrStatus.Notified}
           then [CheckImport(StillListed(row.value, records, names), a.importHistory(id),
                             DeleteSetup(a.moveMode, a.wired, a.deleteOnImport(id)), a.wall)]
           else [])
    && Given(plays, id, Notifying)
       == (if id in ids && row.Some? && row.value.status == Detected
           then [RetryNotify(a.activeJob(id), a.bytesFound(id), a.push(id), a.wall)]
           else [])
  }

  /** The later phases: whose turn it is goes by the row when the plays reach the phase. */
  predicate RecheckedDuly(w: World, ids: seq<ItemId>, a: PassAnswers, plays: seq<Play>, id: ItemId) {
    var row := RowAt(w, plays, 2, id);
    Given(plays, id, Rechecking)
    == if id in ids && row.Some? && row.value.status == Dropped
       then [CheckDropped(a.droppedHistory(id), DeleteSetup(a.moveMode, a.wired, a.deleteOnImport(id)), a.wall)] else []
  }

  predicate HealedDuly(w: World, ids: seq<ItemId>, a: PassAnswers, plays: seq<Play>, id: ItemId) {
    var row := RowAt(w, plays, 3, id);
    Given(plays, id, Healing)
    == if id in ids && row.Some? && row.value.status == Gone && row.value.debt.Some? && !row.value.remoteDeleted
       then [HealGone(a.healHistory(id), DeleteSetup(a.moveMode, a.wired, a.deleteOnImport(id)), a.wall, a.now)] else []
  }

  predicate SweptDuly(w: World, ids: seq<ItemId>, a: PassAnswers, plays: seq<Play>, id: ItemId) {
    var row := RowAt(w, plays, 4, id);
    Given(plays, id, Sweeping)
    == if id in ids && a.wired && row.Some? && row.value.status in {Imported, ArrStatus.Cleaned}
          && row.value.debt.Some? && !row.value.remoteDeleted
       then [SweepDelete(DeleteSetup(a.moveMode, a.wired, a.deleteOnSweep(id)), a.now)] else []
  }

  predicate PolledDuly(w: World, ids: seq<ItemId>, a: PassAnswers, plays: seq<Play>, id: ItemId) {
    var row := RowAt(w, plays, 5, id);
    Given(plays, id, Polling)
    == if id in ids && row.Some? && row.value.scanCommand.Some? then [PollCommand(a.command(id))] else []
  }

  predicate CleanedDuly(w: World, ids: seq<ItemId>, a: PassAnswers, plays: seq<Play>, id: ItemId) {
    var row := RowAt(w, plays, 6, id);
    Given(plays, id, Cleaning)
    == if id in ids && a.cleanupEnabled && row.Some? && row.value.status == Imported
       then [Cleanup(a.activeJob(id), a.disk(id), a.wall)] else []
  }

  /** What a pass over the rows `ids` owes: each phase in turn, complete unless a request has failed; and no
      failing request but the last thing it does. */
  ghost predicate Dutiful(w: World, ids: seq<ItemId>, records: seq<QueueRecord>, names: NameTest, a: PassAnswers,
                          plays: seq<Play>, finished: bool)
    requires forall id :: id in ids ==> CellAt(w, id).row.Some?
  {
    && StopsAtFailure(w, plays, finished)
    && (forall m, n :: 0 <= m < n < |plays| ==> Order(KindOf(plays[m].turn)) <= Order(KindOf(plays[n].turn)))
    && (forall x :: x in plays ==> x.id in ids && !x.turn.Outside?)
    && RetryThenCheck(plays)
    && MatchesServe(w, plays, ids, records, names, a)
    && (PhaseOver(plays, finished, 1) ==> forall id :: CheckedDuly(w, ids, records, names, a, plays, id))
    && (PhaseOver(plays, finished, 2) ==> forall id :: RecheckedDuly(w, ids, a, plays, id))
    && (PhaseOver(plays, finished, 3) ==> forall id :: HealedDuly(w, ids, a, plays, id))
    && (PhaseOver(plays, finished, 4) ==> forall id :: SweptDuly(w, ids, a, plays, id))
    && (PhaseOver(plays, finished, 5) ==> forall id :: PolledDuly(w, ids, a, plays, id))
    && (PhaseOver(plays, finished, 6) ==> forall id :: CleanedDuly(w, ids, a, plays, id))
  }

  lemma CheckReads(w: World, id: ItemId, records: seq<QueueRecord>, names: NameTest, a: PassAnswers)
    requires TrackedAt(w, id)
    ensures CheckFor(id, CellAt(w, id), records, names, a)
         == CheckImport(StillListed(CellAt(w, id).row.value, records, names), a.importHistory(id),
                        DeleteSetup(a.moveMode, a.wired, a.deleteOnImport(id)), a.wall)
  {
    LingersIsStillListed(CellAt(w, id).row.value, records, names);
  }

  lemma TrackedIsDue(w: World, ids: seq<ItemId>, plays: seq<Play>, records: seq<QueueRecord>, names: NameTest,
                     a: PassAnswers, id: ItemId)
    requires id in ids && TrackedAt(w, id) && ChecksOne(w, plays, id, records, names, a)
    ensures CheckedDuly(w, ids, records, names, a, plays, id)
  {
    CheckReads(w, id, records, names, a);
  }

  lemma UntrackedIsDue(w: World, ids: seq<ItemId>, plays: seq<Play>, records: seq<QueueRecord>, names: NameTest,
                       a: PassAnswers, id: ItemId)
    requires !(id in ids && TrackedAt(w, id)) && Given(plays, id, Checking) == [] && Given(plays, id, Notifying) == []
    ensures CheckedDuly(w, ids, records, names, a, plays, id)
  {
  }

  lemma ChecksAreDue(w: World, ids: seq<ItemId>, parts: seq<seq<Play>>, records: seq<QueueRecord>, names: NameTest,
                     a: PassAnswers, id: ItemId)
    requires |parts| > 1 && InPhaseOrder(ids, parts) && ChecksServe(w, parts[1], ids, records, names, a)
    requires forall x :: x in parts[1] ==> TrackedAt(w, x.id)
    ensures CheckedDuly(w, ids, records, names, a, Join(parts), id)
  {
    GivenInPart(ids, parts, 1, id, Checking);
    GivenInPart(ids, parts, 1, id, Notifying);
    if id in ids && TrackedAt(w, id) {
      assert ChecksOne(w, parts[1], id, records, names, a);
      TrackedIsDue(w, ids, Join(parts), records, names, a, id);
    } else {
      NothingOfKind(parts[1], id, Checking);
      NothingOfKind(parts[1], id, Notifying);
      UntrackedIsDue(w, ids, Join(parts), records, names, a, id);
    }
  }

  lemma ServedInPart(w: World, ids: seq<ItemId>, parts: seq<seq<Play>>, r: nat, a: PassAnswers, id: ItemId)
    requires InPhaseOrder(ids, parts) && 2 <= r <= 6 && r < |parts| && ServesOne(w, parts[r], PhaseAt(r), ids, a, id)
    ensures ServesOne(w, Join(parts), PhaseAt(r), ids, a, id)
  {
    OrderOfPhase(r);
    GivenInPart(ids, parts, r, id, KindOfPhase(PhaseAt(r)));
  }

  lemma OrderOfPhase(r: nat)
    requires 2 <= r <= 6
    ensures Order(KindOfPhase(PhaseAt(r))) == r
  {
  }

  lemma PartServes(ids: seq<ItemId>, parts: seq<seq<Play>>, ps: seq<Progress>, r: nat, a: PassAnswers, id: ItemId)
    requires |parts| == |ps| == 7 && AllServe(parts, ps, ids, a) && 2 <= r <= 6 && ps[r].going
    ensures ServesOne(ps[r - 1].world, parts[r], PhaseAt(r), ids, a, id)
  {
    assert PhaseServes(ps[r - 1], parts[r], r, ids, a);
  }

  /** Over the whole pass, item `id` is served by the row it has when phase `r` begins. */
  lemma OneIsServed(ids: seq<ItemId>, parts: seq<seq<Play>>, ps: seq<Progress>, r: nat, a: PassAnswers, id: ItemId)
    requires |parts| == |ps| == 7 && InPhaseOrder(ids, parts) && StopsForGood(parts, ps) && AllServe(parts, ps, ids, a)
    requires 2 <= r <= 6 && PhaseOver(Join(parts), ps[6].going, r)
    ensures ServesOne(ps[r - 1].world, Join(parts), PhaseAt(r), ids, a, id)
  {
    PhaseOverMeansGoing(ids, parts, ps, r);
    PartServes(ids, parts, ps, r, a, id);
    ServedInPart(ps[r - 1].world, ids, parts, r, a, id);
  }

  lemma RetriesComeFirst(ids: seq<ItemId>, parts: seq<seq<Play>>)
    requires |parts| > 1 && InPhaseOrder(ids, parts) && RetryThenCheck(parts[1])
    ensures RetryThenCheck(Join(parts))
  {
    JoinSplits(parts, 1);
    forall x | x in Join(parts[..1])
      ensures KindOf(x.turn) != Notifying
    {
      var i := InSomePart(parts[..1], x);
    }
    forall x | x in Join(parts[2..])
      ensures KindOf(x.turn) != Notifying
    {
      var i := InSomePart(parts[2..], x);
      assert parts[2..][i] == parts[2 + i];
    }
    PairsJoin(Join(parts[..1]), parts[1]);
    PairsJoin(Join(parts[..1]) + parts[1], Join(parts[2..]));
  }

  lemma MatchesAreDue(w: World, ids: seq<ItemId>, parts: seq<seq<Play>>, records: seq<QueueRecord>, names: NameTest,
                      a: PassAnswers)
    requires (forall id :: id in ids ==> CellAt(w, id).row.Some?) && parts != [] && InPhaseOrder(ids, parts)
    requires MatchesServe(w, parts[0], ids, records, names, a)
    ensures MatchesServe(w, Join(parts), ids, records, names, a)
  {
    var chosen := Greedy(RowsOf(w, ids), records, {}, names);
    forall i | 0 <= i < |ids|
      ensures MatchesOne(Join(parts), ids, chosen, records, a.wall, i)
    {
      assert MatchesOne(parts[0], ids, chosen, records, a.wall, i);
      GivenInPart(ids, parts, 0, ids[i], Matching);
    }
  }

  lemma RechecksAreDue(w: World, ids: seq<ItemId>, a: PassAnswers, plays: seq<Play>, id: ItemId)
    requires ServesOne(Seen(w, Before(plays, 2)), plays, PhaseAt(2), ids, a, id)
    ensures RecheckedDuly(w, ids, a, plays, id)
  {
  }

  lemma HealsAreDue(w: World, ids: seq<ItemId>, a: PassAnswers, plays: seq<Play>, id: ItemId)
    requires ServesOne(Seen(w, Before(plays, 3)), plays, PhaseAt(3), ids, a, id)
    ensures HealedDuly(w, ids, a, plays, id)
  {
  }

  lemma SweepsAreDue(w: World, ids: seq<ItemId>, a: PassAnswers, plays: seq<Play>, id: ItemId)
    requires ServesOne(Seen(w, Before(plays, 4)), plays, PhaseAt(4), ids, a, id)
    ensures SweptDuly(w, ids, a, plays, id)
  {
  }

  lemma PollsAreDue(w: World, ids: seq<ItemId>, a: PassAnswers, plays: seq<Play>, id: ItemId)
    requires ServesOne(Seen(w, Before(plays, 5)), plays, PhaseAt(5), ids, a, id)
    ensures PolledDuly(w, ids, a, plays, id)
  {
  }

  lemma CleansAreDue(w: World, ids: seq<ItemId>, a: PassAnswers, plays: seq<Play>, id: ItemId)
    requires ServesOne(Seen(w, Before(plays, 6)), plays, PhaseAt(6), ids, a, id)
    ensures CleanedDuly(w, ids, a, plays, id)
  {
  }

  /** What one item is due in the later phases. */
  lemma LaterPhasesAreDue(w: World, ids: seq<ItemId>, parts: seq<seq<Play>>, ps: seq<Progress>, a: PassAnswers,
                          id: ItemId)
    requires |parts| == 7 && InParts(w, ids, parts, ps) && AllServe(parts, ps, ids, a)
    ensures PhaseOver(Join(parts), ps[6].going, 2) ==> RecheckedDuly(w, ids, a, Join(parts), id)
    ensures PhaseOver(Join(parts), ps[6].going, 3) ==> HealedDuly(w, ids, a, Join(parts), id)
    ensures PhaseOver(Join(parts), ps[6].going, 4) ==> SweptDuly(w, ids, a, Join(parts), id)
    ensures PhaseOver(Join(parts), ps[6].going, 5) ==> PolledDuly(w, ids, a, Join(parts), id)
    ensures PhaseOver(Join(parts), ps[6].going, 6) ==> CleanedDuly(w, ids, a, Join(parts), id)
  {
    forall r | 2 <= r <= 6 && PhaseOver(Join(parts), ps[6].going, r)
      ensures ServesOne(Seen(w, Before(Join(parts), r)), Join(parts), PhaseAt(r), ids, a, id)
    {
      OneIsServed(ids, parts, ps, r, a, id);
      PhaseIsReached(w, ids, parts, ps, r);
    }
    if PhaseOver(Join(parts), ps[6].going, 2) {
      RechecksAreDue(w, ids, a, Join(parts), id);
    }
    if PhaseOver(Join(parts), ps[6].going, 3) {
      HealsAreDue(w, ids, a, Join(parts), id);
    }
    if PhaseOver(Join(parts), ps[6].going, 4) {
      SweepsAreDue(w, ids, a, Join(parts), id);
    }
    if PhaseOver(Join(parts), ps[6].going, 5) {
      PollsAreDue(w, ids, a, Join(parts), id);
    }
    if PhaseOver(Join(parts), ps[6].going, 6) {
      CleansAreDue(w, ids, a, Join(parts), id);
    }
  }

  /** Every pass does its duty. */
  lemma PassIsDutiful(w: World, ids: seq<ItemId>, records: seq<QueueRecord>, names: NameTest, a: PassAnswers)
    requires Distinct(ids) && forall id :: id in ids ==> CellAt(w, id).row.Some?
    ensures var p := Pass(w, ids, records, names, a);
            Dutiful(w, ids, records, names, a, p.plays, p.going)
  {
    var p := Pass(w, ids, records, names, a);
    var parts, ps := PassInParts(w, ids, records, names, a);
    PlaysAreTheParts(w, ids, parts, ps);
    JoinIsOrdered(ids, parts);
    RetriesComeFirst(ids, parts);
    MatchesAreDue(w, ids, parts, records, names, a);
    forall id | PhaseOver(p.plays, p.going, 1)
      ensures CheckedDuly(w, ids, records, names, a, p.plays, id)
    {
      PhaseOverMeansGoing(ids, parts, ps, 1);
      ChecksAreDue(w, ids, parts, records, names, a, id);
    }
    forall id
      ensures PhaseOver(p.plays, p.going, 2) ==> RecheckedDuly(w, ids, a, p.plays, id)
      ensures PhaseOver(p.plays, p.going, 3) ==> HealedDuly(w, ids, a, p.plays, id)
      ensures PhaseOver(p.plays, p.going, 4) ==> SweptDuly(w, ids, a, p.plays, id)
      ensures PhaseOver(p.plays, p.going, 5) ==> PolledDuly(w, ids, a, p.plays, id)
      ensures PhaseOver(p.plays, p.going, 6) ==> CleanedDuly(w, ids, a, p.plays, id)
    {
      LaterPhasesAreDue(w, ids, parts, ps, a, id);
    }
  }

  lemma PlaysAreTheParts(w: World, ids: seq<ItemId>, parts: seq<seq<Play>>, ps: seq<Progress>)
    requires InParts(w, ids, parts, ps) && 0 < |ps| <= 7
    ensures var q := ps[|ps| - 1];
            && q.plays == Join(parts) && StopsAtFailure(w, q.plays, q.going)
            && forall x :: x in q.plays ==> x.id in ids && !x.turn.Outside?
  {
    assert parts[..|ps| - 1 + 1] == parts;
    assert Stretch(Progress(w, [], true), ps[|ps| - 1], Join(parts[..|ps| - 1 + 1]));
    forall x | x in Join(parts)
      ensures x.id in ids && !x.turn.Outside?
    {
      var i := InSomePart(parts, x);
      assert Order(KindOf(x.turn)) == i;
    }
  }
}
