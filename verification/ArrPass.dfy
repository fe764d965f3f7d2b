/**
 One pass of the poller over one bound queue, as a function of the world before it: which turns
 it gives to which items, in which order, and where a failed request cuts it short.

 A pass works through fixed phases. Within a phase, whether an item is taken up depends on its
 own row alone and a turn changes no other item, so asking item by item gives the same turns as
 fetching the phase's rows first, as long as nobody else writes in between. `ArrFetched` is about
 what happens to a cleanup otherwise.
 */
module ArrPass {
  import opened Common
  import opened ArrLifecycle
  import opened ArrSafety
  import opened ArrMatching

  /** The queue's settings, the clock, and everything the outside world answers during the pass. */
  datatype PassAnswers = PassAnswers(
    moveMode: bool, wired: bool, cleanupEnabled: bool,
    wall: Instant, now: Instant,
    activeJob: ItemId -> bool, bytesFound: ItemId -> bool, push: ItemId -> PushAnswer,
    importHistory: ItemId -> HistoryAnswer, droppedHistory: ItemId -> HistoryAnswer,
    healHistory: ItemId -> HistoryAnswer,
    deleteOnImport: ItemId -> DeleteAnswer, deleteOnSweep: ItemId -> DeleteAnswer,
    command: ItemId -> CommandAnswer, disk: ItemId -> DiskAnswer)
  {
    function OnImport(id: ItemId): DeleteSetup { DeleteSetup(moveMode, wired, deleteOnImport(id)) }
    function OnSweep(id: ItemId): DeleteSetup { DeleteSetup(moveMode, wired, deleteOnSweep(id)) }
  }

  datatype Phase = DroppedPhase | HealPhase | SweepPhase | CommandPhase | CleanupPhase

  /** Whether the phase takes up an item whose row and guards read `c`. */
  predicate Wants(ph: Phase, c: Cell, a: PassAnswers) {
    c.row.Some? &&
    match ph
    case DroppedPhase => c.row.value.status == Dropped
    case HealPhase => HealWants(c.row.value)
    case SweepPhase => a.wired && SweepWants(c.row.value)
    case CommandPhase => c.row.value.scanCommand.Some?
    case CleanupPhase => a.cleanupEnabled && c.row.value.status == Imported
  }

  function TurnFor(ph: Phase, id: ItemId, a: PassAnswers): Turn {
    match ph
    case DroppedPhase => CheckDropped(a.droppedHistory(id), a.OnImport(id), a.wall)
    case HealPhase => HealGone(a.healHistory(id), a.OnImport(id), a.wall, a.now)
    case SweepPhase => SweepDelete(a.OnSweep(id), a.now)
    case CommandPhase => PollCommand(a.command(id))
    case CleanupPhase => Cleanup(a.activeJob(id), a.disk(id), a.wall)
  }

  /** Whether the turn makes a request that fails, which ends the whole pass. */
  predicate Aborts(c: Cell, t: Turn) {
    match t
    case CheckImport(queued, history, _, _) => !queued && history.LookupFailed?
    case CheckDropped(history, _, _) => history.LookupFailed?
    case HealGone(history, _, _, now) =>
      c.row.Some? && !HeldBack(c.heal, now) && c.row.value.downloadId.Some? && history.LookupFailed?
    case PollCommand(answer) => answer.PollFailed?
    case _ => false
  }

  /** How far a pass has got: the world, the plays made so far, and whether it is still going. */
  datatype Progress = Progress(world: World, plays: seq<Play>, going: bool)

  function Give(p: Progress, id: ItemId, t: Turn): Progress
    requires p.going && Enabled(CellAt(p.world, id), id, t) && !t.Outside?
  {
    Progress(Played(p.world, Play(id, t)), p.plays + [Play(id, t)], !Aborts(CellAt(p.world, id), t))
  }

  function RunPhase(p: Progress, ph: Phase, ids: seq<ItemId>, a: PassAnswers): Progress
    decreases |ids|
  {
    if !p.going || ids == [] then p else RunPhase(GiveWanted(p, ph, ids[0], a), ph, ids[1..], a)
  }

  function GiveWanted(p: Progress, ph: Phase, id: ItemId, a: PassAnswers): Progress
    requires p.going
  {
    if Wants(ph, CellAt(p.world, id), a) then Give(p, id, TurnFor(ph, id, a)) else p
  }

  /** Commit the matches chosen for the items, in order. */
  function RunMatches(p: Progress, ids: seq<ItemId>, chosen: seq<Option<nat>>, records: seq<QueueRecord>,
                      at: Instant): Progress
    requires |ids| == |chosen|
    requires forall c :: c in chosen && c.Some? ==> c.value < |records|
    decreases |ids|
  {
    if !p.going || ids == [] then p
    else
      assert chosen[0] in chosen && forall c :: c in chosen[1..] ==> c in chosen;
      RunMatches(TakeMatch(p, ids[0], chosen[0], records, at), ids[1..], chosen[1..], records, at)
  }

  function TakeMatch(p: Progress, id: ItemId, choice: Option<nat>, records: seq<QueueRecord>, at: Instant): Progress
    requires p.going && (choice.Some? ==> choice.value < |records|)
  {
    if choice.Some? && Enabled(CellAt(p.world, id), id, MatchItem(records[choice.value].downloadId, at))
    then Give(p, id, MatchItem(records[choice.value].downloadId, at))
    else p
  }

  /** The tracked items of the snapshot: a notify retry where one is due, then the import check. */
  function RunChecks(p: Progress, tracked: seq<ItemId>, records: seq<QueueRecord>, names: NameTest,
                     a: PassAnswers): Progress
    decreases |tracked|
  {
    if !p.going || tracked == [] then p
    else RunChecks(CheckOne(p, tracked[0], records, names, a), tracked[1..], records, names, a)
  }

  function CheckOne(p: Progress, id: ItemId, records: seq<QueueRecord>, names: NameTest, a: PassAnswers): Progress {
    var q := Notify(p, id, a);
    var c := CellAt(q.world, id);
    if q.going && c.row.Some? && Tracked(c.row.value.status) then Give(q, id, CheckFor(id, c, records, names, a)) else q
  }

  function Notify(p: Progress, id: ItemId, a: PassAnswers): Progress {
    var c := CellAt(p.world, id);
    var t := RetryNotify(a.activeJob(id), a.bytesFound(id), a.push(id), a.wall);
    if p.going && c.row.Some? && c.row.value.status == Detected then Give(p, id, t) else p
  }

  function CheckFor(id: ItemId, c: Cell, records: seq<QueueRecord>, names: NameTest, a: PassAnswers): Turn
    requires c.row.Some?
  {
    CheckImport(Lingers(c.row.value, records, names), a.importHistory(id), a.OnImport(id), a.wall)
  }

  function RowsOf(w: World, ids: seq<ItemId>): seq<Row>
    requires forall id :: id in ids ==> CellAt(w, id).row.Some?
  {
    seq(|ids|, k requires 0 <= k < |ids| => CellAt(w, ids[k]).row.value)
  }

  /** The snapshot's tracked items: a row matched during this very pass is not among them. */
  function TrackedOf(w: World, ids: seq<ItemId>): seq<ItemId> {
    if ids == [] then []
    else
      var c := CellAt(w, ids[0]);
      (if c.row.Some? && Tracked(c.row.value.status) then [ids[0]] else []) + TrackedOf(w, ids[1..])
  }

  lemma ChoicesAreRecords(items: seq<Row>, records: seq<QueueRecord>, names: NameTest)
    ensures forall c :: c in Greedy(items, records, {}, names) && c.Some? ==> c.value < |records|
  {
    var chosen := Greedy(items, records, {}, names);
    forall c | c in chosen && c.Some?
      ensures c.value < |records|
    {
      var i :| 0 <= i < |chosen| && chosen[i] == c;
      GreedyChoosesEarliest(items, records, {}, names, i);
    }
  }

  /** `_process_queue` over the queue's top-level rows `ids`. */
  function Pass(w: World, ids: seq<ItemId>, records: seq<QueueRecord>, names: NameTest, a: PassAnswers): Progress
    requires forall id :: id in ids ==> CellAt(w, id).row.Some?
  {
    ChoicesAreRecords(RowsOf(w, ids), records, names);
    var p0 := RunMatches(Progress(w, [], true), ids, Greedy(RowsOf(w, ids), records, {}, names), records, a.wall);
    var p1 := RunChecks(p0, TrackedOf(w, ids), records, names, a);
    var p2 := RunPhase(p1, DroppedPhase, ids, a);
    var p3 := RunPhase(p2, HealPhase, ids, a);
    var p4 := RunPhase(p3, SweepPhase, ids, a);
    var p5 := RunPhase(p4, CommandPhase, ids, a);
    RunPhase(p5, CleanupPhase, ids, a)
  }

  // --- A pass is a run --------------------------------------------------------------------------------

  lemma {:induction false} RunsExtend(w: World, plays: seq<Play>, p: Play)
    requires Runs(w, plays) && CanPlay(After(w, plays), p)
    ensures Runs(w, plays + [p]) && After(w, plays + [p]) == Played(After(w, plays), p)
    decreases |plays|
  {
    if plays == [] {
      assert plays + [p] == [p] && [p][1..] == [];
    } else {
      assert (plays + [p])[0] == plays[0] && (plays + [p])[1..] == plays[1..] + [p];
      RunsExtend(Played(w, plays[0]), plays[1..], p);
    }
  }

  predicate Follows(w: World, p: Progress) { Runs(w, p.plays) && After(w, p.plays) == p.world }

  lemma GiveFollows(w: World, p: Progress, id: ItemId, t: Turn)
    requires Follows(w, p) && p.going && Enabled(CellAt(p.world, id), id, t) && !t.Outside?
    ensures Follows(w, Give(p, id, t))
  {
    RunsExtend(w, p.plays, Play(id, t));
  }

  lemma {:induction false} PhaseFollows(w: World, p: Progress, ph: Phase, ids: seq<ItemId>, a: PassAnswers)
    requires Follows(w, p)
    ensures Follows(w, RunPhase(p, ph, ids, a))
    decreases |ids|
  {
    if p.going && ids != [] {
      var q := GiveWanted(p, ph, ids[0], a);
      if q != p {
        GiveFollows(w, p, ids[0], TurnFor(ph, ids[0], a));
      }
      PhaseFollows(w, q, ph, ids[1..], a);
    }
  }

  lemma {:induction false} MatchesFollow(w: World, p: Progress, ids: seq<ItemId>, chosen: seq<Option<nat>>,
                                         records: seq<QueueRecord>, at: Instant)
    requires |ids| == |chosen| && forall c :: c in chosen && c.Some? ==> c.value < |records|
    requires Follows(w, p)
    ensures Follows(w, RunMatches(p, ids, chosen, records, at))
    decreases |ids|
  {
    if p.going && ids != [] {
      assert chosen[0] in chosen && forall c :: c in chosen[1..] ==> c in chosen;
      var q := TakeMatch(p, ids[0], chosen[0], records, at);
      if q != p {
        GiveFollows(w, p, ids[0], MatchItem(records[chosen[0].value].downloadId, at));
      }
      MatchesFollow(w, q, ids[1..], chosen[1..], records, at);
    }
  }

  lemma {:induction false} ChecksFollow(w: World, p: Progress, tracked: seq<ItemId>, records: seq<QueueRecord>,
                                        names: NameTest, a: PassAnswers)
    requires Follows(w, p)
    ensures Follows(w, RunChecks(p, tracked, records, names, a))
    decreases |tracked|
  {
    if p.going && tracked != [] {
      var id := tracked[0];
      var notified := Notify(p, id, a);
      if notified != p {
        GiveFollows(w, p, id, RetryNotify(a.activeJob(id), a.bytesFound(id), a.push(id), a.wall));
      }
      var checked := CheckOne(p, id, records, names, a);
      if checked != notified {
        GiveFollows(w, notified, id, CheckFor(id, CellAt(notified.world, id), records, names, a));
      }
      ChecksFollow(w, checked, tracked[1..], records, names, a);
    }
  }

  /** Whatever a pass does, it is a run of permitted turns: everything proved of runs holds of passes. */
  lemma PassIsARun(w: World, ids: seq<ItemId>, records: seq<QueueRecord>, names: NameTest, a: PassAnswers)
    requires forall id :: id in ids ==> CellAt(w, id).row.Some?
    ensures Follows(w, Pass(w, ids, records, names, a))
  {
    ChoicesAreRecords(RowsOf(w, ids), records, names);
    var p0 := RunMatches(Progress(w, [], true), ids, Greedy(RowsOf(w, ids), records, {}, names), records, a.wall);
    MatchesFollow(w, Progress(w, [], true), ids, Greedy(RowsOf(w, ids), records, {}, names), records, a.wall);
    var p1 := RunChecks(p0, TrackedOf(w, ids), records, names, a);
    ChecksFollow(w, p0, TrackedOf(w, ids), records, names, a);
    PhaseFollows(w, p1, DroppedPhase, ids, a);
    var p2 := RunPhase(p1, DroppedPhase, ids, a);
    PhaseFollows(w, p2, HealPhase, ids, a);
    var p3 := RunPhase(p2, HealPhase, ids, a);
    PhaseFollows(w, p3, SweepPhase, ids, a);
    var p4 := RunPhase(p3, SweepPhase, ids, a);
    PhaseFollows(w, p4, CommandPhase, ids, a);
    PhaseFollows(w, RunPhase(p4, CommandPhase, ids, a), CleanupPhase, ids, a);
  }
}
