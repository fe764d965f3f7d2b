/**
 What each turn of the poller decides, after any run: the status its item ends in, what becomes of
 the debt and of both copies, and whether a retry was due.

 The rows are read as they stand, the guards through the trail: how many attempts failed in a row,
 and when the last one was made.
 */
module ArrVerdicts {
  import opened Common
  import opened RetryBackoff
  import opened ArrLifecycle
  import opened ArrStory
  import opened ArrSafety
  import opened ArrOutcomes

  // --- The guards, read off the trail -----------------------------------------------------------------------

  /** When item `i` was last swept, or looked up to be healed. */
  function LastSwept(trail: seq<Step>, i: ItemId): Instant {
    if trail == [] then 0
    else
      var e := trail[|trail| - 1];
      if e.id == i && e.SweepTried? then e.at else LastSwept(trail[..|trail| - 1], i)
  }

  function LastHealed(trail: seq<Step>, i: ItemId): Instant {
    if trail == [] then 0
    else
      var e := trail[|trail| - 1];
      if e.id == i && e.HealTried? then e.at else LastHealed(trail[..|trail| - 1], i)
  }

  /** Pushes by the poller that failed one after another. */
  function FailedPushes(trail: seq<Step>, i: ItemId): nat {
    if trail == [] then 0
    else
      var (e, before) := (trail[|trail| - 1], FailedPushes(trail[..|trail| - 1], i));
      if e.id == i && e.PushFailed? then before + 1
      else if e.id == i && (e.PushNotWanted? || (e.Pushed? && e.byPoller)) then 0
      else before
  }

  /** Polls in a row that found a scan command still running. */
  function RunningPolls(trail: seq<Step>, i: ItemId): nat {
    if trail == [] then 0
    else
      var (e, before) := (trail[|trail| - 1], RunningPolls(trail[..|trail| - 1], i));
      if e.id == i && e.CommandPolled? then (if e.outcome == StillRunning && !e.gaveUp then before + 1 else 0)
      else before
  }

  lemma {:induction false} TimesAreTold(rows: map<ItemId, Row>, trail: seq<Step>, i: ItemId)
    ensures var st := Tell(rows, trail, i);
            && (st.sweeps.tries > 0 ==> st.sweeps.triedAt == LastSwept(trail, i))
            && (st.heals.tries > 0 ==> st.heals.triedAt == LastHealed(trail, i))
  {
    if trail != [] {
      TimesAreTold(rows, trail[..|trail| - 1], i);
    }
  }

  lemma StepCounts(trail: seq<Step>, c: Cell, e: Step)
    requires Possible(c, e) && c.pushes == FailedPushes(trail, e.id) && c.polls == RunningPolls(trail, e.id)
    ensures Effect(c, e).pushes == FailedPushes(trail + [e], e.id)
            && Effect(c, e).polls == RunningPolls(trail + [e], e.id)
  {
    assert (trail + [e])[..|trail|] == trail;
  }

  lemma {:induction false} CountsExtend(trail: seq<Step>, c: Cell, st: Story, id: ItemId, steps: seq<Step>)
    requires Allowed(c, st, id, steps)
    requires c.pushes == FailedPushes(trail, id) && c.polls == RunningPolls(trail, id)
    ensures var end := Effects(c, steps);
            end.pushes == FailedPushes(trail + steps, id) && end.polls == RunningPolls(trail + steps, id)
    decreases |steps|
  {
    if steps == [] {
      assert trail + steps == trail;
    } else {
      var e := steps[0];
      StepCounts(trail, c, e);
      CountsExtend(trail + [e], Effect(c, e), Advance(st, e), id, steps[1..]);
      assert trail + [e] + steps[1..] == trail + steps;
    }
  }

  lemma {:induction false} OthersKeepCount(trail: seq<Step>, steps: seq<Step>, j: ItemId)
    requires forall e :: e in steps ==> e.id != j
    ensures FailedPushes(trail + steps, j) == FailedPushes(trail, j)
    ensures RunningPolls(trail + steps, j) == RunningPolls(trail, j)
  {
    if steps == [] {
      assert trail + steps == trail;
    } else {
      var n := |steps| - 1;
      assert steps[n] in steps && (trail + steps)[..|trail| + n] == trail + steps[..n];
      OthersKeepCount(trail, steps[..n], j);
    }
  }

  lemma {:induction false} AllOfItem(c: Cell, st: Story, id: ItemId, steps: seq<Step>)
    requires Allowed(c, st, id, steps)
    ensures forall e :: e in steps ==> e.id == id
    decreases |steps|
  {
    if steps != [] {
      AllOfItem(Effect(c, steps[0]), Advance(st, steps[0]), id, steps[1..]);
      assert steps == [steps[0]] + steps[1..];
    }
  }

  lemma PlayIsCounted(rows: map<ItemId, Row>, w: World, p: Play)
    requires Truthful(rows, w) && Counted(w) && CanPlay(w, p)
    ensures Counted(Played(w, p))
  {
    var c := CellAt(w, p.id);
    var (st, steps) := (Tell(rows, w.trail, p.id), TurnSteps(c, p.id, p.turn));
    TurnIsAllowed(c, st, p.id, p.turn);
    CountsExtend(w.trail, c, st, p.id, steps);
    AllOfItem(c, st, p.id, steps);
    forall i
      ensures CellAt(Played(w, p), i).pushes == FailedPushes(Played(w, p).trail, i)
      ensures CellAt(Played(w, p), i).polls == RunningPolls(Played(w, p).trail, i)
    {
      if i != p.id {
        OthersKeepCount(w.trail, steps, i);
      }
    }
  }

  ghost predicate Counted(w: World) {
    forall i :: CellAt(w, i).pushes == FailedPushes(w.trail, i) && CellAt(w, i).polls == RunningPolls(w.trail, i)
  }

  lemma {:induction false} RunsAreCounted(rows: map<ItemId, Row>, w: World, plays: seq<Play>)
    requires Truthful(rows, w) && Counted(w) && Runs(w, plays)
    ensures Counted(After(w, plays))
    decreases |plays|
  {
    if plays != [] {
      PlayIsCounted(rows, w, plays[0]);
      TurnKeepsTruth(rows, w, plays[0]);
      RunsAreCounted(rows, Played(w, plays[0]), plays[1..]);
    }
  }

  /** Whether a retry that failed `tries` times in a row, last at `at`, may be tried again. */
  predicate Ready(tries: nat, at: Instant, limit: nat, now: Instant) {
    tries == 0 || (tries < limit && now >= at + DelayAfter(tries))
  }

  /** After any run the guards hold back exactly the retries that are not ready by the trail. */
  lemma GuardsReadTheTrail(rows: map<ItemId, Row>, plays: seq<Play>, i: ItemId, now: Instant)
    requires Runs(Start(rows), plays)
    ensures var w := After(Start(rows), plays);
            var c := CellAt(w, i);
            && (!HeldBack(c.sweep, now) <==> Ready(SweepStreak(w.trail, i), LastSwept(w.trail, i), 5, now))
            && (!HeldBack(c.heal, now) <==> Ready(HealStreak(w.trail, i), LastHealed(w.trail, i), 10, now))
            && c.pushes == FailedPushes(w.trail, i) && c.polls == RunningPolls(w.trail, i)
  {
    var w := After(Start(rows), plays);
    EveryRunIsTruthful(rows, plays);
    EveryRunIsTruthful(rows, []);
    RunsAreCounted(rows, Start(rows), plays);
    assert Agrees(CellAt(w, i), Tell(rows, w.trail, i)) && AtRest(Tell(rows, w.trail, i));
    StreaksAreTold(rows, w.trail, i);
    TimesAreTold(rows, w.trail, i);
  }

  // --- One turn of a run -----------------------------------------------------------------------------------------

  /** The item, before and after its turn. */
  lemma TurnOfRun(rows: map<ItemId, Row>, plays: seq<Play>, id: ItemId, t: Turn) returns (w: World, v: World)
    requires Runs(Start(rows), plays) && Enabled(CellAt(After(Start(rows), plays), id), id, t) && !t.Outside?
    ensures w == After(Start(rows), plays) && v == Played(w, Play(id, t))
    ensures CellAt(v, id) == AfterTurn(CellAt(w, id), id, t)
    ensures v.trail == w.trail + TurnSteps(CellAt(w, id), id, t)
    ensures forall j :: j != id ==> CellAt(v, j) == CellAt(w, j)
  {
    w := After(Start(rows), plays);
    v := Played(w, Play(id, t));
    TurnEffects(CellAt(w, id), id, t);
  }

  /** The source is deleted now: the queue moves, the process can, it is owed, it is there, and the host agrees. */
  predicate Deletes(row: Row, d: DeleteSetup) {
    d.moveMode && d.wired && row.debt.Some? && !row.remoteDeleted && d.answer == DeleteWorks
  }

  /** What an import commit leaves of a row, its one attempt at the source included. */
  predicate ImportCommitted(row: Row, end: Row, d: DeleteSetup, at: Instant) {
    && end.status == Imported && end.statusAt == at
    && end.remoteDeleted == (row.remoteDeleted || Deletes(row, d))
    && end.debt == (if Deletes(row, d) then None else row.debt)
    && end == row.(status := end.status, statusAt := end.statusAt, remoteDeleted := end.remoteDeleted, debt := end.debt)
  }

  /** A dropped item is imported as soon as a lookup shows an import, is gone once it has been dropped for six
      hours and a lookup shows none, and else stays as it is. */
  lemma DroppedItemGoes(rows: map<ItemId, Row>, plays: seq<Play>, id: ItemId, history: HistoryAnswer,
                        d: DeleteSetup, at: Instant) returns (j: int, t0: Instant)
    requires Runs(Start(rows), plays)
    requires var c := CellAt(After(Start(rows), plays), id); c.row.Some? && c.row.value.status == Dropped
    ensures var w := After(Start(rows), plays);
            var row := CellAt(w, id).row.value;
            var end := CellAt(Played(w, Play(id, CheckDropped(history, d, at))), id).row;
            && DroppedSince(rows, w.trail, id, j, t0) && end.Some?
            && if history.History? && true in history.importFlags then ImportCommitted(row, end.value, d, at)
               else if history.History? && at - t0 >= 21600 then end.value == row.(status := Gone, statusAt := at)
               else end.value == row
  {
    var w, v := TurnOfRun(rows, plays, id, CheckDropped(history, d, at));
    j, t0 := DroppedWhen(rows, plays, id);
    if history.History? {
      AnyImportCounts(history.importFlags);
    }
  }

  /** Where the time in a dropped row comes from. */
  lemma DroppedWhen(rows: map<ItemId, Row>, plays: seq<Play>, id: ItemId) returns (j: int, t0: Instant)
    requires Runs(Start(rows), plays)
    requires var c := CellAt(After(Start(rows), plays), id); c.row.Some? && c.row.value.status == Dropped
    ensures var w := After(Start(rows), plays);
            DroppedSince(rows, w.trail, id, j, t0) && t0 == CellAt(w, id).row.value.statusAt
  {
    EveryRunIsTruthful(rows, plays);
    var w := After(Start(rows), plays);
    assert Agrees(CellAt(w, id), Tell(rows, w.trail, id));
    t0 := Tell(rows, w.trail, id).facts.statusAt;
    j := DroppedGoesBack(rows, w.trail, id);
  }

  /** A gone item that owes its source is looked up when its retry is ready, imported if the lookup shows an
      import, and one attempt is used up otherwise; one that has no download id is not looked up at all. */
  lemma GoneItemHeals(rows: map<ItemId, Row>, plays: seq<Play>, id: ItemId, history: HistoryAnswer,
                      d: DeleteSetup, at: Instant, now: Instant)
    requires Runs(Start(rows), plays)
    requires var c := CellAt(After(Start(rows), plays), id);
             c.row.Some? && c.row.value.status == Gone && c.row.value.debt.Some? && !c.row.value.remoteDeleted
    ensures var w := After(Start(rows), plays);
            var v := Played(w, Play(id, HealGone(history, d, at, now)));
            var (row, end) := (CellAt(w, id).row.value, CellAt(v, id).row);
            var tries := HealStreak(w.trail, id);
            var ready := Ready(tries, LastHealed(w.trail, id), 10, now);
            var answered := row.downloadId.None? || history.History?;
            var healed := row.downloadId.Some? && history.History? && true in history.importFlags;
            && end.Some?
            && (if ready && healed then ImportCommitted(row, end.value, d, at) else end.value == row)
            && HealStreak(v.trail, id) == (if !ready || !answered then tries else if healed then 0 else tries + 1)
  {
    var w, v := TurnOfRun(rows, plays, id, HealGone(history, d, at, now));
    GuardsReadTheTrail(rows, plays, id, now);
    if history.History? {
      AnyImportCounts(history.importFlags);
    }
    HealsCount(w.trail, CellAt(w, id), id, history, d, at, now);
  }

  lemma {:induction false} DeletesAreNoAttempts(trail: seq<Step>, steps: seq<Step>, id: ItemId)
    requires forall e :: e in steps ==> !e.HealTried? && !e.SweepTried?
    ensures HealStreak(trail + steps, id) == HealStreak(trail, id)
    ensures SweepStreak(trail + steps, id) == SweepStreak(trail, id)
  {
    if steps == [] {
      assert trail + steps == trail;
    } else {
      var n := |steps| - 1;
      assert steps[n] in steps && (trail + steps)[..|trail| + n] == trail + steps[..n];
      DeletesAreNoAttempts(trail, steps[..n], id);
    }
  }

  lemma HealsCount(trail: seq<Step>, c: Cell, id: ItemId, history: HistoryAnswer, d: DeleteSetup, at: Instant,
                   now: Instant)
    requires c.row.Some?
    ensures var steps := HealTurn(c, id, history, d, at, now);
            HealStreak(trail + steps, id)
            == if steps == [] then HealStreak(trail, id)
               else if steps[0].HealTried? && steps[0].imports > 0 then 0 else HealStreak(trail, id) + 1
    ensures var steps := HealTurn(c, id, history, d, at, now);
            steps != [] ==> steps[0].HealTried?
  {
    var steps := HealTurn(c, id, history, d, at, now);
    if steps == [] {
      assert trail + steps == trail;
    } else {
      var rest := steps[1..];
      assert (trail + [steps[0]])[..|trail|] == trail;
      DeletesAreNoAttempts(trail + [steps[0]], rest, id);
      assert trail + [steps[0]] + rest == trail + steps;
    }
  }

  /** A sweep that is ready deletes the source it can delete; otherwise it changes nothing in the row, and
      counts as failed only where the delete was tried, or wanted a host, in move mode. */
  lemma OwedSourceIsSwept(rows: map<ItemId, Row>, plays: seq<Play>, id: ItemId, d: DeleteSetup, now: Instant)
    requires Runs(Start(rows), plays)
    requires var c := CellAt(After(Start(rows), plays), id);
             && c.row.Some? && c.row.value.status in {Imported, Cleaned}
             && c.row.value.debt.Some? && !c.row.value.remoteDeleted
    ensures var w := After(Start(rows), plays);
            var v := Played(w, Play(id, SweepDelete(d, now)));
            var (row, end) := (CellAt(w, id).row.value, CellAt(v, id).row);
            var tries := SweepStreak(w.trail, id);
            var ready := Ready(tries, LastSwept(w.trail, id), 5, now);
            var fails := d.moveMode && d.wired && d.answer != DeleteWorks;
            && end == Some(if ready && Deletes(row, d) then row.(remoteDeleted := true, debt := None) else row)
            && SweepStreak(v.trail, id) == (if !ready then tries else if fails then tries + 1 else 0)
  {
    var w, v := TurnOfRun(rows, plays, id, SweepDelete(d, now));
    GuardsReadTheTrail(rows, plays, id, now);
    SweepsCount(w.trail, CellAt(w, id), id, d, now);
  }

  lemma SweepsCount(trail: seq<Step>, c: Cell, id: ItemId, d: DeleteSetup, now: Instant)
    requires c.row.Some?
    ensures SweepStreak(trail + SweepTurn(c, id, d, now), id)
         == if HeldBack(c.sweep, now) then SweepStreak(trail, id)
            else if DeleteTurn(c.row.value, id, d).1 then 0 else SweepStreak(trail, id) + 1
  {
    var steps := SweepTurn(c, id, d, now);
    if HeldBack(c.sweep, now) {
      assert trail + steps == trail;
    } else {
      var (del, ok) := DeleteTurn(c.row.value, id, d);
      var e := SweepTried(id, now, ok);
      var rest := if !ok && Exhausted(c.sweep, MAX_SOURCE_DELETE_RETRY_ATTEMPTS) then [SweepPaused(id)] else [];
      DeletesAreNoAttempts(trail, del, id);
      assert (trail + del + [e])[..|trail + del|] == trail + del;
      DeletesAreNoAttempts(trail + del + [e], rest, id);
      assert trail + del + [e] + rest == trail + steps;
    }
  }

  /** The turn made this step. */
  predicate Took(w: World, v: World, e: Step) {
    |w.trail| <= |v.trail| && e in v.trail[|w.trail|..]
  }

  /** An imported item that owes nothing, is not corrupt and has no job is suppressed, its bytes are removed
      if there are any and nothing refuses, and it is cleaned if none are left; any other is left alone. */
  lemma ImportedItemIsCleaned(rows: map<ItemId, Row>, plays: seq<Play>, id: ItemId, activeJob: bool, disk: DiskAnswer,
                              at: Instant)
    requires Runs(Start(rows), plays)
    requires var c := CellAt(After(Start(rows), plays), id); c.row.Some? && c.row.value.status == Imported
    ensures var w := After(Start(rows), plays);
            var v := Played(w, Play(id, Cleanup(activeJob, disk, at)));
            var (row, end) := (CellAt(w, id).row.value, CellAt(v, id).row);
            var allowed := row.debt.None? && row.state != Corrupt && !activeJob;
            && end == Some(if !allowed then row
                           else if disk in {NothingOnDisk, RemovalWorks}
                           then row.(suppressed := true, status := Cleaned, statusAt := at)
                           else row.(suppressed := true))
            && ((exists complete :: Took(w, v, LocalRemoved(id, activeJob, complete)))
                <==> allowed && disk in {RemovalFails, RemovalWorks})
            && (Took(w, v, CleanupWithheld(id)) <==> !allowed || disk in {Refused, RemovalFails})
  {
    var w, v := TurnOfRun(rows, plays, id, Cleanup(activeJob, disk, at));
    var steps := CleanupTurn(CellAt(w, id), id, activeJob, disk, at);
    assert v.trail[|w.trail|..] == steps;
    CleanupSteps(CellAt(w, id), id, activeJob, disk, at);
  }

  lemma CleanupSteps(c: Cell, id: ItemId, activeJob: bool, disk: DiskAnswer, at: Instant)
    requires c.row.Some?
    ensures var steps := CleanupTurn(c, id, activeJob, disk, at);
            var allowed := c.row.value.debt.None? && c.row.value.state != Corrupt && !activeJob;
            && ((exists complete :: LocalRemoved(id, activeJob, complete) in steps)
                <==> allowed && disk in {RemovalFails, RemovalWorks})
            && (CleanupWithheld(id) in steps <==> !allowed || disk in {Refused, RemovalFails})
  {
    var steps := CleanupTurn(c, id, activeJob, disk, at);
    if c.row.value.debt.None? && c.row.value.state != Corrupt && !activeJob {
      match disk {
        case NothingOnDisk => assert steps == [SuppressionSet(id), WentCleaned(id, at)];
        case Refused => assert steps == [SuppressionSet(id), CleanupWithheld(id)];
        case RemovalFails =>
          assert steps == [SuppressionSet(id), LocalRemoved(id, activeJob, false), CleanupWithheld(id)];
        case RemovalWorks =>
          assert steps == [SuppressionSet(id), LocalRemoved(id, activeJob, true), WentCleaned(id, at)];
      }
    }
  }

  /** A scan command is forgotten once it is no longer running, or at the fifth poll that finds it running; a
      failed one is reported. */
  lemma CommandIsFollowed(rows: map<ItemId, Row>, plays: seq<Play>, id: ItemId, answer: CommandAnswer)
    requires Runs(Start(rows), plays)
    requires var c := CellAt(After(Start(rows), plays), id); c.row.Some? && c.row.value.scanCommand.Some?
    ensures var w := After(Start(rows), plays);
            var v := Played(w, Play(id, PollCommand(answer)));
            var (row, end) := (CellAt(w, id).row.value, CellAt(v, id).row);
            var running := answer == Polled(StillRunning);
            && end == Some(if answer == PollFailed || (running && RunningPolls(w.trail, id) < 4) then row
                           else row.(scanCommand := None))
            && (Took(w, v, CommandReportedFailed(id)) <==> answer == Polled(CommandFailed))
  {
    var w, v := TurnOfRun(rows, plays, id, PollCommand(answer));
    GuardsReadTheTrail(rows, plays, id, 0);
    assert v.trail[|w.trail|..] == CommandTurn(CellAt(w, id), id, answer);
  }

  /** A detected item is pushed when its content is ready and in place, nothing is working on it, and fewer
      than five pushes in a row have failed; it is notified when the push is accepted. */
  lemma DetectedItemIsPushed(rows: map<ItemId, Row>, plays: seq<Play>, id: ItemId, activeJob: bool, bytesFound: bool,
                             push: PushAnswer, at: Instant)
    requires Runs(Start(rows), plays)
    requires var c := CellAt(After(Start(rows), plays), id); c.row.Some? && c.row.value.status == Detected
    ensures var w := After(Start(rows), plays);
            var v := Played(w, Play(id, RetryNotify(activeJob, bytesFound, push, at)));
            var (row, end) := (CellAt(w, id).row.value, CellAt(v, id).row);
            var tries := FailedPushes(w.trail, id);
            var pushed := row.state in {Downloaded, ItemState.Verified, Extracted} && !row.prefixPending && !activeJob
                          && bytesFound && tries < 5;
            && end == Some(if pushed && push.PushAccepted?
                           then row.(status := ArrStatus.Notified, statusAt := at, scanCommand := push.command)
                           else row)
            && CellAt(v, id).pushes == (if !pushed then tries else if push.PushRejected? then tries + 1 else 0)
  {
    var w, v := TurnOfRun(rows, plays, id, RetryNotify(activeJob, bytesFound, push, at));
    GuardsReadTheTrail(rows, plays, id, 0);
  }

  /** What an import check leaves of its row, besides the status. */
  lemma CheckedItemReads(rows: map<ItemId, Row>, plays: seq<Play>, id: ItemId, queued: bool, history: HistoryAnswer,
                         d: DeleteSetup, at: Instant)
    requires Runs(Start(rows), plays)
    requires var c := CellAt(After(Start(rows), plays), id);
             c.row.Some? && c.row.value.status in {Detected, ArrStatus.Notified}
    ensures var w := After(Start(rows), plays);
            var (row, end) := (CellAt(w, id).row.value,
                               CellAt(Played(w, Play(id, CheckImport(queued, history, d, at))), id).row);
            && end.Some?
            && (if end.value.status == Imported then ImportCommitted(row, end.value, d, at)
                else if end.value.status == Dropped then end.value == row.(status := Dropped, statusAt := at)
                else end.value == row)
  {
    var w, v := TurnOfRun(rows, plays, id, CheckImport(queued, history, d, at));
  }

  /** A match starts the association over under the record's download id. */
  lemma MatchedItemReads(rows: map<ItemId, Row>, plays: seq<Play>, id: ItemId, downloadId: Option<string>, at: Instant)
    requires Runs(Start(rows), plays) && Enabled(CellAt(After(Start(rows), plays), id), id, MatchItem(downloadId, at))
    ensures var w := After(Start(rows), plays);
            CellAt(Played(w, Play(id, MatchItem(downloadId, at))), id).row
            == Some(CellAt(w, id).row.value.(status := Detected, statusAt := at, downloadId := downloadId))
  {
    var w, v := TurnOfRun(rows, plays, id, MatchItem(downloadId, at));
  }
}
