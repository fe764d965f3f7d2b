/**
 What each turn leaves of its item, in closed form: the row and the guards it ends with, without
 going through the steps one by one.
 */
module ArrOutcomes {
  import opened Common
  import opened RetryBackoff
  import opened ArrLifecycle

  /** The row after its rung-4 delete attempt. */
  function AfterDelete(row: Row, d: DeleteSetup): Row {
    if d.moveMode && d.wired && OwesSource(row) && d.answer == DeleteWorks
    then row.(remoteDeleted := true, debt := None)
    else row
  }

  lemma OneEffect(c: Cell, e: Step)
    requires Possible(c, e)
    ensures Effects(c, [e]) == Effect(c, e)
  {
  }

  lemma TwoEffects(c: Cell, e: Step, f: Step)
    requires Possible(c, e) && Possible(Effect(c, e), f)
    ensures Effects(c, [e, f]) == Effects(c, [e] + [f]) == Effect(Effect(c, e), f)
  {
    OneEffect(Effect(c, e), f);
    assert [e] + [f] == [e, f];
  }

  lemma DeleteEffects(c: Cell, id: ItemId, d: DeleteSetup)
    requires c.row.Some?
    ensures Effects(c, DeleteTurn(c.row.value, id, d).0) == c.(row := Some(AfterDelete(c.row.value, d)))
  {
  }

  lemma ImportEffects(c: Cell, id: ItemId, events: nat, d: DeleteSetup, at: Instant)
    requires c.row.Some?
    ensures Effects(c, ImportTurn(c.row.value, id, events, d, at))
            == c.(row := Some(AfterImportCommit(c.row.value, d, at)))
  {
    var e := WentImported(id, events, at);
    var c' := Effect(c, e);
    assert DeleteTurn(c'.row.value, id, d) == DeleteTurn(c.row.value, id, d);
    DeleteEffects(c', id, d);
  }

  function AfterImportCommit(row: Row, d: DeleteSetup, at: Instant): Row {
    AfterDelete(row.(status := Imported, statusAt := at), d)
  }

  /** What an import check leaves of its item. */
  function AfterCheck(c: Cell, lingers: bool, history: HistoryAnswer, d: DeleteSetup, at: Instant): Cell
    requires c.row.Some?
  {
    if lingers then c.(pending := None)
    else if history.LookupFailed? then c
    else
      var row := c.row.value;
      var imports := CountImports(history.importFlags);
      var now := Pending(if imports > 0 then SawImport else SawNothing, row.downloadId);
      if c.pending != Some(now) then c.(pending := Some(now))
      else if imports > 0 then c.(pending := None, row := Some(AfterImportCommit(row, d, at)))
      else c.(pending := None, row := Some(row.(status := Dropped, statusAt := at)))
  }

  lemma CheckEffects(c: Cell, id: ItemId, lingers: bool, history: HistoryAnswer, d: DeleteSetup, at: Instant)
    requires c.row.Some?
    ensures Effects(c, CheckTurn(c, id, lingers, history, d, at)) == AfterCheck(c, lingers, history, d, at)
  {
    if lingers {
      OneEffect(c, StillInQueue(id));
    } else if history.History? {
      var e := CheckTurn(c, id, lingers, history, d, at)[0];
      var c' := Effect(c, e);
      if !e.confirmed {
      } else if e.imports > 0 {
        ImportEffects(c', id, |history.importFlags|, d, at);
      } else {
        TwoEffects(c, e, WentDropped(id, at));
      }
    }
  }

  function AfterRecheck(c: Cell, history: HistoryAnswer, d: DeleteSetup, at: Instant): Cell
    requires c.row.Some?
  {
    if history.LookupFailed? then c
    else if CountImports(history.importFlags) > 0 then c.(row := Some(AfterImportCommit(c.row.value, d, at)))
    else if at - c.row.value.statusAt >= DROPPED_GONE_GRACE_S
    then c.(row := Some(c.row.value.(status := Gone, statusAt := at)))
    else c
  }

  lemma DroppedEffects(c: Cell, id: ItemId, history: HistoryAnswer, d: DeleteSetup, at: Instant)
    requires c.row.Some?
    ensures Effects(c, DroppedTurn(c, id, history, d, at)) == AfterRecheck(c, history, d, at)
  {
    if history.History? {
      var imports := CountImports(history.importFlags);
      var e := Rechecked(id, imports);
      if imports > 0 {
        ImportEffects(c, id, |history.importFlags|, d, at);
      } else if at - c.row.value.statusAt >= DROPPED_GONE_GRACE_S {
        TwoEffects(c, e, WentGone(id, at));
      } else {
      }
    }
  }

  /** The entry a failed attempt of a bounded retry leaves behind. */
  function FailedEntry(retry: Option<Retry>, limit: nat, now: Instant): Retry {
    var n := (if retry.Some? then retry.value.attempts else 0) + 1;
    if n >= limit then Retry(n, now, true) else Retry(n, now + DelayAfter(n), false)
  }

  function AfterHeal(c: Cell, history: HistoryAnswer, d: DeleteSetup, at: Instant, now: Instant): Cell
    requires c.row.Some?
  {
    if HeldBack(c.heal, now) || (c.row.value.downloadId.Some? && history.LookupFailed?) then c
    else
      var imports := if c.row.value.downloadId.None? then 0 else CountImports(history.importFlags);
      if imports > 0 then c.(heal := None, row := Some(AfterImportCommit(c.row.value, d, at)))
      else c.(heal := Some(FailedEntry(c.heal, MAX_GONE_HEAL_ATTEMPTS, now)))
  }

  lemma HealEffects(c: Cell, id: ItemId, history: HistoryAnswer, d: DeleteSetup, at: Instant, now: Instant)
    requires c.row.Some?
    ensures Effects(c, HealTurn(c, id, history, d, at, now)) == AfterHeal(c, history, d, at, now)
  {
    if !HeldBack(c.heal, now) && (c.row.value.downloadId.Some? ==> history.History?) {
      var imports := if c.row.value.downloadId.None? then 0 else CountImports(history.importFlags);
      var e := HealTried(id, now, imports);
      var c' := Effect(c, e);
      if imports > 0 {
        ImportEffects(c', id, |history.importFlags|, d, at);
      } else if Exhausted(c.heal, MAX_GONE_HEAL_ATTEMPTS) {
        TwoEffects(c, e, HealGaveUp(id));
      } else {
      }
    }
  }

  lemma SweepTailEffects(c: Cell, id: ItemId, ok: bool, now: Instant)
    requires c.row.Some?
    ensures Effects(c, [SweepTried(id, now, ok)]
                       + (if !ok && Exhausted(c.sweep, MAX_SOURCE_DELETE_RETRY_ATTEMPTS)
                          then [SweepPaused(id)] else []))
         == c.(sweep := if ok then None else Some(FailedEntry(c.sweep, MAX_SOURCE_DELETE_RETRY_ATTEMPTS, now)))
  {
    var e := SweepTried(id, now, ok);
    if !ok && Exhausted(c.sweep, MAX_SOURCE_DELETE_RETRY_ATTEMPTS) {
      TwoEffects(c, e, SweepPaused(id));
    } else {
    }
  }

  function AfterSweep(c: Cell, id: ItemId, d: DeleteSetup, now: Instant): Cell
    requires c.row.Some?
  {
    if HeldBack(c.sweep, now) then c
    else c.(row := Some(AfterDelete(c.row.value, d)),
            sweep := if DeleteTurn(c.row.value, id, d).1 then None
                     else Some(FailedEntry(c.sweep, MAX_SOURCE_DELETE_RETRY_ATTEMPTS, now)))
  }

  lemma SweepEffects(c: Cell, id: ItemId, d: DeleteSetup, now: Instant)
    requires c.row.Some?
    ensures Effects(c, SweepTurn(c, id, d, now)) == AfterSweep(c, id, d, now)
  {
    if !HeldBack(c.sweep, now) {
      var (del, ok) := DeleteTurn(c.row.value, id, d);
      var tail := [SweepTried(id, now, ok)]
                  + (if !ok && Exhausted(c.sweep, MAX_SOURCE_DELETE_RETRY_ATTEMPTS) then [SweepPaused(id)] else []);
      var c' := c.(row := Some(AfterDelete(c.row.value, d)));
      DeleteEffects(c, id, d);
      SweepTailEffects(c', id, ok, now);
      if del == [] {
        assert SweepTurn(c, id, d, now) == tail;
      } else {
        assert SweepTurn(c, id, d, now) == [del[0]] + tail;
        OneEffect(c, del[0]);
        assert del == [del[0]];
      }
    }
  }

  lemma PolledEffect(c: Cell, id: ItemId, outcome: CommandOutcome, gaveUp: bool)
    requires c.row.Some? && (gaveUp ==> outcome == StillRunning)
    ensures Effect(c, CommandPolled(id, outcome, gaveUp)) ==
            if outcome == StillRunning && !gaveUp then c.(polls := c.polls + 1)
            else c.(row := Some(c.row.value.(scanCommand := None)), polls := 0)
  {
  }

  function AfterPoll(c: Cell, answer: CommandAnswer): Cell
    requires c.row.Some?
  {
    if answer.PollFailed? then c
    else if answer.outcome == StillRunning && c.polls + 1 < MAX_SCAN_COMMAND_CHECK_ATTEMPTS
    then c.(polls := c.polls + 1)
    else c.(row := Some(c.row.value.(scanCommand := None)), polls := 0)
  }

  lemma CommandEffects(c: Cell, id: ItemId, answer: CommandAnswer)
    requires c.row.Some?
    ensures Effects(c, CommandTurn(c, id, answer)) == AfterPoll(c, answer)
  {
    if answer.Polled? {
      var gaveUp := answer.outcome == StillRunning && c.polls + 1 >= MAX_SCAN_COMMAND_CHECK_ATTEMPTS;
      var e := CommandPolled(id, answer.outcome, gaveUp);
      PolledEffect(c, id, answer.outcome, gaveUp);
      if answer.outcome == CommandFailed {
        OneEffect(Effect(c, e), CommandReportedFailed(id));
      } else {
      }
    }
  }

  lemma CleanupTailEffects(c: Cell, id: ItemId, activeJob: bool, disk: DiskAnswer, at: Instant)
    requires c.row.Some?
    ensures Effects(c, CleanupTail(id, activeJob, disk, at)) ==
            if disk == NothingOnDisk || disk == RemovalWorks then SetStatusOf(c, Cleaned, at) else c
  {
    match disk {
      case NothingOnDisk => OneEffect(c, WentCleaned(id, at));
      case Refused => OneEffect(c, CleanupWithheld(id));
      case RemovalFails =>
        TwoEffects(c, LocalRemoved(id, activeJob, false), CleanupWithheld(id));
      case RemovalWorks =>
        TwoEffects(c, LocalRemoved(id, activeJob, true), WentCleaned(id, at));
    }
  }

  function SetStatusOf(c: Cell, status: ArrStatus, at: Instant): Cell
    requires c.row.Some?
  {
    c.(row := Some(c.row.value.(status := status, statusAt := at)))
  }

  function AfterCleanup(c: Cell, activeJob: bool, disk: DiskAnswer, at: Instant): Cell
    requires c.row.Some?
  {
    if c.row.value.debt.Some? || c.row.value.state == Corrupt || activeJob then c
    else
      var c' := c.(row := Some(c.row.value.(suppressed := true)));
      if disk == NothingOnDisk || disk == RemovalWorks then SetStatusOf(c', Cleaned, at) else c'
  }

  lemma CleanupEffects(c: Cell, id: ItemId, activeJob: bool, disk: DiskAnswer, at: Instant)
    requires c.row.Some?
    ensures Effects(c, CleanupTurn(c, id, activeJob, disk, at)) == AfterCleanup(c, activeJob, disk, at)
  {
    if c.row.value.debt.Some? || c.row.value.state == Corrupt || activeJob {
      OneEffect(c, CleanupWithheld(id));
    } else {
      var e := SuppressionSet(id);
      CleanupTailEffects(Effect(c, e), id, activeJob, disk, at);
    }
  }

  function AfterMatch(c: Cell, downloadId: Option<string>, at: Instant): Cell
    requires c.row.Some?
  {
    c.(row := Some(c.row.value.(status := Detected, statusAt := at, downloadId := downloadId)))
  }

  function AfterNotify(c: Cell, activeJob: bool, bytesFound: bool, push: PushAnswer, at: Instant): Cell
    requires c.row.Some?
  {
    var row := c.row.value;
    if row.state !in NOTIFY_READY_STATES || row.prefixPending || c.pushes >= MAX_NOTIFY_RETRY_ATTEMPTS
       || activeJob || !bytesFound then c
    else
      match push
      case PushRejected => c.(pushes := c.pushes + 1)
      case NotConfigured => c.(pushes := 0)
      case PushAccepted(command) =>
        c.(row := Some(row.(status := Notified, statusAt := at, scanCommand := command)), pushes := 0)
  }

  lemma NotifyEffects(c: Cell, id: ItemId, activeJob: bool, bytesFound: bool, push: PushAnswer, at: Instant)
    requires c.row.Some? && c.row.value.status == Detected
    ensures Effects(c, NotifyTurn(c, id, activeJob, bytesFound, push, at))
            == AfterNotify(c, activeJob, bytesFound, push, at)
  {
  }

  function AfterTurn(c: Cell, id: ItemId, t: Turn): Cell
    requires Enabled(c, id, t) && !t.Outside?
  {
    match t
    case MatchItem(downloadId, at) => AfterMatch(c, downloadId, at)
    case RetryNotify(job, found, push, at) => AfterNotify(c, job, found, push, at)
    case CheckImport(lingers, history, d, at) => AfterCheck(c, lingers, history, d, at)
    case CheckDropped(history, d, at) => AfterRecheck(c, history, d, at)
    case HealGone(history, d, at, now) => AfterHeal(c, history, d, at, now)
    case SweepDelete(d, now) => AfterSweep(c, id, d, now)
    case PollCommand(answer) => AfterPoll(c, answer)
    case Cleanup(job, disk, at) => AfterCleanup(c, job, disk, at)
  }

  /** Taking a turn's steps one by one ends where the closed form says. */
  lemma TurnEffects(c: Cell, id: ItemId, t: Turn)
    requires Enabled(c, id, t) && !t.Outside?
    ensures Effects(c, TurnSteps(c, id, t)) == AfterTurn(c, id, t)
  {
    match t {
      case MatchItem(downloadId, at) => OneEffect(c, Matched(id, downloadId, at));
      case RetryNotify(job, found, push, at) => NotifyEffects(c, id, job, found, push, at);
      case CheckImport(lingers, history, d, at) => CheckEffects(c, id, lingers, history, d, at);
      case CheckDropped(history, d, at) => DroppedEffects(c, id, history, d, at);
      case HealGone(history, d, at, now) => HealEffects(c, id, history, d, at, now);
      case SweepDelete(d, now) => SweepEffects(c, id, d, now);
      case PollCommand(answer) => CommandEffects(c, id, answer);
      case Cleanup(job, disk, at) => CleanupEffects(c, id, job, disk, at);
    }
  }
}
