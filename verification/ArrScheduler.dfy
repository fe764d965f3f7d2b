/**
 The poller itself: item rows and in-memory guards updated in place, one method per turn and
 one for a whole pass. Each method is tied to the turn it implements; `Valid` carries the
 agreement with the audit trail from one pass to the next.
 */
module ArrScheduler {
  import opened Common
  import opened RetryBackoff
  import opened ArrLifecycle
  import opened ArrStory
  import opened ArrSafety
  import opened ArrMatching
  import opened ArrOutcomes
  import opened ArrPass
  import opened ArrDuties

  class ArrSyncScheduler {
    var rows: map<ItemId, Row>
    var pending: map<ItemId, Pending>
    var notifyAttempts: map<ItemId, nat>
    var sourceDeleteRetries: map<ItemId, Retry>
    var goneHealRetries: map<ItemId, Retry>
    var scanCommandChecks: map<ItemId, nat>
    ghost var started: map<ItemId, Row>   // the rows found when the process started
    ghost var ids: set<ItemId>            // every id that ever had a row
    ghost var trail: seq<Step>

    function CellOf(i: ItemId): Cell
      reads this
    {
      Cell(Get(rows, i), Get(pending, i), CountAt(notifyAttempts, i),
           Get(sourceDeleteRetries, i), Get(goneHealRetries, i), CountAt(scanCommandChecks, i))
    }

    /** `counts.get(i, 0)` */
    static function CountAt(counts: map<ItemId, nat>, i: ItemId): nat {
      var entry := Get(counts, i);
      if entry.Some? then entry.value else 0
    }

    ghost function Here(): World
      reads this
    {
      World(map i | i in ids :: CellOf(i), trail)
    }

    /** Only ids that ever had a row have entries anywhere. */
    ghost predicate Shaped()
      reads this
    {
      rows.Keys <= ids && forall i :: i !in ids ==> CellOf(i) == EMPTY_CELL
    }

    ghost predicate Valid()
      reads this
    {
      Shaped() && Truthful(started, Here())
    }

    constructor (rows: map<ItemId, Row>)
      ensures Valid() && this.rows == rows && Here() == Start(rows)
    {
      this.rows, pending, notifyAttempts := rows, map[], map[];
      sourceDeleteRetries, goneHealRetries, scanCommandChecks := map[], map[], map[];
      started, ids, trail := rows, rows.Keys, [];
      new;
      assert Here() == Start(rows);
      assert Runs(Start(rows), []);
      EveryRunIsTruthful(rows, []);
    }

    /** Item `id` took these steps since `w` and nothing else happened: that is the play. */
    lemma TurnIsOver(w: World, id: ItemId, t: Turn)
      requires id in w.cells && ids == w.cells.Keys && rows.Keys <= ids && Enabled(CellAt(w, id), id, t) && !t.Outside?
      requires trail == w.trail + TurnSteps(CellAt(w, id), id, t)
      requires CellOf(id) == AfterTurn(CellAt(w, id), id, t)
      requires forall j: ItemId :: j != id ==> CellOf(j) == CellAt(w, j)
      ensures Shaped()
      ensures Here() == Played(w, Play(id, t))
    {
      assert CanPlay(w, Play(id, t));
      TurnEffects(CellAt(w, id), id, t);
      assert Here().cells == Played(w, Play(id, t)).cells;
    }

    // --- Matching and notifying -------------------------------------------------------------------

    method CommitMatch(id: ItemId, downloadId: Option<string>, at: Instant)
      requires id in rows
      modifies `rows, `trail
      ensures CellOf(id) == AfterMatch(old(CellOf(id)), downloadId, at)
      ensures trail == old(trail) + [Matched(id, downloadId, at)]
      ensures rows.Keys == old(rows.Keys)
      ensures forall j: ItemId :: j != id ==> CellOf(j) == old(CellOf(j))
    {
      rows := rows[id := rows[id].(status := Detected, statusAt := at, downloadId := downloadId)];
      trail := trail + [Matched(id, downloadId, at)];
    }

    method MaybeRetryNotify(id: ItemId, activeJob: bool, bytesFound: bool, push: PushAnswer, at: Instant)
      requires id in rows
      modifies `rows, `notifyAttempts, `trail
      ensures CellOf(id) == AfterNotify(old(CellOf(id)), activeJob, bytesFound, push, at)
      ensures trail == old(trail) + NotifyTurn(old(CellOf(id)), id, activeJob, bytesFound, push, at)
      ensures rows.Keys == old(rows.Keys)
      ensures forall j: ItemId :: j != id ==> CellOf(j) == old(CellOf(j))
    {
      ghost var steps: seq<Step> := [];
      var tries := CountAt(notifyAttempts, id);
      if rows[id].state in NOTIFY_READY_STATES && !rows[id].prefixPending
         && tries < MAX_NOTIFY_RETRY_ATTEMPTS && !activeJob && bytesFound {
        match push {
          case PushRejected =>
            notifyAttempts := notifyAttempts[id := tries + 1];
            steps := [PushFailed(id)];
          case NotConfigured =>
            notifyAttempts := Without(notifyAttempts, id);
            steps := [PushNotWanted(id)];
          case PushAccepted(command) =>
            rows := rows[id := rows[id].(status := Notified, statusAt := at, scanCommand := command)];
            notifyAttempts := Without(notifyAttempts, id);
            steps := [Pushed(id, command, at, true)];
        }
      }
      trail := trail + steps;
    }

    // --- The commits and the rung-4 delete ------------------------------------------------------------

    method MaybeDeleteRemoteOnImport(id: ItemId, d: DeleteSetup) returns (resolved: bool)
      requires id in rows
      modifies `rows, `trail
      ensures resolved == DeleteTurn(old(rows)[id], id, d).1
      ensures trail == old(trail) + DeleteTurn(old(rows)[id], id, d).0
      ensures rows == old(rows)[id := AfterDelete(old(rows)[id], d)]
    {
      if !d.moveMode || !d.wired || rows[id].debt.None? || rows[id].remoteDeleted {
        assert trail == trail + [];
        return true;
      }
      if d.answer == NoHost {
        trail := trail + [SourceDeleteWithheld(id)];
        return false;
      }
      resolved := d.answer == DeleteWorks;
      if resolved {
        rows := rows[id := rows[id].(remoteDeleted := true)];
        rows := rows[id := rows[id].(debt := None)];
        trail := trail + [SourceDeleted(id)];
      } else {
        trail := trail + [SourceDeleteFailed(id)];
      }
    }

    method CommitImported(id: ItemId, events: nat, d: DeleteSetup, at: Instant)
      requires id in rows
      modifies `rows, `trail
      ensures trail == old(trail) + ImportTurn(old(rows)[id], id, events, d, at)
      ensures rows == old(rows)[id := AfterImportCommit(old(rows)[id], d, at)]
    {
      rows := rows[id := rows[id].(status := Imported, statusAt := at)];
      trail := trail + [WentImported(id, events, at)];
      var _ := MaybeDeleteRemoteOnImport(id, d);
    }

    // --- Import and removal detection ---------------------------------------------------------------------

    method CheckImportOf(id: ItemId, stillInQueue: bool, history: HistoryAnswer, d: DeleteSetup, at: Instant)
      returns (failed: bool)
      requires id in rows
      modifies `rows, `pending, `trail
      ensures CellOf(id) == AfterCheck(old(CellOf(id)), stillInQueue, history, d, at)
      ensures trail == old(trail) + CheckTurn(old(CellOf(id)), id, stillInQueue, history, d, at)
      ensures rows.Keys == old(rows.Keys)
      ensures forall j: ItemId :: j != id ==> CellOf(j) == old(CellOf(j))
      ensures failed == Aborts(old(CellOf(id)), CheckImport(stillInQueue, history, d, at))
    {
      failed := false;
      if stillInQueue {
        pending := Without(pending, id);
        trail := trail + [StillInQueue(id)];
      } else if history.LookupFailed? {
        failed := true;
        assert trail == trail + [];
      } else {
        var downloadId := rows[id].downloadId;
        var imports := CountImports(history.importFlags);
        var verdict := if imports > 0 then SawImport else SawNothing;
        if id in pending && pending[id].verdict == verdict && pending[id].downloadId == downloadId {
          pending := Without(pending, id);
          trail := trail + [Checked(id, verdict, downloadId, imports, true)];
          if verdict == SawImport {
            CommitImported(id, |history.importFlags|, d, at);
          } else {
            rows := rows[id := rows[id].(status := Dropped, statusAt := at)];
            trail := trail + [WentDropped(id, at)];
          }
        } else {
          pending := pending[id := Pending(verdict, downloadId)];
          trail := trail + [Checked(id, verdict, downloadId, imports, false)];
        }
      }
    }

    method CheckOneDroppedItem(id: ItemId, history: HistoryAnswer, d: DeleteSetup, at: Instant) returns (failed: bool)
      requires id in rows
      modifies `rows, `trail
      ensures CellOf(id) == AfterRecheck(old(CellOf(id)), history, d, at)
      ensures trail == old(trail) + DroppedTurn(old(CellOf(id)), id, history, d, at)
      ensures rows.Keys == old(rows.Keys)
      ensures forall j: ItemId :: j != id ==> CellOf(j) == old(CellOf(j))
      ensures failed == history.LookupFailed?
    {
      failed := history.LookupFailed?;
      if failed {
        assert trail == trail + [];
      } else {
        var imports := CountImports(history.importFlags);
        trail := trail + [Rechecked(id, imports)];
        if imports > 0 {
          CommitImported(id, |history.importFlags|, d, at);
        } else if at - rows[id].statusAt >= DROPPED_GONE_GRACE_S {
          rows := rows[id := rows[id].(status := Gone, statusAt := at)];
          trail := trail + [WentGone(id, at)];
        }
      }
    }

    // --- The bounded sweeps --------------------------------------------------------------------------------

    method HealOneGoneRow(id: ItemId, history: HistoryAnswer, d: DeleteSetup, at: Instant, now: Instant)
      returns (failed: bool)
      requires id in rows
      modifies `rows, `goneHealRetries, `trail
      ensures CellOf(id) == AfterHeal(old(CellOf(id)), history, d, at, now)
      ensures trail == old(trail) + HealTurn(old(CellOf(id)), id, history, d, at, now)
      ensures rows.Keys == old(rows.Keys)
      ensures forall j: ItemId :: j != id ==> CellOf(j) == old(CellOf(j))
      ensures failed == Aborts(old(CellOf(id)), HealGone(history, d, at, now))
    {
      failed := false;
      var known := id in goneHealRetries;
      if known && (goneHealRetries[id].paused || now < goneHealRetries[id].nextAttemptAt) {
        assert trail == trail + [];
      } else if rows[id].downloadId.Some? && history.LookupFailed? {
        failed := true;
        assert trail == trail + [];
      } else {
        var imports := if rows[id].downloadId.None? then 0 else CountImports(history.importFlags);
        trail := trail + [HealTried(id, now, imports)];
        if imports > 0 {
          goneHealRetries := Without(goneHealRetries, id);
          CommitImported(id, |history.importFlags|, d, at);
        } else {
          var attempts := (if known then goneHealRetries[id].attempts else 0) + 1;
          if attempts >= MAX_GONE_HEAL_ATTEMPTS {
            goneHealRetries := goneHealRetries[id := Retry(attempts, now, true)];
            trail := trail + [HealGaveUp(id)];
          } else {
            goneHealRetries := goneHealRetries[id := Retry(attempts, now + DelayAfter(attempts), false)];
          }
        }
      }
    }

    method RetryStrandedSourceDelete(id: ItemId, d: DeleteSetup, now: Instant)
      requires id in rows
      modifies `rows, `sourceDeleteRetries, `trail
      ensures CellOf(id) == AfterSweep(old(CellOf(id)), id, d, now)
      ensures trail == old(trail) + SweepTurn(old(CellOf(id)), id, d, now)
      ensures rows.Keys == old(rows.Keys)
      ensures forall j: ItemId :: j != id ==> CellOf(j) == old(CellOf(j))
    {
      var known := id in sourceDeleteRetries;
      if known && (sourceDeleteRetries[id].paused || now < sourceDeleteRetries[id].nextAttemptAt) {
        assert trail == trail + [];
      } else {
        var ok := MaybeDeleteRemoteOnImport(id, d);
        trail := trail + [SweepTried(id, now, ok)];
        if ok {
          sourceDeleteRetries := Without(sourceDeleteRetries, id);
        } else {
          var attempts := (if known then sourceDeleteRetries[id].attempts else 0) + 1;
          if attempts >= MAX_SOURCE_DELETE_RETRY_ATTEMPTS {
            sourceDeleteRetries := sourceDeleteRetries[id := Retry(attempts, now, true)];
            trail := trail + [SweepPaused(id)];
          } else {
            sourceDeleteRetries := sourceDeleteRetries[id := Retry(attempts, now + DelayAfter(attempts), false)];
          }
        }
      }
    }

    // --- Scan commands and cleanup -----------------------------------------------------------------------------

    method CheckOneScanCommand(id: ItemId, answer: CommandAnswer) returns (failed: bool)
      requires id in rows
      modifies `rows, `scanCommandChecks, `trail
      ensures CellOf(id) == AfterPoll(old(CellOf(id)), answer)
      ensures trail == old(trail) + CommandTurn(old(CellOf(id)), id, answer)
      ensures rows.Keys == old(rows.Keys)
      ensures forall j: ItemId :: j != id ==> CellOf(j) == old(CellOf(j))
      ensures failed == answer.PollFailed?
    {
      failed := answer.PollFailed?;
      if failed {
        assert trail == trail + [];
        return;
      }
      var attempts := CountAt(scanCommandChecks, id) + 1;
      if answer.outcome == StillRunning && attempts < MAX_SCAN_COMMAND_CHECK_ATTEMPTS {
        scanCommandChecks := scanCommandChecks[id := attempts];
        trail := trail + [CommandPolled(id, StillRunning, false)];
        return;
      }
      rows := rows[id := rows[id].(scanCommand := None)];
      scanCommandChecks := Without(scanCommandChecks, id);
      trail := trail + [CommandPolled(id, answer.outcome, answer.outcome == StillRunning)];
      if answer.outcome == CommandFailed {
        trail := trail + [CommandReportedFailed(id)];
      }
    }

    method MaybeCleanup(id: ItemId, activeJob: bool, disk: DiskAnswer, at: Instant)
      requires id in rows
      modifies `rows, `trail
      ensures CellOf(id) == AfterCleanup(old(CellOf(id)), activeJob, disk, at)
      ensures trail == old(trail) + CleanupTurn(old(CellOf(id)), id, activeJob, disk, at)
      ensures rows.Keys == old(rows.Keys)
      ensures forall j: ItemId :: j != id ==> CellOf(j) == old(CellOf(j))
    {
      if rows[id].debt.Some? || rows[id].state == Corrupt || activeJob {
        trail := trail + [CleanupWithheld(id)];
        return;
      }
      rows := rows[id := rows[id].(suppressed := true)];
      trail := trail + [SuppressionSet(id)];
      if disk == RemovalFails || disk == RemovalWorks {
        trail := trail + [LocalRemoved(id, activeJob, disk == RemovalWorks)];
      }
      if disk == Refused || disk == RemovalFails {
        trail := trail + [CleanupWithheld(id)];
        return;
      }
      rows := rows[id := rows[id].(status := Cleaned, statusAt := at)];
      trail := trail + [WentCleaned(id, at)];
    }

    // --- One turn, of whatever kind ------------------------------------------------------------------------------

    method TakeTurn(id: ItemId, t: Turn) returns (failed: bool)
      requires Shaped() && id in rows && Enabled(CellOf(id), id, t) && !t.Outside?
      modifies `rows, `pending, `notifyAttempts, `sourceDeleteRetries, `goneHealRetries, `scanCommandChecks, `trail
      ensures Shaped() && rows.Keys == old(rows.Keys)
      ensures Here() == Played(old(Here()), Play(id, t))
      ensures failed == Aborts(old(CellOf(id)), t)
    {
      ghost var w := Here();
      assert CellAt(w, id) == CellOf(id);
      failed := false;
      match t {
        case MatchItem(downloadId, at) => CommitMatch(id, downloadId, at);
        case RetryNotify(job, found, push, at) => MaybeRetryNotify(id, job, found, push, at);
        case CheckImport(lingers, history, d, at) => failed := CheckImportOf(id, lingers, history, d, at);
        case CheckDropped(history, d, at) => failed := CheckOneDroppedItem(id, history, d, at);
        case HealGone(history, d, at, now) => failed := HealOneGoneRow(id, history, d, at, now);
        case SweepDelete(d, now) => RetryStrandedSourceDelete(id, d, now);
        case PollCommand(answer) => failed := CheckOneScanCommand(id, answer);
        case Cleanup(job, disk, at) => MaybeCleanup(id, job, disk, at);
      }
      TurnIsOver(w, id, t);
    }

    /** Between passes, another component writes a row of the same table: the guards do not notice. */
    method NoteWriteByOther(id: ItemId, e: Step)
      requires Valid() && CanPlay(Here(), Play(id, Outside(e)))
      modifies `rows, `ids, `trail
      ensures Valid() && Here() == Played(old(Here()), Play(id, Outside(e)))
    {
      ghost var w := Here();
      WriteRow(id, RowAfter(Get(rows, id), e), e);
      WriteIsPlayed(w, id, e);
      TurnKeepsTruth(started, w, Play(id, Outside(e)));
    }

    method WriteRow(id: ItemId, row: Option<Row>, e: Step)
      requires Shaped()
      modifies `rows, `ids, `trail
      ensures CellOf(id) == old(CellOf(id)).(row := row) && ids == old(ids) + {id} && trail == old(trail) + [e]
      ensures Shaped() && forall j: ItemId :: j != id ==> CellOf(j) == old(CellOf(j))
    {
      rows := if row.Some? then rows[id := row.value] else Without(rows, id);
      ids := ids + {id};
      trail := trail + [e];
    }

    lemma WriteIsPlayed(w: World, id: ItemId, e: Step)
      requires CanPlay(w, Play(id, Outside(e)))
      requires CellOf(id) == CellAt(w, id).(row := RowAfter(CellAt(w, id).row, e))
      requires ids == w.cells.Keys + {id} && trail == w.trail + [e]
      requires forall j: ItemId :: j != id ==> CellOf(j) == CellAt(w, j)
      ensures Here() == Played(w, Play(id, Outside(e)))
    {
      OneEffect(CellAt(w, id), e);
      assert Here().cells == Played(w, Play(id, Outside(e))).cells;
    }

    // --- One pass over one queue ---------------------------------------------------------------------------------

    /** `_process_queue`, over the queue's top-level rows in row order. */
    method ProcessQueue(queueIds: seq<ItemId>, records: seq<QueueRecord>, names: NameTest, a: PassAnswers)
      returns (finished: bool, ghost plays: seq<Play>)
      requires Valid() && forall id :: id in queueIds ==> id in rows
      requires forall i, j :: 0 <= i < j < |queueIds| ==> queueIds[i] != queueIds[j]
      modifies this
      ensures Valid() && started == old(started) && ids == old(ids) && rows.Keys == old(rows.Keys)
      ensures forall id :: id in queueIds ==> CellAt(old(Here()), id).row.Some?
      ensures Pass(old(Here()), queueIds, records, names, a) == Progress(Here(), plays, finished)
      ensures Runs(old(Here()), plays) && After(old(Here()), plays) == Here()
      ensures Dutiful(old(Here()), queueIds, records, names, a, plays, finished)
    {
      ghost var w := Here();
      ghost var p;
      finished, p := GiveTurns(queueIds, records, names, a);
      plays := p.plays;
      PassDoesAll(started, w, queueIds, records, names, a);
    }

    method GiveTurns(queueIds: seq<ItemId>, records: seq<QueueRecord>, names: NameTest, a: PassAnswers)
      returns (going: bool, ghost p: Progress)
      requires Shaped() && forall id :: id in queueIds ==> id in rows && CellAt(Here(), id).row.Some?
      requires forall i, j :: 0 <= i < j < |queueIds| ==> queueIds[i] != queueIds[j]
      modifies `rows, `pending, `notifyAttempts, `sourceDeleteRetries, `goneHealRetries, `scanCommandChecks, `trail
      ensures Shaped() && rows.Keys == old(rows.Keys) && p.world == Here() && p.going == going
      ensures p == Pass(old(Here()), queueIds, records, names, a)
    {
      var items, tracked := Snapshot(queueIds);
      var chosen := MatchItems(items, records, names);
      ChoicesAreRecords(items, records, names);
      p := CommitMatches(queueIds, items, chosen, records, names, a);
      going, p := CheckTracked(p, tracked, records, names, a);
      if going {
        going, p := GivePhase(DroppedPhase, p, queueIds, a);
      }
      if going {
        going, p := GivePhase(HealPhase, p, queueIds, a);
      }
      UnwantedPhase(p, SweepPhase, queueIds, a);
      if going && a.wired {
        going, p := GivePhase(SweepPhase, p, queueIds, a);
      }
      if going {
        going, p := GivePhase(CommandPhase, p, queueIds, a);
      }
      UnwantedPhase(p, CleanupPhase, queueIds, a);
      if going && a.cleanupEnabled {
        going, p := GivePhase(CleanupPhase, p, queueIds, a);
      }
    }

    /** The rows as they read before anything is matched, and which of them are tracked. */
    method Snapshot(queueIds: seq<ItemId>) returns (items: seq<Row>, tracked: seq<ItemId>)
      requires Shaped() && forall id :: id in queueIds ==> id in rows && CellAt(Here(), id).row.Some?
      ensures items == RowsOf(Here(), queueIds) && tracked == TrackedOf(Here(), queueIds)
      ensures forall k :: 0 <= k < |queueIds| ==> queueIds[k] in rows && rows[queueIds[k]] == items[k]
      ensures forall id :: id in tracked ==> id in rows
    {
      items, tracked := [], [];
      var k := |queueIds|;
      while k > 0
        invariant 0 <= k <= |queueIds| && |items| == |queueIds| - k
        invariant forall m :: k <= m < |queueIds| ==> queueIds[m] in rows && items[m - k] == rows[queueIds[m]]
        invariant tracked == TrackedOf(Here(), queueIds[k..])
        invariant forall id :: id in tracked ==> id in rows
      {
        k := k - 1;
        assert queueIds[k] in queueIds && queueIds[k..][1..] == queueIds[k + 1..];
        items := [rows[queueIds[k]]] + items;
        if Tracked(rows[queueIds[k]].status) {
          tracked := [queueIds[k]] + tracked;
        }
      }
      assert queueIds[0..] == queueIds;
    }

    method CommitMatches(queueIds: seq<ItemId>, items: seq<Row>, chosen: seq<Option<nat>>,
                         records: seq<QueueRecord>, names: NameTest, a: PassAnswers)
      returns (ghost p: Progress)
      requires Shaped() && |items| == |queueIds|
      requires forall k :: 0 <= k < |queueIds| ==> queueIds[k] in rows && rows[queueIds[k]] == items[k]
      requires forall i, j :: 0 <= i < j < |queueIds| ==> queueIds[i] != queueIds[j]
      requires chosen == Greedy(items, records, {}, names)
      requires forall c :: c in chosen && c.Some? ==> c.value < |records|
      modifies `rows, `pending, `notifyAttempts, `sourceDeleteRetries, `goneHealRetries, `scanCommandChecks, `trail
      ensures Shaped() && rows.Keys == old(rows.Keys) && p.world == Here() && p.going
      ensures p == RunMatches(Progress(old(Here()), [], true), queueIds, chosen, records, a.wall)
    {
      p := Progress(Here(), [], true);
      ghost var p0 := p;
      var k := 0;
      while k < |queueIds|
        invariant 0 <= k <= |queueIds|
        invariant Shaped() && rows.Keys == old(rows.Keys) && p.world == Here() && p.going
        invariant forall m :: k <= m < |queueIds| ==> rows[queueIds[m]] == items[m]
        invariant forall c :: c in chosen[k..] && c.Some? ==> c.value < |records|
        invariant RunMatches(p0, queueIds, chosen, records, a.wall)
               == RunMatches(p, queueIds[k..], chosen[k..], records, a.wall)
      {
        MatchesGoOn(p, queueIds, chosen, k, records, a.wall);
        if chosen[k].Some? {
          assert chosen[k] in chosen[k..];
          ChoiceIsEnabled(CellOf(queueIds[k]), queueIds[k], items, records, names, k, a.wall);
          p := CommitMatchOf(queueIds[k], chosen[k].value, records, a.wall, p);
        }
        k := k + 1;
      }
      assert queueIds[|queueIds|..] == [];
    }

    /** A match commit, which leaves every other row as it was. */
    method CommitMatchOf(id: ItemId, choice: nat, records: seq<QueueRecord>, at: Instant, ghost p: Progress)
      returns (ghost q: Progress)
      requires Shaped() && id in rows && p.world == Here() && p.going && choice < |records|
      requires Enabled(CellOf(id), id, MatchItem(records[choice].downloadId, at))
      modifies `rows, `pending, `notifyAttempts, `sourceDeleteRetries, `goneHealRetries, `scanCommandChecks, `trail
      ensures Shaped() && rows.Keys == old(rows.Keys) && q.world == Here() && q.going
      ensures q == TakeMatch(p, id, Some(choice), records, at)
      ensures forall j :: j in rows && j != id ==> rows[j] == old(rows)[j]
    {
      ghost var t := MatchItem(records[choice].downloadId, at);
      CommitMatch(id, records[choice].downloadId, at);
      forall j | j in rows && j != id
        ensures rows[j] == old(rows)[j]
      {
        assert CellOf(j) == old(CellOf(j));
      }
      TurnIsOver(p.world, id, t);
      q := Give(p, id, t);
    }

    /** Give one item a turn, keeping account of how far the pass has got. */
    method GiveOne(id: ItemId, t: Turn, ghost p: Progress) returns (going: bool, ghost q: Progress)
      requires Shaped() && id in rows && p.world == Here() && p.going
      requires Enabled(CellOf(id), id, t) && !t.Outside?
      modifies `rows, `pending, `notifyAttempts, `sourceDeleteRetries, `goneHealRetries, `scanCommandChecks, `trail
      ensures Shaped() && rows.Keys == old(rows.Keys) && q.world == Here() && q.going == going
      ensures Enabled(CellAt(p.world, id), id, t) && q == Give(p, id, t)
    {
      var failed := TakeTurn(id, t);
      going := !failed;
      q := Give(p, id, t);
    }

    method CheckTracked(ghost p: Progress, tracked: seq<ItemId>, records: seq<QueueRecord>, names: NameTest,
                        a: PassAnswers)
      returns (going: bool, ghost q: Progress)
      requires Shaped() && p.world == Here() && p.going && forall id :: id in tracked ==> id in rows
      modifies `rows, `pending, `notifyAttempts, `sourceDeleteRetries, `goneHealRetries, `scanCommandChecks, `trail
      ensures Shaped() && rows.Keys == old(rows.Keys) && q.world == Here() && q.going == going
      ensures q == RunChecks(p, tracked, records, names, a)
    {
      going, q := true, p;
      var k := 0;
      while k < |tracked| && going
        invariant 0 <= k <= |tracked|
        invariant Shaped() && rows.Keys == old(rows.Keys) && q.world == Here() && q.going == going
        invariant RunChecks(p, tracked, records, names, a) == RunChecks(q, tracked[k..], records, names, a)
      {
        assert tracked[k..][1..] == tracked[k + 1..];
        going, q := NotifyAndCheck(tracked[k], records, names, a, q);
        k := k + 1;
      }
      assert going ==> tracked[k..] == [];
    }

    method NotifyAndCheck(id: ItemId, records: seq<QueueRecord>, names: NameTest, a: PassAnswers, ghost p: Progress)
      returns (going: bool, ghost q: Progress)
      requires Shaped() && p.world == Here() && p.going && id in rows
      modifies `rows, `pending, `notifyAttempts, `sourceDeleteRetries, `goneHealRetries, `scanCommandChecks, `trail
      ensures Shaped() && rows.Keys == old(rows.Keys) && q.world == Here() && q.going == going
      ensures q == CheckOne(p, id, records, names, a)
    {
      going, q := true, p;
      if rows[id].status == Detected {
        going, q := GiveOne(id, RetryNotify(a.activeJob(id), a.bytesFound(id), a.push(id), a.wall), p);
      }
      assert q == Notify(p, id, a) && going;
      if Tracked(rows[id].status) {
        var check := CheckImport(Lingers(rows[id], records, names), a.importHistory(id), a.OnImport(id), a.wall);
        going, q := GiveOne(id, check, q);
      }
    }

    /** One of the later phases: every wanted item gets its turn, until a request fails. */
    method GivePhase(ph: Phase, ghost p: Progress, queueIds: seq<ItemId>, a: PassAnswers)
      returns (going: bool, ghost q: Progress)
      requires Shaped() && p.world == Here() && p.going && forall id :: id in queueIds ==> id in rows
      modifies `rows, `pending, `notifyAttempts, `sourceDeleteRetries, `goneHealRetries, `scanCommandChecks, `trail
      ensures Shaped() && rows.Keys == old(rows.Keys) && q.world == Here() && q.going == going
      ensures q == RunPhase(p, ph, queueIds, a)
    {
      going, q := true, p;
      var k := 0;
      while k < |queueIds| && going
        invariant 0 <= k <= |queueIds|
        invariant Shaped() && rows.Keys == old(rows.Keys) && q.world == Here() && q.going == going
        invariant RunPhase(p, ph, queueIds, a) == RunPhase(q, ph, queueIds[k..], a)
      {
        PhaseGoesOn(q, ph, queueIds, k, a);
        going, q := GiveIfWanted(ph, queueIds[k], a, q);
        k := k + 1;
      }
    }

    method GiveIfWanted(ph: Phase, id: ItemId, a: PassAnswers, ghost p: Progress)
      returns (going: bool, ghost q: Progress)
      requires Shaped() && p.world == Here() && p.going && id in rows
      modifies `rows, `pending, `notifyAttempts, `sourceDeleteRetries, `goneHealRetries, `scanCommandChecks, `trail
      ensures Shaped() && rows.Keys == old(rows.Keys) && q.world == Here() && q.going == going
      ensures q == GiveWanted(p, ph, id, a)
    {
      going, q := true, p;
      if Wants(ph, CellOf(id), a) {
        going, q := GiveOne(id, TurnFor(ph, id, a), p);
      }
    }
  }

  /** What the matching chooses for an item may be committed. */
  lemma ChoiceIsEnabled(c: Cell, id: ItemId, items: seq<Row>, records: seq<QueueRecord>, names: NameTest, k: nat,
                        at: Instant)
    requires k < |items| && c.row == Some(items[k])
    requires |Greedy(items, records, {}, names)| == |items| && Greedy(items, records, {}, names)[k].Some?
    ensures var choice := Greedy(items, records, {}, names)[k].value;
            choice < |records| && Enabled(c, id, MatchItem(records[choice].downloadId, at))
  {
    GreedyChoosesEarliest(items, records, {}, names, k);
  }

  /** All that is proved of a pass. */
  lemma PassDoesAll(rows: map<ItemId, Row>, w: World, ids: seq<ItemId>, records: seq<QueueRecord>, names: NameTest,
                    a: PassAnswers)
    requires Truthful(rows, w) && Distinct(ids) && forall id :: id in ids ==> CellAt(w, id).row.Some?
    ensures var p := Pass(w, ids, records, names, a);
            && Runs(w, p.plays) && After(w, p.plays) == p.world && Truthful(rows, p.world)
            && Dutiful(w, ids, records, names, a, p.plays, p.going)
  {
    PassIsARun(w, ids, records, names, a);
    PassIsDutiful(w, ids, records, names, a);
    RunKeepsTruth(rows, w, Pass(w, ids, records, names, a).plays);
  }

  lemma MatchesGoOn(p: Progress, ids: seq<ItemId>, chosen: seq<Option<nat>>, k: nat, records: seq<QueueRecord>,
                    at: Instant)
    requires p.going && k < |ids| == |chosen| && forall c :: c in chosen[k..] && c.Some? ==> c.value < |records|
    ensures chosen[k] in chosen[k..] && forall c :: c in chosen[k + 1..] && c.Some? ==> c.value < |records|
    ensures RunMatches(p, ids[k..], chosen[k..], records, at)
         == RunMatches(TakeMatch(p, ids[k], chosen[k], records, at), ids[k + 1..], chosen[k + 1..], records, at)
  {
    assert chosen[k..] == [chosen[k]] + chosen[k + 1..];
    assert chosen[k..][1..] == chosen[k + 1..] && ids[k..][1..] == ids[k + 1..];
  }

  lemma PhaseGoesOn(p: Progress, ph: Phase, ids: seq<ItemId>, k: nat, a: PassAnswers)
    requires p.going && k < |ids|
    ensures RunPhase(p, ph, ids[k..], a) == RunPhase(GiveWanted(p, ph, ids[k], a), ph, ids[k + 1..], a)
  {
    assert ids[k..][1..] == ids[k + 1..];
  }

  /** A phase the pass skips would have wanted nothing. */
  lemma {:induction false} UnwantedPhase(p: Progress, ph: Phase, ids: seq<ItemId>, a: PassAnswers)
    ensures !p.going || (ph == SweepPhase && !a.wired) || (ph == CleanupPhase && !a.cleanupEnabled)
            ==> RunPhase(p, ph, ids, a) == p
    decreases |ids|
  {
    if p.going && ids != [] {
      UnwantedPhase(p, ph, ids[1..], a);
    }
  }
}
