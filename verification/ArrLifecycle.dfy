/**
 The *arr association lifecycle: the item rows the poller watches, its in-memory guards, the
 effect of each audited step on them, and, for each kind of turn one item gets inside a poll
 pass, the steps that turn takes.

 A turn is atomic. Everything outside the poller (the *arr's answers, the remote delete, the
 disk, the clock, other writers of the row) is an input or a step of its own.
 */
module ArrLifecycle {
  import opened Common
  import opened RetryBackoff

  type ItemId = nat
  type Instant = int

  const DROPPED_GONE_GRACE_S := 6 * 3600
  const MAX_NOTIFY_RETRY_ATTEMPTS := 5
  const MAX_SCAN_COMMAND_CHECK_ATTEMPTS := 5
  const MAX_SOURCE_DELETE_RETRY_ATTEMPTS := 5
  const MAX_GONE_HEAL_ATTEMPTS := 10
  const NOTIFY_READY_STATES := {Downloaded, ItemState.Verified, Extracted}

  datatype ArrStatus = Untracked | Detected | Notified | Imported | Dropped | Gone | Cleaned

  /** `_TRACKED_STATES`: still being watched for import. */
  predicate Tracked(status: ArrStatus) { status == Detected || status == Notified }

  /** `_REMATCHABLE_STATES`: settled, restarted only by a different download id. */
  predicate Rematchable(status: ArrStatus) { status == Gone || status == Cleaned }

  /** May a queue record be matched to a row of this status at all? */
  predicate Matchable(status: ArrStatus) { status == Untracked || Rematchable(status) || status == Dropped }

  datatype VerifyEvidence = WasVerified | WasSkipped

  /** The columns of one top-level `item` row that the poller reads or writes. */
  datatype Row = Row(
    queueId: int, relPath: string,
    status: ArrStatus, statusAt: Instant, downloadId: Option<string>,
    state: ItemState, prefixPending: bool,
    debt: Option<VerifyEvidence>,   // remote_delete_pending
    remoteDeleted: bool,            // remote_deleted_at is set
    suppressed: bool,               // auto_queue_suppressed
    scanCommand: Option<int>)

  /** A confirmable reading of one completed import check. */
  datatype Verdict = SawImport | SawNothing
  datatype Pending = Pending(verdict: Verdict, downloadId: Option<string>)

  /** One entry of `_source_delete_retries` or `_gone_heal_retries`. */
  datatype Retry = Retry(attempts: nat, nextAttemptAt: Instant, paused: bool)

  datatype CommandOutcome = Missing | StillRunning | Completed | CommandFailed

  /** One audited step. The last group is taken by writers other than the poller. */
  datatype Step =
    | Matched(id: ItemId, downloadId: Option<string>, at: Instant)
    | Pushed(id: ItemId, command: Option<int>, at: Instant, byPoller: bool)
    | PushFailed(id: ItemId)
    | PushNotWanted(id: ItemId)
    | StillInQueue(id: ItemId)
    | Checked(id: ItemId, verdict: Verdict, downloadId: Option<string>, imports: nat, confirmed: bool)
    | WentDropped(id: ItemId, at: Instant)
    | Rechecked(id: ItemId, imports: nat)
    | WentImported(id: ItemId, events: nat, at: Instant)   // all history events, as the audit message says
    | WentGone(id: ItemId, at: Instant)
    | SourceDeleted(id: ItemId)
    | SourceDeleteFailed(id: ItemId)
    | SourceDeleteWithheld(id: ItemId)
    | SweepTried(id: ItemId, at: Instant, ok: bool)
    | SweepPaused(id: ItemId)
    | HealTried(id: ItemId, at: Instant, imports: nat)
    | HealGaveUp(id: ItemId)
    | SuppressionSet(id: ItemId)
    | LocalRemoved(id: ItemId, activeJob: bool, complete: bool)
    | CleanupWithheld(id: ItemId)
    | WentCleaned(id: ItemId, at: Instant)
    | CommandPolled(id: ItemId, outcome: CommandOutcome, gaveUp: bool)
    | CommandReportedFailed(id: ItemId)
    // Other writers.
    | RowAdded(id: ItemId, row: Row)
    | RowRemoved(id: ItemId)
    | RowEdited(id: ItemId, state: ItemState, prefixPending: bool, suppressed: bool)
    | DebtRecorded(id: ItemId, evidence: VerifyEvidence)
    | DebtDropped(id: ItemId)
    | SourceGoneElsewhere(id: ItemId)

  predicate ByOther(e: Step) {
    e.RowAdded? || e.RowRemoved? || e.RowEdited? || e.DebtRecorded? || e.DebtDropped?
    || e.SourceGoneElsewhere? || (e.Pushed? && !e.byPoller)
  }

  /** One item's row together with its entry in every guard map. */
  datatype Cell = Cell(
    row: Option<Row>,
    pending: Option<Pending>,
    pushes: nat,               // _notify_attempts
    sweep: Option<Retry>,      // _source_delete_retries
    heal: Option<Retry>,       // _gone_heal_retries
    polls: nat)                // _scan_command_checks

  predicate Possible(c: Cell, e: Step) { !e.RowAdded? ==> c.row.Some? }

  /** One more failure of a bounded retry. */
  function NextRetry(prior: Option<Retry>, at: Instant, limit: nat): Retry {
    var n := (if prior.Some? then prior.value.attempts else 0) + 1;
    Retry(n, if n >= limit then at else at + DelayAfter(n), false)
  }

  function Pause(retry: Option<Retry>): Option<Retry> {
    if retry.Some? then Some(retry.value.(paused := true)) else None
  }

  /** The row after a step; steps that are only recorded leave it alone. */
  function RowAfter(row: Option<Row>, e: Step): Option<Row>
    requires !e.RowAdded? ==> row.Some?
  {
    match e
    case Matched(_, d, at) => Some(row.value.(status := Detected, statusAt := at, downloadId := d))
    case Pushed(_, k, at, _) => Some(row.value.(status := Notified, statusAt := at, scanCommand := k))
    case WentDropped(_, at) => Some(row.value.(status := Dropped, statusAt := at))
    case WentImported(_, _, at) => Some(row.value.(status := Imported, statusAt := at))
    case WentGone(_, at) => Some(row.value.(status := Gone, statusAt := at))
    case WentCleaned(_, at) => Some(row.value.(status := Cleaned, statusAt := at))
    case SourceDeleted(_) => Some(row.value.(remoteDeleted := true, debt := None))
    case SuppressionSet(_) => Some(row.value.(suppressed := true))
    case CommandPolled(_, outcome, gaveUp) =>
      if outcome == StillRunning && !gaveUp then row else Some(row.value.(scanCommand := None))
    case RowAdded(_, newRow) => Some(newRow)
    case RowRemoved(_) => None
    case RowEdited(_, state, prefix, suppressed) =>
      Some(row.value.(state := state, prefixPending := prefix, suppressed := suppressed))
    case DebtRecorded(_, v) => Some(row.value.(debt := Some(v)))
    case DebtDropped(_) => Some(row.value.(debt := None))
    case SourceGoneElsewhere(_) => Some(row.value.(remoteDeleted := true))
    case _ => row
  }

  function PendingAfter(pending: Option<Pending>, e: Step): Option<Pending> {
    if e.StillInQueue? then None
    else if e.Checked? then (if e.confirmed then None else Some(Pending(e.verdict, e.downloadId)))
    else pending
  }

  function PushesAfter(pushes: nat, e: Step): nat {
    if e.PushFailed? then pushes + 1
    else if e.PushNotWanted? || (e.Pushed? && e.byPoller) then 0
    else pushes
  }

  function SweepAfter(sweep: Option<Retry>, e: Step): Option<Retry> {
    if e.SweepTried? then (if e.ok then None else Some(NextRetry(sweep, e.at, MAX_SOURCE_DELETE_RETRY_ATTEMPTS)))
    else if e.SweepPaused? then Pause(sweep)
    else sweep
  }

  function HealAfter(heal: Option<Retry>, e: Step): Option<Retry> {
    if e.HealTried? then (if e.imports > 0 then None else Some(NextRetry(heal, e.at, MAX_GONE_HEAL_ATTEMPTS)))
    else if e.HealGaveUp? then Pause(heal)
    else heal
  }

  function PollsAfter(polls: nat, e: Step): nat {
    if e.CommandPolled? then (if e.outcome == StillRunning && !e.gaveUp then polls + 1 else 0) else polls
  }

  /** What one step does to its item's row and guards. */
  function Effect(c: Cell, e: Step): Cell
    requires Possible(c, e)
  {
    Cell(RowAfter(c.row, e), PendingAfter(c.pending, e), PushesAfter(c.pushes, e),
         SweepAfter(c.sweep, e), HealAfter(c.heal, e), PollsAfter(c.polls, e))
  }

  /** The steps' effects in order. A step that has no row to act on (none ever does) stops there. */
  function Effects(c: Cell, steps: seq<Step>): Cell
    decreases |steps|
  {
    if steps == [] || !Possible(c, steps[0]) then c else Effects(Effect(c, steps[0]), steps[1..])
  }

  // --- What the outside world answers -------------------------------------------------------

  /** `import_events`: either the request failed, or one flag per history event: an import? */
  datatype HistoryAnswer = LookupFailed | History(importFlags: seq<bool>)

  function CountImports(flags: seq<bool>): nat {
    if flags == [] then 0 else (if flags[0] then 1 else 0) + CountImports(flags[1..])
  }

  lemma {:induction false} AnyImportCounts(flags: seq<bool>)
    ensures CountImports(flags) > 0 <==> true in flags
    ensures CountImports(flags) <= |flags|
  {
    if flags != [] {
      AnyImportCounts(flags[1..]);
    }
  }

  datatype DeleteAnswer = NoHost | DeleteFails | DeleteWorks

  /** Is the remote delete wired and is the queue in move mode, and how would a delete end? */
  datatype DeleteSetup = DeleteSetup(moveMode: bool, wired: bool, answer: DeleteAnswer)

  datatype PushAnswer = NotConfigured | PushRejected | PushAccepted(command: Option<int>)
  datatype DiskAnswer = NothingOnDisk | Refused | RemovalFails | RemovalWorks
  datatype CommandAnswer = PollFailed | Polled(outcome: CommandOutcome)

  // --- The turns ------------------------------------------------------------------------------

  /** `_maybe_delete_remote_on_import`: the steps it takes, and whether the debt is resolved. */
  function DeleteTurn(row: Row, id: ItemId, d: DeleteSetup): (r: (seq<Step>, bool)) {
    if !d.moveMode || !d.wired || row.debt.None? || row.remoteDeleted then ([], true)
    else match d.answer
      case NoHost => ([SourceDeleteWithheld(id)], false)
      case DeleteFails => ([SourceDeleteFailed(id)], false)
      case DeleteWorks => ([SourceDeleted(id)], true)
  }

  /** `_commit_terminal(..., "imported")` with its one-shot rung-4 delete. */
  function ImportTurn(row: Row, id: ItemId, events: nat, d: DeleteSetup, at: Instant): seq<Step> {
    [WentImported(id, events, at)] + DeleteTurn(row, id, d).0
  }

  /** `_check_import` for one tracked item. */
  function CheckTurn(c: Cell, id: ItemId, stillInQueue: bool, answer: HistoryAnswer,
                     d: DeleteSetup, at: Instant): seq<Step>
    requires c.row.Some?
  {
    var row := c.row.value;
    if stillInQueue then [StillInQueue(id)]
    else if answer.LookupFailed? then []
    else
      var imports := CountImports(answer.importFlags);
      var verdict := if imports > 0 then SawImport else SawNothing;
      var confirmed := c.pending == Some(Pending(verdict, row.downloadId));
      [Checked(id, verdict, row.downloadId, imports, confirmed)]
      + (if !confirmed then []
         else if verdict == SawImport then ImportTurn(row, id, |answer.importFlags|, d, at)
         else [WentDropped(id, at)])
  }

  /** `_check_one_dropped_item`. */
  function DroppedTurn(c: Cell, id: ItemId, answer: HistoryAnswer, d: DeleteSetup, at: Instant): seq<Step>
    requires c.row.Some?
  {
    if answer.LookupFailed? then []
    else
      var imports := CountImports(answer.importFlags);
      [Rechecked(id, imports)]
      + (if imports > 0 then ImportTurn(c.row.value, id, |answer.importFlags|, d, at)
         else if at - c.row.value.statusAt >= DROPPED_GONE_GRACE_S then [WentGone(id, at)]
         else [])
  }

  /** Is this retry entry holding its item back at `now`? */
  predicate HeldBack(retry: Option<Retry>, now: Instant) {
    retry.Some? && (retry.value.paused || now < retry.value.nextAttemptAt)
  }

  predicate Exhausted(retry: Option<Retry>, limit: nat) {
    (if retry.Some? then retry.value.attempts else 0) + 1 >= limit
  }

  /** `_heal_one_gone_row`. A row without a download id uses up an attempt without a lookup. */
  function HealTurn(c: Cell, id: ItemId, answer: HistoryAnswer, d: DeleteSetup,
                    at: Instant, now: Instant): seq<Step>
    requires c.row.Some?
  {
    var row := c.row.value;
    var retry := c.heal;
    if HeldBack(retry, now) || (row.downloadId.Some? && answer.LookupFailed?) then []
    else
      var imports := if row.downloadId.None? then 0 else CountImports(answer.importFlags);
      [HealTried(id, now, imports)]
      + (if imports > 0 then ImportTurn(row, id, |answer.importFlags|, d, at)
         else if Exhausted(retry, MAX_GONE_HEAL_ATTEMPTS) then [HealGaveUp(id)]
         else [])
  }

  /** `_retry_stranded_source_delete`. */
  function SweepTurn(c: Cell, id: ItemId, d: DeleteSetup, now: Instant): seq<Step>
    requires c.row.Some?
  {
    var retry := c.sweep;
    if HeldBack(retry, now) then []
    else
      var (steps, ok) := DeleteTurn(c.row.value, id, d);
      steps + [SweepTried(id, now, ok)]
      + (if !ok && Exhausted(retry, MAX_SOURCE_DELETE_RETRY_ATTEMPTS) then [SweepPaused(id)] else [])
  }

  /** `_maybe_cleanup`. */
  function CleanupTurn(c: Cell, id: ItemId, activeJob: bool, disk: DiskAnswer, at: Instant): seq<Step>
    requires c.row.Some?
  {
    CleanupAsFetched(c.row.value, id, activeJob, disk, at)
  }

  /** A cleanup looks at the row it was handed, which the pass fetched before it cleaned the first item. */
  function CleanupAsFetched(row: Row, id: ItemId, activeJob: bool, disk: DiskAnswer, at: Instant): seq<Step> {
    if row.debt.Some? || row.state == Corrupt || activeJob then [CleanupWithheld(id)]
    else [SuppressionSet(id)] + CleanupTail(id, activeJob, disk, at)
  }

  /** What a cleanup does once it is past its guards. */
  function CleanupTail(id: ItemId, activeJob: bool, disk: DiskAnswer, at: Instant): seq<Step> {
    match disk
    case NothingOnDisk => [WentCleaned(id, at)]
    case Refused => [CleanupWithheld(id)]
    case RemovalFails => [LocalRemoved(id, activeJob, false), CleanupWithheld(id)]
    case RemovalWorks => [LocalRemoved(id, activeJob, true), WentCleaned(id, at)]
  }

  /** `_maybe_retry_notify`. */
  function NotifyTurn(c: Cell, id: ItemId, activeJob: bool, bytesFound: bool,
                      push: PushAnswer, at: Instant): seq<Step>
    requires c.row.Some?
  {
    var row := c.row.value;
    if row.state !in NOTIFY_READY_STATES || row.prefixPending
       || c.pushes >= MAX_NOTIFY_RETRY_ATTEMPTS || activeJob || !bytesFound
    then []
    else match push
      case NotConfigured => [PushNotWanted(id)]
      case PushRejected => [PushFailed(id)]
      case PushAccepted(command) => [Pushed(id, command, at, true)]
  }

  /** `_check_one_scan_command`. */
  function CommandTurn(c: Cell, id: ItemId, answer: CommandAnswer): seq<Step>
    requires c.row.Some?
  {
    if answer.PollFailed? then []
    else
      var gaveUp := answer.outcome == StillRunning
                    && c.polls + 1 >= MAX_SCAN_COMMAND_CHECK_ATTEMPTS;
      [CommandPolled(id, answer.outcome, gaveUp)]
      + (if answer.outcome == CommandFailed then [CommandReportedFailed(id)] else [])
  }

  // --- A turn of any kind ---------------------------------------------------------------------

  predicate OwesSource(row: Row) { row.debt.Some? && !row.remoteDeleted }

  /** The sweep's query. */
  predicate SweepWants(row: Row) { OwesSource(row) && (row.status == Imported || row.status == Cleaned) }

  /** The heal sweep's query. */
  predicate HealWants(row: Row) { OwesSource(row) && row.status == Gone }

  datatype Turn =
    | MatchItem(downloadId: Option<string>, at: Instant)
    | RetryNotify(activeJob: bool, bytesFound: bool, push: PushAnswer, at: Instant)
    | CheckImport(stillInQueue: bool, history: HistoryAnswer, delete: DeleteSetup, at: Instant)
    | CheckDropped(history: HistoryAnswer, delete: DeleteSetup, at: Instant)
    | HealGone(history: HistoryAnswer, delete: DeleteSetup, at: Instant, now: Instant)
    | SweepDelete(delete: DeleteSetup, now: Instant)
    | PollCommand(answer: CommandAnswer)
    | Cleanup(activeJob: bool, disk: DiskAnswer, at: Instant)
    | Outside(step: Step)

  /** When a pass gives item `id` this turn, or another writer may act on it. */
  predicate Enabled(c: Cell, id: ItemId, t: Turn) {
    match t
    case MatchItem(d, _) =>
      c.row.Some? && Matchable(c.row.value.status)
      && (Rematchable(c.row.value.status) ==> d.None? || d != c.row.value.downloadId)
    case RetryNotify(_, _, _, _) => c.row.Some? && c.row.value.status == Detected
    case CheckImport(_, _, _, _) => c.row.Some? && Tracked(c.row.value.status)
    case CheckDropped(_, _, _) => c.row.Some? && c.row.value.status == Dropped
    case HealGone(_, _, _, _) => c.row.Some? && HealWants(c.row.value)
    case SweepDelete(_, _) => c.row.Some? && SweepWants(c.row.value)
    case PollCommand(_) => c.row.Some? && c.row.value.scanCommand.Some?
    case Cleanup(_, _, _) => c.row.Some? && c.row.value.status == Imported
    case Outside(e) => e.id == id && ByOther(e) && (e.Pushed? ==> c.row.Some? && c.row.value.status == Detected)
                       && (if e.RowAdded? then Fresh(e.row) else c.row.Some?)
  }

  /** A row the scanner has just inserted. */
  predicate Fresh(row: Row) {
    row.status == Untracked && row.debt.None? && !row.remoteDeleted && row.scanCommand.None?
  }

  function TurnSteps(c: Cell, id: ItemId, t: Turn): seq<Step>
    requires Enabled(c, id, t)
  {
    match t
    case MatchItem(d, at) => [Matched(id, d, at)]
    case RetryNotify(job, found, push, at) => NotifyTurn(c, id, job, found, push, at)
    case CheckImport(queued, history, d, at) => CheckTurn(c, id, queued, history, d, at)
    case CheckDropped(history, d, at) => DroppedTurn(c, id, history, d, at)
    case HealGone(history, d, at, now) => HealTurn(c, id, history, d, at, now)
    case SweepDelete(d, now) => SweepTurn(c, id, d, now)
    case PollCommand(answer) => CommandTurn(c, id, answer)
    case Cleanup(job, disk, at) => CleanupTurn(c, id, job, disk, at)
    case Outside(e) => [e]
  }
}
