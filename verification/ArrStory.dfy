/**
 What the audit trail alone says about one item, and why the poller's rows and in-memory
 guards always agree with it.

 `Story` is folded from the trail and never looks at the guards. `Sound` says every step of a
 trail was permissible when it was taken. The lemmas here show that each step keeps rows and
 guards in agreement with the stories, and that every turn takes only permissible steps.
 */
module ArrStory {
  import opened Common
  import opened RetryBackoff
  import opened ArrLifecycle

  /** What the trail says about the row. */
  datatype Facts = Facts(
    used: bool,                    // the id has belonged to a row
    present: bool,
    status: ArrStatus, statusAt: Instant, downloadId: Option<string>,
    state: ItemState,
    owed: bool, deleted: bool,
    commandLive: bool)

  /** Consecutive failures of a bounded retry, and how often it was called off. */
  datatype Tally = Tally(tries: nat, triedAt: Instant, stops: nat)

  datatype Story = Story(
    facts: Facts,
    open: Option<Pending>,         // the last completed check, while nothing has overtaken it
    quiet: bool,                   // no lookup since the row went dropped showed an import
    sweeps: Tally, heals: Tally,
    polls: nat,                    // polls of the current scan command
    last: Option<Step>)

  function FactsOf(row: Row): Facts {
    Facts(true, true, row.status, row.statusAt, row.downloadId, row.state, row.debt.Some?,
          row.remoteDeleted, row.scanCommand.Some?)
  }

  const NEVER_TRIED := Tally(0, 0, 0)
  const NO_ROW := Facts(false, false, Untracked, 0, None, RemoteOnly, false, false, false)

  function Opening(facts: Facts): Story { Story(facts, None, true, NEVER_TRIED, NEVER_TRIED, 0, None) }

  function FactsAfter(f: Facts, e: Step): Facts {
    match e
    case Matched(_, d, at) => f.(status := Detected, statusAt := at, downloadId := d)
    case Pushed(_, k, at, _) => f.(status := Notified, statusAt := at, commandLive := k.Some?)
    case WentDropped(_, at) => f.(status := Dropped, statusAt := at)
    case WentImported(_, _, at) => f.(status := Imported, statusAt := at)
    case WentGone(_, at) => f.(status := Gone, statusAt := at)
    case WentCleaned(_, at) => f.(status := Cleaned, statusAt := at)
    case SourceDeleted(_) => f.(owed := false, deleted := true)
    case CommandPolled(_, outcome, gaveUp) =>
      if outcome == StillRunning && !gaveUp then f else f.(commandLive := false)
    case RowAdded(_, row) => FactsOf(row)
    case RowRemoved(_) => f.(present := false)
    case RowEdited(_, state, _, _) => f.(state := state)
    case DebtRecorded(_, _) => f.(owed := true)
    case DebtDropped(_) => f.(owed := false)
    case SourceGoneElsewhere(_) => f.(deleted := true)
    case _ => f
  }

  function QuietAfter(quiet: bool, e: Step): bool {
    if e.WentDropped? then true else if e.Rechecked? then quiet && e.imports == 0 else quiet
  }

  function SweepsAfter(t: Tally, e: Step): Tally {
    if e.SweepTried? then (if e.ok then t.(tries := 0) else t.(tries := t.tries + 1, triedAt := e.at))
    else if e.SweepPaused? then t.(stops := t.stops + 1)
    else t
  }

  function HealsAfter(t: Tally, e: Step): Tally {
    if e.HealTried? then (if e.imports > 0 then t.(tries := 0) else t.(tries := t.tries + 1, triedAt := e.at))
    else if e.HealGaveUp? then t.(stops := t.stops + 1)
    else t
  }

  function PollCount(polls: nat, e: Step): nat {
    if e.Pushed? then 0 else if e.CommandPolled? then polls + 1 else polls
  }

  function Advance(st: Story, e: Step): Story {
    Story(FactsAfter(st.facts, e), PendingAfter(st.open, e), QuietAfter(st.quiet, e),
          SweepsAfter(st.sweeps, e), HealsAfter(st.heals, e), PollCount(st.polls, e), Some(e))
  }

  /** The story of item `i` after `trail`, starting from `rows`. */
  function Tell(rows: map<ItemId, Row>, trail: seq<Step>, i: ItemId): Story {
    if trail == [] then Opening(if i in rows then FactsOf(rows[i]) else NO_ROW)
    else
      var before := Tell(rows, trail[..|trail| - 1], i);
      var e := trail[|trail| - 1];
      if e.id == i then Advance(before, e) else before
  }

  lemma TellNext(rows: map<ItemId, Row>, trail: seq<Step>, e: Step, i: ItemId)
    ensures Tell(rows, trail + [e], i)
         == (if e.id == i then Advance(Tell(rows, trail, i), e) else Tell(rows, trail, i))
  {
  }

  /** The import evidence a `WentImported` step must have immediately before it. */
  predicate EvidenceInHand(st: Story, events: nat) {
    st.last.Some? &&
    match st.last.value
    case Checked(_, v, _, n, confirmed) =>
      Tracked(st.facts.status) && v == SawImport && confirmed && 0 < n <= events
    case Rechecked(_, n) => st.facts.status == Dropped && 0 < n <= events
    case HealTried(_, _, n) => st.facts.status == Gone && 0 < n <= events
    case _ => false
  }

  predicate AfterImport(status: ArrStatus) { status == Imported || status == Cleaned }

  /** A bounded retry may be tried: not called off, under its limit, and its delay has passed. */
  predicate MayTry(t: Tally, limit: nat, now: Instant) {
    t.stops == 0 && t.tries < limit && (t.tries > 0 ==> now >= t.triedAt + DelayAfter(t.tries))
  }

  predicate MayStop(t: Tally, limit: nat) { t.stops == 0 && t.tries == limit }

  /** Whether the step is one the lifecycle allows at this point of the item's story. */
  predicate Permissible(st: Story, e: Step) {
    var f := st.facts;
    (if e.RowAdded? then !f.used else f.present) &&
    match e
    case Matched(_, d, _) =>
      Matchable(f.status) && st.open == None && (Rematchable(f.status) ==> d.None? || d != f.downloadId)
    case Pushed(_, _, _, _) => f.status == Detected
    case PushFailed(_) => f.status == Detected
    case PushNotWanted(_) => f.status == Detected
    case StillInQueue(_) => Tracked(f.status)
    case Checked(_, v, d, n, confirmed) =>
      Tracked(f.status) && d == f.downloadId && (v == SawImport <==> n > 0)
      && (confirmed <==> st.open == Some(Pending(v, d)))
    case WentDropped(_, _) =>
      Tracked(f.status) && st.last.Some? && st.last.value.Checked?
      && st.last.value.confirmed && st.last.value.verdict == SawNothing
    case Rechecked(_, _) => f.status == Dropped && st.quiet
    case WentImported(_, n, _) => EvidenceInHand(st, n)
    case WentGone(id, at) =>
      f.status == Dropped && st.quiet && st.last == Some(Rechecked(id, 0))
      && at - f.statusAt >= DROPPED_GONE_GRACE_S
    case SourceDeleted(_) => AfterImport(f.status) && f.owed && !f.deleted
    case SourceDeleteFailed(_) => AfterImport(f.status) && f.owed && !f.deleted
    case SourceDeleteWithheld(_) => AfterImport(f.status) && f.owed && !f.deleted
    case SweepTried(_, at, ok) =>
      AfterImport(f.status) && MayTry(st.sweeps, MAX_SOURCE_DELETE_RETRY_ATTEMPTS, at)
      && (!ok ==> st.last.Some? && (st.last.value.SourceDeleteFailed? || st.last.value.SourceDeleteWithheld?))
    case SweepPaused(_) => MayStop(st.sweeps, MAX_SOURCE_DELETE_RETRY_ATTEMPTS)
    case HealTried(_, at, _) =>
      f.status == Gone && f.owed && !f.deleted && MayTry(st.heals, MAX_GONE_HEAL_ATTEMPTS, at)
    case HealGaveUp(_) => MayStop(st.heals, MAX_GONE_HEAL_ATTEMPTS)
    case SuppressionSet(_) => f.status == Imported
    case LocalRemoved(id, activeJob, _) =>
      f.status == Imported && f.state != Corrupt && !activeJob && !f.owed
      && st.last == Some(SuppressionSet(id))
    case CleanupWithheld(_) => f.status == Imported
    case WentCleaned(_, _) => f.status == Imported && !f.owed
    case CommandPolled(_, _, _) => f.commandLive && st.polls < MAX_SCAN_COMMAND_CHECK_ATTEMPTS
    case RowAdded(_, row) => Fresh(row)
    case _ => true
  }

  predicate Sound(rows: map<ItemId, Row>, trail: seq<Step>)
  {
    trail == [] ||
    var n := |trail| - 1;
    Sound(rows, trail[..n]) && Permissible(Tell(rows, trail[..n], trail[n].id), trail[n])
  }

  lemma {:induction false} SoundAt(rows: map<ItemId, Row>, trail: seq<Step>, k: nat)
    requires Sound(rows, trail) && k < |trail|
    ensures Sound(rows, trail[..k]) && Permissible(Tell(rows, trail[..k], trail[k].id), trail[k])
  {
    var n := |trail| - 1;
    if k < n {
      SoundAt(rows, trail[..n], k);
      assert trail[..n][..k] == trail[..k];
    }
  }

  // --- Agreement of rows and guards with the stories --------------------------------------------

  predicate RetryAgrees(retry: Option<Retry>, t: Tally, limit: nat) {
    && t.tries <= limit && t.stops <= 1
    && (t.stops == 1 ==> t.tries == limit)
    && (retry.Some? <==> t.tries > 0)
    && (retry.Some? ==>
          && retry.value.attempts == t.tries
          && (retry.value.paused <==> t.stops == 1)
          && (t.tries < limit ==> retry.value.nextAttemptAt == t.triedAt + DelayAfter(t.tries)))
  }

  predicate RowAgrees(row: Option<Row>, f: Facts) {
    && row.Some? == f.present
    && (row.Some? ==> FactsOf(row.value) == f)
  }

  predicate PendingAgrees(pending: Option<Pending>, st: Story) {
    && pending == st.open
    && (st.open.Some? ==> Tracked(st.facts.status))
    && (st.last.Some? && st.last.value.Checked? && st.last.value.confirmed ==> st.open.None?)
  }

  predicate PollsAgree(polls: nat, st: Story) {
    && (st.facts.commandLive ==> st.polls <= polls)
    && polls < MAX_SCAN_COMMAND_CHECK_ATTEMPTS
    && st.polls <= MAX_SCAN_COMMAND_CHECK_ATTEMPTS
  }

  /** An item's row and guards say exactly what its story says. */
  predicate Agrees(c: Cell, st: Story) {
    && RowAgrees(c.row, st.facts)
    && PendingAgrees(c.pending, st)
    && RetryAgrees(c.sweep, st.sweeps, MAX_SOURCE_DELETE_RETRY_ATTEMPTS)
    && RetryAgrees(c.heal, st.heals, MAX_GONE_HEAL_ATTEMPTS)
    && PollsAgree(c.polls, st)
    && (!st.facts.used ==> st == Opening(NO_ROW))
  }

  /** No turn is half done for this item. */
  predicate AtRest(st: Story) {
    && (st.facts.status == Dropped ==> st.quiet)
    && (st.sweeps.tries == MAX_SOURCE_DELETE_RETRY_ATTEMPTS ==> st.sweeps.stops == 1)
    && (st.heals.tries == MAX_GONE_HEAL_ATTEMPTS ==> st.heals.stops == 1)
  }

  /** A poll step records that it gave up exactly when the counter says so. */
  predicate PollCounted(c: Cell, e: Step) {
    e.CommandPolled? ==>
      (e.gaveUp <==> e.outcome == StillRunning && c.polls + 1 >= MAX_SCAN_COMMAND_CHECK_ATTEMPTS)
  }

  lemma StepKeepsPending(pending: Option<Pending>, e: Step, st: Story)
    requires PendingAgrees(pending, st) && Permissible(st, e)
    requires !st.facts.used ==> st == Opening(NO_ROW)
    ensures PendingAgrees(PendingAfter(pending, e), Advance(st, e))
  {
  }

  lemma StepKeepsAgreement(c: Cell, e: Step, st: Story)
    requires Agrees(c, st) && Permissible(st, e) && PollCounted(c, e)
    ensures Possible(c, e) && Agrees(Effect(c, e), Advance(st, e))
  {
    StepKeepsRow(c.row, e, st);
    StepKeepsPending(c.pending, e, st);
    StepKeepsSweep(c.sweep, e, st);
    StepKeepsHeal(c.heal, e, st);
  }

  lemma StepKeepsRow(row: Option<Row>, e: Step, st: Story)
    requires RowAgrees(row, st.facts) && Permissible(st, e)
    ensures (!e.RowAdded? ==> row.Some?) && RowAgrees(RowAfter(row, e), FactsAfter(st.facts, e))
  {
  }

  lemma StepKeepsSweep(sweep: Option<Retry>, e: Step, st: Story)
    requires RetryAgrees(sweep, st.sweeps, MAX_SOURCE_DELETE_RETRY_ATTEMPTS) && Permissible(st, e)
    ensures RetryAgrees(SweepAfter(sweep, e), SweepsAfter(st.sweeps, e), MAX_SOURCE_DELETE_RETRY_ATTEMPTS)
  {
  }

  lemma StepKeepsHeal(heal: Option<Retry>, e: Step, st: Story)
    requires RetryAgrees(heal, st.heals, MAX_GONE_HEAL_ATTEMPTS) && Permissible(st, e)
    ensures RetryAgrees(HealAfter(heal, e), HealsAfter(st.heals, e), MAX_GONE_HEAL_ATTEMPTS)
  {
  }

  // --- Turns take only permissible steps ----------------------------------------------------------

  function AdvanceAll(st: Story, steps: seq<Step>): Story
    decreases |steps|
  {
    if steps == [] then st else AdvanceAll(Advance(st, steps[0]), steps[1..])
  }

  /** Taken in order, every step concerns item `id`, is permissible and can be carried out. */
  predicate Allowed(c: Cell, st: Story, id: ItemId, steps: seq<Step>)
    decreases |steps|
  {
    steps != [] ==>
      var e := steps[0];
      e.id == id && Permissible(st, e) && PollCounted(c, e) && Possible(c, e)
      && Allowed(Effect(c, e), Advance(st, e), id, steps[1..])
  }

  lemma {:induction false} AllowedKeepsAgreement(c: Cell, st: Story, id: ItemId, steps: seq<Step>)
    requires Agrees(c, st) && Allowed(c, st, id, steps)
    ensures Agrees(Effects(c, steps), AdvanceAll(st, steps))
    decreases |steps|
  {
    if steps != [] {
      StepKeepsAgreement(c, steps[0], st);
      AllowedKeepsAgreement(Effect(c, steps[0]), Advance(st, steps[0]), id, steps[1..]);
    }
  }

  lemma FirstThen(c: Cell, st: Story, id: ItemId, e: Step, rest: seq<Step>)
    requires e.id == id && Permissible(st, e) && PollCounted(c, e) && Possible(c, e)
    requires Allowed(Effect(c, e), Advance(st, e), id, rest)
    ensures Allowed(c, st, id, [e] + rest)
    ensures AdvanceAll(st, [e] + rest) == AdvanceAll(Advance(st, e), rest)
  {
  }

  lemma Single(c: Cell, st: Story, id: ItemId, e: Step)
    requires e.id == id && Permissible(st, e) && PollCounted(c, e) && Possible(c, e)
    ensures Allowed(c, st, id, [e]) && AdvanceAll(st, [e]) == Advance(st, e)
  {
  }

  /** The rung-4 delete: allowed on an imported item; it moves neither the status nor a retry tally. */
  lemma DeleteIsAllowed(c: Cell, st: Story, id: ItemId, d: DeleteSetup)
    requires Agrees(c, st) && c.row.Some? && AfterImport(c.row.value.status)
    ensures var (steps, ok) := DeleteTurn(c.row.value, id, d);
            var end := AdvanceAll(st, steps);
            && Allowed(c, st, id, steps)
            && end.facts.status == st.facts.status && end.facts.present
            && end.sweeps == st.sweeps && end.heals == st.heals
            && (!ok ==> end.last.Some? && (end.last.value.SourceDeleteFailed? || end.last.value.SourceDeleteWithheld?))
  {
    var steps := DeleteTurn(c.row.value, id, d).0;
    if steps != [] {
      Single(c, st, id, steps[0]);
    }
  }

  /** Committing an import with evidence in hand, then the one-shot delete. */
  lemma ImportIsAllowed(c: Cell, st: Story, id: ItemId, events: nat, d: DeleteSetup, at: Instant)
    requires Agrees(c, st) && c.row.Some? && EvidenceInHand(st, events)
    ensures var steps := ImportTurn(c.row.value, id, events, d, at);
            var end := AdvanceAll(st, steps);
            && Allowed(c, st, id, steps)
            && end.facts.status == Imported && end.sweeps == st.sweeps && end.heals == st.heals
  {
    var e := WentImported(id, events, at);
    StepKeepsAgreement(c, e, st);
    var (c', st') := (Effect(c, e), Advance(st, e));
    DeleteIsAllowed(c', st', id, d);
    FirstThen(c, st, id, e, DeleteTurn(c'.row.value, id, d).0);
  }

  /** The commit that follows a confirming check. */
  lemma ConfirmedIsAllowed(c: Cell, st: Story, id: ItemId, e: Step, events: nat, delete: DeleteSetup, at: Instant)
    requires Agrees(c, st) && AtRest(st) && c.row.Some? && Tracked(c.row.value.status)
    requires e.Checked? && e.id == id && e.confirmed && (e.verdict == SawImport <==> e.imports > 0)
             && e.imports <= events
    requires c.pending == Some(Pending(e.verdict, e.downloadId)) && e.downloadId == c.row.value.downloadId
    ensures var rest := if e.verdict == SawImport then ImportTurn(c.row.value, id, events, delete, at)
                        else [WentDropped(id, at)];
            Possible(c, e) && Allowed(Effect(c, e), Advance(st, e), id, rest)
            && AtRest(AdvanceAll(Advance(st, e), rest))
  {
    var (c', st') := (Effect(c, e), Advance(st, e));
    StepKeepsAgreement(c, e, st);
    if e.verdict == SawImport {
      ImportIsAllowed(c', st', id, events, delete, at);
    } else {
      Single(c', st', id, WentDropped(id, at));
    }
  }

  lemma CheckIsAllowed(c: Cell, st: Story, id: ItemId, queued: bool, answer: HistoryAnswer, delete: DeleteSetup,
                       at: Instant)
    requires Agrees(c, st) && AtRest(st) && c.row.Some? && Tracked(c.row.value.status)
    ensures Allowed(c, st, id, CheckTurn(c, id, queued, answer, delete, at))
            && AtRest(AdvanceAll(st, CheckTurn(c, id, queued, answer, delete, at)))
  {
    var steps := CheckTurn(c, id, queued, answer, delete, at);
    if steps != [] {
      var e := steps[0];
      if e.StillInQueue? {
        Single(c, st, id, e);
      } else if !e.confirmed {
        FirstThen(c, st, id, e, []);
      } else {
        AnyImportCounts(answer.importFlags);
        ConfirmedIsAllowed(c, st, id, e, |answer.importFlags|, delete, at);
        FirstThen(c, st, id, e, steps[1..]);
      }
    }
  }

  lemma DroppedIsAllowed(c: Cell, st: Story, id: ItemId, answer: HistoryAnswer, delete: DeleteSetup, at: Instant)
    requires Agrees(c, st) && AtRest(st) && c.row.Some? && c.row.value.status == Dropped
    ensures Allowed(c, st, id, DroppedTurn(c, id, answer, delete, at))
            && AtRest(AdvanceAll(st, DroppedTurn(c, id, answer, delete, at)))
  {
    var steps := DroppedTurn(c, id, answer, delete, at);
    if steps != [] {
      var e := steps[0];
      var (c', st') := (Effect(c, e), Advance(st, e));
      StepKeepsAgreement(c, e, st);
      if e.imports > 0 {
        AnyImportCounts(answer.importFlags);
        ImportIsAllowed(c', st', id, |answer.importFlags|, delete, at);
        FirstThen(c, st, id, e, steps[1..]);
      } else if |steps| == 2 {
        Single(c', st', id, WentGone(id, at));
        FirstThen(c, st, id, e, [WentGone(id, at)]);
      } else {
        FirstThen(c, st, id, e, []);
      }
    }
  }

  lemma HealIsAllowed(c: Cell, st: Story, id: ItemId, answer: HistoryAnswer, delete: DeleteSetup, at: Instant,
                      now: Instant)
    requires Agrees(c, st) && AtRest(st) && c.row.Some? && HealWants(c.row.value)
    ensures Allowed(c, st, id, HealTurn(c, id, answer, delete, at, now))
            && AtRest(AdvanceAll(st, HealTurn(c, id, answer, delete, at, now)))
  {
    var steps := HealTurn(c, id, answer, delete, at, now);
    if steps != [] {
      var e := steps[0];
      var (c', st') := (Effect(c, e), Advance(st, e));
      StepKeepsAgreement(c, e, st);
      if e.imports > 0 {
        AnyImportCounts(answer.importFlags);
        ImportIsAllowed(c', st', id, |answer.importFlags|, delete, at);
        FirstThen(c, st, id, e, steps[1..]);
      } else if |steps| == 2 {
        Single(c', st', id, HealGaveUp(id));
        FirstThen(c, st, id, e, [HealGaveUp(id)]);
      } else {
        FirstThen(c, st, id, e, []);
      }
    }
  }

  /** The bookkeeping of the sweep, once its delete attempt has been made. */
  lemma SweepTailIsAllowed(c: Cell, st: Story, id: ItemId, now: Instant, ok: bool, stop: bool)
    requires Agrees(c, st) && AfterImport(st.facts.status) && st.facts.present
    requires MayTry(st.sweeps, MAX_SOURCE_DELETE_RETRY_ATTEMPTS, now)
    requires !ok ==> st.last.Some? && (st.last.value.SourceDeleteFailed? || st.last.value.SourceDeleteWithheld?)
    requires stop <==> !ok && st.sweeps.tries + 1 == MAX_SOURCE_DELETE_RETRY_ATTEMPTS
    ensures var steps := [SweepTried(id, now, ok)] + (if stop then [SweepPaused(id)] else []);
            var end := AdvanceAll(st, steps);
            && Allowed(c, st, id, steps)
            && end.facts == st.facts && end.heals == st.heals && end.quiet == st.quiet
            && (end.sweeps.tries == MAX_SOURCE_DELETE_RETRY_ATTEMPTS ==> end.sweeps.stops == 1)
  {
    var e := SweepTried(id, now, ok);
    if stop {
      Single(Effect(c, e), Advance(st, e), id, SweepPaused(id));
      FirstThen(c, st, id, e, [SweepPaused(id)]);
    } else {
      FirstThen(c, st, id, e, []);
    }
  }

  lemma SweepIsAllowed(c: Cell, st: Story, id: ItemId, delete: DeleteSetup, now: Instant)
    requires Agrees(c, st) && AtRest(st) && c.row.Some? && SweepWants(c.row.value)
    ensures Allowed(c, st, id, SweepTurn(c, id, delete, now)) && AtRest(AdvanceAll(st, SweepTurn(c, id, delete, now)))
  {
    if !HeldBack(c.sweep, now) {
      var (del, ok) := DeleteTurn(c.row.value, id, delete);
      var stop := !ok && Exhausted(c.sweep, MAX_SOURCE_DELETE_RETRY_ATTEMPTS);
      var tail := [SweepTried(id, now, ok)] + (if stop then [SweepPaused(id)] else []);
      DeleteIsAllowed(c, st, id, delete);
      if del == [] {
        assert SweepTurn(c, id, delete, now) == tail;
        SweepTailIsAllowed(c, st, id, now, ok, stop);
      } else {
        assert SweepTurn(c, id, delete, now) == [del[0]] + tail;
        StepKeepsAgreement(c, del[0], st);
        SweepAfterDelete(c, st, id, del[0], now, ok, stop);
      }
    }
  }

  lemma SweepAfterDelete(c: Cell, st: Story, id: ItemId, e: Step, now: Instant, ok: bool, stop: bool)
    requires Agrees(c, st) && AfterImport(st.facts.status) && Permissible(st, e) && e.id == id
    requires if ok then e.SourceDeleted? else e.SourceDeleteFailed? || e.SourceDeleteWithheld?
    requires MayTry(st.sweeps, MAX_SOURCE_DELETE_RETRY_ATTEMPTS, now)
    requires stop <==> !ok && st.sweeps.tries + 1 == MAX_SOURCE_DELETE_RETRY_ATTEMPTS
    ensures var steps := [e] + ([SweepTried(id, now, ok)] + (if stop then [SweepPaused(id)] else []));
            var end := AdvanceAll(st, steps);
            && Allowed(c, st, id, steps)
            && end.facts.status == st.facts.status && end.heals == st.heals
            && (end.sweeps.tries == MAX_SOURCE_DELETE_RETRY_ATTEMPTS ==> end.sweeps.stops == 1)
  {
    StepKeepsAgreement(c, e, st);
    SweepTailIsAllowed(Effect(c, e), Advance(st, e), id, now, ok, stop);
    FirstThen(c, st, id, e, [SweepTried(id, now, ok)] + (if stop then [SweepPaused(id)] else []));
  }

  /** The last steps of a cleanup that found bytes and tried to remove them. */
  lemma RemovalIsAllowed(c: Cell, st: Story, id: ItemId, complete: bool, at: Instant)
    requires Agrees(c, st) && c.row.Some? && c.row.value.status == Imported
    requires c.row.value.debt.None? && c.row.value.state != Corrupt && st.last == Some(SuppressionSet(id))
    ensures var steps := [LocalRemoved(id, false, complete),
                          if complete then WentCleaned(id, at) else CleanupWithheld(id)];
            var end := AdvanceAll(st, steps);
            && Allowed(c, st, id, steps)
            && end.facts.status != Dropped && end.sweeps == st.sweeps && end.heals == st.heals
  {
    var f := LocalRemoved(id, false, complete);
    var g := if complete then WentCleaned(id, at) else CleanupWithheld(id);
    Single(Effect(c, f), Advance(st, f), id, g);
    FirstThen(c, st, id, f, [g]);
    assert [f] + [g] == [f, g];
  }

  /** What a cleanup does once it is past its guards. */
  lemma CleanupTailIsAllowed(c: Cell, st: Story, id: ItemId, disk: DiskAnswer, at: Instant)
    requires Agrees(c, st) && c.row.Some? && c.row.value.status == Imported
    requires c.row.value.debt.None? && c.row.value.state != Corrupt && st.last == Some(SuppressionSet(id))
    ensures var steps := CleanupTail(id, false, disk, at);
            var end := AdvanceAll(st, steps);
            && Allowed(c, st, id, steps)
            && end.facts.status != Dropped && end.sweeps == st.sweeps && end.heals == st.heals
  {
    match disk {
      case NothingOnDisk => Single(c, st, id, WentCleaned(id, at));
      case Refused => Single(c, st, id, CleanupWithheld(id));
      case RemovalFails => RemovalIsAllowed(c, st, id, false, at);
      case RemovalWorks => RemovalIsAllowed(c, st, id, true, at);
    }
  }

  /** A cleanup that nothing withholds. */
  lemma SuppressedThenCleaned(c: Cell, st: Story, id: ItemId, disk: DiskAnswer, at: Instant)
    requires Agrees(c, st) && AtRest(st) && c.row.Some? && c.row.value.status == Imported
    requires c.row.value.debt.None? && c.row.value.state != Corrupt
    ensures var steps := [SuppressionSet(id)] + CleanupTail(id, false, disk, at);
            Allowed(c, st, id, steps) && AtRest(AdvanceAll(st, steps))
  {
    var e := SuppressionSet(id);
    StepKeepsAgreement(c, e, st);
    CleanupTailIsAllowed(Effect(c, e), Advance(st, e), id, disk, at);
    FirstThen(c, st, id, e, CleanupTail(id, false, disk, at));
  }

  lemma CleanupIsAllowed(c: Cell, st: Story, id: ItemId, activeJob: bool, disk: DiskAnswer, at: Instant)
    requires Agrees(c, st) && AtRest(st) && c.row.Some? && c.row.value.status == Imported
    ensures var steps := CleanupTurn(c, id, activeJob, disk, at);
            Allowed(c, st, id, steps) && AtRest(AdvanceAll(st, steps))
  {
    var row := c.row.value;
    if row.debt.Some? || row.state == Corrupt || activeJob {
      Single(c, st, id, CleanupWithheld(id));
    } else {
      SuppressedThenCleaned(c, st, id, disk, at);
    }
  }

  lemma NotifyIsAllowed(c: Cell, st: Story, id: ItemId, activeJob: bool, bytesFound: bool, push: PushAnswer,
                        at: Instant)
    requires Agrees(c, st) && AtRest(st) && c.row.Some? && c.row.value.status == Detected
    ensures var steps := NotifyTurn(c, id, activeJob, bytesFound, push, at);
            Allowed(c, st, id, steps) && AtRest(AdvanceAll(st, steps))
  {
    match push {
      case NotConfigured => Single(c, st, id, PushNotWanted(id));
      case PushRejected => Single(c, st, id, PushFailed(id));
      case PushAccepted(command) => Single(c, st, id, Pushed(id, command, at, true));
    }
  }

  lemma FailureIsReported(c: Cell, st: Story, id: ItemId, e: Step)
    requires e.CommandPolled? && e.id == id && Permissible(st, e) && PollCounted(c, e) && Possible(c, e)
    ensures var steps := [e] + [CommandReportedFailed(id)];
            Allowed(c, st, id, steps) && AdvanceAll(st, steps) == Advance(Advance(st, e), CommandReportedFailed(id))
  {
    Single(Effect(c, e), Advance(st, e), id, CommandReportedFailed(id));
    FirstThen(c, st, id, e, [CommandReportedFailed(id)]);
  }

  lemma CommandIsAllowed(c: Cell, st: Story, id: ItemId, answer: CommandAnswer)
    requires Agrees(c, st) && AtRest(st) && c.row.Some? && c.row.value.scanCommand.Some?
    ensures var steps := CommandTurn(c, id, answer);
            Allowed(c, st, id, steps) && AtRest(AdvanceAll(st, steps))
  {
    if answer.Polled? {
      var gaveUp := answer.outcome == StillRunning && c.polls + 1 >= MAX_SCAN_COMMAND_CHECK_ATTEMPTS;
      var e := CommandPolled(id, answer.outcome, gaveUp);
      Single(c, st, id, e);
      if answer.outcome == CommandFailed {
        FailureIsReported(c, st, id, e);
      }
    }
  }

  lemma MatchIsAllowed(c: Cell, st: Story, id: ItemId, d: Option<string>, at: Instant)
    requires Agrees(c, st) && AtRest(st) && Enabled(c, id, MatchItem(d, at))
    ensures Allowed(c, st, id, [Matched(id, d, at)]) && AtRest(AdvanceAll(st, [Matched(id, d, at)]))
  {
  }

  lemma OutsideIsAllowed(c: Cell, st: Story, id: ItemId, e: Step)
    requires Agrees(c, st) && AtRest(st) && Enabled(c, id, Outside(e))
    requires e.RowAdded? ==> !st.facts.used
    ensures Allowed(c, st, id, [e]) && AtRest(AdvanceAll(st, [e]))
  {
    Single(c, st, id, e);
  }

  /** Whatever turn an item gets, in whatever state, the lifecycle allows what the turn does. */
  lemma TurnIsAllowed(c: Cell, st: Story, id: ItemId, t: Turn)
    requires Agrees(c, st) && AtRest(st) && Enabled(c, id, t)
    requires t.Outside? && t.step.RowAdded? ==> !st.facts.used
    ensures Allowed(c, st, id, TurnSteps(c, id, t))
    ensures Agrees(Effects(c, TurnSteps(c, id, t)), AdvanceAll(st, TurnSteps(c, id, t)))
    ensures AtRest(AdvanceAll(st, TurnSteps(c, id, t)))
  {
    match t {
      case CheckImport(queued, answer, d, at) => CheckIsAllowed(c, st, id, queued, answer, d, at);
      case CheckDropped(answer, d, at) => DroppedIsAllowed(c, st, id, answer, d, at);
      case HealGone(answer, d, at, now) => HealIsAllowed(c, st, id, answer, d, at, now);
      case SweepDelete(d, now) => SweepIsAllowed(c, st, id, d, now);
      case Cleanup(job, disk, at) => CleanupIsAllowed(c, st, id, job, disk, at);
      case Outside(e) => OutsideIsAllowed(c, st, id, e);
      case MatchItem(d, at) => MatchIsAllowed(c, st, id, d, at);
      case RetryNotify(job, found, push, at) => NotifyIsAllowed(c, st, id, job, found, push, at);
      case PollCommand(answer) => CommandIsAllowed(c, st, id, answer);
    }
    AllowedKeepsAgreement(c, st, id, TurnSteps(c, id, t));
  }
}
