/**
 When the engine scans which queue: a clock for full scans and a clock for local checks, per
 queue, and a log of the scans they bring about.

 A pass is a function of the clocks before it and of what the outside world does during it; runs
 are sequences of passes with any queue lists, any settings and any answers.
 */
module EngineSchedule {
  import opened Common

  const ACTIVE_SCAN_INTERVAL_S := 5.0

  type QueueId = int
  type Duration = r: real | r >= 0.0

  datatype Due = At(time: real) | Never
  datatype Queue = Queue(id: QueueId, enabled: bool, scanInterval: Option<real>)

  /** `effective_scan_interval`; `None` is on-demand only. */
  function EffectiveInterval(q: Queue, siteDefault: real): Option<real> {
    match q.scanInterval
    case None => Some(siteDefault)
    case Some(s) => if s <= 0.0 then None else Some(s)
  }

  /** `resolve_active_check_interval` */
  function ActiveCheckInterval(full: Option<real>): Option<real> {
    if full.None? then None
    else Some(if full.value < ACTIVE_SCAN_INTERVAL_S then full.value else ACTIVE_SCAN_INTERVAL_S)
  }

  function DueAfter(interval: Option<real>, at: real): Due {
    if interval.Some? then At(at + interval.value) else Never
  }

  /** Is a clock that reads `due` due at `now`? A queue never scheduled is. */
  predicate IsDue(due: Option<Due>, now: real) { due.None? || (due.value.At? && now >= due.value.time) }

  // --- The log -------------------------------------------------------------------------------------------

  datatype Event =
    | PassStarted(at: real, present: set<QueueId>)
    | FullScan(id: QueueId, begun: real, done: real, forced: bool, interval: Option<real>, remoteOk: bool)
    | LocalScan(id: QueueId, begun: real, done: real, interval: Option<real>)
    | LocalCheck(id: QueueId, at: real, interval: Option<real>)
  {
    function Begun(): real { if PassStarted? || LocalCheck? then at else begun }
    function Done(): real { if PassStarted? || LocalCheck? then at else done }
    predicate Of(i: QueueId) { !PassStarted? && id == i }
    predicate Local(i: QueueId) { (LocalScan? || LocalCheck?) && id == i }
    predicate Full(i: QueueId) { FullScan? && id == i }
    predicate Forgets(i: QueueId) { PassStarted? && i !in present }
  }

  /** The last full scan of queue `i`, unless a pass that did not list the queue came after it. */
  function LastFull(log: seq<Event>, i: QueueId): (last: Option<Event>)
    ensures last.Some? ==> last.value.Full(i)
  {
    if log == [] || log[|log| - 1].Forgets(i) then None
    else if log[|log| - 1].Full(i) then Some(log[|log| - 1])
    else LastFull(log[..|log| - 1], i)
  }

  /** The last event that restarted queue `i`'s local clock. */
  function LastMark(log: seq<Event>, i: QueueId): (last: Option<Event>)
    ensures last.Some? ==> last.value.Of(i)
  {
    if log == [] || log[|log| - 1].Forgets(i) then None
    else if log[|log| - 1].Of(i) then Some(log[|log| - 1])
    else LastMark(log[..|log| - 1], i)
  }

  /** Has a full scan of queue `i` read the remote since the queue was last unlisted? */
  predicate RemoteSeen(log: seq<Event>, i: QueueId) {
    log != [] && !log[|log| - 1].Forgets(i)
    && ((log[|log| - 1].Full(i) && log[|log| - 1].remoteOk) || RemoteSeen(log[..|log| - 1], i))
  }

  /** Event `e` respects the clocks that the log so far sets. */
  predicate Timely(log: seq<Event>, e: Event) {
    match e
    case PassStarted(_, _) => true
    case FullScan(i, begun, done, forced, _, _) =>
      var last := LastFull(log, i);
      begun <= done
      && (!forced && last.Some? ==> last.value.interval.Some? && begun >= last.value.done + last.value.interval.value)
    case _ =>
      var last := LastMark(log, e.id);
      && e.Begun() <= e.Done()
      && last.Some? && last.value.interval.Some?
      && e.Begun() >= last.value.Done() + ActiveCheckInterval(last.value.interval).value
      && LastFull(log, e.id).Some? && (e.LocalScan? ==> RemoteSeen(log, e.id))
  }

  predicate Sound(log: seq<Event>) {
    log != [] ==>
      var (before, e) := (log[..|log| - 1], log[|log| - 1]);
      Sound(before) && Timely(before, e) && (before != [] ==> before[|before| - 1].Done() <= e.Begun())
  }

  // --- One pass ----------------------------------------------------------------------------------------------

  /** What happens to each queue during a pass: how long its turn takes, and what it finds. */
  datatype Outside = Outside(elapsed: QueueId -> Duration, remoteOk: QueueId -> bool, active: QueueId -> bool)

  datatype Clocks = Clocks(due: map<QueueId, Due>, localDue: map<QueueId, Due>, cached: set<QueueId>, time: real,
                           log: seq<Event>)

  /** `scan_all`'s body for one queue; `now` was read when the pass began. */
  function Visit(s: Clocks, q: Queue, force: bool, now: real, siteDefault: real, o: Outside): Clocks {
    var interval := EffectiveInterval(q, siteDefault);
    if !q.enabled then s
    else if force || IsDue(Get(s.due, q.id), now) then
      var done := s.time + o.elapsed(q.id);
      Clocks(s.due[q.id := DueAfter(interval, done)],
             s.localDue[q.id := DueAfter(ActiveCheckInterval(interval), done)],
             if o.remoteOk(q.id) then s.cached + {q.id} else s.cached,
             done,
             s.log + [FullScan(q.id, s.time, done, force, interval, o.remoteOk(q.id))])
    else if !IsDue(Get(s.localDue, q.id), now) then s
    else if q.id in s.cached && o.active(q.id) then
      var done := s.time + o.elapsed(q.id);
      s.(localDue := s.localDue[q.id := DueAfter(ActiveCheckInterval(interval), done)],
         time := done, log := s.log + [LocalScan(q.id, s.time, done, interval)])
    else
      s.(localDue := s.localDue[q.id := DueAfter(ActiveCheckInterval(interval), s.time)],
         log := s.log + [LocalCheck(q.id, s.time, interval)])
  }

  function VisitAll(s: Clocks, queues: seq<Queue>, force: bool, now: real, siteDefault: real, o: Outside): Clocks {
    if queues == [] then s
    else
      var before := VisitAll(s, queues[..|queues| - 1], force, now, siteDefault, o);
      Visit(before, queues[|queues| - 1], force, now, siteDefault, o)
  }

  function Ids(queues: seq<Queue>): set<QueueId> { set q | q in queues :: q.id }

  /** The start of a pass: queues no longer listed lose their clocks and their cached tree. */
  function Begin(s: Clocks, queues: seq<Queue>, now: real): Clocks {
    Clocks(map i | i in s.due && i in Ids(queues) :: s.due[i],
           map i | i in s.localDue && i in Ids(queues) :: s.localDue[i],
           s.cached * Ids(queues), now, s.log + [PassStarted(now, Ids(queues))])
  }

  datatype PassInput = PassInput(queues: seq<Queue>, force: bool, now: real, siteDefault: real, outside: Outside)

  function Pass(s: Clocks, p: PassInput): Clocks {
    VisitAll(Begin(s, p.queues, p.now), p.queues, p.force, p.now, p.siteDefault, p.outside)
  }

  // --- What the log proves about the clocks ---------------------------------------------------------------------

  function DueFrom(last: Option<Event>): Option<Due>
    requires last.Some? ==> last.value.FullScan?
  {
    if last.None? then None else Some(DueAfter(last.value.interval, last.value.done))
  }

  function LocalDueFrom(last: Option<Event>): Option<Due>
    requires last.Some? ==> !last.value.PassStarted?
  {
    if last.None? then None else Some(DueAfter(ActiveCheckInterval(last.value.interval), last.value.Done()))
  }

  /** Queue `i`'s clocks say what its events in the log say. */
  ghost predicate AgreesOn(s: Clocks, i: QueueId) {
    && Get(s.due, i) == DueFrom(LastFull(s.log, i))
    && Get(s.localDue, i) == LocalDueFrom(LastMark(s.log, i))
    && (LastMark(s.log, i).Some? <==> LastFull(s.log, i).Some?)
    && (i in s.cached <==> RemoteSeen(s.log, i))
  }

  ghost predicate Truthful(s: Clocks) {
    Sound(s.log) && (s.log != [] ==> s.log[|s.log| - 1].Done() <= s.time) && forall i :: AgreesOn(s, i)
  }

  /** The clocks as an event of some queue sets them. */
  function Applied(s: Clocks, e: Event): Clocks
    requires !e.PassStarted?
  {
    Clocks(if e.FullScan? then s.due[e.id := DueAfter(e.interval, e.done)] else s.due,
           s.localDue[e.id := DueAfter(ActiveCheckInterval(e.interval), e.Done())],
           if e.FullScan? && e.remoteOk then s.cached + {e.id} else s.cached,
           e.Done(), s.log + [e])
  }

  /** A visit logs one event at most, and in time. */
  lemma VisitIsTimely(s: Clocks, q: Queue, force: bool, now: real, siteDefault: real, o: Outside)
    returns (e: Option<Event>)
    requires AgreesOn(s, q.id) && now <= s.time
    ensures var v := Visit(s, q, force, now, siteDefault, o);
            match e
            case None => v == s
            case Some(e) => e.Of(q.id) && Timely(s.log, e) && s.time == e.Begun() <= e.Done() && v == Applied(s, e)
  {
    var v := Visit(s, q, force, now, siteDefault, o);
    if v.log == s.log {
      e := None;
    } else {
      e := Some(v.log[|s.log|]);
      assert v.log == s.log + [e.value];
    }
  }

  lemma ApplyingKeepsAgreement(s: Clocks, e: Event, i: QueueId)
    requires AgreesOn(s, i) && !e.PassStarted? && (LastFull(s.log, e.id).Some? || e.FullScan?)
    ensures AgreesOn(Applied(s, e), i)
  {
  }

  lemma VisitKeepsTruth(s: Clocks, q: Queue, force: bool, now: real, siteDefault: real, o: Outside)
    requires Truthful(s) && now <= s.time
    ensures Truthful(Visit(s, q, force, now, siteDefault, o)) && now <= Visit(s, q, force, now, siteDefault, o).time
  {
    var v := Visit(s, q, force, now, siteDefault, o);
    var e := VisitIsTimely(s, q, force, now, siteDefault, o);
    if e.Some? {
      forall i
        ensures AgreesOn(v, i)
      {
        ApplyingKeepsAgreement(s, e.value, i);
      }
    }
  }

  lemma {:induction false} VisitsKeepTruth(s: Clocks, queues: seq<Queue>, force: bool, now: real, siteDefault: real,
                                           o: Outside)
    requires Truthful(s) && now <= s.time
    ensures Truthful(VisitAll(s, queues, force, now, siteDefault, o))
            && now <= VisitAll(s, queues, force, now, siteDefault, o).time
  {
    if queues != [] {
      var n := |queues| - 1;
      VisitsKeepTruth(s, queues[..n], force, now, siteDefault, o);
      VisitKeepsTruth(VisitAll(s, queues[..n], force, now, siteDefault, o), queues[n], force, now, siteDefault, o);
    }
  }

  lemma PassKeepsTruth(s: Clocks, p: PassInput)
    requires Truthful(s) && s.time <= p.now
    ensures Truthful(Pass(s, p)) && p.now <= Pass(s, p).time
  {
    var b := Begin(s, p.queues, p.now);
    var e := PassStarted(p.now, Ids(p.queues));
    forall i
      ensures AgreesOn(b, i)
    {
      assert AgreesOn(s, i);
    }
    VisitsKeepTruth(b, p.queues, p.force, p.now, p.siteDefault, p.outside);
  }

  const START := Clocks(map[], map[], {}, 0.0, [])

  /** Passes one after another, on a clock that never goes back. */
  predicate InOrder(s: Clocks, passes: seq<PassInput>)
    decreases |passes|
  {
    passes != [] ==> s.time <= passes[0].now && InOrder(Pass(s, passes[0]), passes[1..])
  }

  function After(s: Clocks, passes: seq<PassInput>): Clocks
    decreases |passes|
  {
    if passes == [] then s else After(Pass(s, passes[0]), passes[1..])
  }

  lemma {:induction false} RunsKeepTruth(s: Clocks, passes: seq<PassInput>)
    requires Truthful(s) && InOrder(s, passes)
    ensures Truthful(After(s, passes))
    decreases |passes|
  {
    if passes != [] {
      PassKeepsTruth(s, passes[0]);
      RunsKeepTruth(Pass(s, passes[0]), passes[1..]);
    }
  }

  /** Every run's log is sound, and its clocks say what the log says. */
  lemma EveryRunIsTruthful(passes: seq<PassInput>)
    requires InOrder(START, passes)
    ensures Truthful(After(START, passes))
  {
    RunsKeepTruth(START, passes);
  }

  // --- Reading a sound log ------------------------------------------------------------------------------------

  lemma {:induction false} SoundPrefix(log: seq<Event>, n: nat)
    requires Sound(log) && n <= |log|
    ensures Sound(log[..n])
    decreases |log|
  {
    if n < |log| {
      SoundPrefix(log[..|log| - 1], n);
      assert log[..|log| - 1][..n] == log[..n];
    } else {
      assert log[..n] == log;
    }
  }

  lemma EachIsTimely(log: seq<Event>, j: nat)
    requires Sound(log) && j < |log|
    ensures Timely(log[..j], log[j])
    ensures j > 0 ==> log[j - 1].Done() <= log[j].Begun()
    ensures log[j].Begun() <= log[j].Done()
  {
    SoundPrefix(log, j + 1);
    assert log[..j + 1][..j] == log[..j];
  }

  lemma {:induction false} LogIsOrdered(log: seq<Event>, i: nat, j: nat)
    requires Sound(log) && i < j < |log|
    ensures log[i].Done() <= log[j].Begun()
    decreases j - i
  {
    EachIsTimely(log, j);
    if i < j - 1 {
      LogIsOrdered(log, i, j - 1);
      EachIsTimely(log, j - 1);
    }
  }

  /** Queue `i` stays listed through the events `from..to`. */
  predicate Remembered(log: seq<Event>, i: QueueId, from: nat, to: nat)
    requires to <= |log|
  {
    forall k :: from <= k < to ==> !log[k].Forgets(i)
  }

  lemma {:induction false} LastFullIs(log: seq<Event>, i: QueueId, k: nat, n: nat)
    requires k < n <= |log| && log[k].Full(i) && Remembered(log, i, k, n)
    requires forall m :: k < m < n ==> !log[m].Full(i)
    ensures LastFull(log[..n], i) == Some(log[k])
    decreases n
  {
    if k < n - 1 {
      LastFullIs(log, i, k, n - 1);
      assert log[..n][..n - 1] == log[..n - 1];
    }
  }

  lemma {:induction false} LastMarkIs(log: seq<Event>, i: QueueId, k: nat, n: nat)
    requires k < n <= |log| && log[k].Of(i) && Remembered(log, i, k, n)
    requires forall m :: k < m < n ==> !log[m].Of(i)
    ensures LastMark(log[..n], i) == Some(log[k])
    decreases n
  {
    if k < n - 1 {
      LastMarkIs(log, i, k, n - 1);
      assert log[..n][..n - 1] == log[..n - 1];
    }
  }

  /** A timer scan starts at least an interval after the previous full scan of its queue completed. */
  lemma TimerScansAreSpaced(log: seq<Event>, i: QueueId, k: nat, j: nat)
    requires Sound(log) && k < j < |log| && log[k].Full(i) && log[j].Full(i) && !log[j].forced
    requires Remembered(log, i, k, j) && forall m :: k < m < j ==> !log[m].Full(i)
    ensures log[k].interval.Some? && log[j].begun >= log[k].done + log[k].interval.value
  {
    EachIsTimely(log, j);
    LastFullIs(log, i, k, j);
  }

  lemma {:induction false} PreviousFull(log: seq<Event>, i: QueueId, k: nat, j: nat) returns (m: nat)
    requires k < j <= |log| && log[k].Full(i)
    ensures k <= m < j && log[m].Full(i) && forall n :: m < n < j ==> !log[n].Full(i)
    decreases j
  {
    if log[j - 1].Full(i) {
      m := j - 1;
    } else {
      m := PreviousFull(log, i, k, j - 1);
    }
  }

  /** While a queue keeps one interval, a timer scan starts at least that long after any earlier full scan. */
  lemma TimerScansAreSpacedApart(log: seq<Event>, i: QueueId, r: real, k: nat, j: nat)
    requires Sound(log) && k < j < |log| && log[k].Full(i) && log[j].Full(i) && !log[j].forced
    requires Remembered(log, i, k, j) && forall m :: k <= m < j && log[m].Full(i) ==> log[m].interval == Some(r)
    ensures log[j].begun >= log[k].done + r
  {
    var m := PreviousFull(log, i, k, j);
    TimerScansAreSpaced(log, i, m, j);
    if k < m {
      LogIsOrdered(log, k, m);
      EachIsTimely(log, m);
    }
  }

  /** After a scan that left its queue on demand only, nothing happens to the queue until a forced scan. */
  lemma OnDemandGetsNoTimer(log: seq<Event>, i: QueueId, k: nat, j: nat)
    requires Sound(log) && k < j < |log| && log[k].Full(i) && log[k].interval.None? && log[j].Of(i)
    requires Remembered(log, i, k, j) && forall m :: k < m < j ==> !log[m].Of(i)
    ensures log[j].FullScan? && log[j].forced
  {
    EachIsTimely(log, j);
    LastMarkIs(log, i, k, j);
    if log[j].FullScan? && !log[j].forced {
      LastFullIs(log, i, k, j);
    }
  }

  /** Local passes and checks keep their distance too: the shorter of the queue's interval and five seconds. */
  lemma LocalEventsAreSpaced(log: seq<Event>, i: QueueId, k: nat, j: nat)
    requires Sound(log) && k < j < |log| && log[k].Of(i) && log[j].Local(i)
    requires Remembered(log, i, k, j) && forall m :: k < m < j ==> !log[m].Of(i)
    ensures log[k].interval.Some?
    ensures log[j].Begun() >= log[k].Done() + log[k].interval.value || log[j].Begun() >= log[k].Done() + 5.0
  {
    EachIsTimely(log, j);
    LastMarkIs(log, i, k, j);
  }

  lemma {:induction false} RemoteSeenSince(log: seq<Event>, i: QueueId) returns (k: nat)
    requires RemoteSeen(log, i)
    ensures k < |log| && log[k].Full(i) && log[k].remoteOk && Remembered(log, i, k, |log|)
  {
    var n := |log| - 1;
    if log[n].Full(i) && log[n].remoteOk {
      k := n;
    } else {
      k := RemoteSeenSince(log[..n], i);
    }
  }

  /** A local scan follows a full scan of its queue that read the remote, with no pass in between that
      did not list the queue. */
  lemma LocalScanHasARemoteTree(log: seq<Event>, j: nat) returns (k: nat)
    requires Sound(log) && j < |log| && log[j].LocalScan?
    ensures k < j && log[k].Full(log[j].id) && log[k].remoteOk && Remembered(log, log[j].id, k, j)
  {
    EachIsTimely(log, j);
    k := RemoteSeenSince(log[..j], log[j].id);
  }

  lemma {:induction false} VisitsAddToTheLog(s: Clocks, queues: seq<Queue>, force: bool, now: real, siteDefault: real,
                                             o: Outside)
    ensures s.log <= VisitAll(s, queues, force, now, siteDefault, o).log
  {
    if queues != [] {
      VisitsAddToTheLog(s, queues[..|queues| - 1], force, now, siteDefault, o);
    }
  }

  lemma {:induction false} RunsAddToTheLog(s: Clocks, passes: seq<PassInput>)
    ensures s.log <= After(s, passes).log
    decreases |passes|
  {
    if passes != [] {
      var p := passes[0];
      VisitsAddToTheLog(Begin(s, p.queues, p.now), p.queues, p.force, p.now, p.siteDefault, p.outside);
      RunsAddToTheLog(Pass(s, p), passes[1..]);
    }
  }

  /** Nothing in the log from entry `n` on says anything of queue `i`'s full clock. */
  predicate SilentSince(log: seq<Event>, n: nat, i: QueueId) {
    forall k :: n <= k < |log| ==> !log[k].Full(i) && !log[k].Forgets(i)
  }

  lemma {:induction false} LastFullStands(log: seq<Event>, n: nat, i: QueueId)
    requires n <= |log| && SilentSince(log, n, i)
    ensures LastFull(log, i) == LastFull(log[..n], i) && RemoteSeen(log, i) == RemoteSeen(log[..n], i)
    decreases |log|
  {
    if n < |log| {
      LastFullStands(log[..|log| - 1], n, i);
      assert log[..|log| - 1][..n] == log[..n];
    } else {
      assert log[..n] == log;
    }
  }

  /** Over any passes, a queue's full clock and cached tree change only with a full scan of the queue or a pass
      that does not list it: no number of local events moves them. */
  lemma OnlyFullScansMoveTheFullClock(s: Clocks, passes: seq<PassInput>, i: QueueId)
    requires Truthful(s) && InOrder(s, passes) && SilentSince(After(s, passes).log, |s.log|, i)
    ensures s.log <= After(s, passes).log
    ensures Get(After(s, passes).due, i) == Get(s.due, i) && (i in After(s, passes).cached <==> i in s.cached)
  {
    var t := After(s, passes);
    RunsAddToTheLog(s, passes);
    RunsKeepTruth(s, passes);
    assert t.log[..|s.log|] == s.log;
    LastFullStands(t.log, |s.log|, i);
    assert AgreesOn(s, i) && AgreesOn(t, i);
  }

  // --- A queue that keeps its settings -----------------------------------------------------------------------------

  /** Every pass lists the queue, with this setting and this site default. */
  predicate Configured(p: PassInput, i: QueueId, setting: Option<real>, siteDefault: real) {
    i in Ids(p.queues) && p.siteDefault == siteDefault
    && forall q :: q in p.queues && q.id == i ==> q.scanInterval == setting
  }

  /** The log knows the queue by one interval, and no pass has left it out. */
  predicate KeepsInterval(log: seq<Event>, i: QueueId, interval: Option<real>) {
    forall e :: e in log ==> !e.Forgets(i) && (e.Of(i) ==> e.interval == interval)
  }

  lemma {:induction false} VisitsKeepInterval(s: Clocks, queues: seq<Queue>, force: bool, now: real, siteDefault: real,
                                              o: Outside, i: QueueId, setting: Option<real>)
    requires forall q :: q in queues && q.id == i ==> q.scanInterval == setting
    requires KeepsInterval(s.log, i, EffectiveInterval(Queue(i, true, setting), siteDefault))
    ensures KeepsInterval(VisitAll(s, queues, force, now, siteDefault, o).log, i,
                          EffectiveInterval(Queue(i, true, setting), siteDefault))
  {
    if queues != [] {
      var n := |queues| - 1;
      VisitsKeepInterval(s, queues[..n], force, now, siteDefault, o, i, setting);
      assert queues[n] in queues;
    }
  }

  lemma {:induction false} RunsKeepInterval(s: Clocks, passes: seq<PassInput>, i: QueueId, setting: Option<real>,
                                            siteDefault: real)
    requires forall p :: p in passes ==> Configured(p, i, setting, siteDefault)
    requires KeepsInterval(s.log, i, EffectiveInterval(Queue(i, true, setting), siteDefault))
    ensures KeepsInterval(After(s, passes).log, i, EffectiveInterval(Queue(i, true, setting), siteDefault))
    decreases |passes|
  {
    if passes != [] {
      var p := passes[0];
      assert Configured(p, i, setting, siteDefault);
      VisitsKeepInterval(Begin(s, p.queues, p.now), p.queues, p.force, p.now, p.siteDefault, p.outside, i, setting);
      RunsKeepInterval(Pass(s, p), passes[1..], i, setting, siteDefault);
    }
  }

  /** While a queue keeps its setting, every timer scan of it comes at least that long after each earlier
      scan completed; with a setting of zero or less, nothing after its first scan happens but forced scans. */
  lemma CadenceFollowsTheSetting(passes: seq<PassInput>, i: QueueId, setting: Option<real>, siteDefault: real, k: nat,
                                 j: nat)
    requires InOrder(START, passes) && forall p :: p in passes ==> Configured(p, i, setting, siteDefault)
    requires var log := After(START, passes).log;
             k < j < |log| && log[k].Full(i) && log[j].Of(i)
    ensures var log := After(START, passes).log;
            if setting.Some? && setting.value <= 0.0 then log[j].Full(i) && log[j].forced
            else log[j].Full(i) && !log[j].forced
                 ==> log[j].begun >= log[k].done + (if setting.Some? then setting.value else siteDefault)
  {
    var log := After(START, passes).log;
    EveryRunIsTruthful(passes);
    RunsKeepInterval(START, passes, i, setting, siteDefault);
    assert forall m :: 0 <= m < |log| ==> log[m] in log;
    if setting.Some? && setting.value <= 0.0 {
      OnDemandOnward(log, i, k, j);
    } else if log[j].Full(i) && !log[j].forced {
      TimerScansAreSpacedApart(log, i, if setting.Some? then setting.value else siteDefault, k, j);
    }
  }

  lemma {:induction false} OnDemandOnward(log: seq<Event>, i: QueueId, k: nat, j: nat)
    requires Sound(log) && k < j < |log| && log[k].Full(i) && log[j].Of(i)
    requires KeepsInterval(log, i, None)
    ensures log[j].Full(i) && log[j].forced
    decreases j
  {
    var m := PreviousOf(log, i, k, j);
    assert forall n :: 0 <= n < |log| ==> log[n] in log;
    if m > k {
      OnDemandOnward(log, i, k, m);
    }
    OnDemandGetsNoTimer(log, i, m, j);
  }

  lemma {:induction false} PreviousOf(log: seq<Event>, i: QueueId, k: nat, j: nat) returns (m: nat)
    requires k < j <= |log| && log[k].Of(i)
    ensures k <= m < j && log[m].Of(i) && forall n :: m < n < j ==> !log[n].Of(i)
    decreases j
  {
    if log[j - 1].Of(i) {
      m := j - 1;
    } else {
      m := PreviousOf(log, i, k, j - 1);
    }
  }

  // --- A pass cannot leave work for its own start --------------------------------------------------------------

  predicate Positive(q: Queue, siteDefault: real) {
    EffectiveInterval(q, siteDefault).None? || EffectiveInterval(q, siteDefault).value > 0.0
  }

  predicate Settled(s: Clocks, i: QueueId, now: real) {
    !IsDue(Get(s.due, i), now) && !IsDue(Get(s.localDue, i), now)
  }

  /** One visit leaves both clocks past `now`, however little time it takes, exactly when the queue's
      interval is on demand or positive; a site default of zero or less is passed on as it is. */
  lemma VisitSettlesExactlyWhen(s: Clocks, q: Queue, force: bool, now: real, siteDefault: real)
    requires q.enabled && now == s.time && (force || IsDue(Get(s.due, q.id), now))
    ensures (forall o: Outside :: Settled(Visit(s, q, force, now, siteDefault, o), q.id, now))
            <==> Positive(q, siteDefault)
  {
    if !Positive(q, siteDefault) {
      var o := Outside(_ => 0.0, _ => true, _ => true);
      assert !Settled(Visit(s, q, force, now, siteDefault, o), q.id, now);
    }
  }

  lemma VisitSettles(s: Clocks, q: Queue, force: bool, now: real, siteDefault: real, o: Outside)
    requires now <= s.time && Positive(q, siteDefault)
    ensures q.enabled ==> Settled(Visit(s, q, force, now, siteDefault, o), q.id, now)
    ensures now <= Visit(s, q, force, now, siteDefault, o).time
    ensures forall i :: Settled(s, i, now) ==> Settled(Visit(s, q, force, now, siteDefault, o), i, now)
  {
  }

  lemma {:induction false} VisitsSettle(s: Clocks, queues: seq<Queue>, force: bool, now: real, siteDefault: real,
                                        o: Outside)
    requires now <= s.time && forall q :: q in queues ==> Positive(q, siteDefault)
    ensures forall q :: q in queues && q.enabled ==> Settled(VisitAll(s, queues, force, now, siteDefault, o), q.id, now)
    ensures now <= VisitAll(s, queues, force, now, siteDefault, o).time
  {
    if queues != [] {
      var n := |queues| - 1;
      VisitsSettle(s, queues[..n], force, now, siteDefault, o);
      VisitSettles(VisitAll(s, queues[..n], force, now, siteDefault, o), queues[n], force, now, siteDefault, o);
      forall q | q in queues && q.enabled
        ensures Settled(VisitAll(s, queues, force, now, siteDefault, o), q.id, now)
      {
        var k :| 0 <= k < |queues| && queues[k] == q;
        assert k < n ==> queues[..n][k] == q;
      }
    }
  }

  /** After a pass, nothing that was due when it began is still due at that time: the loop cannot spin. */
  lemma PassSettlesEverything(s: Clocks, p: PassInput)
    requires forall q :: q in p.queues ==> Positive(q, p.siteDefault)
    ensures forall q :: q in p.queues && q.enabled ==> Settled(Pass(s, p), q.id, p.now)
  {
    VisitsSettle(Begin(s, p.queues, p.now), p.queues, p.force, p.now, p.siteDefault, p.outside);
  }

  // --- Exactly when a pass settles everything ----------------------------------------------------------------------

  /** Each queue is listed once. */
  predicate DistinctIds(queues: seq<Queue>) { forall i, j :: 0 <= i < j < |queues| ==> queues[i].id != queues[j].id }

  /** The pass will do something for this queue. */
  predicate Visits(s: Clocks, q: Queue, force: bool, now: real) { q.enabled && (force || !Settled(s, q.id, now)) }

  predicate SameClocks(s: Clocks, v: Clocks, i: QueueId) {
    Get(s.due, i) == Get(v.due, i) && Get(s.localDue, i) == Get(v.localDue, i)
  }

  lemma {:induction false} VisitsLeaveOthers(s: Clocks, queues: seq<Queue>, force: bool, now: real, siteDefault: real,
                                             o: Outside, i: QueueId)
    requires forall q :: q in queues ==> q.id != i
    ensures SameClocks(VisitAll(s, queues, force, now, siteDefault, o), s, i)
  {
    if queues != [] {
      var n := |queues| - 1;
      VisitsLeaveOthers(s, queues[..n], force, now, siteDefault, o, i);
      assert queues[n] in queues;
    }
  }

  lemma {:induction false} VisitsTakeTime(s: Clocks, queues: seq<Queue>, force: bool, now: real, siteDefault: real,
                                          o: Outside)
    ensures s.time <= VisitAll(s, queues, force, now, siteDefault, o).time
    ensures (forall i :: o.elapsed(i) == 0.0) ==> VisitAll(s, queues, force, now, siteDefault, o).time == s.time
  {
    if queues != [] {
      VisitsTakeTime(s, queues[..|queues| - 1], force, now, siteDefault, o);
    }
  }

  /** One queue's own turn decides how its clocks stand when the pass is over. */
  lemma {:induction false} OwnTurnDecides(s: Clocks, queues: seq<Queue>, k: nat, force: bool, now: real,
                                          siteDefault: real, o: Outside)
    requires DistinctIds(queues) && k < |queues|
    ensures var before := VisitAll(s, queues[..k], force, now, siteDefault, o);
            SameClocks(before, s, queues[k].id)
            && SameClocks(VisitAll(s, queues, force, now, siteDefault, o),
                          Visit(before, queues[k], force, now, siteDefault, o), queues[k].id)
    decreases |queues|
  {
    var n := |queues| - 1;
    if k == n {
      VisitsLeaveOthers(s, queues[..n], force, now, siteDefault, o, queues[n].id);
    } else {
      OwnTurnDecides(s, queues[..n], k, force, now, siteDefault, o);
      assert queues[..n][..k] == queues[..k];
    }
  }

  predicate AllSettled(s: Clocks, p: PassInput) {
    forall q :: q in p.queues && q.enabled ==> Settled(Pass(s, p), q.id, p.now)
  }

  lemma VisitedSettles(s: Clocks, p: PassInput, k: nat)
    requires DistinctIds(p.queues) && k < |p.queues| && p.queues[k].enabled
    requires Visits(Begin(s, p.queues, p.now), p.queues[k], p.force, p.now) ==> Positive(p.queues[k], p.siteDefault)
    ensures Settled(Pass(s, p), p.queues[k].id, p.now)
  {
    var b := Begin(s, p.queues, p.now);
    OwnTurnDecides(b, p.queues, k, p.force, p.now, p.siteDefault, p.outside);
    VisitsTakeTime(b, p.queues[..k], p.force, p.now, p.siteDefault, p.outside);
  }

  const AT_ONCE := Outside(_ => 0.0, _ => true, _ => true)

  lemma VisitedStaysDue(s: Clocks, p: PassInput, k: nat)
    requires DistinctIds(p.queues) && k < |p.queues| && p.outside == AT_ONCE
    requires Visits(Begin(s, p.queues, p.now), p.queues[k], p.force, p.now) && !Positive(p.queues[k], p.siteDefault)
    ensures !Settled(Pass(s, p), p.queues[k].id, p.now)
  {
    var b := Begin(s, p.queues, p.now);
    OwnTurnDecides(b, p.queues, k, p.force, p.now, p.siteDefault, AT_ONCE);
    VisitsTakeTime(b, p.queues[..k], p.force, p.now, p.siteDefault, AT_ONCE);
  }

  /** A pass leaves nothing due at the time it began, however fast it is and whatever it finds, exactly when
      every queue it does something for is on demand or has a positive interval. */
  lemma PassSettlesExactlyWhen(s: Clocks, p: PassInput)
    requires DistinctIds(p.queues)
    ensures (forall o: Outside :: AllSettled(s, p.(outside := o)))
            <==> forall q :: q in p.queues && Visits(Begin(s, p.queues, p.now), q, p.force, p.now) ==>
                               Positive(q, p.siteDefault)
  {
    var b := Begin(s, p.queues, p.now);
    if forall q :: q in p.queues && Visits(b, q, p.force, p.now) ==> Positive(q, p.siteDefault) {
      forall o: Outside, q | q in p.queues && q.enabled
        ensures Settled(Pass(s, p.(outside := o)), q.id, p.now)
      {
        var k :| 0 <= k < |p.queues| && p.queues[k] == q;
        VisitedSettles(s, p.(outside := o), k);
      }
    } else {
      var q :| q in p.queues && Visits(b, q, p.force, p.now) && !Positive(q, p.siteDefault);
      var k :| 0 <= k < |p.queues| && p.queues[k] == q;
      VisitedStaysDue(s, p.(outside := AT_ONCE), k);
      assert !AllSettled(s, p.(outside := AT_ONCE));
    }
  }

  /** The same pass over and over. */
  function Again(p: PassInput, passes: nat): seq<PassInput> { if passes == 0 then [] else [p] + Again(p, passes - 1) }

  /** With a site default of zero it can: a queue without an interval of its own is full-scanned again
      at once, for as many passes as fit into one clock reading. */
  lemma {:induction false} ZeroDefaultSpins(i: QueueId, now: real, passes: nat)
    requires now >= 0.0
    ensures var p := PassInput([Queue(i, true, None)], false, now, 0.0, Outside(_ => 0.0, _ => true, _ => false));
            var end := After(START, Again(p, passes));
            InOrder(START, Again(p, passes)) && FullScansOf(end.log, i) == passes && (passes > 0 ==> end.time == now)
  {
    var p := PassInput([Queue(i, true, None)], false, now, 0.0, Outside(_ => 0.0, _ => true, _ => false));
    Spins(START, p, passes);
  }

  function FullScansOf(log: seq<Event>, i: QueueId): nat {
    if log == [] then 0 else FullScansOf(log[..|log| - 1], i) + (if log[|log| - 1].Full(i) then 1 else 0)
  }

  /** One pass over the one queue scans it in no time and leaves it due. */
  lemma SpinsOnce(s: Clocks, p: PassInput)
    requires |p.queues| == 1 && p.queues[0].enabled && p.queues[0].scanInterval.None? && p.siteDefault == 0.0
    requires p.outside.elapsed(p.queues[0].id) == 0.0 && s.time <= p.now
    requires IsDue(Get(s.due, p.queues[0].id), p.now)
    ensures var v := Pass(s, p);
            && v.time == p.now && IsDue(Get(v.due, p.queues[0].id), p.now)
            && FullScansOf(v.log, p.queues[0].id) == FullScansOf(s.log, p.queues[0].id) + 1
  {
    var q := p.queues[0];
    var b := Begin(s, p.queues, p.now);
    var v := Visit(b, q, p.force, p.now, p.siteDefault, p.outside);
    assert p.queues[..0] == [] && VisitAll(b, [], p.force, p.now, p.siteDefault, p.outside) == b;
    assert q in p.queues && Pass(s, p) == v;
    assert b.log[..|s.log|] == s.log && v.log[..|b.log|] == b.log;
  }

  lemma {:induction false} Spins(s: Clocks, p: PassInput, passes: nat)
    requires |p.queues| == 1 && p.queues[0].enabled && p.queues[0].scanInterval.None? && p.siteDefault == 0.0
    requires p.outside.elapsed(p.queues[0].id) == 0.0 && s.time <= p.now
    requires IsDue(Get(s.due, p.queues[0].id), p.now)
    ensures var end := After(s, Again(p, passes));
            && InOrder(s, Again(p, passes)) && (passes > 0 ==> end.time == p.now)
            && FullScansOf(end.log, p.queues[0].id) == FullScansOf(s.log, p.queues[0].id) + passes
    decreases passes
  {
    if passes > 0 {
      SpinsOnce(s, p);
      Spins(Pass(s, p), p, passes - 1);
    }
  }

  // --- The engine's own clocks ------------------------------------------------------------------------------------

  /** A clock of an enabled queue is due at `t`. */
  predicate SomeDue(queues: seq<Queue>, due: map<QueueId, Due>, localDue: map<QueueId, Due>, t: real) {
    exists q :: q in queues && ClockDue(q, due, localDue, t)
  }

  predicate ClockDue(q: Queue, due: map<QueueId, Due>, localDue: map<QueueId, Due>, t: real) {
    q.enabled && (IsDue(Get(due, q.id), t) || IsDue(Get(localDue, q.id), t))
  }

  class ScanScheduler {
    var siteDefault: real
    var queueMeta: seq<Queue>
    var nextDue: map<QueueId, Due>
    var nextLocalDue: map<QueueId, Due>
    var cachedRemoteTree: set<QueueId>
    ghost var time: real
    ghost var log: seq<Event>

    ghost function Now(): Clocks
      reads this
    {
      Clocks(nextDue, nextLocalDue, cachedRemoteTree, time, log)
    }

    constructor (siteDefault: real)
      ensures Now() == START && Truthful(Now()) && this.siteDefault == siteDefault && queueMeta == []
    {
      this.siteDefault := siteDefault;
      queueMeta, nextDue, nextLocalDue, cachedRemoteTree := [], map[], map[], {};
      time, log := 0.0, [];
      new;
      EveryRunIsTruthful([]);
    }

    /** `scan_all`; `clock` is the time read when the pass begins. */
    method ScanAll(queues: seq<Queue>, force: bool, clock: real, o: Outside)
      requires time <= clock && Truthful(Now())
      modifies this
      ensures siteDefault == old(siteDefault) && queueMeta == queues
      ensures Now() == Pass(old(Now()), PassInput(queues, force, clock, siteDefault, o))
      ensures Truthful(Now()) && clock <= time
    {
      PassKeepsTruth(Now(), PassInput(queues, force, clock, siteDefault, o));
      queueMeta := queues;
      nextDue := map i | i in nextDue && i in Ids(queues) :: nextDue[i];
      nextLocalDue := map i | i in nextLocalDue && i in Ids(queues) :: nextLocalDue[i];
      cachedRemoteTree := cachedRemoteTree * Ids(queues);
      var at := clock;
      time, log := clock, log + [PassStarted(clock, Ids(queues))];
      ghost var b := Now();
      for k := 0 to |queues|
        invariant siteDefault == old(siteDefault) && queueMeta == queues && at == time
        invariant Now() == VisitAll(b, queues[..k], force, clock, siteDefault, o)
      {
        assert queues[..k + 1][..k] == queues[..k];
        at := ScanOne(queues[k], force, clock, at, o);
      }
      assert queues[..|queues|] == queues;
    }

    /** One queue's share of a pass; `at` is the time it starts, `end` the time it is done. */
    method ScanOne(q: Queue, force: bool, clock: real, at: real, o: Outside) returns (end: real)
      requires at == time
      modifies `nextDue, `nextLocalDue, `cachedRemoteTree, `time, `log
      ensures Now() == Visit(old(Now()), q, force, clock, siteDefault, o) && end == time
    {
      end := at;
      if !q.enabled {
        return;
      }
      ghost var interval := EffectiveInterval(q, siteDefault);
      if force || IsDue(Get(nextDue, q.id), clock) {
        end := at + o.elapsed(q.id);
        if o.remoteOk(q.id) {
          cachedRemoteTree := cachedRemoteTree + {q.id};
        }
        time, log := end, log + [FullScan(q.id, at, end, force, interval, o.remoteOk(q.id))];
        ScheduleNext(q, end);
        ScheduleNextLocal(q, end);
        return;
      }
      if !IsDue(Get(nextLocalDue, q.id), clock) {
        return;
      }
      if q.id in cachedRemoteTree && o.active(q.id) {
        end := at + o.elapsed(q.id);
        time, log := end, log + [LocalScan(q.id, at, end, interval)];
      } else {
        log := log + [LocalCheck(q.id, at, interval)];
      }
      ScheduleNextLocal(q, end);
    }

    method ScheduleNext(q: Queue, at: real)
      modifies `nextDue
      ensures nextDue == old(nextDue)[q.id := DueAfter(EffectiveInterval(q, siteDefault), at)]
    {
      var interval := EffectiveInterval(q, siteDefault);
      nextDue := nextDue[q.id := if interval.Some? then At(at + interval.value) else Never];
    }

    method ScheduleNextLocal(q: Queue, at: real)
      modifies `nextLocalDue
      ensures nextLocalDue
              == old(nextLocalDue)[q.id := DueAfter(ActiveCheckInterval(EffectiveInterval(q, siteDefault)), at)]
    {
      var interval := ActiveCheckInterval(EffectiveInterval(q, siteDefault));
      nextLocalDue := nextLocalDue[q.id := if interval.Some? then At(at + interval.value) else Never];
    }

    /** `_next_wake_delay`: `None` exactly when no enabled clock will ever fall due; otherwise one is due
        at the wake and none falls due between now and then. */
    method NextWakeDelay(now: real) returns (delay: Option<real>)
      ensures delay.None? <==> forall t: real :: !SomeDue(queueMeta, nextDue, nextLocalDue, t)
      ensures delay.Some? ==> delay.value >= 0.0 && SomeDue(queueMeta, nextDue, nextLocalDue, now + delay.value)
      ensures delay.Some? ==>
                forall t: real :: now <= t < now + delay.value ==> !SomeDue(queueMeta, nextDue, nextLocalDue, t)
    {
      var soonest: Option<real> := None;
      for k := 0 to |queueMeta|
        invariant soonest.Some? ==> SomeDue(queueMeta, nextDue, nextLocalDue, soonest.value)
        invariant forall j, t: real :: 0 <= j < k && ClockDue(queueMeta[j], nextDue, nextLocalDue, t)
                                       ==> soonest.Some? && soonest.value <= t
      {
        var q := queueMeta[k];
        if q.enabled {
          if q.id !in nextDue || q.id !in nextLocalDue {
            assert q in queueMeta && ClockDue(q, nextDue, nextLocalDue, now);
            assert SomeDue(queueMeta, nextDue, nextLocalDue, now);
            return Some(0.0);
          }
          soonest := Sooner(Sooner(soonest, nextDue[q.id]), nextLocalDue[q.id]);
          assert soonest.Some? ==> ClockDue(q, nextDue, nextLocalDue, soonest.value)
                                   || SomeDue(queueMeta, nextDue, nextLocalDue, soonest.value);
        }
      }
      if soonest.None? {
        return None;
      }
      delay := Some(if soonest.value < now then 0.0 else soonest.value - now);
      var k :| 0 <= k < |queueMeta| && ClockDue(queueMeta[k], nextDue, nextLocalDue, soonest.value);
      assert ClockDue(queueMeta[k], nextDue, nextLocalDue, now + delay.value);
    }

    static function Sooner(soonest: Option<real>, due: Due): Option<real> {
      if due.At? && (soonest.None? || due.time < soonest.value) then Some(due.time) else soonest
    }
  }
}
