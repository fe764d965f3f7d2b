/**
 What a pass over the queues must do: for each queue listed, which event it logs, if any, and where
 that leaves the queue's clocks.

 It is said of the clocks before the pass, the settings and the answers, for whole passes.
 */
module EngineDuties {
  import opened Common
  import opened EngineSchedule

  /** Everything the log says of queue `i`, in order. */
  function Said(log: seq<Event>, i: QueueId): seq<Event> {
    if log == [] then []
    else Said(log[..|log| - 1], i) + (if log[|log| - 1].Of(i) then [log[|log| - 1]] else [])
  }

  /** A clock that was never set, or stands at a time not after `now`. */
  predicate Elapsed(due: Option<Due>, now: real) { due.None? || (due.value.At? && due.value.time <= now) }

  /** The queue's own interval, none if that is not positive, and the site's default if it has none. */
  function Wanted(q: Queue, siteDefault: real): Option<real> {
    if q.scanInterval.None? then Some(siteDefault)
    else if q.scanInterval.value > 0.0 then q.scanInterval
    else None
  }

  /** Two readings of the clocks that agree on queue `i`, in the log too. */
  predicate SameFor(s: Clocks, v: Clocks, i: QueueId) {
    && Said(v.log, i) == Said(s.log, i) && SameClocks(s, v, i) && (i in v.cached <==> i in s.cached)
  }

  lemma OthersTurn(s: Clocks, q: Queue, force: bool, now: real, siteDefault: real, o: Outside, i: QueueId)
    requires q.id != i
    ensures SameFor(s, Visit(s, q, force, now, siteDefault, o), i)
    ensures s.log <= Visit(s, q, force, now, siteDefault, o).log
  {
    var v := Visit(s, q, force, now, siteDefault, o);
    if v.log != s.log {
      assert v.log[..|v.log| - 1] == s.log;
    }
  }

  lemma {:induction false} OthersTurns(s: Clocks, queues: seq<Queue>, force: bool, now: real, siteDefault: real,
                                       o: Outside, i: QueueId)
    requires forall q :: q in queues ==> q.id != i
    ensures SameFor(s, VisitAll(s, queues, force, now, siteDefault, o), i)
  {
    if queues != [] {
      var n := |queues| - 1;
      assert queues[n] in queues && forall q :: q in queues[..n] ==> q in queues;
      OthersTurns(s, queues[..n], force, now, siteDefault, o, i);
      OthersTurn(VisitAll(s, queues[..n], force, now, siteDefault, o), queues[n], force, now, siteDefault, o, i);
    }
  }

  /** Only its own turn changes anything for a queue. */
  lemma {:induction false} OwnTurn(s: Clocks, queues: seq<Queue>, k: nat, force: bool, now: real, siteDefault: real,
                                   o: Outside)
    requires DistinctIds(queues) && k < |queues|
    ensures var before := VisitAll(s, queues[..k], force, now, siteDefault, o);
            && SameFor(s, before, queues[k].id) && s.time <= before.time
            && SameFor(Visit(before, queues[k], force, now, siteDefault, o),
                       VisitAll(s, queues, force, now, siteDefault, o), queues[k].id)
    decreases |queues|
  {
    var n := |queues| - 1;
    if k == n {
      OthersTurns(s, queues[..n], force, now, siteDefault, o, queues[n].id);
      VisitsTakeTime(s, queues[..n], force, now, siteDefault, o);
    } else {
      OwnTurn(s, queues[..n], k, force, now, siteDefault, o);
      assert queues[..n][..k] == queues[..k];
      OthersTurn(VisitAll(s, queues[..n], force, now, siteDefault, o), queues[n], force, now, siteDefault, o,
                 queues[k].id);
    }
  }

  lemma BeginsWith(s: Clocks, queues: seq<Queue>, now: real, i: QueueId)
    ensures var b := Begin(s, queues, now);
            && b.log == s.log + [PassStarted(now, Ids(queues))] && Said(b.log, i) == Said(s.log, i) && b.time == now
            && (i in Ids(queues) ==> SameFor(s, b, i))
            && (i !in Ids(queues) ==> Get(b.due, i) == None && Get(b.localDue, i) == None && i !in b.cached)
  {
    assert Begin(s, queues, now).log[..|s.log|] == s.log;
  }

  lemma ListedIds(queues: seq<Queue>, i: QueueId)
    ensures i in Ids(queues) <==> exists k :: 0 <= k < |queues| && queues[k].id == i
  {
    if i in Ids(queues) {
      var q :| q in queues && q.id == i;
      var k :| 0 <= k < |queues| && queues[k] == q;
    }
    if k :| 0 <= k < |queues| && queues[k].id == i {
      assert queues[k] in queues;
    }
  }

  /** A full scan is owed. */
  predicate OwesFull(s: Clocks, q: Queue, force: bool, now: real) {
    q.enabled && (force || Elapsed(Get(s.due, q.id), now))
  }

  /** A local event is owed instead. */
  predicate OwesLocal(s: Clocks, q: Queue, force: bool, now: real) {
    q.enabled && !OwesFull(s, q, force, now) && Elapsed(Get(s.localDue, q.id), now)
  }

  /** A queue that owes nothing has no event, and stays as it was. */
  lemma IdleQueueIsLeft(s: Clocks, p: PassInput, k: nat)
    requires DistinctIds(p.queues) && k < |p.queues|
    requires !OwesFull(s, p.queues[k], p.force, p.now) && !OwesLocal(s, p.queues[k], p.force, p.now)
    ensures SameFor(s, Pass(s, p), p.queues[k].id)
  {
    var b := Begin(s, p.queues, p.now);
    ListedIds(p.queues, p.queues[k].id);
    BeginsWith(s, p.queues, p.now, p.queues[k].id);
    OwnTurn(b, p.queues, k, p.force, p.now, p.siteDefault, p.outside);
  }

  /** The event owed to a queue, by what the clocks `s` said of it. */
  predicate Serves(e: Event, s: Clocks, q: Queue, p: PassInput) {
    var full := OwesFull(s, q, p.force, p.now);
    var looks := q.id in s.cached && p.outside.active(q.id);
    && e.Of(q.id) && e.interval == Wanted(q, p.siteDefault) && e.Begun() >= p.now
    && (e.FullScan? <==> full) && (e.LocalScan? <==> !full && looks) && (e.LocalCheck? <==> !full && !looks)
    && e.Done() == e.Begun() + (if e.LocalCheck? then 0.0 else p.outside.elapsed(q.id))
    && (full ==> e.forced == p.force && e.remoteOk == p.outside.remoteOk(q.id))
  }

  /** Where the event leaves the queue's clocks and its tree. */
  predicate Rewinds(e: Event, s: Clocks, v: Clocks, i: QueueId)
    requires e.Of(i)
  {
    && Get(v.due, i) == (if !e.FullScan? then Get(s.due, i)
                         else Some(if e.interval.None? then Never else At(e.Done() + e.interval.value)))
    && Get(v.localDue, i) == Some(if e.interval.None? then Never
                                  else At(e.Done() + (if e.interval.value < 5.0 then e.interval.value else 5.0)))
    && (i in v.cached <==> i in s.cached || (e.FullScan? && e.remoteOk))
  }

  lemma VisitServes(s: Clocks, q: Queue, p: PassInput) returns (e: Event)
    requires p.now <= s.time && (OwesFull(s, q, p.force, p.now) || OwesLocal(s, q, p.force, p.now))
    ensures var v := Visit(s, q, p.force, p.now, p.siteDefault, p.outside);
            Said(v.log, q.id) == Said(s.log, q.id) + [e] && Serves(e, s, q, p) && Rewinds(e, s, v, q.id)
  {
    var v := Visit(s, q, p.force, p.now, p.siteDefault, p.outside);
    e := v.log[|v.log| - 1];
    assert v.log == s.log + [e] && v.log[..|v.log| - 1] == s.log;
  }

  /** A queue in debt is given just the event it is owed, and that sets its clocks. */
  lemma OwingQueueIsServed(s: Clocks, p: PassInput, k: nat) returns (e: Event)
    requires DistinctIds(p.queues) && k < |p.queues|
    requires OwesFull(s, p.queues[k], p.force, p.now) || OwesLocal(s, p.queues[k], p.force, p.now)
    ensures var (v, q) := (Pass(s, p), p.queues[k]);
            Said(v.log, q.id) == Said(s.log, q.id) + [e] && Serves(e, s, q, p) && Rewinds(e, s, v, q.id)
  {
    var b := Begin(s, p.queues, p.now);
    var q := p.queues[k];
    ListedIds(p.queues, q.id);
    BeginsWith(s, p.queues, p.now, q.id);
    OwnTurn(b, p.queues, k, p.force, p.now, p.siteDefault, p.outside);
    e := VisitServes(VisitAll(b, p.queues[..k], p.force, p.now, p.siteDefault, p.outside), q, p);
  }

  /** A queue that is not listed gets no event and loses its clocks and its tree. */
  lemma UnlistedQueueIsForgotten(s: Clocks, p: PassInput, i: QueueId)
    requires forall q :: q in p.queues ==> q.id != i
    ensures var v := Pass(s, p);
            Said(v.log, i) == Said(s.log, i) && i !in v.due && i !in v.localDue && i !in v.cached
  {
    BeginsWith(s, p.queues, p.now, i);
    OthersTurns(Begin(s, p.queues, p.now), p.queues, p.force, p.now, p.siteDefault, p.outside, i);
  }

  // --- The log as a whole -------------------------------------------------------------------------------------

  /** The entries from `n` on go through the queues in the order they are listed, once at most. */
  predicate InListOrder(log: seq<Event>, n: nat, queues: seq<Queue>) {
    forall m, l, j, k | n <= m < l < |log| && 0 <= j < |queues| && 0 <= k < |queues| ::
      log[m].Of(queues[j].id) && log[l].Of(queues[k].id) ==> j < k
  }

  /** Every entry from `n` on is of some listed queue. */
  predicate OfListed(log: seq<Event>, n: nat, queues: seq<Queue>) {
    forall m :: n <= m < |log| ==> OfSome(log[m], queues)
  }

  predicate OfSome(e: Event, queues: seq<Queue>) { exists k :: 0 <= k < |queues| && e.Of(queues[k].id) }

  lemma OneQueueMore(before: seq<Event>, log: seq<Event>, n: nat, queues: seq<Queue>, q: Queue)
    requires DistinctIds(queues + [q]) && n <= |before| && InListOrder(before, n, queues) && OfListed(before, n, queues)
    requires log == before || (|log| == |before| + 1 && log[..|before|] == before && log[|log| - 1].Of(q.id))
    ensures InListOrder(log, n, queues + [q]) && OfListed(log, n, queues + [q])
  {
    var all := queues + [q];
    forall e | OfSome(e, queues)
      ensures OfSome(e, all) && !e.Of(q.id)
    {
      var k :| 0 <= k < |queues| && e.Of(queues[k].id);
      assert e.Of(all[k].id) && all[k].id != all[|queues|].id;
    }
    forall m | n <= m < |log|
      ensures OfSome(log[m], all)
    {
      if m == |before| {
        assert log[m].Of(all[|queues|].id);
      } else {
        assert OfSome(before[m], queues);
      }
    }
    forall m, l, j, k | n <= m < l < |log| && 0 <= j < |all| && 0 <= k < |all| && log[m].Of(all[j].id)
                        && log[l].Of(all[k].id)
      ensures j < k
    {
      assert OfSome(before[m], queues) && !before[m].Of(q.id) && all[j] == queues[j];
      if l < |before| {
        assert OfSome(before[l], queues) && !before[l].Of(q.id) && all[k] == queues[k];
      } else {
        assert all[k].id == q.id == all[|queues|].id;
      }
    }
  }

  lemma {:induction false} VisitsInOrder(s: Clocks, queues: seq<Queue>, force: bool, now: real, siteDefault: real,
                                         o: Outside)
    requires DistinctIds(queues)
    ensures var log := VisitAll(s, queues, force, now, siteDefault, o).log;
            s.log <= log && InListOrder(log, |s.log|, queues) && OfListed(log, |s.log|, queues)
  {
    if queues != [] {
      var n := |queues| - 1;
      VisitsInOrder(s, queues[..n], force, now, siteDefault, o);
      assert queues[..n] + [queues[n]] == queues;
      OneQueueMore(VisitAll(s, queues[..n], force, now, siteDefault, o).log,
                   VisitAll(s, queues, force, now, siteDefault, o).log, |s.log|, queues[..n], queues[n]);
    }
  }

  /** A pass logs that it began, with the queues it lists, and then only what it does for them, in their order. */
  lemma PassLogsInOrder(s: Clocks, p: PassInput)
    requires DistinctIds(p.queues)
    ensures var log := Pass(s, p).log;
            && |s.log| < |log| && s.log <= log && log[|s.log|] == PassStarted(p.now, set q | q in p.queues :: q.id)
            && InListOrder(log, |s.log| + 1, p.queues) && OfListed(log, |s.log| + 1, p.queues)
  {
    VisitsInOrder(Begin(s, p.queues, p.now), p.queues, p.force, p.now, p.siteDefault, p.outside);
  }
}
