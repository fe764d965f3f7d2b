/**
 The sliding-window limiter on failed logins, against the full history it does not keep.
 */
module LoginLimiter {
  import opened Common

  datatype Attempt = Failure(key: string, at: real) | Success(key: string, at: real)

  /** The failures of `key` since its last success that are younger than the window, oldest first. */
  function Recent(log: seq<Attempt>, key: string, window: real, now: real): seq<real> {
    if log == [] then []
    else
      var e := log[|log| - 1];
      if e.key != key then Recent(log[..|log| - 1], key, window, now)
      else if e.Success? then []
      else Recent(log[..|log| - 1], key, window, now) + (if now - e.at < window then [e.at] else [])
  }

  /** Attempt `i` counts at `now`: a failure of the key, younger than the window, with no success of the key since. */
  predicate Counts(log: seq<Attempt>, key: string, window: real, now: real, i: nat)
    requires i < |log|
  {
    && log[i].Failure? && log[i].key == key && now - log[i].at < window
    && forall j :: i < j < |log| ==> !(log[j].Success? && log[j].key == key)
  }

  lemma CountsBefore(log: seq<Attempt>, key: string, window: real, now: real)
    requires log != [] && !(log[|log| - 1].Success? && log[|log| - 1].key == key)
    ensures forall i: nat :: i < |log| - 1 ==>
              (Counts(log[..|log| - 1], key, window, now, i) <==> Counts(log, key, window, now, i))
  {
  }

  /** The recent failures are the times of the attempts that count, in order. */
  lemma {:induction false} RecentIsWhatCounts(log: seq<Attempt>, key: string, window: real, now: real)
    returns (at: seq<nat>)
    ensures |at| == |Recent(log, key, window, now)| && forall i, j :: 0 <= i < j < |at| ==> at[i] < at[j]
    ensures forall j :: 0 <= j < |at| ==> at[j] < |log| && Recent(log, key, window, now)[j] == log[at[j]].at
    ensures forall i: nat :: i in at <==> i < |log| && Counts(log, key, window, now, i)
  {
    if log == [] {
      at := [];
    } else {
      var (n, e) := (|log| - 1, log[|log| - 1]);
      if e.key == key && e.Success? {
        at := [];
        NoneCounts(log, key, window, now);
      } else {
        var before := RecentIsWhatCounts(log[..n], key, window, now);
        CountsBefore(log, key, window, now);
        var own: seq<nat> := if e.key == key && now - e.at < window then [n] else [];
        at := before + own;
        assert Recent(log, key, window, now) == Recent(log[..n], key, window, now) + if own == [] then [] else [e.at];
        assert n in at <==> Counts(log, key, window, now, n);
      }
    }
  }

  lemma NoneCounts(log: seq<Attempt>, key: string, window: real, now: real)
    requires log != [] && log[|log| - 1].Success? && log[|log| - 1].key == key
    ensures Recent(log, key, window, now) == [] && forall i: nat :: i < |log| ==> !Counts(log, key, window, now, i)
  {
  }

  function Young(times: seq<real>, window: real, now: real): seq<real> {
    if times == [] then []
    else Young(times[..|times| - 1], window, now)
         + (if now - times[|times| - 1] < window then [times[|times| - 1]] else [])
  }

  predicate Ordered(log: seq<Attempt>) { forall i, j :: 0 <= i < j < |log| ==> log[i].at <= log[j].at }

  predicate Ascending(times: seq<real>) { forall i, j :: 0 <= i < j < |times| ==> times[i] <= times[j] }

  lemma {:induction false} YoungAppends(times: seq<real>, more: seq<real>, window: real, now: real)
    ensures Young(times + more, window, now) == Young(times, window, now) + Young(more, window, now)
  {
    if more == [] {
      assert times + more == times;
    } else {
      var n := |more| - 1;
      assert (times + more)[..|times| + n] == times + more[..n];
      YoungAppends(times, more[..n], window, now);
    }
  }

  /** Forgetting what is already too old forgets nothing that a later look would have seen. */
  lemma {:induction false} PruningIsHarmless(times: seq<real>, window: real, now: real, later: real)
    requires now <= later
    ensures Young(Young(times, window, now), window, later) == Young(times, window, later)
  {
    if times != [] {
      var n := |times| - 1;
      PruningIsHarmless(times[..n], window, now, later);
      YoungAppends(Young(times[..n], window, now), if now - times[n] < window then [times[n]] else [], window, later);
      assert Young([times[n]], window, later)
             == Young([], window, later) + (if later - times[n] < window then [times[n]] else []);
    }
  }

  lemma {:induction false} RecentIsRecent(log: seq<Attempt>, key: string, window: real, now: real)
    requires Ordered(log)
    ensures Ascending(Recent(log, key, window, now))
    ensures forall t :: t in Recent(log, key, window, now) ==> now - t < window && (log != [] && t <= log[|log| - 1].at)
  {
    if log != [] {
      var n := |log| - 1;
      RecentIsRecent(log[..n], key, window, now);
      var before := Recent(log[..n], key, window, now);
      assert forall i :: 0 <= i < |before| ==> before[i] in before;
    }
  }

  /** What is recent later is what is recent now and still young. */
  lemma {:induction false} RecentLater(log: seq<Attempt>, key: string, window: real, now: real, later: real)
    requires now <= later
    ensures Recent(log, key, window, later) == Young(Recent(log, key, window, now), window, later)
  {
    if log != [] {
      var (n, e) := (|log| - 1, log[|log| - 1]);
      RecentLater(log[..n], key, window, now, later);
      if e.key == key && e.Failure? {
        YoungAppends(Recent(log[..n], key, window, now), if now - e.at < window then [e.at] else [], window, later);
        assert Young([e.at], window, later)
               == Young([], window, later) + (if later - e.at < window then [e.at] else []);
      }
    }
  }

  /** Of an ascending list, the young ones are a suffix. */
  lemma {:induction false} YoungOnesAreLast(times: seq<real>, window: real, now: real)
    requires Ascending(times)
    ensures var y := Young(times, window, now);
            |y| <= |times| && y == times[|times| - |y|..]
            && forall i :: 0 <= i < |times| ==> (now - times[i] < window <==> i >= |times| - |y|)
  {
    if times != [] {
      var n := |times| - 1;
      YoungOnesAreLast(times[..n], window, now);
      if now - times[n] >= window {
        assert forall i :: 0 <= i < n ==> now - times[i] >= window;
      }
    }
  }

  // --- When a block lifts -----------------------------------------------------------------------------------

  predicate Blocked(log: seq<Attempt>, key: string, limit: int, window: real, now: real) {
    |Recent(log, key, window, now)| >= limit
  }

  /** Left alone, a block lifts when the limit-th youngest failure leaves the window. */
  lemma BlockLifts(log: seq<Attempt>, key: string, limit: nat, window: real, now: real, later: real)
    requires limit >= 1 && Ordered(log) && now <= later && Blocked(log, key, limit, window, now)
    ensures var r := Recent(log, key, window, now);
            Blocked(log, key, limit, window, later) <==> later < r[|r| - limit] + window
  {
    var r := Recent(log, key, window, now);
    RecentIsRecent(log, key, window, now);
    RecentLater(log, key, window, now, later);
    YoungOnesAreLast(r, window, later);
  }

  function RetryAfter(recent: seq<real>, window: real, now: real): real {
    if recent == [] || window - (now - recent[0]) < 0.0 then 0.0 else window - (now - recent[0])
  }

  /** The retry hint is the time until the block lifts exactly when the oldest failure still counted is the
      one that has to leave: no hint is too late, and it is too early as soon as there are older ones. */
  lemma RetryAfterExactlyWhen(log: seq<Attempt>, key: string, limit: nat, window: real, now: real)
    requires limit >= 1 && Ordered(log) && Blocked(log, key, limit, window, now)
    ensures var r := Recent(log, key, window, now);
            (forall later :: now <= later ==>
               (Blocked(log, key, limit, window, later) <==> later < now + RetryAfter(r, window, now)))
            <==> r[0] == r[|r| - limit]
  {
    var r := Recent(log, key, window, now);
    RecentIsRecent(log, key, window, now);
    assert r[0] in r && r[|r| - limit] in r;
    forall later | now <= later
      ensures Blocked(log, key, limit, window, later) <==> later < r[|r| - limit] + window
    {
      BlockLifts(log, key, limit, window, now, later);
    }
    if r[0] != r[|r| - limit] {
      var later := r[0] + window;
      assert !(later < now + RetryAfter(r, window, now)) && Blocked(log, key, limit, window, later);
    }
  }

  /** Every failure was recorded while its key was not blocked, as `login` does. */
  predicate Guarded(log: seq<Attempt>, limit: int, window: real) {
    log != [] ==>
      var (before, e) := (log[..|log| - 1], log[|log| - 1]);
      Guarded(before, limit, window) && (e.Failure? ==> !Blocked(before, e.key, limit, window, e.at))
  }

  lemma {:induction false} YoungIsFewer(times: seq<real>, window: real, now: real)
    ensures |Young(times, window, now)| <= |times|
  {
    if times != [] {
      YoungIsFewer(times[..|times| - 1], window, now);
    }
  }

  lemma {:induction false} GuardedStaysWithinTheLimit(log: seq<Attempt>, key: string, limit: nat, window: real,
                                                      now: real)
    requires Guarded(log, limit, window) && Ordered(log) && (log != [] ==> log[|log| - 1].at <= now)
    ensures |Recent(log, key, window, now)| <= limit
  {
    if log != [] {
      var (before, e) := (log[..|log| - 1], log[|log| - 1]);
      GuardedStaysWithinTheLimit(before, key, limit, window, now);
      if e.Failure? && e.key == key {
        RecentLater(before, key, window, e.at, now);
        YoungIsFewer(Recent(before, key, window, e.at), window, now);
      }
    }
  }

  /** So for a login the hint is exact. */
  lemma LoginRetryIsExact(log: seq<Attempt>, key: string, limit: nat, window: real, now: real, later: real)
    requires limit >= 1 && Guarded(log, limit, window) && Ordered(log) && (log != [] ==> log[|log| - 1].at <= now)
    requires Blocked(log, key, limit, window, now) && now <= later
    ensures Blocked(log, key, limit, window, later)
            <==> later < now + RetryAfter(Recent(log, key, window, now), window, now)
  {
    GuardedStaysWithinTheLimit(log, key, limit, window, now);
    RetryAfterExactlyWhen(log, key, limit, window, now);
  }

  function Only(log: seq<Attempt>, key: string): seq<Attempt> {
    if log == [] then []
    else Only(log[..|log| - 1], key) + (if log[|log| - 1].key == key then [log[|log| - 1]] else [])
  }

  /** A key's standing depends on its own attempts alone. */
  lemma {:induction false} KeysAreIndependent(log: seq<Attempt>, key: string, window: real, now: real)
    ensures Recent(log, key, window, now) == Recent(Only(log, key), key, window, now)
  {
    if log != [] {
      var (before, e) := (log[..|log| - 1], log[|log| - 1]);
      KeysAreIndependent(before, key, window, now);
      var own := Only(before, key);
      assert if e.key == key then Only(log, key) == own + [e] && (own + [e])[..|own|] == own
             else Only(log, key) == own + [];
      assert own + [] == own;
    }
  }

  /** `min(times)` */
  function Least(times: seq<real>): real
    requires times != []
  {
    if |times| == 1 then times[0]
    else if times[|times| - 1] < Least(times[..|times| - 1]) then times[|times| - 1]
    else Least(times[..|times| - 1])
  }

  lemma {:induction false} FirstIsLeast(times: seq<real>)
    requires times != [] && Ascending(times)
    ensures Least(times) == times[0]
  {
    if |times| > 1 {
      FirstIsLeast(times[..|times| - 1]);
    }
  }

  lemma Noted(log: seq<Attempt>, e: Attempt, key: string, window: real, now: real)
    ensures Recent(log + [e], key, window, now)
         == if e.key != key then Recent(log, key, window, now)
            else if e.Success? then []
            else Recent(log, key, window, now) + (if now - e.at < window then [e.at] else [])
  {
  }

  /** A bucket stands in for the history of its key, for anyone who asks from `clock` on. */
  ghost predicate Remembers(times: seq<real>, log: seq<Attempt>, key: string, window: real, clock: real) {
    forall now :: clock <= now ==> Young(times, window, now) == Recent(log, key, window, now)
  }

  lemma PrunedRemembers(times: seq<real>, log: seq<Attempt>, key: string, window: real, clock: real, now: real)
    requires Remembers(times, log, key, window, clock) && clock <= now
    ensures Remembers(Young(times, window, now), log, key, window, now)
  {
    forall later | now <= later
      ensures Young(Young(times, window, now), window, later) == Recent(log, key, window, later)
    {
      PruningIsHarmless(times, window, now, later);
    }
  }

  lemma AttemptRemembered(times: seq<real>, log: seq<Attempt>, key: string, window: real, e: Attempt)
    requires Remembers(times, log, key, window, e.at)
    ensures Remembers(if e.key != key then times else if e.Success? then [] else times + [e.at],
                      log + [e], key, window, e.at)
  {
    forall later | e.at <= later
      ensures Young(if e.key != key then times else if e.Success? then [] else times + [e.at], window, later)
           == Recent(log + [e], key, window, later)
    {
      Noted(log, e, key, window, later);
    }
  }

  // --- The limiter ---------------------------------------------------------------------------------------------

  class LoginRateLimiter {
    const maxFailures: int
    const windowS: real
    var buckets: map<string, seq<real>>
    ghost var log: seq<Attempt>
    ghost var clock: real

    /** `self._buckets.get(key, [])` */
    static function In(buckets: map<string, seq<real>>, key: string): seq<real> {
      if key in buckets then buckets[key] else []
    }

    function Bucket(key: string): seq<real>
      reads this
    {
      In(buckets, key)
    }

    ghost predicate Valid()
      reads this
    {
      && Ordered(log) && (log != [] ==> log[|log| - 1].at <= clock)
      && forall key :: Remembers(Bucket(key), log, key, windowS, clock)
    }

    constructor (maxFailures: int := 5, windowS: real := 300.0)
      ensures Valid() && log == [] && this.maxFailures == maxFailures && this.windowS == windowS
    {
      this.maxFailures, this.windowS, buckets, log, clock := maxFailures, windowS, map[], [], 0.0;
    }

    method Prune(key: string, now: real) returns (times: seq<real>)
      requires Valid() && clock <= now
      modifies `buckets, `clock
      ensures Valid() && clock == now && log == old(log)
      ensures times == Recent(log, key, windowS, now) == Bucket(key)
      ensures forall k :: k != key ==> Bucket(k) == old(Bucket(k))
    {
      times := YoungOnes(Bucket(key), now);
      var next := buckets[key := times];
      forall k
        ensures Remembers(In(next, k), log, k, windowS, now)
      {
        assert Remembers(Bucket(k), log, k, windowS, clock);
        PrunedRemembers(Bucket(k), log, k, windowS, clock, now);
      }
      buckets := next;
      clock := now;
    }

    method YoungOnes(kept: seq<real>, now: real) returns (times: seq<real>)
      ensures times == Young(kept, windowS, now)
    {
      times := [];
      for i := 0 to |kept|
        invariant times == Young(kept[..i], windowS, now)
      {
        assert kept[..i + 1][..i] == kept[..i];
        if now - kept[i] < windowS {
          times := times + [kept[i]];
        }
      }
      assert kept[..|kept|] == kept;
    }

    method IsBlocked(key: string, now: real) returns (blocked: bool)
      requires Valid() && clock <= now
      modifies `buckets, `clock
      ensures Valid() && clock == now && log == old(log)
      ensures blocked <==> Blocked(log, key, maxFailures, windowS, now)
    {
      var times := Prune(key, now);
      blocked := |times| >= maxFailures;
    }

    method RecordFailure(key: string, now: real)
      requires Valid() && clock <= now
      modifies `buckets, `clock, `log
      ensures Valid() && clock == now && log == old(log) + [Failure(key, now)]
    {
      var times := Prune(key, now);
      var next := buckets[key := times + [now]];
      forall k
        ensures Remembers(In(next, k), log + [Failure(key, now)], k, windowS, now)
      {
        assert Remembers(Bucket(k), log, k, windowS, now);
        AttemptRemembered(Bucket(k), log, k, windowS, Failure(key, now));
      }
      buckets := next;
      log := log + [Failure(key, now)];
    }

    method RecordSuccess(key: string, now: real)
      requires Valid() && clock <= now
      modifies `buckets, `clock, `log
      ensures Valid() && clock == now && log == old(log) + [Success(key, now)]
    {
      var next := Without(buckets, key);
      forall k
        ensures Remembers(In(next, k), log + [Success(key, now)], k, windowS, now)
      {
        assert Remembers(Bucket(k), log, k, windowS, clock);
        AttemptRemembered(Bucket(k), log, k, windowS, Success(key, now));
        assert Get(next, k) == if k == key then None else Get(buckets, k);
      }
      buckets := next;
      log := log + [Success(key, now)];
      clock := now;
    }

    method RetryAfterS(key: string, now: real) returns (wait: real)
      requires Valid() && clock <= now
      modifies `buckets, `clock
      ensures Valid() && clock == now && log == old(log)
      ensures wait == RetryAfter(Recent(log, key, windowS, now), windowS, now)
    {
      var times := Prune(key, now);
      RecentIsRecent(log, key, windowS, now);
      if times == [] {
        return 0.0;
      }
      FirstIsLeast(times);
      wait := windowS - (now - Least(times));
      if wait < 0.0 {
        wait := 0.0;
      }
    }

    /** The limiter's part in `login`: refused with a hint in whole seconds, or let through and recorded. When
        the hint has run out the block has lifted, and it lifted within the last second. */
    method Login(key: string, passwordOk: bool, now: real) returns (refused: bool, retryAfter: int)
      requires Valid() && clock <= now && maxFailures >= 1 && Guarded(log, maxFailures, windowS)
      modifies `buckets, `clock, `log
      ensures Valid() && Guarded(log, maxFailures, windowS)
      ensures refused <==> Blocked(old(log), key, maxFailures, windowS, now)
      ensures refused ==> log == old(log)
      ensures refused ==> retryAfter >= 1
      ensures refused ==> forall later :: later >= now + retryAfter as real ==>
                            !Blocked(log, key, maxFailures, windowS, later)
      ensures refused ==> forall later :: now <= later < now + (retryAfter - 1) as real ==>
                            Blocked(log, key, maxFailures, windowS, later)
      ensures !refused ==> log == old(log) + [if passwordOk then Success(key, now) else Failure(key, now)]
    {
      retryAfter := 0;
      refused := IsBlocked(key, now);
      ghost var before := log;
      if refused {
        var wait := RetryAfterS(key, now);
        retryAfter := wait.Floor + 1;
        forall later | now <= later
          ensures Blocked(log, key, maxFailures, windowS, later) <==> later < now + wait
        {
          LoginRetryIsExact(log, key, maxFailures, windowS, now, later);
        }
      } else if passwordOk {
        RecordSuccess(key, now);
      } else {
        RecordFailure(key, now);
      }
      assert !refused ==> log[..|before|] == before;
    }
  }
}
