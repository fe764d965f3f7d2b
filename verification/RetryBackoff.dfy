/**
 The poller's growing delays: a per-instance backoff that doubles its stored delay, and the
 closed form the two per-item sweeps use. The two describe the same schedule.
 */
module RetryBackoff {
  import opened Common

  const INITIAL_BACKOFF_S := 60
  const MAX_BACKOFF_S := 1800
  const BACKOFF_FACTOR := 2

  function Pow2(n: nat): (p: nat)
    ensures p >= 1
  {
    if n == 0 then 1 else 2 * Pow2(n - 1)
  }

  /** The delay after the `n`-th consecutive failure, as the sweeps compute it. */
  function DelayAfter(n: nat): (d: int)
    requires n >= 1
    ensures INITIAL_BACKOFF_S <= d <= MAX_BACKOFF_S
  {
    Min(INITIAL_BACKOFF_S * Pow2(n - 1), MAX_BACKOFF_S)
  }

  /** A minute after the first failure, twice as long after each further one, and never more than half an hour. */
  lemma DelayDoublesUntilCapped(n: nat)
    requires n >= 1
    ensures DelayAfter(1) == 60 && DelayAfter(n + 1) == Min(DelayAfter(n) * 2, 1800)
  {
  }

  lemma {:induction false} DelayNeverShrinks(m: nat, n: nat)
    requires 1 <= m <= n
    ensures DelayAfter(m) <= DelayAfter(n)
    decreases n
  {
    if m < n {
      DelayNeverShrinks(m, n - 1);
      DelayDoublesUntilCapped(n - 1);
    }
  }

  datatype Waiting = Waiting(delay: int, nextAttemptAt: int)

  /** `_backoff`: one entry per unreachable instance. `failures` counts its consecutive failures. */
  class InstanceBackoff {
    var entries: map<int, Waiting>
    ghost var failures: map<int, nat>
    ghost var failedAt: map<int, int>

    ghost predicate Valid()
      reads this
    {
      && entries.Keys == failures.Keys == failedAt.Keys
      && (forall i :: i in entries ==>
            failures[i] >= 1
            && entries[i].delay == DelayAfter(failures[i])
            && entries[i].nextAttemptAt == failedAt[i] + DelayAfter(failures[i]))
    }

    constructor ()
      ensures Valid() && entries == map[]
    {
      entries, failures, failedAt := map[], map[], map[];
    }

    /** Whether a pass over `instance` is skipped at `now`. */
    predicate BackingOff(instance: int, now: int)
      reads this
    {
      instance in entries && now < entries[instance].nextAttemptAt
    }

    /** `_handle_failure`: the stored delay follows the closed form, and nobody else's moves. */
    method HandleFailure(instance: int, now: int)
      requires Valid()
      modifies this
      ensures Valid()
      ensures failures
              == old(failures)[instance := if instance in old(failures) then old(failures)[instance] + 1 else 1]
      ensures failedAt == old(failedAt)[instance := now]
      ensures forall t :: BackingOff(instance, t) <==> t < now + DelayAfter(failures[instance])
      ensures forall j, t :: j != instance ==> BackingOff(j, t) == old(BackingOff(j, t))
    {
      var delay := INITIAL_BACKOFF_S;
      if instance in entries {
        delay := Min(entries[instance].delay * BACKOFF_FACTOR, MAX_BACKOFF_S);
        DelayDoublesUntilCapped(failures[instance]);
      }
      failures := failures[instance := if instance in failures then failures[instance] + 1 else 1];
      failedAt := failedAt[instance := now];
      entries := entries[instance := Waiting(delay, now + delay)];
    }

    /** The instance answered: its slate is clean. */
    method Reached(instance: int)
      requires Valid()
      modifies this
      ensures Valid()
      ensures forall t :: !BackingOff(instance, t)
      ensures instance !in failures
      ensures forall j, t :: j != instance ==> BackingOff(j, t) == old(BackingOff(j, t))
    {
      entries := Without(entries, instance);
      failures := Without(failures, instance);
      failedAt := Without(failedAt, instance);
      assert forall j :: j != instance ==> Get(entries, j) == Get(old(entries), j)
                                           && Get(failures, j) == Get(old(failures), j)
                                           && Get(failedAt, j) == Get(old(failedAt), j);
    }
  }
}
