/** Days summed into weeks or calendar months, without a byte lost or counted twice. */
module DayGroups {
  import opened Common
  import opened Throughput

  // --- The calendar ----------------------------------------------------------------------------------------

  /** `_week_key`: seven-day buckets anchored at the epoch. */
  function WeekKey(day: nat): nat { day * 86400 / (7 * 86400) }

  predicate LeapYear(y: nat) { y % 4 == 0 && (y % 100 != 0 || y % 400 == 0) }

  /** The length of the `m`th month since January 1970. */
  function MonthLength(m: nat): (days: nat)
    ensures 28 <= days <= 31
  {
    match m % 12
    case 1 => if LeapYear(1970 + m / 12) then 29 else 28
    case 3 => 30
    case 5 => 30
    case 8 => 30
    case 10 => 30
    case _ => 31
  }

  function MonthStart(m: nat): nat { if m == 0 then 0 else MonthStart(m - 1) + MonthLength(m - 1) }

  function MonthFrom(day: nat, m: nat): (r: nat)
    requires MonthStart(m) <= day
    ensures r >= m && MonthStart(r) <= day < MonthStart(r) + MonthLength(r)
    decreases day - MonthStart(m)
  {
    if day < MonthStart(m) + MonthLength(m) then m else MonthFrom(day, m + 1)
  }

  /** `_month_key`: the calendar month, numbered. */
  function MonthKey(day: nat): nat { MonthFrom(day, 0) }

  lemma {:induction false} MonthsGrow(m: nat, n: nat)
    requires m < n
    ensures MonthStart(m) + MonthLength(m) <= MonthStart(n)
    decreases n - m
  {
    if m < n - 1 {
      MonthsGrow(m, n - 1);
    }
  }

  /** Days before each month of a year without a 29 February, and the year's length. */
  const DAYS_BEFORE := [0, 31, 59, 90, 120, 151, 181, 212, 243, 273, 304, 334, 365]

  /** Days from 1970 to the year `1970 + y`: a leap day for every fourth year, but not for every hundredth, but
      for every four hundredth. */
  function DaysToYear(y: nat): int { 365 * y + (y + 1) / 4 - (y + 69) / 100 + (y + 369) / 400 }

  lemma MonthOf(y: nat, m: nat)
    requires m < 12
    ensures (12 * y + m) % 12 == m && (12 * y + m) / 12 == y
  {
  }

  lemma {:induction false} MonthInYear(y: nat, m: nat)
    requires m <= 12
    ensures MonthStart(12 * y + m)
         == MonthStart(12 * y) + DAYS_BEFORE[m] + (if m >= 2 && LeapYear(1970 + y) then 1 else 0)
  {
    if m > 0 {
      MonthInYear(y, m - 1);
      MonthOf(y, m - 1);
      MonthHas(y, m - 1);
    }
  }

  lemma MonthHas(y: nat, m: nat)
    requires m < 12
    ensures MonthLength(12 * y + m)
         == DAYS_BEFORE[m + 1] - DAYS_BEFORE[m] + (if m == 1 && LeapYear(1970 + y) then 1 else 0)
  {
    MonthOf(y, m);
  }

  lemma YearHas(y: nat)
    ensures DaysToYear(y + 1) == DaysToYear(y) + 365 + (if LeapYear(1970 + y) then 1 else 0)
  {
    assert (y + 2) / 4 == (y + 1) / 4 + (if (1970 + y) % 4 == 0 then 1 else 0);
    assert (y + 70) / 100 == (y + 69) / 100 + (if (1970 + y) % 100 == 0 then 1 else 0);
    assert (y + 370) / 400 == (y + 369) / 400 + (if (1970 + y) % 400 == 0 then 1 else 0);
    assert (1970 + y) % 400 == 0 ==> (1970 + y) % 100 == 0;
    assert (1970 + y) % 100 == 0 ==> (1970 + y) % 4 == 0;
  }

  lemma {:induction false} YearBegins(y: nat)
    ensures MonthStart(12 * y) == DaysToYear(y)
  {
    if y > 0 {
      YearBegins(y - 1);
      MonthInYear(y - 1, 12);
      YearHas(y - 1);
    }
  }

  /** A month's key is its number in the calendar since January 1970. */
  lemma MonthKeyIsTheCalendars(day: nat) returns (y: nat, m: nat)
    ensures m < 12 && MonthKey(day) == 12 * y + m
    ensures var start := DaysToYear(y) + DAYS_BEFORE[m] + (if m >= 2 && LeapYear(1970 + y) then 1 else 0);
            var next := DaysToYear(y) + DAYS_BEFORE[m + 1] + (if m >= 1 && LeapYear(1970 + y) then 1 else 0);
            start <= day < next
  {
    var k := MonthKey(day);
    y, m := k / 12, k % 12;
    assert k == 12 * y + m;
    YearBegins(y);
    MonthInYear(y, m);
    MonthInYear(y, m + 1);
    assert MonthStart(k + 1) == MonthStart(k) + MonthLength(k);
  }

  ghost predicate Monotone(key: nat -> nat) { forall a: nat, b: nat :: a <= b ==> key(a) <= key(b) }

  /** Either key puts later days into later buckets, or the same. */
  lemma KeysFollowTheCalendar()
    ensures Monotone(WeekKey) && Monotone(MonthKey)
  {
    forall a: nat, b: nat | a <= b
      ensures MonthKey(a) <= MonthKey(b) && WeekKey(a) <= WeekKey(b)
    {
      if MonthKey(b) < MonthKey(a) {
        MonthsGrow(MonthKey(b), MonthKey(a));
      }
      WeekIsSeventh(a);
      WeekIsSeventh(b);
    }
  }

  lemma WeekIsSeventh(day: nat)
    ensures WeekKey(day) == day / 7
  {
  }

  // --- Grouping ----------------------------------------------------------------------------------------------

  /** The keys in order of first appearance. */
  function Keys(points: seq<DayPoint>, key: nat -> nat): seq<nat> {
    if points == [] then []
    else
      var (ks, k) := (Keys(points[..|points| - 1], key), key(points[|points| - 1].day));
      if k in ks then ks else ks + [k]
  }

  /** The days of one bucket. */
  function Members(points: seq<DayPoint>, key: nat -> nat, k: nat): seq<DayPoint> {
    if points == [] then []
    else
      var p := points[|points| - 1];
      Members(points[..|points| - 1], key, k) + (if key(p.day) == k then [p] else [])
  }

  /** What is added up: one queue's bytes, all bytes, or the days that were up. */
  datatype Measure = OfQueue(q: QueueId) | OfAll | Up

  ghost function Value(p: DayPoint, f: Measure): nat {
    if !p.up then 0
    else match f
      case OfQueue(q) => At(p.byQueue, q)
      case OfAll => Total(p.byQueue)
      case Up => 1
  }

  ghost function Sum(points: seq<DayPoint>, f: Measure): nat
  {
    if points == [] then 0 else Sum(points[..|points| - 1], f) + Value(points[|points| - 1], f)
  }

  ghost function UpDays(points: seq<DayPoint>): nat { Sum(points, Up) }

  /** Each queue's bytes over the days that were up, and an entry for each queue those days name. */
  ghost predicate Gathered(byQueue: Bytes, days: seq<DayPoint>) {
    && (forall q :: q in byQueue <==> exists p :: p in days && p.up && q in p.byQueue)
    && (forall q :: At(byQueue, q) == Sum(days, OfQueue(q)))
  }

  lemma GatherOne(byQueue: Bytes, days: seq<DayPoint>, m: DayPoint, sum: Bytes)
    requires Gathered(byQueue, days)
    requires if m.up then
               sum.Keys == byQueue.Keys + m.byQueue.Keys && forall q :: At(sum, q) == At(byQueue, q) + At(m.byQueue, q)
             else sum == byQueue
    ensures Gathered(sum, days + [m])
  {
  }

  /** What one bucket must say of its days. */
  ghost predicate Sums(g: Group, members: seq<DayPoint>)
    requires members != []
  {
    && (exists p :: p in members && p.day == g.firstDay) && (forall p :: p in members ==> g.firstDay <= p.day)
    && (g.up <==> exists p :: p in members && p.up)
    && Gathered(g.byQueue, members)
    && g.total == (if g.up then Some(Total(g.byQueue)) else None)
    && g.coverage == (if g.up then Some(UpDays(members) as real / |members| as real) else None)
  }

  lemma {:induction false} KeysAreThose(points: seq<DayPoint>, key: nat -> nat)
    ensures forall k :: k in Keys(points, key) <==> Members(points, key, k) != []
    ensures forall i, j :: 0 <= i < j < |Keys(points, key)| ==> Keys(points, key)[i] != Keys(points, key)[j]
  {
    if points != [] {
      KeysAreThose(points[..|points| - 1], key);
    }
  }

  /** More days only add keys at the end: the keys come in the order in which they first appear. */
  lemma {:induction false} KeysAppearInOrder(points: seq<DayPoint>, key: nat -> nat, n: nat)
    requires n <= |points|
    ensures Keys(points[..n], key) <= Keys(points, key)
    decreases |points|
  {
    if n < |points| {
      KeysAppearInOrder(points[..|points| - 1], key, n);
      assert points[..|points| - 1][..n] == points[..n];
    } else {
      assert points[..n] == points;
    }
  }

  /** A day is a member of its own bucket and of no other. */
  lemma {:induction false} MembersShareTheKey(points: seq<DayPoint>, key: nat -> nat, k: nat, p: DayPoint)
    ensures p in Members(points, key, k) <==> p in points && key(p.day) == k
  {
    if points != [] {
      var n := |points| - 1;
      MembersShareTheKey(points[..n], key, k, p);
      assert points == points[..n] + [points[n]];
    }
  }

  /** One bucket for each key, in order of first appearance. */
  ghost predicate Grouped(points: seq<DayPoint>, key: nat -> nat, buckets: seq<Group>) {
    var keys := Keys(points, key);
    |buckets| == |keys|
    && forall i :: 0 <= i < |keys| ==>
         Members(points, key, keys[i]) != [] && Sums(buckets[i], Members(points, key, keys[i]))
  }

  // --- The loops ------------------------------------------------------------------------------------------------

  /** `by_queue[qid] = by_queue.get(qid, 0) + b` for every entry of one day. */
  method AddBytes(acc: Bytes, more: Bytes) returns (sum: Bytes)
    ensures sum.Keys == acc.Keys + more.Keys
    ensures forall q :: At(sum, q) == At(acc, q) + At(more, q)
  {
    sum := acc;
    var rest := more.Keys;
    while exists q :: q in rest
      invariant rest <= more.Keys && sum.Keys == acc.Keys + (more.Keys - rest)
      invariant forall q :: At(sum, q) == At(acc, q) + (if q in rest then 0 else At(more, q))
      decreases rest
    {
      var q :| q in rest;
      sum := sum[q := At(sum, q) + more[q]];
      rest := rest - {q};
    }
  }

  method SumGroup(members: seq<DayPoint>) returns (g: Group)
    requires members != []
    ensures Sums(g, members)
  {
    var byQueue: Bytes := map[];
    var upCount := 0;
    var firstDay := members[0].day;
    for i := 0 to |members|
      invariant Gathered(byQueue, members[..i])
      invariant upCount == UpDays(members[..i]) && (upCount > 0 <==> exists p :: p in members[..i] && p.up)
      invariant exists p :: p in members && p.day == firstDay
      invariant forall p :: p in members[..i] ==> firstDay <= p.day
    {
      var m := members[i];
      assert members[..i + 1] == members[..i] + [m] && members[..i + 1][..i] == members[..i];
      ghost var before := byQueue;
      if m.up {
        upCount := upCount + 1;
        byQueue := AddBytes(byQueue, m.byQueue);
      }
      GatherOne(before, members[..i], m, byQueue);
      if m.day < firstDay {
        firstDay := m.day;
      }
    }
    assert members[..|members|] == members;
    var total := SumValues(byQueue);
    var up := upCount > 0;
    g := Group(firstDay, up, byQueue, if up then Some(total) else None,
               if up then Some(upCount as real / |members| as real) else None);
  }

  /** `groups` and `order`: the days under their groups, the keys as they first appear. */
  method GroupByKey(points: seq<DayPoint>, key: nat -> nat) returns (order: seq<nat>, groups: map<nat, seq<DayPoint>>)
    ensures order == Keys(points, key)
    ensures forall k :: k in groups <==> k in order
    ensures forall k :: k in groups ==> groups[k] == Members(points, key, k)
  {
    order, groups := [], map[];
    for i := 0 to |points|
      invariant order == Keys(points[..i], key)
      invariant forall k :: k in groups <==> k in order
      invariant forall k :: k in groups ==> groups[k] == Members(points[..i], key, k)
    {
      var k := key(points[i].day);
      assert points[..i + 1][..i] == points[..i];
      KeysAreThose(points[..i], key);
      if k !in groups {
        groups := groups[k := []];
        order := order + [k];
      }
      groups := groups[k := groups[k] + [points[i]]];
    }
    assert points[..|points|] == points;
  }

  /** `_aggregate_day_points` */
  method AggregateDayPoints(points: seq<DayPoint>, key: nat -> nat) returns (buckets: seq<Group>, ghost keys: seq<nat>)
    ensures keys == Keys(points, key) && Grouped(points, key, buckets)
  {
    var order, groups := GroupByKey(points, key);
    KeysAreThose(points, key);
    buckets, keys := [], order;
    for i := 0 to |order|
      invariant |buckets| == i
      invariant forall j :: 0 <= j < i ==>
                  Members(points, key, order[j]) != [] && Sums(buckets[j], Members(points, key, order[j]))
    {
      assert order[i] in order;
      var g := SumGroup(groups[order[i]]);
      buckets := buckets + [g];
    }
  }

  // --- Conservation ------------------------------------------------------------------------------------------------

  /** A quantity of days, summed bucket key bucket. */
  ghost function SumOfGroups(points: seq<DayPoint>, key: nat -> nat, keys: seq<nat>, f: Measure): nat
  {
    if keys == [] then 0
    else SumOfGroups(points, key, keys[..|keys| - 1], f) + Sum(Members(points, key, keys[|keys| - 1]), f)
  }

  lemma OneMoreMember(points: seq<DayPoint>, p: DayPoint, key: nat -> nat, k: nat, f: Measure)
    ensures Sum(Members(points + [p], key, k), f)
            == Sum(Members(points, key, k), f) + (if key(p.day) == k then Value(p, f) else 0)
  {
    assert (points + [p])[..|points|] == points;
    var before := Members(points, key, k);
    if key(p.day) == k {
      assert (before + [p])[..|before|] == before;
    } else {
      assert before + [] == before;
    }
  }

  /** One more day adds to its own bucket alone. */
  lemma {:induction false} OneMoreDay(points: seq<DayPoint>, p: DayPoint, key: nat -> nat, keys: seq<nat>, f: Measure)
    requires forall i, j :: 0 <= i < j < |keys| ==> keys[i] != keys[j]
    ensures SumOfGroups(points + [p], key, keys, f)
         == SumOfGroups(points, key, keys, f) + (if key(p.day) in keys then Value(p, f) else 0)
  {
    if keys != [] {
      var n := |keys| - 1;
      OneMoreDay(points, p, key, keys[..n], f);
      OneMoreMember(points, p, key, keys[n], f);
      assert keys == keys[..n] + [keys[n]];
    }
  }

  lemma OneMoreKey(points: seq<DayPoint>, key: nat -> nat, keys: seq<nat>, k: nat, f: Measure)
    ensures SumOfGroups(points, key, keys + [k], f)
            == SumOfGroups(points, key, keys, f) + Sum(Members(points, key, k), f)
  {
  }

  /** One more day adds to the buckets what it adds to the days. */
  lemma GroupsConserveOne(points: seq<DayPoint>, p: DayPoint, key: nat -> nat, f: Measure)
    ensures SumOfGroups(points + [p], key, Keys(points + [p], key), f)
            == SumOfGroups(points, key, Keys(points, key), f) + Value(p, f)
  {
    var (ks, k) := (Keys(points, key), key(p.day));
    assert (points + [p])[..|points|] == points;
    assert Keys(points + [p], key) == if k in ks then ks else ks + [k];
    KeysAreThose(points, key);
    OneMoreDay(points, p, key, ks, f);
    if k !in ks {
      OneMoreKey(points + [p], key, ks, k, f);
      OneMoreMember(points, p, key, k, f);
    }
  }

  ghost predicate Conserved(points: seq<DayPoint>, key: nat -> nat, f: Measure) {
    SumOfGroups(points, key, Keys(points, key), f) == Sum(points, f)
  }

  lemma StillConserved(points: seq<DayPoint>, p: DayPoint, key: nat -> nat, f: Measure)
    requires Conserved(points, key, f)
    ensures Conserved(points + [p], key, f)
  {
    GroupsConserveOne(points, p, key, f);
    assert (points + [p])[..|points|] == points;
  }

  lemma {:induction false} ConservedUpTo(points: seq<DayPoint>, n: nat, key: nat -> nat, f: Measure)
    requires n <= |points|
    ensures Conserved(points[..n], key, f)
  {
    if n > 0 {
      ConservedUpTo(points, n - 1, key, f);
      StillConserved(points[..n - 1], points[n - 1], key, f);
      assert points[..n] == points[..n - 1] + [points[n - 1]];
    } else {
      assert Keys([], key) == [];
      assert points[..n] == [];
    }
  }

  /** Whatever is summed over the days, the buckets add up to the same: each day counts in one, once. */
  lemma GroupsConserve(points: seq<DayPoint>, key: nat -> nat, f: Measure)
    ensures SumOfGroups(points, key, Keys(points, key), f) == Sum(points, f)
  {
    ConservedUpTo(points, |points|, key, f);
    assert points[..|points|] == points;
  }

  ghost predicate Adds(a: Bytes, b: Bytes, c: Bytes) {
    forall q :: (q in c <==> q in a || q in b) && At(c, q) == At(a, q) + At(b, q)
  }

  lemma AddsWithout(a: Bytes, b: Bytes, c: Bytes, q: QueueId)
    requires Adds(a, b, c)
    ensures Adds(a - {q}, b - {q}, c - {q})
  {
  }

  lemma TotalAddsOne(a: Bytes, b: Bytes, c: Bytes, q: QueueId)
    requires Adds(a, b, c) && Total(c - {q}) == Total(a - {q}) + Total(b - {q})
    ensures Total(c) == Total(a) + Total(b)
  {
    TotalDrops(a, q);
    TotalDrops(b, q);
    TotalDrops(c, q);
  }

  /** Adding entry key entry adds the totals. */
  lemma {:induction false} TotalAdds(a: Bytes, b: Bytes, c: Bytes)
    requires Adds(a, b, c)
    ensures Total(c) == Total(a) + Total(b)
    decreases c.Keys
  {
    if q :| q in c {
      AddsWithout(a, b, c, q);
      TotalAdds(a - {q}, b - {q}, c - {q});
      TotalAddsOne(a, b, c, q);
    } else {
      forall q: QueueId
        ensures q !in a && q !in b && q !in c
      {
        assert At(c, q) == At(a, q) + At(b, q);
      }
    }
  }

  lemma TotalDrops(m: Bytes, q: QueueId)
    ensures Total(m) == Total(m - {q}) + At(m, q)
  {
    if q in m {
      TotalTakesAny(m, q);
    } else {
      assert m - {q} == m;
    }
  }

  lemma {:induction false} UnnamedSumsToNothing(days: seq<DayPoint>, q: QueueId)
    requires forall p :: p in days && p.up ==> q !in p.byQueue
    ensures Sum(days, OfQueue(q)) == 0
  {
    if days != [] {
      UnnamedSumsToNothing(days[..|days| - 1], q);
    }
  }

  ghost function Named(days: seq<DayPoint>, m: Bytes): Bytes {
    map q | q in m && exists p :: p in days && p.up && q in p.byQueue :: Sum(days, OfQueue(q))
  }

  lemma NamedGathers(days: seq<DayPoint>, m: Bytes)
    requires forall p, q :: p in days && p.up && q in p.byQueue ==> q in m
    ensures Gathered(Named(days, m), days)
  {
    forall q
      ensures At(Named(days, m), q) == Sum(days, OfQueue(q))
    {
      if q !in Named(days, m) {
        UnnamedSumsToNothing(days, q);
      }
    }
  }

  function Own(d: DayPoint): Bytes { if d.up then d.byQueue else map[] }

  lemma LastDayAdds(m: Bytes, init: seq<DayPoint>, d: DayPoint)
    requires Gathered(m, init + [d])
    ensures Adds(Named(init, m), Own(d), m)
  {
    var days := init + [d];
    assert days[..|init|] == init;
    NamedGathers(init, m);
    forall q
      ensures At(m, q) == At(Named(init, m), q) + At(Own(d), q)
      ensures q in m <==> q in Named(init, m) || q in Own(d)
    {
      assert At(m, q) == Sum(days, OfQueue(q));
      assert At(Named(init, m), q) == Sum(init, OfQueue(q));
      assert d in days;
      if p :| p in days && p.up && q in p.byQueue {
        assert p in init || p == d;
      }
    }
  }

  /** A bucket's total is the sum of its up days' totals. */
  lemma {:induction false} GatheredTotals(m: Bytes, days: seq<DayPoint>)
    requires Gathered(m, days)
    ensures Total(m) == Sum(days, OfAll)
    decreases |days|
  {
    if days == [] {
      assert forall q :: q !in m;
    } else {
      var (init, d) := (days[..|days| - 1], days[|days| - 1]);
      assert days == init + [d];
      LastDayAdds(m, init, d);
      NamedGathers(init, m);
      GatheredTotals(Named(init, m), init);
      TotalAdds(Named(init, m), Own(d), m);
    }
  }

  /** What a bucket reports of a quantity. */
  function Amount(b: Group, f: Measure): nat
    requires !f.Up?
  {
    if f.OfQueue? then At(b.byQueue, f.q) else if b.total.Some? then b.total.value else 0
  }

  function AmountIn(buckets: seq<Group>, f: Measure): nat
    requires !f.Up?
  {
    if buckets == [] then 0 else AmountIn(buckets[..|buckets| - 1], f) + Amount(buckets[|buckets| - 1], f)
  }

  lemma {:induction false} AmountsSum(points: seq<DayPoint>, key: nat -> nat, keys: seq<nat>, buckets: seq<Group>,
                                      f: Measure)
    requires !f.Up? && |keys| == |buckets|
    requires forall i :: 0 <= i < |keys| ==> Amount(buckets[i], f) == Sum(Members(points, key, keys[i]), f)
    ensures AmountIn(buckets, f) == SumOfGroups(points, key, keys, f)
    decreases |keys|
  {
    if keys != [] {
      var n := |keys| - 1;
      AmountsSum(points, key, keys[..n], buckets[..n], f);
    }
  }

  lemma GroupAmount(b: Group, members: seq<DayPoint>, f: Measure)
    requires !f.Up? && members != [] && Sums(b, members)
    ensures Amount(b, f) == Sum(members, f)
  {
    if f.OfAll? {
      GatheredTotals(b.byQueue, members);
      if !b.up {
        DownDaysHaveNothing(members);
      }
    }
  }

  lemma {:induction false} DownDaysHaveNothing(days: seq<DayPoint>)
    requires forall p :: p in days ==> !p.up
    ensures Sum(days, OfAll) == 0
  {
    if days != [] {
      DownDaysHaveNothing(days[..|days| - 1]);
    }
  }

  /** Weeks and months carry exactly the bytes of the days that were up: per queue, and in all. */
  lemma GroupingConservesBytes(points: seq<DayPoint>, key: nat -> nat, buckets: seq<Group>, f: Measure)
    requires Grouped(points, key, buckets) && !f.Up?
    ensures AmountIn(buckets, f) == Sum(points, f)
  {
    var keys := Keys(points, key);
    forall i | 0 <= i < |keys|
      ensures Amount(buckets[i], f) == Sum(Members(points, key, keys[i]), f)
    {
      GroupAmount(buckets[i], Members(points, key, keys[i]), f);
    }
    AmountsSum(points, key, keys, buckets, f);
    GroupsConserve(points, key, f);
  }

  /** Each day falls into exactly one bucket. */
  lemma EachDayHasItsGroup(points: seq<DayPoint>, key: nat -> nat, p: DayPoint) returns (i: nat)
    requires p in points
    ensures i < |Keys(points, key)| && p in Members(points, key, Keys(points, key)[i])
    ensures forall j :: 0 <= j < |Keys(points, key)| && p in Members(points, key, Keys(points, key)[j]) ==> j == i
  {
    var (keys, k) := (Keys(points, key), key(p.day));
    KeysAreThose(points, key);
    MembersShareTheKey(points, key, k, p);
    assert k in keys;
    i :| 0 <= i < |keys| && keys[i] == k;
    forall j | 0 <= j < |keys| && p in Members(points, key, keys[j])
      ensures j == i
    {
      MembersShareTheKey(points, key, keys[j], p);
    }
  }

  predicate DaySorted(points: seq<DayPoint>) { forall i, j :: 0 <= i < j < |points| ==> points[i].day < points[j].day }

  /** `_raw_day_points`: the walk with a width of a day, its epochs read as days. */
  function DaysOf(buckets: seq<Bucket>): seq<DayPoint> {
    seq(|buckets|,
        i requires 0 <= i < |buckets| => DayPoint(buckets[i].epoch / 86400, buckets[i].up, buckets[i].byQueue))
  }

  /** So the days a walk yields are in order, one after the other, as the grouping wants them. */
  lemma WalkedDaysAreSorted(buckets: seq<Bucket>, start: nat, end: nat)
    requires Covers(buckets, start, end, 86400)
    ensures DaySorted(DaysOf(buckets))
    ensures forall i :: 0 < i < |buckets| ==> DaysOf(buckets)[i].day == DaysOf(buckets)[i - 1].day + 1
  {
    forall i | 0 <= i < |buckets|
      ensures DaysOf(buckets)[i].day == Slot(start, 86400) + i
    {
      BoundaryIsMultiple(Slot(start, 86400) + i, 86400);
    }
  }

  lemma {:induction false} KeysIncrease(points: seq<DayPoint>, key: nat -> nat)
    requires DaySorted(points) && Monotone(key)
    ensures forall i, j :: 0 <= i < j < |Keys(points, key)| ==> Keys(points, key)[i] < Keys(points, key)[j]
    ensures points != [] ==> forall k :: k in Keys(points, key) ==> k <= key(points[|points| - 1].day)
  {
    if points != [] {
      var n := |points| - 1;
      var ks := Keys(points[..n], key);
      KeysIncrease(points[..n], key);
      if n > 0 {
        assert key(points[n - 1].day) <= key(points[n].day);
      }
      assert forall i :: 0 <= i < |ks| ==> ks[i] in ks;
    }
  }

  /** Sorted days make buckets that follow one another: every day of an earlier bucket is before every day
      of a later one, so their starts strictly increase. */
  lemma GroupsFollowTheDays(points: seq<DayPoint>, key: nat -> nat, buckets: seq<Group>, i: nat, j: nat)
    requires Grouped(points, key, buckets) && DaySorted(points) && Monotone(key) && i < j < |buckets|
    ensures forall p, r :: p in Members(points, key, Keys(points, key)[i])
                           && r in Members(points, key, Keys(points, key)[j])
                           ==> p.day < r.day
    ensures buckets[i].firstDay < buckets[j].firstDay
  {
    var keys := Keys(points, key);
    KeysIncrease(points, key);
    forall p, r | p in Members(points, key, keys[i]) && r in Members(points, key, keys[j])
      ensures p.day < r.day
    {
      MembersShareTheKey(points, key, keys[i], p);
      MembersShareTheKey(points, key, keys[j], r);
      assert r.day <= p.day ==> key(r.day) <= key(p.day);
    }
  }

  lemma {:induction false} UpDaysAreDays(days: seq<DayPoint>)
    ensures UpDays(days) <= |days|
    ensures UpDays(days) > 0 <==> exists p :: p in days && p.up
    ensures UpDays(days) == |days| <==> forall p :: p in days ==> p.up
  {
    if days != [] {
      var n := |days| - 1;
      UpDaysAreDays(days[..n]);
      assert days == days[..n] + [days[n]];
    }
  }

  /** Coverage is a share of days: positive, at most one, and one exactly when no day of the bucket was down. */
  lemma CoverageIsAShare(g: Group, members: seq<DayPoint>)
    requires members != [] && Sums(g, members)
    ensures g.coverage.Some? <==> g.up
    ensures g.up ==> 0.0 < g.coverage.value <= 1.0 && (g.coverage.value == 1.0 <==> forall p :: p in members ==> p.up)
  {
    UpDaysAreDays(members);
    if g.up {
      ShareOf(UpDays(members), |members|);
    }
  }

  lemma ShareOf(part: nat, whole: nat)
    requires 0 < part <= whole
    ensures 0.0 < part as real / whole as real <= 1.0
    ensures part as real / whole as real == 1.0 <==> part == whole
  {
  }
}
