/**
 Traffic buckets: walking the aligned bucket boundaries of a window, and summing days into weeks
 or months.
 */
module Throughput {
  import opened Common

  type QueueId = int
  type Bytes = map<QueueId, nat>

  /** One bucket of the walk; an empty map and `up = false` is a gap. */
  datatype Bucket = Bucket(epoch: nat, up: bool, total: Option<nat>, byQueue: Bytes)

  /** A day as the aggregation reads it, numbered from 1970-01-01. */
  datatype DayPoint = DayPoint(day: nat, up: bool, byQueue: Bytes)

  datatype Group = Group(firstDay: nat, up: bool, byQueue: Bytes, total: Option<nat>, coverage: Option<real>)

  // --- Sums ----------------------------------------------------------------------------------------------

  function At(m: Bytes, q: QueueId): nat { if q in m then m[q] else 0 }

  method SumValues(m: Bytes) returns (total: nat)
    ensures total == Total(m)
  {
    total := 0;
    var rest := m.Keys;
    ghost var left := m;
    while exists q :: q in rest
      invariant left.Keys == rest && rest <= m.Keys && total + Total(left) == Total(m)
      invariant forall q :: q in rest ==> left[q] == m[q]
      decreases rest
    {
      var q :| q in rest;
      TotalTakesAny(left, q);
      total := total + m[q];
      rest, left := rest - {q}, left - {q};
    }
  }

  // --- The bucket walk ----------------------------------------------------------------------------------------

  /** The `n`th bucket boundary, `n * width`. */
  function Boundary(n: nat, width: nat): nat { if n == 0 then 0 else Boundary(n - 1, width) + width }

  lemma {:induction false} BoundaryIsMultiple(n: nat, width: nat)
    ensures Boundary(n, width) == n * width
  {
    if n > 0 {
      BoundaryIsMultiple(n - 1, width);
      assert n * width == (n - 1) * width + width;
    }
  }

  lemma {:induction false} BoundariesGrow(m: nat, n: nat, width: nat)
    requires m < n
    ensures Boundary(m, width) + width <= Boundary(n, width)
    decreases n - m
  {
    if m < n - 1 {
      BoundariesGrow(m, n - 1, width);
    }
  }

  function Slot(t: nat, width: nat): nat
    requires width > 0
  {
    t / width
  }

  /** `(t // width) * width` */
  function Aligned(t: nat, width: nat): nat
    requires width > 0
  {
    Boundary(Slot(t, width), width)
  }

  lemma AlignedIsBelow(t: nat, width: nat)
    requires width > 0
    ensures Aligned(t, width) == t / width * width
    ensures Aligned(t, width) <= t < Aligned(t, width) + width
  {
    BoundaryIsMultiple(t / width, width);
  }

  /** Later instants have later slots. */
  lemma SlotsGrow(s: nat, t: nat, width: nat)
    requires width > 0 && s <= t
    ensures Slot(s, width) <= Slot(t, width)
  {
    AlignedIsBelow(s, width);
    AlignedIsBelow(t, width);
    if Slot(t, width) < Slot(s, width) {
      BoundariesGrow(Slot(t, width), Slot(s, width), width);
    }
  }

  /** What the walk emits for an epoch: a gap unless the process was up, and then zero or more bytes. */
  ghost function BucketAt(epoch: nat, rows: map<nat, Bytes>, upEpochs: set<nat>): Bucket {
    var bytes: Bytes := if epoch in rows then rows[epoch] else map[];
    if epoch in upEpochs then Bucket(epoch, true, Some(Total(bytes)), bytes) else Bucket(epoch, false, None, map[])
  }

  /** One bucket for each boundary from the window's first to its last. */
  predicate Covers(buckets: seq<Bucket>, start: nat, end: nat, width: nat)
    requires width > 0
  {
    && |buckets| == Slot(end, width) - Slot(start, width) + 1
    && forall i :: 0 <= i < |buckets| ==> buckets[i].epoch == Boundary(Slot(start, width) + i, width)
  }

  /** `_get_raw_throughput`'s loop, and with a width of a day `_raw_day_points`'. */
  method WalkBuckets(start: nat, end: nat, width: nat, rows: map<nat, Bytes>, upEpochs: set<nat>)
    returns (buckets: seq<Bucket>)
    requires width > 0 && start <= end
    ensures Covers(buckets, start, end, width)
    ensures forall b :: b in buckets ==>
              && (b.up <==> b.epoch in upEpochs)
              && b.byQueue == (if b.up && b.epoch in rows then rows[b.epoch] else map[])
              && b.total == (if b.up then Some(Total(b.byQueue)) else None)
  {
    buckets := [];
    SlotsGrow(start, end, width);
    var epoch: nat, last: nat := Aligned(start, width), Aligned(end, width);
    ghost var slot := Slot(start, width);
    while epoch <= last
      invariant epoch == Boundary(slot, width) && slot == Slot(start, width) + |buckets| <= Slot(end, width) + 1
      invariant forall i :: 0 <= i < |buckets| ==> buckets[i].epoch == Boundary(Slot(start, width) + i, width)
      invariant forall b :: b in buckets ==> b == BucketAt(b.epoch, rows, upEpochs)
      decreases Slot(end, width) + 1 - slot
    {
      if slot > Slot(end, width) {
        BoundariesGrow(Slot(end, width), slot, width);
      }
      var up := epoch in upEpochs;
      var perQueue := if epoch in rows then rows[epoch] else map[];
      var total := SumValues(perQueue);
      buckets := buckets + [Bucket(epoch, up, if up then Some(total) else None, if up then perQueue else map[])];
      epoch, slot := epoch + width, slot + 1;
    }
    if slot < Slot(end, width) {
      BoundariesGrow(slot, Slot(end, width), width);
    }
  }

  /** Every instant of the window falls into exactly one bucket: the one that starts at its aligned epoch. */
  lemma EachInstantHasItsBucket(buckets: seq<Bucket>, start: nat, end: nat, width: nat, t: nat) returns (i: nat)
    requires width > 0 && Covers(buckets, start, end, width) && start <= t <= end
    ensures i < |buckets| && buckets[i].epoch == t / width * width && buckets[i].epoch <= t < buckets[i].epoch + width
    ensures forall j :: 0 <= j < |buckets| && buckets[j].epoch <= t < buckets[j].epoch + width ==> j == i
  {
    SlotsGrow(start, t, width);
    SlotsGrow(t, end, width);
    AlignedIsBelow(t, width);
    i := Slot(t, width) - Slot(start, width);
    forall j | 0 <= j < |buckets| && buckets[j].epoch <= t < buckets[j].epoch + width
      ensures j == i
    {
      if j < i {
        BoundariesGrow(Slot(start, width) + j, Slot(t, width), width);
      } else if i < j {
        BoundariesGrow(Slot(t, width), Slot(start, width) + j, width);
      }
    }
  }
}
