/**
 Which bound queue a release still downloading on the seedbox belongs to.

 Every queue record of the pass has one fate. One that says where it will land is attributed to
 the queue whose visible root contains that place most closely; the rest is never guessed.
 */
module Preflight {
  import opened Common
  import opened Paths
  import opened ArrMatching

  datatype BoundQueue = BoundQueue(id: int, visible: Option<string>)

  datatype Fate = ImportedAlready | Retired | AttributedTo(queueId: int) | Omitted

  /** `_visible_path_contains` */
  predicate VisiblePathContains(visible: string, outputPath: string) {
    RStrip(visible) != "" && AtOrBelow(RStrip(visible), RStrip(outputPath))
  }

  function Root(queue: BoundQueue): string {
    if queue.visible.Some? then RStrip(queue.visible.value) else ""
  }

  predicate Holds(queue: BoundQueue, path: string) {
    queue.visible.Some? && VisiblePathContains(queue.visible.value, path)
  }

  /** Queue `k` holds the path, no queue holds it more closely, and no earlier one as closely. */
  predicate Closest(queues: seq<BoundQueue>, path: string, k: nat) {
    && k < |queues| && Holds(queues[k], path)
    && (forall j :: 0 <= j < |queues| && Holds(queues[j], path) ==> |Root(queues[j])| <= |Root(queues[k])|)
    && (forall j :: 0 <= j < k && Holds(queues[j], path) ==> |Root(queues[j])| < |Root(queues[k])|)
  }

  predicate MatchesAnyItem(record: QueueRecord, itemNames: set<string>, names: NameTest) {
    exists name :: name in itemNames && names(record, name)
  }

  predicate Landing(record: QueueRecord) { record.outputPath.Some? && record.outputPath.value != "" }

  /** What becomes of a record, said without the loops. */
  ghost predicate HasFate(record: QueueRecord, queues: seq<BoundQueue>, itemNames: set<string>, names: NameTest,
                          fate: Fate) {
    if record.trackedState == Some(TRACKED_DOWNLOAD_STATE_IMPORTED) then fate == ImportedAlready
    else if MatchesAnyItem(record, itemNames, names) then fate == Retired
    else if Landing(record) then
      if forall q :: q in queues ==> !Holds(q, record.outputPath.value) then fate == Omitted
      else exists k: nat :: Closest(queues, record.outputPath.value, k) && fate == AttributedTo(queues[k].id)
    else fate == if |queues| == 1 then AttributedTo(queues[0].id) else Omitted
  }

  // --- The loops ------------------------------------------------------------------------------------

  method FindClosest(queues: seq<BoundQueue>, path: string) returns (best: Option<nat>)
    ensures best.Some? ==> Closest(queues, path, best.value)
    ensures best.None? ==> forall q :: q in queues ==> !Holds(q, path)
  {
    best := None;
    var bestLen := -1;
    for k := 0 to |queues|
      invariant best.None? ==> bestLen == -1
      invariant best.Some? ==>
                  best.value < k && Holds(queues[best.value], path) && bestLen == |Root(queues[best.value])|
      invariant forall j :: 0 <= j < k && Holds(queues[j], path) ==> |Root(queues[j])| <= bestLen
      invariant best.Some? ==> forall j :: 0 <= j < best.value && Holds(queues[j], path) ==> |Root(queues[j])| < bestLen
    {
      var visible := queues[k].visible;
      var holds := visible.Some? && visible.value != "" && VisiblePathContains(visible.value, path);
      assert holds == Holds(queues[k], path);
      if holds && |RStrip(visible.value)| > bestLen {
        best, bestLen := Some(k), |RStrip(visible.value)|;
      }
    }
  }

  /** The fates of all records, one by one. */
  ghost predicate HaveFates(records: seq<QueueRecord>, queues: seq<BoundQueue>, itemNames: set<string>, names: NameTest,
                            fates: seq<Fate>) {
    |fates| == |records| && forall i :: 0 <= i < |records| ==> HasFate(records[i], queues, itemNames, names, fates[i])
  }

  /** The branch one record takes. */
  method FateOf(record: QueueRecord, queues: seq<BoundQueue>, itemNames: set<string>, names: NameTest)
    returns (fate: Fate)
    ensures HasFate(record, queues, itemNames, names, fate)
  {
    if record.trackedState == Some(TRACKED_DOWNLOAD_STATE_IMPORTED) {
      return ImportedAlready;
    }
    if MatchesAnyItem(record, itemNames, names) {
      return Retired;
    }
    fate := Omitted;
    if Landing(record) {
      var best := FindClosest(queues, record.outputPath.value);
      if best.Some? {
        fate := AttributedTo(queues[best.value].id);
        assert queues[best.value] in queues;
      }
    } else if |queues| == 1 {
      fate := AttributedTo(queues[0].id);
    }
  }

  /** `_preflight_candidates` */
  method PreflightCandidates(records: seq<QueueRecord>, queues: seq<BoundQueue>, itemNames: set<string>,
                             names: NameTest)
    returns (candidates: seq<(int, QueueRecord)>, retired: seq<QueueRecord>)
    ensures exists fates :: HaveFates(records, queues, itemNames, names, fates)
                            && candidates == AttributedOf(records, fates) && retired == RetiredOf(records, fates)
  {
    candidates, retired := [], [];
    ghost var fates := [];
    for i := 0 to |records|
      invariant HaveFates(records[..i], queues, itemNames, names, fates)
      invariant candidates == AttributedOf(records[..i], fates) && retired == RetiredOf(records[..i], fates)
    {
      var fate := FateOf(records[i], queues, itemNames, names);
      OneMoreFate(records[..i], fates, records[i], fate);
      assert records[..i + 1] == records[..i] + [records[i]];
      match fate {
        case AttributedTo(queueId) => candidates := candidates + [(queueId, records[i])];
        case Retired => retired := retired + [records[i]];
        case _ =>
      }
      fates := fates + [fate];
    }
    assert records[..|records|] == records;
  }

  lemma OneMoreFate(records: seq<QueueRecord>, fates: seq<Fate>, record: QueueRecord, fate: Fate)
    requires |records| == |fates|
    ensures AttributedOf(records + [record], fates + [fate])
         == AttributedOf(records, fates) + (if fate.AttributedTo? then [(fate.queueId, record)] else [])
    ensures RetiredOf(records + [record], fates + [fate])
            == RetiredOf(records, fates) + (if fate.Retired? then [record] else [])
  {
    assert (records + [record])[..|records|] == records && (fates + [fate])[..|fates|] == fates;
  }

  function AttributedOf(records: seq<QueueRecord>, fates: seq<Fate>): seq<(int, QueueRecord)>
    requires |records| == |fates|
  {
    if records == [] then []
    else
      var n := |records| - 1;
      AttributedOf(records[..n], fates[..n]) + (if fates[n].AttributedTo? then [(fates[n].queueId, records[n])] else [])
  }

  function RetiredOf(records: seq<QueueRecord>, fates: seq<Fate>): seq<QueueRecord>
    requires |records| == |fates|
  {
    if records == [] then []
    else
      var n := |records| - 1;
      RetiredOf(records[..n], fates[..n]) + (if fates[n].Retired? then [records[n]] else [])
  }

  /** The candidates are the records attributed, with their queues, in the order they are listed. */
  lemma {:induction false} CandidatesAreTheAttributed(records: seq<QueueRecord>, fates: seq<Fate>)
    returns (at: seq<nat>)
    requires |records| == |fates|
    ensures |at| == |AttributedOf(records, fates)| && forall i, j :: 0 <= i < j < |at| ==> at[i] < at[j]
    ensures forall j :: 0 <= j < |at| ==>
              && at[j] < |records| && fates[at[j]].AttributedTo?
              && AttributedOf(records, fates)[j].0 == fates[at[j]].queueId
              && AttributedOf(records, fates)[j].1 == records[at[j]]
    ensures forall i: nat :: i in at <==> i < |records| && fates[i].AttributedTo?
  {
    if records == [] {
      at := [];
    } else {
      var n := |records| - 1;
      var before := CandidatesAreTheAttributed(records[..n], fates[..n]);
      at := before + if fates[n].AttributedTo? then [n] else [];
      OneMoreFate(records[..n], fates[..n], records[n], fates[n]);
      assert records[..n] + [records[n]] == records && fates[..n] + [fates[n]] == fates;
    }
  }

  /** The retired are the records whose item is known, in the order they are listed. */
  lemma {:induction false} RetiredAreTheKnown(records: seq<QueueRecord>, fates: seq<Fate>) returns (at: seq<nat>)
    requires |records| == |fates|
    ensures |at| == |RetiredOf(records, fates)| && forall i, j :: 0 <= i < j < |at| ==> at[i] < at[j]
    ensures forall j :: 0 <= j < |at| ==> at[j] < |records| && RetiredOf(records, fates)[j] == records[at[j]]
    ensures forall i: nat :: i in at <==> i < |records| && fates[i].Retired?
  {
    if records == [] {
      at := [];
    } else {
      var n := |records| - 1;
      var before := RetiredAreTheKnown(records[..n], fates[..n]);
      at := before + if fates[n].Retired? then [n] else [];
      OneMoreFate(records[..n], fates[..n], records[n], fates[n]);
      assert records[..n] + [records[n]] == records && fates[..n] + [fates[n]] == fates;
    }
  }

  function Dropped(fates: seq<Fate>): nat {
    if fates == [] then 0
    else Dropped(fates[..|fates| - 1])
         + (if fates[|fates| - 1].ImportedAlready? || fates[|fates| - 1].Omitted? then 1 else 0)
  }

  /** Nothing is in both lists, and nothing gets lost between them and what is dropped on purpose. */
  lemma {:induction false} EveryRecordIsAccountedFor(records: seq<QueueRecord>, fates: seq<Fate>)
    requires |records| == |fates|
    ensures |AttributedOf(records, fates)| + |RetiredOf(records, fates)| + Dropped(fates) == |records|
  {
    if records != [] {
      EveryRecordIsAccountedFor(records[..|records| - 1], fates[..|fates| - 1]);
    }
  }

  /** Every record has exactly one fate. */
  lemma FateIsUnique(record: QueueRecord, queues: seq<BoundQueue>, itemNames: set<string>, names: NameTest, f: Fate,
                     g: Fate)
    requires HasFate(record, queues, itemNames, names, f) && HasFate(record, queues, itemNames, names, g)
    ensures f == g
  {
  }

  // --- The roots that hold a path ---------------------------------------------------------------------

  /** Containment goes by whole components, whatever trailing slashes either side has. */
  lemma ContainmentIsByComponent(visible: string, path: string)
    ensures VisiblePathContains(visible, path)
            <==> RStrip(visible) != "" && Split(RStrip(visible)) <= Split(RStrip(path))
  {
    BelowIsComponentPrefix(RStrip(visible), RStrip(path));
  }

  /** All roots holding one path form a chain, the longer inside the shorter. */
  lemma HoldersFormAChain(q: BoundQueue, r: BoundQueue, path: string)
    requires Holds(q, path) && Holds(r, path) && |Root(q)| <= |Root(r)|
    ensures AtOrBelow(Root(q), Root(r)) && Split(Root(q)) <= Split(Root(r))
    ensures |Root(q)| == |Root(r)| ==> Root(q) == Root(r)
  {
    var p := RStrip(path);
    assert Root(q) <= p && Root(r) <= p;
    assert |Root(q)| < |Root(r)| ==> p[|Root(q)|] == '/';
    BelowIsComponentPrefix(Root(q), Root(r));
  }

  /** The winning root is inside every other root that holds the path. */
  lemma WinnerIsInnermost(queues: seq<BoundQueue>, path: string, k: nat, j: nat)
    requires Closest(queues, path, k) && j < |queues| && Holds(queues[j], path)
    ensures Split(Root(queues[j])) <= Split(Root(queues[k]))
  {
    HoldersFormAChain(queues[j], queues[k], path);
  }

  /** The winning root does not depend on the order the queues are listed in. */
  lemma WinningRootIgnoresOrder(queues: seq<BoundQueue>, others: seq<BoundQueue>, path: string, k: nat, m: nat)
    requires multiset(queues) == multiset(others)
    requires Closest(queues, path, k) && Closest(others, path, m)
    ensures Root(queues[k]) == Root(others[m])
  {
    assert queues[k] in multiset(queues) && others[m] in multiset(others);
    assert queues[k] in others && others[m] in queues;
    HoldersFormAChain(queues[k], others[m], path);
  }

  /** Nor does the winning queue, exactly when no different queue shares its root. */
  lemma WinnerIgnoresOrderExactlyWhen(queues: seq<BoundQueue>, path: string, k: nat)
    requires Closest(queues, path, k)
    ensures (forall others: seq<BoundQueue>, m: nat :: multiset(others) == multiset(queues) && Closest(others, path, m)
                ==> others[m] == queues[k])
            <==> (forall q :: q in queues && Root(q) == Root(queues[k]) ==> q == queues[k])
  {
    if forall q :: q in queues && Root(q) == Root(queues[k]) ==> q == queues[k] {
      forall others: seq<BoundQueue>, m: nat | multiset(others) == multiset(queues) && Closest(others, path, m)
        ensures others[m] == queues[k]
      {
        WinningRootIgnoresOrder(queues, others, path, k, m);
        assert others[m] in multiset(others);
      }
    } else {
      var q :| q in queues && Root(q) == Root(queues[k]) && q != queues[k];
      var j :| 0 <= j < |queues| && queues[j] == q;
      var others := MovedToFront(queues, path, k, j);
      assert others[0] != queues[k];
    }
  }

  /** Listed first, a queue that shares the winning root wins. */
  lemma MovedToFront(queues: seq<BoundQueue>, path: string, k: nat, j: nat) returns (others: seq<BoundQueue>)
    requires Closest(queues, path, k) && j < |queues| && Root(queues[j]) == Root(queues[k])
    ensures multiset(others) == multiset(queues) && others != [] && others[0] == queues[j] && Closest(others, path, 0)
  {
    others := [queues[j]] + queues[..j] + queues[j + 1..];
    assert queues == queues[..j] + [queues[j]] + queues[j + 1..];
    forall i | 0 <= i < |others| && Holds(others[i], path)
      ensures |Root(others[i])| <= |Root(others[0])|
    {
      assert others[i] in multiset(others);
    }
  }

  /** Among queues that share the winning root, the first listed wins. */
  lemma FirstListedOfItsRootWins(queues: seq<BoundQueue>, path: string, k: nat, j: nat)
    requires Closest(queues, path, k) && j < |queues| && Root(queues[j]) == Root(queues[k])
    ensures k <= j
    ensures Closest(queues, path, j) ==> j == k
  {
  }
}
