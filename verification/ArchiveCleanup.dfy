/**
 Removing the archive volumes a successful extraction has used up.
 */
module ArchiveCleanup {
  import opened Common
  import opened VanishedSweep
  import opened ScanPersist

  /** A volume file: its path below the item's own directory, and the file it resolves to if that lies
      within the queue's root. */
  datatype Candidate = Candidate(rest: string, target: Option<string>)

  datatype Reason = LooseFile | MountMissing | OutsideRoot | NothingDeleted

  datatype Outcome = Outcome(deleted: seq<string>, bytesFreed: nat, withheld: Option<Reason>)

  /** Files by resolved path with their sizes, and the ones the process may not remove. */
  datatype Disk = Disk(files: map<string, nat>, locked: set<string>)

  function Volumes(heads: seq<seq<Candidate>>): seq<Candidate> {
    if heads == [] then [] else Volumes(heads[..|heads| - 1]) + heads[|heads| - 1]
  }

  predicate Removable(disk: Disk, target: string) { target in disk.files && target !in disk.locked }

  /** A batch with a volume that leaves the root is refused as a whole. */
  predicate Contained(candidates: seq<Candidate>) { forall c :: c in candidates ==> c.target.Some? }

  /** The paths recorded for the volumes removed: the item's own path, and the rest below it. */
  function Logical(relPath: string, c: Candidate): string { relPath + "/" + c.rest }

  /** The volumes that are removed, in order: the ones removable when their turn comes. */
  function Removed(disk: Disk, candidates: seq<Candidate>): seq<Candidate>
    requires Contained(candidates)
  {
    if candidates == [] then []
    else
      var c := candidates[|candidates| - 1];
      var before := Removed(disk, candidates[..|candidates| - 1]);
      if Removable(Left(disk, before), c.target.value) then before + [c] else before
  }

  function Left(disk: Disk, removed: seq<Candidate>): Disk
  {
    disk.(files := disk.files - set c | c in removed && c.target.Some? :: c.target.value)
  }

  function LogicalAll(relPath: string, removed: seq<Candidate>): (paths: seq<string>)
    ensures |paths| == |removed|
    ensures forall i :: 0 <= i < |removed| ==> paths[i] == relPath + "/" + removed[i].rest
  {
    seq(|removed|, i requires 0 <= i < |removed| => Logical(relPath, removed[i]))
  }

  /** `delete_extracted_archives` over the disk, recording what it removed. */
  method DeleteExtractedArchives(tables: ItemTables, relPath: string, isDir: bool, mountOk: bool,
                                 heads: seq<seq<Candidate>>, disk: Disk)
    returns (outcome: Outcome, disk': Disk)
    requires tables.Valid()
    modifies tables
    ensures tables.Valid() && tables.rows == old(tables.rows) && tables.settle == old(tables.settle)
    ensures var candidates := Volumes(heads);
            var allowed := heads != [] && isDir && mountOk && Contained(candidates);
            if !allowed then
              disk' == disk && tables.archives == old(tables.archives)
              && outcome.deleted == [] && outcome.bytesFreed == 0
            else
              var removed := Removed(disk, candidates);
              && outcome.deleted == LogicalAll(relPath, removed)
              && disk' == Left(disk, removed)
              && outcome.bytesFreed + Total(disk'.files) == Total(disk.files)
              && tables.archives == old(tables.archives) + set p | p in outcome.deleted
    ensures outcome.withheld == if heads == [] then None
                                else if !isDir then Some(LooseFile)
                                else if !mountOk then Some(MountMissing)
                                else if !Contained(Volumes(heads)) then Some(OutsideRoot)
                                else if outcome.deleted == [] then Some(NothingDeleted)
                                else None
  {
    disk' := disk;
    outcome := Outcome([], 0, None);
    if heads == [] {
      return;
    }
    if !isDir {
      outcome := Outcome([], 0, Some(LooseFile));
      return;
    }
    if !mountOk {
      outcome := Outcome([], 0, Some(MountMissing));
      return;
    }
    var candidates := Expand(heads);
    var resolved := Resolve(candidates);
    if resolved.None? {
      outcome := Outcome([], 0, Some(OutsideRoot));
      return;
    }
    var deleted, bytesFreed;
    deleted, bytesFreed, disk' := Unlink(relPath, candidates, resolved.value, disk);
    if deleted == [] {
      outcome := Outcome([], 0, Some(NothingDeleted));
      NothingRemoved(disk, Removed(disk, candidates), disk', relPath);
      return;
    }
    tables.RecordArchives(deleted);
    outcome := Outcome(deleted, bytesFreed, None);
  }

  lemma NothingRemoved(disk: Disk, removed: seq<Candidate>, disk': Disk, relPath: string)
    requires disk' == Left(disk, removed) && LogicalAll(relPath, removed) == []
    ensures disk' == disk && removed == []
  {
  }

  method Expand(heads: seq<seq<Candidate>>) returns (candidates: seq<Candidate>)
    ensures candidates == Volumes(heads)
  {
    candidates := [];
    for i := 0 to |heads|
      invariant candidates == Volumes(heads[..i])
    {
      assert heads[..i + 1][..i] == heads[..i];
      candidates := candidates + heads[i];
    }
    assert heads[..|heads|] == heads;
  }

  /** Every volume is checked before any is touched. */
  method Resolve(candidates: seq<Candidate>) returns (resolved: Option<seq<string>>)
    ensures resolved.Some? <==> Contained(candidates)
    ensures resolved.Some? ==> |resolved.value| == |candidates|
                               && forall i :: 0 <= i < |candidates| ==> candidates[i].target == Some(resolved.value[i])
  {
    var targets: seq<string> := [];
    for i := 0 to |candidates|
      invariant |targets| == i && forall j :: 0 <= j < i ==> candidates[j].target == Some(targets[j])
    {
      if candidates[i].target.None? {
        assert candidates[i] in candidates;
        return None;
      }
      targets := targets + [candidates[i].target.value];
    }
    resolved := Some(targets);
  }

  method Unlink(relPath: string, candidates: seq<Candidate>, targets: seq<string>, disk: Disk)
    returns (deleted: seq<string>, bytesFreed: nat, disk': Disk)
    requires Contained(candidates) && |targets| == |candidates|
    requires forall i :: 0 <= i < |candidates| ==> candidates[i].target == Some(targets[i])
    ensures var removed := Removed(disk, candidates);
            deleted == LogicalAll(relPath, removed) && disk' == Left(disk, removed)
    ensures bytesFreed + Total(disk'.files) == Total(disk.files)
  {
    deleted, bytesFreed, disk' := [], 0, disk;
    for i := 0 to |candidates|
      invariant Contained(candidates[..i])
      invariant deleted == LogicalAll(relPath, Removed(disk, candidates[..i]))
                && disk' == Left(disk, Removed(disk, candidates[..i]))
      invariant bytesFreed + Total(disk'.files) == Total(disk.files)
    {
      assert candidates[..i + 1][..i] == candidates[..i];
      if Removable(disk', targets[i]) {
        TotalTakesAny(disk'.files, targets[i]);
        bytesFreed := bytesFreed + disk'.files[targets[i]];
        disk' := disk'.(files := disk'.files - {targets[i]});
        deleted := deleted + [Logical(relPath, candidates[i])];
      }
    }
    assert candidates[..|candidates|] == candidates;
  }

  // --- What is removed, and what becomes of it -------------------------------------------------------------

  /** Only volumes of the batch go, each file once, and every one of them that could go has gone. */
  lemma {:induction false} RemovedExactly(disk: Disk, candidates: seq<Candidate>, target: string)
    requires Contained(candidates)
    ensures target in Left(disk, Removed(disk, candidates)).files
            <==> target in disk.files
                 && (target in disk.locked || forall c :: c in candidates ==> c.target != Some(target))
  {
    if candidates != [] {
      var n := |candidates| - 1;
      RemovedExactly(disk, candidates[..n], target);
      assert candidates == candidates[..n] + [candidates[n]];
    }
  }

  /** The volumes of the heads, one head after the other. */
  lemma {:induction false} VolumesJoin(a: seq<seq<Candidate>>, head: seq<Candidate>, b: seq<seq<Candidate>>)
    ensures Volumes(a + [head] + b) == Volumes(a) + head + Volumes(b)
  {
    if b == [] {
      assert a + [head] + b == a + [head];
    } else {
      var n := |b| - 1;
      assert (a + [head] + b)[..|a| + 1 + n] == a + [head] + b[..n];
      VolumesJoin(a, head, b[..n]);
    }
  }

  /** Volume `i` can be removed when its turn comes: it is there, it is not locked, and no earlier volume was the
      same file. */
  predicate Goes(disk: Disk, candidates: seq<Candidate>, i: nat)
    requires i < |candidates|
  {
    var target := candidates[i].target;
    && target.Some? && target.value in disk.files && target.value !in disk.locked
    && forall h :: 0 <= h < i ==> candidates[h].target != target
  }

  /** Just the volumes that can go are removed, in their order. */
  lemma {:induction false} RemovedInOrder(disk: Disk, candidates: seq<Candidate>) returns (at: seq<nat>)
    requires Contained(candidates)
    ensures |at| == |Removed(disk, candidates)| && forall i, j :: 0 <= i < j < |at| ==> at[i] < at[j]
    ensures forall j :: 0 <= j < |at| ==> at[j] < |candidates| && Removed(disk, candidates)[j] == candidates[at[j]]
    ensures forall i: nat :: i in at <==> i < |candidates| && Goes(disk, candidates, i)
  {
    if candidates == [] {
      at := [];
    } else {
      var (n, c) := (|candidates| - 1, candidates[|candidates| - 1]);
      at := RemovedInOrder(disk, candidates[..n]);
      RemovedExactly(disk, candidates[..n], c.target.value);
      forall i: nat | i < n
        ensures Goes(disk, candidates[..n], i) <==> Goes(disk, candidates, i)
      {
      }
      if Removable(Left(disk, Removed(disk, candidates[..n])), c.target.value) {
        at := at + [n];
      }
      assert Goes(disk, candidates, n) <==> n in at;
    }
  }

  /** What is recorded lies below the item: in a later sweep it stands and falls with the item's own row. */
  lemma RecordedBelowItsRelease(relPath: string, removed: seq<Candidate>, p: string)
    requires p in LogicalAll(relPath, removed) && relPath != "" && !HasSlash(relPath)
    ensures HasSlash(p) && Top(p) == relPath
  {
    var i :| 0 <= i < |removed| && p == Logical(relPath, removed[i]);
    TopOfChild(relPath, removed[i].rest);
  }

  lemma {:induction false} TopOfChild(top: string, rest: string)
    requires !HasSlash(top)
    ensures Top(top + "/" + rest) == top && HasSlash(top + "/" + rest)
  {
    var p := top + "/" + rest;
    assert p[|top|] == '/';
    if top != "" {
      assert p[0] == top[0] && top[0] in top;
      assert p[1..] == top[1..] + "/" + rest;
      TopOfChild(top[1..], rest);
    }
  }
}
