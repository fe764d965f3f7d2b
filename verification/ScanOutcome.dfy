/**
 What one scan pass leaves in the item table: the state of every row, found or vanished, protected
 or not, and what the pass reports.

 All of it is said of the rows before the pass, the nodes it found, and the settle records after
 it, without the rules that arbitrate between them.
 */
module ScanOutcome {
  import opened Common
  import opened Absence
  import opened PathOrder
  import opened VanishedSweep
  import opened SweptRows
  import opened ScanPersist

  /** What post-processing said of an item, which no comparison of sizes can. */
  const OUTCOMES := {ItemState.Verified, Corrupt, Extracted, ExtractFailed}

  /** The gate is on and the item's record has not matched twice over a minute. */
  predicate Unsettled(record: Option<SettleRecord>, a: PassInput) {
    a.settleEnabled && record.Some?
    && (record.value.matchedScans < 2 || a.now - record.value.firstMatchedAt < 60)
  }

  /** The reading says no more than that the local copy has gone, or is being taken apart. */
  predicate OnlyLocalLoss(prev: ItemRow, n: Node) {
    n.structural == RemoteOnly
    || (n.structural == Partial && prev.remoteSize.Some? && n.remoteSize == prev.remoteSize)
  }

  /** The state and the mark of a row found by a pass, where the gate does not hold it. */
  lemma FoundRowReads(prev: ItemRow, n: Node, record: Option<SettleRecord>, a: PassInput)
    requires n.relPath !in a.isProtected && !Unsettled(record, a)
    ensures var row := AfterVisit(Some(prev), n, record, a);
            var up := TimeIsUp(prev, a.mountOk, a.now);
            && (row.state, row.firstMissingAt) ==
               (if prev.state in OUTCOMES
                   && (n.structural == Downloaded || (n.structural == LocalOnly && prev.remoteDeleted))
                then (prev.state, None)
                else if prev.state in COMPLETE && OnlyLocalLoss(prev, n) then
                  if !up then (prev.state, Marked(prev, a.mountOk, a.now))
                  else if n.structural == RemoteOnly then (RemovedLocal, prev.firstMissingAt)
                  else (Partial, None)
                else if prev.state == RemovedLocal && n.structural == RemoteOnly
                then (RemovedLocal, prev.firstMissingAt)
                else (n.structural, None))
            && !row.settling
  {
  }

  /** A row found for the first time takes the reading. */
  lemma NewRowReads(n: Node, record: Option<SettleRecord>, a: PassInput)
    requires n.relPath !in a.isProtected && !Unsettled(record, a)
    ensures AfterVisit(None, n, record, a)
         == ItemRow(n.structural, false, None, if n.structural == Downloaded then Some(a.now) else None,
                    n.remoteSize, n.localSize, false, false)
  {
  }

  /** The gate turns DOWNLOADED into a hold at REMOTE_ONLY, marks a row already there, and does nothing else. */
  lemma UnsettledRowReads(prev: Option<ItemRow>, n: Node, record: Option<SettleRecord>, a: PassInput)
    requires n.relPath !in a.isProtected && Unsettled(record, a)
    ensures var free := AfterVisit(prev, n, None, a);
            AfterVisit(prev, n, record, a)
            == if free.state != Downloaded then free.(settling := free.state == RemoteOnly)
               else free.(state := RemoteOnly, settling := true, firstMissingAt := None,
                          downloadedAt := if prev.Some? then prev.value.downloadedAt else None)
  {
  }

  /** A protected row keeps its state, unless it reads removed and something is there. */
  lemma ProtectedRowReads(prev: ItemRow, n: Node, record: Option<SettleRecord>, a: PassInput)
    requires n.relPath in a.isProtected
    ensures AfterVisit(Some(prev), n, record, a)
         == prev.(remoteSize := n.remoteSize, localSize := n.localSize,
                  state := if prev.state !in {RemovedLocal, RemovedBoth} then prev.state
                           else if n.localSize.Some? then (if n.remoteSize.Some? then n.structural else LocalOnly)
                           else if n.remoteSize.Some? then RemovedLocal
                           else prev.state)
    ensures AfterVisit(None, n, record, a)
         == ItemRow(n.structural, false, None, None, n.remoteSize, n.localSize, false, false)
  {
  }

  /** The columns no arbitration touches, and the sizes. */
  lemma FoundRowKeeps(prev: ItemRow, n: Node, record: Option<SettleRecord>, a: PassInput)
    ensures var row := AfterVisit(Some(prev), n, record, a);
            && row.remoteSize == n.remoteSize && row.localSize == n.localSize
            && row.remoteDeleted == prev.remoteDeleted && row.arrCleaned == prev.arrCleaned
  {
  }

  // --- The pass ---------------------------------------------------------------------------------------------

  /** The record that gates a found node is the one the table holds after the pass, for a top-level path that
      a full pass has fingerprinted, or any top-level path in a local one. */
  function GatingRecord(a: PassInput, after: Tables, p: string): Option<SettleRecord> {
    if '/' in p || (a.fingerprints.Some? && p !in a.fingerprints.value) then None else Get(after.settle, p)
  }

  /** Every node found is visited once, from the row as it was before the pass, gated by its record. */
  lemma FoundRowIsWritten(a: PassInput, before: Tables, after: Tables, shown: set<string>, purged: set<string>,
                          triggered: set<string>, n: Node)
    requires Persisted(a, before, after, shown, purged, triggered) && n in a.nodes
    ensures n.relPath in after.rows && n.relPath in shown
    ensures after.rows[n.relPath]
         == AfterVisit(Get(before.rows, n.relPath), n, GatingRecord(a, after, n.relPath), a)
  {
    var p := n.relPath;
    assert p in NodePaths(a.nodes);
    SettleAfter(a, before, after, shown, purged, triggered, p);
    var visited: map<string, ItemRow>, made: map<string, SettleRecord> :|
      && Visited(a, before, a.nodes, visited, made, triggered)
      && Swept(SweepOf(a, before), Vanished(a, before), NodePaths(a.nodes), visited, shown, after.rows, purged);
    OtherRowsStand(SweepOf(a, before), Vanished(a, before), NodePaths(a.nodes), visited, shown, after.rows, purged, p);
  }

  /** A pass advances the settle record of every top-level path it found and has a fingerprint of, and no other. */
  lemma SettleTableMoves(a: PassInput, before: Tables, after: Tables, shown: set<string>, purged: set<string>,
                         triggered: set<string>, p: string)
    requires Persisted(a, before, after, shown, purged, triggered)
    ensures Get(after.settle, p)
         == if (exists n :: n in a.nodes && n.relPath == p) && '/' !in p
               && a.fingerprints.Some? && p in a.fingerprints.value
            then Some(AdvanceSettle(Get(before.settle, p), a.fingerprints.value[p], a.partialScan, a.now))
            else Get(before.settle, p)
  {
    SettleAfter(a, before, after, shown, purged, triggered, p);
    if n :| n in a.nodes && n.relPath == p {
      assert p in NodePaths(a.nodes);
    }
  }

  /** An item is handed to post-processing exactly when a hold of the gate ends in DOWNLOADED. */
  lemma TriggeredExactlyWhen(a: PassInput, before: Tables, after: Tables, shown: set<string>, purged: set<string>,
                             triggered: set<string>, p: string)
    requires Persisted(a, before, after, shown, purged, triggered)
    ensures p in triggered
            <==> && (exists n :: n in a.nodes && n.relPath == p) && p !in a.isProtected
                 && p in before.rows && before.rows[p].state == RemoteOnly && before.rows[p].settling
                 && p in after.rows && after.rows[p].state == Downloaded
  {
    if n :| n in a.nodes && n.relPath == p {
      FoundRowIsWritten(a, before, after, shown, purged, triggered, n);
      SettleAfter(a, before, after, shown, purged, triggered, p);
      assert p in NodePaths(a.nodes);
      assert p in triggered <==> ReleasesNode(a, before, n);
    }
  }

  /** A row that is not found and not protected is swept as `SweptRows` says; a protected one stands. */
  lemma MissingRowIsSwept(a: PassInput, before: Tables, after: Tables, shown: set<string>, purged: set<string>,
                          triggered: set<string>, p: string) returns (visited: map<string, ItemRow>)
    requires Persisted(a, before, after, shown, purged, triggered)
    requires p in before.rows && forall n :: n in a.nodes ==> n.relPath != p
    ensures p in a.isProtected ==> Get(after.rows, p) == Some(before.rows[p]) && p !in shown && p !in purged
    ensures var (w, vanished) := (Sweep(before.rows, before.archives, a.mountOk, a.now), Vanished(a, before));
            && vanished <= before.rows.Keys && vanished <= visited.Keys && vanished !! NodePaths(a.nodes)
            && Swept(w, vanished, NodePaths(a.nodes), visited, shown, after.rows, purged)
            && (p !in a.isProtected ==> p in vanished)
  {
    var w := SweepOf(a, before);
    var made: map<string, SettleRecord>;
    visited, made :|
      && Visited(a, before, a.nodes, visited, made, triggered)
      && Swept(w, Vanished(a, before), NodePaths(a.nodes), visited, shown, after.rows, purged);
    if p in a.isProtected {
      OtherRowsStand(w, Vanished(a, before), NodePaths(a.nodes), visited, shown, after.rows, purged, p);
    }
  }

  /** A vanished row of a whole pass: where it rests, and whether the page still shows it. */
  lemma MissingRowRests(a: PassInput, before: Tables, after: Tables, shown: set<string>, purged: set<string>,
                        triggered: set<string>, p: string)
    requires Persisted(a, before, after, shown, purged, triggered)
    requires p in before.rows && p !in a.isProtected && forall n :: n in a.nodes ==> n.relPath != p
    ensures var row := before.rows[p];
            p in after.rows &&
            if p in before.archives then
              var released := '/' in p && Top(p) !in shown;
              && after.rows[p] == Resting(row, if released then RemovedBoth else Excluded, None)
              && (p in shown <==> !released) && (p in purged <==> released)
            else if WasComplete(row) then
              var up := TimeIsUp(row, a.mountOk, a.now);
              var held := if row.state == LocalOnly then Downloaded else row.state;
              && after.rows[p] == Resting(row, if up then RemovedBoth else held, Marked(row, a.mountOk, a.now))
              && (p in shown <==> !up)
            else if row.state in {Partial, LocalOnly, RemovedLocal} then
              && p !in shown
              && after.rows[p]
                 == Resting(row, RemovedBoth, if row.state == RemovedLocal then row.firstMissingAt else None)
            else after.rows[p] == row && p !in shown
  {
    var w := Sweep(before.rows, before.archives, a.mountOk, a.now);
    var visited := MissingRowIsSwept(a, before, after, shown, purged, triggered, p);
    if p in before.archives {
      VanishedArchiveRests(w, Vanished(a, before), NodePaths(a.nodes), visited, shown, after.rows, purged, p);
    } else {
      VanishedRowRests(w, Vanished(a, before), NodePaths(a.nodes), visited, shown, after.rows, purged, p);
    }
  }
}
