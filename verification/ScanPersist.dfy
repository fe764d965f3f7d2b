/**
 What one scan pass writes, and what any run of passes leaves in the item and settle tables.

 Every pass adds one entry to a history: which rows it wrote, which fingerprints it saw, which
 items it handed to post-processing. Other writers add theirs. `Valid` ties the tables to the
 history, so what is proved of histories holds of the tables after any run.
 */
module ScanPersist {
  import opened Common
  import opened Absence
  import opened VanishedSweep

  // --- The settle gate ------------------------------------------------------------------------------------

  const REQUIRED_SETTLE_SCANS := 2
  const SETTLE_MIN_AGE_S := 60

  datatype Fingerprint = Fingerprint(files: nat, bytes: nat, maxMtime: Option<int>)
  datatype SettleRecord = SettleRecord(fingerprint: Fingerprint, matchedScans: nat, firstMatchedAt: Instant,
                                       firstObservedAt: Option<Instant>, lastChangedAt: Option<Instant>)

  /** `advance_settle` */
  function AdvanceSettle(prev: Option<SettleRecord>, seen: Fingerprint, partialScan: bool, now: Instant): SettleRecord {
    if partialScan && prev.Some? then prev.value
    else if prev.Some? && prev.value.fingerprint == seen then prev.value.(matchedScans := prev.value.matchedScans + 1)
    else SettleRecord(seen, 1, now, if prev.Some? then prev.value.firstObservedAt else Some(now), Some(now))
  }

  /** `is_settled` */
  predicate IsSettled(r: SettleRecord, now: Instant) {
    r.matchedScans >= REQUIRED_SETTLE_SCANS && now - r.firstMatchedAt >= SETTLE_MIN_AGE_S
  }

  // --- One node -----------------------------------------------------------------------------------------------

  datatype Node = Node(relPath: string, remoteSize: Option<nat>, localSize: Option<nat>, structural: Structural)

  datatype PassInput = PassInput(
    nodes: seq<Node>, fingerprints: Option<map<string, Fingerprint>>, partialScan: bool,
    isProtected: set<string>, mountOk: bool, settleEnabled: bool, now: Instant)

  /** The settle record that gates a node, and whether this pass made it. */
  function RecordFor(a: PassInput, settle: map<string, SettleRecord>, p: string): Option<SettleRecord> {
    if HasSlash(p) then None
    else match a.fingerprints
      case None => Get(settle, p)
      case Some(seen) =>
        if p in seen then Some(AdvanceSettle(Get(settle, p), seen[p], a.partialScan, a.now)) else None
  }

  predicate Advances(a: PassInput, p: string) { !HasSlash(p) && a.fingerprints.Some? && p in a.fingerprints.value }

  /** The state arbitrated for an unprotected node, before the settle gate. */
  function Arbitrated(prev: Option<ItemRow>, n: Node, a: PassInput): (ItemState, Option<Instant>) {
    if prev.None? then (n.structural, None)
    else if OutcomeSurvives(prev.value.state, n.structural, prev.value.remoteDeleted) then (prev.value.state, None)
    else
      var kept := ResolveAbsence(prev.value.state, prev.value.firstMissingAt, n.structural, a.mountOk, a.now,
                                 prev.value.remoteSize, n.remoteSize);
      if kept.Some? then kept.value else (n.structural, None)
  }

  predicate Held(record: Option<SettleRecord>, a: PassInput) {
    a.settleEnabled && record.Some? && !IsSettled(record.value, a.now)
  }

  const NEW_ROW := ItemRow(RemoteOnly, false, None, None, None, None, false, false)

  /** What an unprotected node's row becomes. */
  function AfterNode(prev: Option<ItemRow>, n: Node, record: Option<SettleRecord>, a: PassInput): ItemRow {
    var (arbitrated, missing) := Arbitrated(prev, n, a);
    var held := Held(record, a);
    var state := if held && arbitrated == Downloaded then RemoteOnly else arbitrated;
    var row := if prev.Some? then prev.value else NEW_ROW;
    row.(state := state,
         settling := held && state == RemoteOnly,
         firstMissingAt := if state != arbitrated then None else missing,
         downloadedAt := if row.downloadedAt.Some? then row.downloadedAt
                         else if state == Downloaded then Some(a.now) else None,
         remoteSize := n.remoteSize, localSize := n.localSize)
  }

  /** What a protected node's row becomes: its sizes, and its state only to take back a removal. */
  function AfterProtected(prev: Option<ItemRow>, n: Node): ItemRow {
    if prev.None? then NEW_ROW.(state := n.structural, remoteSize := n.remoteSize, localSize := n.localSize)
    else
      var corrected := ReconsiderRemoved(prev.value.state, n.remoteSize.Some?, n.localSize.Some?, n.structural);
      prev.value.(state := if corrected.Some? then corrected.value else prev.value.state,
                  remoteSize := n.remoteSize, localSize := n.localSize)
  }

  function AfterVisit(prev: Option<ItemRow>, n: Node, record: Option<SettleRecord>, a: PassInput): ItemRow {
    if n.relPath in a.isProtected then AfterProtected(prev, n) else AfterNode(prev, n, record, a)
  }

  /** The pass releases its own hold on the item: it will be handed to post-processing. */
  predicate Releases(prev: Option<ItemRow>, n: Node, record: Option<SettleRecord>, a: PassInput) {
    n.relPath !in a.isProtected && prev.Some? && prev.value.state == RemoteOnly && prev.value.settling
    && AfterNode(prev, n, record, a).state == Downloaded
  }

  // --- The history ----------------------------------------------------------------------------------------------

  datatype Writer = ByNode | ByProtectedNode | BySweep
  datatype Write = Write(writer: Writer, state: ItemState, settling: bool, missing: Option<Instant>)

  /** What a row says of itself, as far as the history follows it. */
  datatype Read = Read(state: ItemState, settling: bool, missing: Option<Instant>)

  function ReadOf(row: ItemRow): Read { Read(row.state, row.settling, row.firstMissingAt) }

  predicate ReadsHeld(r: Option<Read>) { r.Some? && r.value.state == RemoteOnly && r.value.settling }

  datatype Entry =
    | Passed(writes: map<string, Write>, fired: set<string>, observed: map<string, Fingerprint>,
             full: bool, partialScan: bool, gated: bool, mountOk: bool,
             archives: set<string>, purged: set<string>, at: Instant)
    | Other(path: string, row: ItemRow)
    | Recorded(paths: set<string>)
  {
    predicate Writes(p: string) { (Passed? && p in writes) || (Other? && path == p) }
    function Wrote(p: string): Read
      requires Writes(p)
    {
      if Passed? then Read(writes[p].state, writes[p].settling, writes[p].missing) else ReadOf(row)
    }
    predicate Holds(p: string) { Writes(p) && ReadsHeld(Some(Wrote(p))) }
    predicate Completes(p: string) {
      Passed? && p in writes && writes[p].writer == ByNode && writes[p].state == Downloaded
    }
    predicate Fires(p: string) { Passed? && p in fired }
  }

  /** The item table, the settle table, and the registry of spent archives. */
  datatype Tables = Tables(rows: map<string, ItemRow>, settle: map<string, SettleRecord>, archives: set<string>)

  const NO_TABLES := Tables(map[], map[], {})

  /** The state and the settling mark last written for a path. */
  function Reading(start: Tables, history: seq<Entry>, p: string): Option<Read> {
    if history == [] then
      if p in start.rows then Some(ReadOf(start.rows[p])) else None
    else
      var e := history[|history| - 1];
      if !e.Writes(p) then Reading(start, history[..|history| - 1], p)
      else Some(e.Wrote(p))
  }

  /** When the path was first completed, if nobody else wrote the column. */
  function Stamp(start: Tables, history: seq<Entry>, p: string): Option<Instant> {
    if history == [] then
      if p in start.rows then start.rows[p].downloadedAt else None
    else
      var e := history[|history| - 1];
      var before := Stamp(start, history[..|history| - 1], p);
      if e.Other? && e.path == p then e.row.downloadedAt
      else if before.None? && e.Completes(p) then Some(e.at)
      else before
  }

  /** The settle record the observed fingerprints add up to. */
  function Settled(start: Tables, history: seq<Entry>, p: string): Option<SettleRecord> {
    if history == [] then Get(start.settle, p)
    else
      var e := history[|history| - 1];
      var before := Settled(start, history[..|history| - 1], p);
      if e.Passed? && p in e.observed then Some(AdvanceSettle(before, e.observed[p], e.partialScan, e.at)) else before
  }

  /** Is the path on the registry of spent archives? */
  predicate Registered(start: Tables, history: seq<Entry>, p: string) {
    if history == [] then p in start.archives
    else
      var e := history[|history| - 1];
      var before := Registered(start, history[..|history| - 1], p);
      if e.Passed? then before && p !in e.purged else before || (e.Recorded? && p in e.paths)
  }

  /** What one entry may say after the history before it. */
  ghost predicate Permitted(start: Tables, history: seq<Entry>, e: Entry) {
    e.Passed? ==> (!e.full ==> e.observed == map[]) && forall p :: PermittedAt(start, history, e, p)
  }

  /** What the entry says of one path is permitted. */
  ghost predicate PermittedAt(start: Tables, history: seq<Entry>, e: Entry, p: string)
    requires e.Passed?
  {
    && (p in e.fired ==> e.Completes(p) && ReadsHeld(Reading(start, history, p)))
    && PassesTheGate(start, history, e, p)
    && (p in e.writes ==> Graced(Reading(start, history, p), e, p))
    && (p in e.archives <==> Registered(start, history, p))
    && (p in e.purged ==> p in e.archives && Spends(e, p))
  }

  /** The pass writes a spent archive below some release off. */
  predicate Spends(e: Entry, p: string) {
    e.Passed? && HasSlash(p) && p in e.writes && e.writes[p].writer == BySweep && e.writes[p].state == RemovedBoth
  }

  /** A missing-since mark is kept or set by a pass over a healthy mount, and a complete item is only
      recorded as removed by one that finds the mark ten minutes old. */
  predicate Graced(before: Option<Read>, e: Entry, p: string)
    requires e.Passed? && p in e.writes
  {
    var w := e.writes[p];
    && (w.missing.Some? ==>
          (before.Some? && w.missing == before.value.missing) || (w.missing == Some(e.at) && e.mountOk))
    && (Removes(before, e, p) ==>
          e.mountOk && before.value.missing.Some? && GraceOver(before.value.missing.value, e.at))
  }

  /** The pass records a complete item as removed, other than a spent archive of its own doing. */
  predicate Removes(before: Option<Read>, e: Entry, p: string) {
    e.Passed? && p in e.writes && before.Some? && AssertsComplete(before.value.state)
    && TerminalRemoved(e.writes[p].state)
    && !(e.writes[p].writer == BySweep && p in e.archives)
  }

  ghost predicate Sound(start: Tables, history: seq<Entry>) {
    history != [] ==>
      Sound(start, history[..|history| - 1]) && Permitted(start, history[..|history| - 1], history[|history| - 1])
  }

  /** The tables read as the history says. */
  ghost predicate Agrees(start: Tables, history: seq<Entry>, now: Tables) {
    forall p :: AgreesAt(start, history, now, p)
  }

  predicate AgreesAt(start: Tables, history: seq<Entry>, now: Tables, p: string) {
    && RowAgrees(start, history, Get(now.rows, p), p) && Get(now.settle, p) == Settled(start, history, p)
    && (p in now.archives <==> Registered(start, history, p))
  }

  predicate RowAgrees(start: Tables, history: seq<Entry>, row: Option<ItemRow>, p: string) {
    match row
    case None => Reading(start, history, p).None? && Stamp(start, history, p).None?
    case Some(row) => Reading(start, history, p) == Some(ReadOf(row)) && row.downloadedAt == Stamp(start, history, p)
  }

  lemma Entered(start: Tables, history: seq<Entry>, e: Entry, p: string)
    ensures Reading(start, history + [e], p)
         == if !e.Writes(p) then Reading(start, history, p)
            else Some(e.Wrote(p))
    ensures Stamp(start, history + [e], p)
         == if e.Other? && e.path == p then e.row.downloadedAt
            else if Stamp(start, history, p).None? && e.Completes(p) then Some(e.at) else Stamp(start, history, p)
    ensures Settled(start, history + [e], p)
         == if e.Passed? && p in e.observed
            then Some(AdvanceSettle(Settled(start, history, p), e.observed[p], e.partialScan, e.at))
            else Settled(start, history, p)
    ensures Registered(start, history + [e], p)
         == if e.Passed? then Registered(start, history, p) && p !in e.purged
            else Registered(start, history, p) || (e.Recorded? && p in e.paths)
    ensures Sound(start, history + [e]) == (Sound(start, history) && Permitted(start, history, e))
  {
  }

  // --- One pass -----------------------------------------------------------------------------------------------

  function NodePaths(nodes: seq<Node>): set<string> { set n | n in nodes :: n.relPath }

  predicate Distinct(nodes: seq<Node>) { forall i, j :: 0 <= i < j < |nodes| ==> nodes[i].relPath != nodes[j].relPath }

  function SweepOf(a: PassInput, before: Tables): Sweep { Sweep(before.rows, before.archives, a.mountOk, a.now) }

  function VisitOf(a: PassInput, before: Tables, n: Node): ItemRow {
    AfterVisit(Get(before.rows, n.relPath), n, RecordFor(a, before.settle, n.relPath), a)
  }

  /** What visiting the nodes does: rows written, settle records made, holds released. */
  ghost predicate Visited(a: PassInput, before: Tables, nodes: seq<Node>, rows: map<string, ItemRow>,
                          made: map<string, SettleRecord>, released: set<string>)
  {
    && rows.Keys == before.rows.Keys + NodePaths(nodes)
    && (forall n :: n in nodes ==> rows[n.relPath] == VisitOf(a, before, n))
    && (forall p :: p in before.rows && p !in NodePaths(nodes) ==> rows[p] == before.rows[p])
    && (forall p ::
          Get(made, p) == if p in NodePaths(nodes) && Advances(a, p) then RecordFor(a, before.settle, p) else None)
    && (forall n :: n in nodes ==> (n.relPath in released <==> ReleasesNode(a, before, n)))
    && released <= NodePaths(nodes)
  }

  predicate ReleasesNode(a: PassInput, before: Tables, n: Node) {
    Releases(Get(before.rows, n.relPath), n, RecordFor(a, before.settle, n.relPath), a)
  }

  function Vanished(a: PassInput, before: Tables): set<string> { before.rows.Keys - NodePaths(a.nodes) - a.isProtected }

  /** Everything one pass does to the tables, and what it reports. */
  ghost predicate Persisted(a: PassInput, before: Tables, after: Tables, shown: set<string>, purged: set<string>,
                            triggered: set<string>) {
    exists visited: map<string, ItemRow>, made: map<string, SettleRecord> ::
      && Visited(a, before, a.nodes, visited, made, triggered)
      && Swept(SweepOf(a, before), Vanished(a, before), NodePaths(a.nodes), visited, shown, after.rows, purged)
      && after.settle == before.settle + made && after.archives == before.archives - purged
  }

  lemma KeysAfter(a: PassInput, before: Tables, after: Tables, shown: set<string>, purged: set<string>,
                  triggered: set<string>)
    requires Persisted(a, before, after, shown, purged, triggered)
    ensures after.rows.Keys == before.rows.Keys + NodePaths(a.nodes) && triggered <= NodePaths(a.nodes)
  {
  }

  lemma SettleAfter(a: PassInput, before: Tables, after: Tables, shown: set<string>, purged: set<string>,
                    triggered: set<string>, p: string)
    requires Persisted(a, before, after, shown, purged, triggered)
    ensures Get(after.settle, p) == if p in NodePaths(a.nodes) && Advances(a, p) then RecordFor(a, before.settle, p)
                                    else Get(before.settle, p)
  {
  }

  /** The sweep resolves the row: it is not protected, and has a verdict. */
  predicate Resolves(a: PassInput, before: Tables, shown: set<string>, p: string) {
    p in before.rows && p !in a.isProtected && Decide(SweepOf(a, before), shown, p).Some?
  }

  function EntryOf(a: PassInput, before: Tables, after: Tables, shown: set<string>, purged: set<string>,
                   triggered: set<string>): Entry
    requires after.rows.Keys == before.rows.Keys + NodePaths(a.nodes)
  {
    Passed(map p | p in after.rows && (p in NodePaths(a.nodes) || Resolves(a, before, shown, p)) ::
             Write(if p !in NodePaths(a.nodes) then BySweep else if p in a.isProtected then ByProtectedNode else ByNode,
                   after.rows[p].state, after.rows[p].settling, after.rows[p].firstMissingAt),
           triggered,
           if a.fingerprints.Some?
           then map p | p in NodePaths(a.nodes) && p in a.fingerprints.value && !HasSlash(p) :: a.fingerprints.value[p]
           else map[],
           a.fingerprints.Some?, a.partialScan, a.settleEnabled, a.mountOk, before.archives, purged, a.now)
  }

  lemma NodeOf(a: PassInput, p: string) returns (n: Node)
    requires p in NodePaths(a.nodes)
    ensures n in a.nodes && n.relPath == p
  {
    n :| n in a.nodes && n.relPath == p;
  }

  /** Only an unsettled item is kept from completing, and it is: the gate lets no other item through. */
  lemma GateHolds(prev: Option<ItemRow>, n: Node, record: Option<SettleRecord>, a: PassInput)
    requires a.settleEnabled && record.Some? && AfterNode(prev, n, record, a).state == Downloaded
    ensures IsSettled(record.value, a.now)
  {
  }

  /** What an entry must say of a row to record what became of it. */
  predicate Records(e: Entry, p: string, prev: Option<ItemRow>, row: ItemRow, completed: bool) {
    && e.Passed? && p in e.writes && e.Wrote(p) == ReadOf(row)
    && e.Completes(p) == (completed && row.state == Downloaded)
    && row.downloadedAt == if prev.Some? && prev.value.downloadedAt.Some? then prev.value.downloadedAt
                           else if e.Completes(p) then Some(e.at) else None
  }

  /** The completion time is filled in by an unprotected write of DOWNLOADED, and never replaced. */
  lemma OnlyCompletionStamps(prev: Option<ItemRow>, n: Node, record: Option<SettleRecord>, a: PassInput)
    ensures var row := AfterVisit(prev, n, record, a);
            row.downloadedAt == if prev.Some? && prev.value.downloadedAt.Some? then prev.value.downloadedAt
                                else if n.relPath !in a.isProtected && row.state == Downloaded then Some(a.now)
                                else None
  {
  }

  lemma NodeIsRecorded(a: PassInput, before: Tables, after: Tables, shown: set<string>, purged: set<string>,
                       triggered: set<string>, n: Node)
    requires Persisted(a, before, after, shown, purged, triggered) && n in a.nodes
    requires after.rows.Keys == before.rows.Keys + NodePaths(a.nodes)
    ensures n.relPath in after.rows && after.rows[n.relPath] == VisitOf(a, before, n)
    ensures Records(EntryOf(a, before, after, shown, purged, triggered), n.relPath, Get(before.rows, n.relPath),
                    VisitOf(a, before, n), n.relPath !in a.isProtected)
    ensures Of(EntryOf(a, before, after, shown, purged, triggered), a, n.relPath)
  {
    OnlyCompletionStamps(Get(before.rows, n.relPath), n, RecordFor(a, before.settle, n.relPath), a);
  }

  /** A row written by a pass agrees with the entry that records it. */
  lemma WriteAgrees(start: Tables, history: seq<Entry>, e: Entry, p: string, prev: Option<ItemRow>, row: ItemRow,
                    completed: bool)
    requires RowAgrees(start, history, prev, p) && Records(e, p, prev, row, completed)
    ensures RowAgrees(start, history + [e], Some(row), p)
  {
    Entered(start, history, e, p);
  }

  /** What an entry takes over from the pass it records. */
  predicate Of(e: Entry, a: PassInput, p: string) {
    && e.Passed? && e.at == a.now && e.partialScan == a.partialScan && e.gated == a.settleEnabled
    && e.mountOk == a.mountOk
    && e.full == a.fingerprints.Some? && (p in e.observed <==> Advances(a, p))
    && (p in e.observed ==> e.observed[p] == a.fingerprints.value[p])
  }

  predicate PassesTheGate(start: Tables, history: seq<Entry>, e: Entry, p: string)
    requires e.Passed?
  {
    e.Completes(p) && e.gated && !HasSlash(p) && (e.full ==> p in e.observed) ==>
      var record := Settled(start, history + [e], p);
      record.Some? ==> IsSettled(record.value, e.at)
  }

  /** The gate, said of the history: what completes a top-level item has settled its record. */
  lemma NodePassesTheGate(start: Tables, history: seq<Entry>, e: Entry, prev: Option<ItemRow>, n: Node,
                          settle: map<string, SettleRecord>, a: PassInput)
    requires Of(e, a, n.relPath) && Get(settle, n.relPath) == Settled(start, history, n.relPath)
    requires Records(e, n.relPath, prev, AfterVisit(prev, n, RecordFor(a, settle, n.relPath), a),
                     n.relPath !in a.isProtected)
    ensures PassesTheGate(start, history, e, n.relPath)
  {
    Entered(start, history, e, n.relPath);
    var record := RecordFor(a, settle, n.relPath);
    if record.Some? && e.Completes(n.relPath) && e.gated {
      GateHolds(prev, n, record, a);
    }
  }

  lemma NodeIsGraced(prev: ItemRow, n: Node, record: Option<SettleRecord>, a: PassInput)
    ensures KeepsToGrace(prev, AfterVisit(Some(prev), n, record, a), a.mountOk, a.now)
  {
  }

  lemma VanishedIsGraced(w: Sweep, shown: set<string>, p: string)
    requires p in w.previous && p !in w.archives
    ensures KeepsToGrace(w.previous[p], RowAfter(w, shown, p), w.mountOk, w.now)
  {
  }

  /** A missing-since mark is kept or set now over a healthy mount, and a removal finds it ten minutes old. */
  predicate KeepsToGrace(prev: ItemRow, row: ItemRow, mountOk: bool, now: Instant) {
    && (row.firstMissingAt.Some? ==>
          row.firstMissingAt == prev.firstMissingAt || (row.firstMissingAt == Some(now) && mountOk))
    && (AssertsComplete(prev.state) && TerminalRemoved(row.state) ==>
          mountOk && prev.firstMissingAt.Some? && GraceOver(prev.firstMissingAt.value, now))
  }

  lemma GracedBy(e: Entry, p: string, prev: Option<ItemRow>, row: ItemRow)
    requires e.Passed? && p in e.writes && e.Wrote(p) == ReadOf(row)
    requires prev.None? ==> row.firstMissingAt.None?
    requires prev.Some? && !(e.writes[p].writer == BySweep && p in e.archives) ==>
               KeepsToGrace(prev.value, row, e.mountOk, e.at)
    requires prev.Some? && e.writes[p].writer == BySweep && p in e.archives ==> row.firstMissingAt.None?
    ensures Graced(if prev.Some? then Some(ReadOf(prev.value)) else None, e, p)
  {
  }

  lemma PurgedAfter(a: PassInput, before: Tables, after: Tables, shown: set<string>, purged: set<string>,
                    triggered: set<string>, p: string)
    requires Persisted(a, before, after, shown, purged, triggered)
    ensures p in purged <==> p in before.rows && p !in NodePaths(a.nodes) && p !in a.isProtected
                             && p in before.archives && HasSlash(p) && Top(p) !in shown
    ensures after.archives == before.archives - purged
  {
  }

  lemma NodeIsPermitted(start: Tables, history: seq<Entry>, a: PassInput, before: Tables, after: Tables,
                        shown: set<string>, purged: set<string>, triggered: set<string>, n: Node)
    requires Persisted(a, before, after, shown, purged, triggered) && n in a.nodes
    requires after.rows.Keys == before.rows.Keys + NodePaths(a.nodes)
    requires AgreesAt(start, history, before, n.relPath)
    ensures PermittedAt(start, history, EntryOf(a, before, after, shown, purged, triggered), n.relPath)
  {
    var (e, p) := (EntryOf(a, before, after, shown, purged, triggered), n.relPath);
    var prev := Get(before.rows, p);
    NodeIsRecorded(a, before, after, shown, purged, triggered, n);
    NodePassesTheGate(start, history, e, prev, n, before.settle, a);
    PurgedAfter(a, before, after, shown, purged, triggered, p);
    if prev.Some? {
      NodeIsGraced(prev.value, n, RecordFor(a, before.settle, p), a);
    }
    GracedBy(e, p, prev, VisitOf(a, before, n));
  }

  lemma AbsenceIsPermitted(start: Tables, history: seq<Entry>, a: PassInput, before: Tables, after: Tables,
                           shown: set<string>, purged: set<string>, triggered: set<string>, p: string)
    requires Persisted(a, before, after, shown, purged, triggered) && p !in NodePaths(a.nodes)
             && triggered <= NodePaths(a.nodes)
    requires after.rows.Keys == before.rows.Keys + NodePaths(a.nodes)
    requires AgreesAt(start, history, before, p)
    ensures PermittedAt(start, history, EntryOf(a, before, after, shown, purged, triggered), p)
  {
    var e := EntryOf(a, before, after, shown, purged, triggered);
    PurgedAfter(a, before, after, shown, purged, triggered, p);
    if p in e.writes {
      if p !in before.archives {
        VanishedIsGraced(SweepOf(a, before), shown, p);
      }
      GracedBy(e, p, Get(before.rows, p), after.rows[p]);
    }
  }

  lemma PassIsPermitted(start: Tables, history: seq<Entry>, a: PassInput, before: Tables, after: Tables,
                        shown: set<string>, purged: set<string>, triggered: set<string>)
    requires Agrees(start, history, before) && Persisted(a, before, after, shown, purged, triggered)
    requires after.rows.Keys == before.rows.Keys + NodePaths(a.nodes) && triggered <= NodePaths(a.nodes)
    ensures Permitted(start, history, EntryOf(a, before, after, shown, purged, triggered))
  {
    forall p
      ensures PermittedAt(start, history, EntryOf(a, before, after, shown, purged, triggered), p)
    {
      assert AgreesAt(start, history, before, p);
      if p in NodePaths(a.nodes) {
        var n := NodeOf(a, p);
        NodeIsPermitted(start, history, a, before, after, shown, purged, triggered, n);
      } else {
        AbsenceIsPermitted(start, history, a, before, after, shown, purged, triggered, p);
      }
    }
  }

  lemma PathAgrees(start: Tables, history: seq<Entry>, a: PassInput, before: Tables, after: Tables,
                   shown: set<string>, purged: set<string>, triggered: set<string>, p: string)
    requires Persisted(a, before, after, shown, purged, triggered) && AgreesAt(start, history, before, p)
    requires after.rows.Keys == before.rows.Keys + NodePaths(a.nodes)
    ensures RowAgrees(start, history + [EntryOf(a, before, after, shown, purged, triggered)], Get(after.rows, p), p)
  {
    var e := EntryOf(a, before, after, shown, purged, triggered);
    if p in NodePaths(a.nodes) {
      var n := NodeOf(a, p);
      NodeIsRecorded(a, before, after, shown, purged, triggered, n);
      WriteAgrees(start, history, e, p, Get(before.rows, p), after.rows[p], p !in a.isProtected);
    } else {
      if p in e.writes {
        WriteAgrees(start, history, e, p, Get(before.rows, p), after.rows[p], false);
      } else {
        Entered(start, history, e, p);
      }
    }
  }

  lemma PassAgrees(start: Tables, history: seq<Entry>, a: PassInput, before: Tables, after: Tables,
                   shown: set<string>, purged: set<string>, triggered: set<string>)
    requires Agrees(start, history, before) && Persisted(a, before, after, shown, purged, triggered)
    requires after.rows.Keys == before.rows.Keys + NodePaths(a.nodes)
    ensures Agrees(start, history + [EntryOf(a, before, after, shown, purged, triggered)], after)
  {
    var e := EntryOf(a, before, after, shown, purged, triggered);
    forall p
      ensures AgreesAt(start, history + [e], after, p)
    {
      assert AgreesAt(start, history, before, p);
      PathAgrees(start, history, a, before, after, shown, purged, triggered, p);
      SettleAfter(a, before, after, shown, purged, triggered, p);
      PurgedAfter(a, before, after, shown, purged, triggered, p);
      Entered(start, history, e, p);
    }
  }

  lemma PassIsEntered(start: Tables, history: seq<Entry>, a: PassInput, before: Tables, after: Tables,
                      shown: set<string>, purged: set<string>, triggered: set<string>)
    requires Sound(start, history) && Agrees(start, history, before)
             && Persisted(a, before, after, shown, purged, triggered)
    requires after.rows.Keys == before.rows.Keys + NodePaths(a.nodes)
    ensures var e := EntryOf(a, before, after, shown, purged, triggered);
            Sound(start, history + [e]) && Agrees(start, history + [e], after)
  {
    KeysAfter(a, before, after, shown, purged, triggered);
    PassIsPermitted(start, history, a, before, after, shown, purged, triggered);
    PassAgrees(start, history, a, before, after, shown, purged, triggered);
    Entered(start, history, EntryOf(a, before, after, shown, purged, triggered), "");
  }

  lemma PathsOneMore(nodes: seq<Node>, n: Node)
    ensures NodePaths(nodes + [n]) == NodePaths(nodes) + {n.relPath}
    ensures forall m :: m in nodes + [n] <==> m in nodes || m == n
    ensures forall m :: m in nodes ==> m.relPath in NodePaths(nodes)
  {
  }

  /** Visiting one node more. */
  lemma OneMore(a: PassInput, before: Tables, nodes: seq<Node>, rows: map<string, ItemRow>,
                made: map<string, SettleRecord>, released: set<string>, n: Node)
    requires Visited(a, before, nodes, rows, made, released) && n.relPath !in NodePaths(nodes)
    ensures NodePaths(nodes + [n]) == NodePaths(nodes) + {n.relPath}
    ensures Get(rows, n.relPath) == Get(before.rows, n.relPath)
    ensures var record := RecordFor(a, before.settle, n.relPath);
            Visited(a, before, nodes + [n], rows[n.relPath := VisitOf(a, before, n)],
                    if Advances(a, n.relPath) then made[n.relPath := record.value] else made,
                    if ReleasesNode(a, before, n) then released + {n.relPath} else released)
  {
    PathsOneMore(nodes, n);
  }

  // --- The tables -------------------------------------------------------------------------------------------------

  class ItemTables {
    var rows: map<string, ItemRow>
    var settle: map<string, SettleRecord>
    var archives: set<string>     // deleted_archive
    ghost var start: Tables
    ghost var history: seq<Entry>

    ghost function Now(): Tables
      reads this
    {
      Tables(rows, settle, archives)
    }

    ghost predicate Valid()
      reads this
    {
      Sound(start, history) && Agrees(start, history, Now())
    }

    constructor (rows: map<string, ItemRow>, settle: map<string, SettleRecord>, archives: set<string>)
      ensures Valid() && Now() == start == Tables(rows, settle, archives) && history == []
    {
      this.rows, this.settle, this.archives := rows, settle, archives;
      start, history := Tables(rows, settle, archives), [];
    }

    /** `_persist`: the nodes found, the rows that vanished, and the items whose hold ends. */
    method Persist(a: PassInput) returns (shown: set<string>, purged: set<string>, triggered: set<string>)
      requires Valid() && Distinct(a.nodes)
      modifies this
      ensures Valid() && start == old(start)
      ensures Persisted(a, old(Now()), Now(), shown, purged, triggered)
      ensures rows.Keys == old(rows).Keys + NodePaths(a.nodes)
      ensures history == old(history) + [EntryOf(a, old(Now()), Now(), shown, purged, triggered)]
    {
      ghost var before := Now();
      var previous := rows;
      var written, newSettle;
      written, newSettle, triggered := VisitNodes(a);
      ghost var visited := rows;
      var vanished := previous.Keys - written - a.isProtected;
      shown, rows, purged := SweepVanished(Sweep(previous, archives, a.mountOk, a.now), vanished, written, rows);
      archives := archives - purged;
      settle := settle + newSettle;
      assert Visited(a, before, a.nodes, visited, newSettle, triggered);
      Enter(a, before, shown, purged, triggered);
    }

    /** `save_deleted_archive_paths`: recording a path again changes nothing. */
    method RecordArchives(relPaths: seq<string>)
      requires Valid()
      modifies this
      ensures Valid() && start == old(start) && rows == old(rows) && settle == old(settle)
      ensures archives == old(archives) + set p | p in relPaths
      ensures history == old(history) + [Recorded(set p | p in relPaths)]
    {
      RecordingAgrees(start, history, Now(), set p | p in relPaths);
      Entered(start, history, Recorded(set p | p in relPaths), "");
      for i := 0 to |relPaths|
        invariant rows == old(rows) && settle == old(settle) && start == old(start) && history == old(history)
        invariant archives == old(archives) + set p | p in relPaths[..i]
      {
        assert relPaths[..i + 1] == relPaths[..i] + [relPaths[i]];
        archives := archives + {relPaths[i]};
      }
      assert relPaths[..|relPaths|] == relPaths;
      history := history + [Recorded(set p | p in relPaths)];
    }

    ghost method Enter(a: PassInput, before: Tables, shown: set<string>, purged: set<string>, triggered: set<string>)
      requires Sound(start, history) && Agrees(start, history, before)
               && Persisted(a, before, Now(), shown, purged, triggered)
      modifies `history
      ensures Valid() && rows.Keys == before.rows.Keys + NodePaths(a.nodes)
      ensures history == old(history) + [EntryOf(a, before, Now(), shown, purged, triggered)]
    {
      KeysAfter(a, before, Now(), shown, purged, triggered);
      var e := EntryOf(a, before, Now(), shown, purged, triggered);
      PassIsEntered(start, history, a, before, Now(), shown, purged, triggered);
      history := history + [e];
    }

    /** The loop over the nodes found, growing the written set, the settle records and the releases. */
    method VisitNodes(a: PassInput)
      returns (written: set<string>, newSettle: map<string, SettleRecord>, unstuck: set<string>)
      requires Distinct(a.nodes)
      modifies `rows
      ensures written == NodePaths(a.nodes)
      ensures Visited(a, old(Now()), a.nodes, rows, newSettle, unstuck)
    {
      written, newSettle, unstuck := {}, map[], {};
      ghost var before := Now();
      for k := 0 to |a.nodes|
        invariant written == NodePaths(a.nodes[..k])
        invariant Visited(a, before, a.nodes[..k], rows, newSettle, unstuck)
      {
        var n := a.nodes[k];
        assert a.nodes[..k + 1] == a.nodes[..k] + [n];
        var record := RecordFor(a, settle, n.relPath);
        var prev := Get(rows, n.relPath);
        OneMore(a, before, a.nodes[..k], rows, newSettle, unstuck, n);
        written := written + {n.relPath};
        if Advances(a, n.relPath) {
          newSettle := newSettle[n.relPath := record.value];
        }
        if Releases(prev, n, record, a) {
          unstuck := unstuck + {n.relPath};
        }
        rows := rows[n.relPath := AfterVisit(prev, n, record, a)];
      }
      assert a.nodes[..|a.nodes|] == a.nodes;
    }

    /** Jobs, post-processing and the poller write rows of the same table between passes. */
    method NoteWriteByOther(path: string, row: ItemRow)
      requires Valid()
      modifies this
      ensures Valid() && start == old(start) && history == old(history) + [Other(path, row)]
      ensures rows == old(rows)[path := row] && settle == old(settle) && archives == old(archives)
    {
      OtherAgrees(start, history, Now(), path, row);
      Entered(start, history, Other(path, row), path);
      rows := rows[path := row];
      history := history + [Other(path, row)];
    }
  }

  lemma OtherAgrees(start: Tables, history: seq<Entry>, now: Tables, path: string, row: ItemRow)
    requires Agrees(start, history, now)
    ensures Agrees(start, history + [Other(path, row)], now.(rows := now.rows[path := row]))
  {
    var after := now.(rows := now.rows[path := row]);
    forall p
      ensures AgreesAt(start, history + [Other(path, row)], after, p)
    {
      assert AgreesAt(start, history, now, p);
      Entered(start, history, Other(path, row), p);
    }
  }

  lemma RecordingAgrees(start: Tables, history: seq<Entry>, now: Tables, paths: set<string>)
    requires Agrees(start, history, now)
    ensures Agrees(start, history + [Recorded(paths)], now.(archives := now.archives + paths))
  {
    var after := now.(archives := now.archives + paths);
    forall p
      ensures AgreesAt(start, history + [Recorded(paths)], after, p)
    {
      assert AgreesAt(start, history, now, p);
      Entered(start, history, Recorded(paths), p);
    }
  }

  // --- Reading a sound history -------------------------------------------------------------------------------------

  lemma {:induction false} SoundTo(start: Tables, history: seq<Entry>, k: nat)
    requires Sound(start, history) && k <= |history|
    ensures Sound(start, history[..k])
    decreases |history|
  {
    if k < |history| {
      SoundTo(start, history[..|history| - 1], k);
      assert history[..|history| - 1][..k] == history[..k];
    } else {
      assert history[..k] == history;
    }
  }

  lemma SoundPrefix(start: Tables, history: seq<Entry>, k: nat, p: string)
    requires Sound(start, history) && k < |history|
    ensures history[k].Passed? ==> PermittedAt(start, history[..k], history[k], p)
  {
    SoundTo(start, history, k + 1);
    assert history[..k + 1][..k] == history[..k];
  }

  /** A changed reading was written in between. */
  lemma {:induction false} ReadingWasWritten(start: Tables, history: seq<Entry>, p: string, i: nat, j: nat)
    returns (k: nat)
    requires i < j <= |history|
    requires ReadsHeld(Reading(start, history[..j], p)) && !ReadsHeld(Reading(start, history[..i + 1], p))
    ensures i < k < j && history[k].Holds(p)
    decreases j
  {
    var last := history[..j][j - 1];
    assert history[..j][..j - 1] == history[..j - 1];
    if last.Writes(p) {
      k := j - 1;
    } else {
      k := ReadingWasWritten(start, history, p, i, j - 1);
    }
  }

  /** Between two triggers of one item, somebody wrote the hold afresh: each hold triggers at most once. */
  lemma EachHoldTriggersOnce(start: Tables, history: seq<Entry>, p: string, i: nat, j: nat) returns (k: nat)
    requires Sound(start, history) && i < j < |history| && history[i].Fires(p) && history[j].Fires(p)
    ensures i < k < j && history[k].Holds(p)
  {
    SoundPrefix(start, history, i, p);
    SoundPrefix(start, history, j, p);
    assert history[..i + 1][..i] == history[..i] && history[..i + 1][i] == history[i];
    k := ReadingWasWritten(start, history, p, i, j);
  }

  /** An item is triggered only when the row read as held, and by a pass that completes it. */
  lemma TriggersEndAHold(start: Tables, history: seq<Entry>, p: string, i: nat)
    requires Sound(start, history) && i < |history| && history[i].Fires(p)
    ensures history[i].Completes(p) && ReadsHeld(Reading(start, history[..i], p))
  {
    SoundPrefix(start, history, i, p);
  }

  /** The completion time is the starting one, or that of the first pass that completed the item. */
  lemma {:induction false} StampedByFirstCompletion(start: Tables, history: seq<Entry>, p: string)
    requires forall k :: 0 <= k < |history| ==> !(history[k].Other? && history[k].path == p)
    ensures Stamp(start, [], p).Some? ==> Stamp(start, history, p) == Stamp(start, [], p)
    ensures Stamp(start, [], p).None? && Stamp(start, history, p).None? ==>
              forall k :: 0 <= k < |history| ==> !history[k].Completes(p)
    ensures Stamp(start, [], p).None? && Stamp(start, history, p).Some? ==>
              exists k :: 0 <= k < |history| && history[k].Completes(p)
                          && Stamp(start, history, p) == Some(history[k].at)
                          && forall m :: 0 <= m < k ==> !history[m].Completes(p)
  {
    if history != [] {
      var n := |history| - 1;
      var before := history[..n];
      StampedByFirstCompletion(start, before, p);
      if Stamp(start, [], p).None? && Stamp(start, before, p).Some? {
        var k :| 0 <= k < n && before[k].Completes(p) && Stamp(start, before, p) == Some(before[k].at)
                 && forall m :: 0 <= m < k ==> !before[m].Completes(p);
        assert history[k].Completes(p);
      }
    }
  }

  // --- The registry of spent archives ------------------------------------------------------------------------------

  lemma {:induction false} PurgedUntilRecorded(start: Tables, history: seq<Entry>, p: string, k: nat)
    requires k < |history| && history[k].Passed? && p in history[k].purged
    requires forall m :: k < m < |history| && history[m].Recorded? ==> p !in history[m].paths
    ensures !Registered(start, history, p)
  {
    var n := |history| - 1;
    if k < n {
      assert forall m :: k < m < n ==> history[..n][m] == history[m];
      PurgedUntilRecorded(start, history[..n], p, k);
    }
  }

  /** A pass that purges a path has written it off, as a spent archive of a release no longer shown; and until
      it is recorded anew, no later pass takes a file at that path for a spent archive. */
  lemma PurgedIsForgotten(start: Tables, history: seq<Entry>, p: string, k: nat, j: nat)
    requires Sound(start, history) && k < j < |history|
    requires history[k].Passed? && p in history[k].purged && history[j].Passed?
    requires forall m :: k < m < j && history[m].Recorded? ==> p !in history[m].paths
    ensures p in history[k].archives && Spends(history[k], p)
    ensures p !in history[j].archives && p !in history[j].purged
  {
    SoundPrefix(start, history, k, p);
    SoundPrefix(start, history, j, p);
    assert forall m :: k < m < j ==> history[..j][m] == history[m];
    PurgedUntilRecorded(start, history[..j], p, k);
  }

  // --- What the grace period means -----------------------------------------------------------------------------------

  /** Where a missing-since mark comes from: the start (-1), another writer, or a pass that set it to its own
      time over a healthy mount; every pass that wrote the row since has found it missing still. */
  lemma {:induction false} MarkOrigin(start: Tables, history: seq<Entry>, p: string, t: Instant) returns (k: int)
    requires Sound(start, history) && Reading(start, history, p).Some?
             && Reading(start, history, p).value.missing == Some(t)
    ensures -1 <= k < |history|
    ensures k == -1 ==> p in start.rows && start.rows[p].firstMissingAt == Some(t)
    ensures k >= 0 ==> history[k].Writes(p) && history[k].Wrote(p).missing == Some(t)
                       && (history[k].Passed? ==> history[k].at == t && history[k].mountOk)
    ensures forall m :: k < m < |history| && history[m].Writes(p) ==>
              history[m].Passed? && history[m].Wrote(p).missing == Some(t)
    decreases |history|
  {
    if history == [] {
      k := -1;
    } else {
      var n := |history| - 1;
      var e := history[n];
      if e.Writes(p) && (e.Other? || (e.at == t && e.mountOk)) {
        k := n;
      } else {
        assert e.Passed? ==> PermittedAt(start, history[..n], e, p);
        k := MarkOrigin(start, history[..n], p, t);
      }
    }
  }

  /** No pass records a complete item as removed until it has been missing for ten minutes, over a mount
      healthy at both ends, with no pass in between finding it back. */
  lemma RemovalTakesTheGracePeriod(start: Tables, history: seq<Entry>, p: string, j: nat) returns (k: int, t: Instant)
    requires Sound(start, history) && j < |history| && Removes(Reading(start, history[..j], p), history[j], p)
    ensures history[j].mountOk && history[j].at - t >= 600
    ensures -1 <= k < j && (k >= 0 && history[k].Passed? ==> history[k].at == t && history[k].mountOk)
    ensures if k >= 0 then history[k].Writes(p) && history[k].Wrote(p).missing == Some(t)
            else p in start.rows && start.rows[p].firstMissingAt == Some(t)
    ensures forall m :: k < m < j && history[m].Writes(p) ==>
              history[m].Passed? && history[m].Wrote(p).missing == Some(t)
  {
    SoundPrefix(start, history, j, p);
    assert Graced(Reading(start, history[..j], p), history[j], p);
    t := Reading(start, history[..j], p).value.missing.value;
    SoundTo(start, history, j);
    k := MarkOrigin(start, history[..j], p, t);
  }

  // --- What the settle gate means ------------------------------------------------------------------------------------

  predicate Sees(e: Entry, p: string) { e.Passed? && p in e.observed }

  /** How many complete scans saw the item from entry `k` on. */
  function CompleteScans(history: seq<Entry>, p: string, k: nat): nat
    requires k < |history|
    decreases |history|
  {
    var n := |history| - 1;
    (if n == k then 0 else CompleteScans(history[..n], p, k))
    + (if Sees(history[n], p) && !history[n].partialScan then 1 else 0)
  }

  /** The item looked the same to every complete scan since entry `k`. */
  predicate Unchanged(history: seq<Entry>, p: string, k: nat, seen: Fingerprint) {
    forall m :: k < m < |history| && Sees(history[m], p) && !history[m].partialScan ==> history[m].observed[p] == seen
  }

  lemma {:induction false} UnseenHasNoRecord(start: Tables, history: seq<Entry>, p: string)
    requires Settled(start, history, p).None?
    ensures forall m :: 0 <= m < |history| ==> !Sees(history[m], p)
  {
    if history != [] {
      UnseenHasNoRecord(start, history[..|history| - 1], p);
    }
  }

  /** The item was first seen at this time. */
  predicate FirstSeenAt(history: seq<Entry>, p: string, at: Option<Instant>) {
    exists m :: 0 <= m < |history| && Sees(history[m], p) && at == Some(history[m].at)
                && forall l :: 0 <= l < m ==> !Sees(history[l], p)
  }

  lemma {:induction false} FirstSighting(start: Tables, history: seq<Entry>, p: string)
    requires p !in start.settle && Settled(start, history, p).Some?
    ensures FirstSeenAt(history, p, Settled(start, history, p).value.firstObservedAt)
  {
    var n := |history| - 1;
    var before := history[..n];
    if Settled(start, before, p).Some? {
      FirstSighting(start, before, p);
      var m :| 0 <= m < n && Sees(before[m], p)
               && Settled(start, before, p).value.firstObservedAt == Some(before[m].at)
               && forall l :: 0 <= l < m ==> !Sees(before[l], p);
      assert history[m] == before[m] && forall l :: 0 <= l < m ==> history[l] == before[l];
    } else {
      UnseenHasNoRecord(start, before, p);
      assert forall l :: 0 <= l < n ==> history[l] == before[l];
      assert Sees(history[n], p);
    }
  }

  /** A settle record is a streak of scans that saw the same thing: where it began, and how many complete ones
      there were. It reaches back as far as it can: whatever was seen before it looked different. A partial scan
      counts towards it only if it was the first ever to see the item. */
  lemma {:induction false} RecordIsAStreak(start: Tables, history: seq<Entry>, p: string) returns (k: nat)
    requires p !in start.settle && Settled(start, history, p).Some?
    ensures var r := Settled(start, history, p).value;
            && k < |history| && Sees(history[k], p) && history[k].observed[p] == r.fingerprint
            && history[k].at == r.firstMatchedAt
            && Unchanged(history, p, k, r.fingerprint)
            && r.matchedScans == CompleteScans(history, p, k) + (if history[k].partialScan then 1 else 0)
    ensures history[k].partialScan ==> forall m :: 0 <= m < k ==> !Sees(history[m], p)
    ensures (exists m :: 0 <= m < k && Sees(history[m], p)) ==>
              Settled(start, history[..k], p).Some?
              && Settled(start, history[..k], p).value.fingerprint != history[k].observed[p]
    ensures Settled(start, history, p).value.lastChangedAt == Some(history[k].at)
    ensures FirstSeenAt(history, p, Settled(start, history, p).value.firstObservedAt)
  {
    var n := |history| - 1;
    var (before, e) := (history[..n], history[n]);
    var prior := Settled(start, before, p);
    FirstSighting(start, history, p);
    if prior.Some? && !(Sees(e, p) && !e.partialScan && prior.value.fingerprint != e.observed[p]) {
      k := RecordIsAStreak(start, before, p);
      assert forall m :: 0 <= m < n ==> before[m] == history[m];
      assert before[..k] == history[..k];
    } else {
      k := n;
      if prior.None? {
        UnseenHasNoRecord(start, before, p);
      }
    }
  }

  /** A pass that completes a top-level item under the gate comes a minute or more after a scan since which every
      complete one saw the item unchanged. There were two complete ones, exactly unless that first scan was
      partial, the first ever to see the item, and the record then stood one complete scan short of that. */
  lemma CompletedMeansUnchanged(start: Tables, history: seq<Entry>, p: string, j: nat) returns (k: nat)
    requires Sound(start, history) && j < |history| && p !in start.settle && !HasSlash(p)
    requires history[j].Completes(p) && history[j].gated
    requires if history[j].full then Sees(history[j], p) else Settled(start, history[..j], p).Some?
    ensures k < j && Sees(history[k], p) && history[j].at - history[k].at >= 60
    ensures Unchanged(history[..j + 1], p, k, history[k].observed[p])
    ensures Settled(start, history[..j], p).Some?
    ensures CompleteScans(history[..j + 1], p, k) >= 2
            <==> !(history[k].partialScan
                   && Settled(start, history[..j], p).value.matchedScans
                      == (if Sees(history[j], p) && !history[j].partialScan then 1 else 2))
    ensures CompleteScans(history[..j + 1], p, k) >= 1
    ensures history[k].partialScan ==> forall m :: 0 <= m < k ==> !Sees(history[m], p)
  {
    SoundPrefix(start, history, j, p);
    assert history[..j + 1] == history[..j] + [history[j]];
    Entered(start, history[..j], history[j], p);
    k := RecordIsAStreak(start, history[..j + 1], p);
    if Settled(start, history[..j], p).None? {
      UnseenHasNoRecord(start, history[..j], p);
    }
  }

  lemma OneNodeIsVisited(a: PassInput, before: Tables, n: Node)
    requires before.rows.Keys <= {n.relPath} && Advances(a, n.relPath)
    ensures Visited(a, before, [n], map[n.relPath := VisitOf(a, before, n)],
                    map[n.relPath := RecordFor(a, before.settle, n.relPath).value],
                    if ReleasesNode(a, before, n) then {n.relPath} else {})
  {
  }

  /** What a pass does that finds one node, over tables that know no other path. */
  lemma OneNodePass(a: PassInput, before: Tables, n: Node) returns (after: Tables, triggered: set<string>)
    requires a.nodes == [n] && before.rows.Keys <= {n.relPath} && Advances(a, n.relPath)
    ensures after == Tables(map[n.relPath := VisitOf(a, before, n)],
                            before.settle[n.relPath := RecordFor(a, before.settle, n.relPath).value], before.archives)
    ensures triggered == if ReleasesNode(a, before, n) then {n.relPath} else {}
    ensures Persisted(a, before, after, {n.relPath}, {}, triggered)
  {
    var rows := map[n.relPath := VisitOf(a, before, n)];
    var made := map[n.relPath := RecordFor(a, before.settle, n.relPath).value];
    triggered := if ReleasesNode(a, before, n) then {n.relPath} else {};
    after := Tables(rows, before.settle + made, before.archives);
    OneNodeIsVisited(a, before, n);
    assert NodePaths(a.nodes) == {n.relPath} && Vanished(a, before) == {};
    assert Swept(SweepOf(a, before), {}, {n.relPath}, rows, {n.relPath}, rows, {});
    assert after.archives == before.archives - {};
  }

  /** A pass that finds nothing but `p`, complete on both sides, with this fingerprint. */
  function Sighting(p: string, size: nat, seen: Fingerprint, partialScan: bool, now: Instant): PassInput {
    PassInput([Node(p, Some(size), Some(size), Downloaded)], Some(map[p := seen]), partialScan, {}, true, true, now)
  }

  function Unfinished(size: nat): ItemRow {
    NEW_ROW.(settling := true, remoteSize := Some(size), localSize := Some(size))
  }

  /** One partial sighting, at 0. */
  function SeenOnce(p: string, size: nat, seen: Fingerprint): Tables {
    Tables(map[p := Unfinished(size)], map[p := SettleRecord(seen, 1, 0, Some(0), Some(0))], {})
  }

  lemma HeldAtFirst(p: string, size: nat, seen: Fingerprint)
    requires !HasSlash(p)
    ensures Persisted(Sighting(p, size, seen, true, 0), NO_TABLES, SeenOnce(p, size, seen), {p}, {}, {})
  {
    var a := Sighting(p, size, seen, true, 0);
    var _, _ := OneNodePass(a, NO_TABLES, a.nodes[0]);
  }

  lemma DoneAtSecond(p: string, size: nat, seen: Fingerprint) returns (done: Tables)
    requires !HasSlash(p)
    ensures done.rows == map[p := Unfinished(size).(state := Downloaded, settling := false, downloadedAt := Some(60))]
    ensures Persisted(Sighting(p, size, seen, false, 60), SeenOnce(p, size, seen), done, {p}, {}, {p})
  {
    var b := Sighting(p, size, seen, false, 60);
    var triggered;
    done, triggered := OneNodePass(b, SeenOnce(p, size, seen), b.nodes[0]);
  }

  /** The first pass, over tables that are the starting ones. */
  lemma FirstPassIsEntered(start: Tables, a: PassInput, after: Tables, shown: set<string>, purged: set<string>,
                           triggered: set<string>)
    requires Persisted(a, start, after, shown, purged, triggered)
    requires after.rows.Keys == start.rows.Keys + NodePaths(a.nodes)
    ensures var e := EntryOf(a, start, after, shown, purged, triggered);
            Sound(start, [e]) && Agrees(start, [e], after)
  {
    assert forall p :: AgreesAt(start, [], start, p);
    PassIsEntered(start, [], a, start, after, shown, purged, triggered);
    var e := EntryOf(a, start, after, shown, purged, triggered);
    assert [] + [e] == [e];
  }

  lemma TwoSightings(p: string, size: nat, seen: Fingerprint) returns (held: Tables, done: Tables)
    requires !HasSlash(p)
    ensures held.rows.Keys == done.rows.Keys == {p} && done.rows[p].state == Downloaded
    ensures var (a, b) := (Sighting(p, size, seen, true, 0), Sighting(p, size, seen, false, 60));
            && NodePaths(a.nodes) == {p} && NodePaths(b.nodes) == {p}
            && Persisted(a, NO_TABLES, held, {p}, {}, {}) && Persisted(b, held, done, {p}, {}, {p})
  {
    HeldAtFirst(p, size, seen);
    held := SeenOnce(p, size, seen);
    done := DoneAtSecond(p, size, seen);
  }

  /** Whatever two passes find, their entries are a sound history. */
  lemma TwoPassesAreSound(start: Tables, a: PassInput, first: Tables, shown: set<string>, purged: set<string>,
                          triggered: set<string>, b: PassInput, second: Tables, shown': set<string>,
                          purged': set<string>, triggered': set<string>)
    requires Persisted(a, start, first, shown, purged, triggered)
    requires first.rows.Keys == start.rows.Keys + NodePaths(a.nodes)
    requires Persisted(b, first, second, shown', purged', triggered')
    requires second.rows.Keys == first.rows.Keys + NodePaths(b.nodes)
    ensures Sound(start, [EntryOf(a, start, first, shown, purged, triggered),
                          EntryOf(b, first, second, shown', purged', triggered')])
  {
    var e := EntryOf(a, start, first, shown, purged, triggered);
    FirstPassIsEntered(start, a, first, shown, purged, triggered);
    PassIsEntered(start, [e], b, first, second, shown', purged', triggered');
    assert [e] + [EntryOf(b, first, second, shown', purged', triggered')]
        == [e, EntryOf(b, first, second, shown', purged', triggered')];
  }

  /** What the entries of the two sightings say of the item. */
  lemma SightingsAreEntered(p: string, a: PassInput, b: PassInput, held: Tables, done: Tables)
    requires NodePaths(a.nodes) == NodePaths(b.nodes) == held.rows.Keys == done.rows.Keys == {p}
    requires Advances(a, p) && Advances(b, p) && a.partialScan && !b.partialScan
    requires p !in b.isProtected && done.rows[p].state == Downloaded
    ensures var history := [EntryOf(a, NO_TABLES, held, {p}, {}, {}), EntryOf(b, held, done, {p}, {}, {p})];
            history[1].Completes(p) && CompleteScans(history, p, 0) == 1
  {
    var (e, f) := (EntryOf(a, NO_TABLES, held, {p}, {}, {}), EntryOf(b, held, done, {p}, {}, {p}));
    assert Sees(e, p) && e.partialScan && Sees(f, p) && !f.partialScan;
    assert [e, f][..1] == [e];
    assert CompleteScans([e], p, 0) == 0;
  }

  /** One complete scan can be enough: a partial first sighting starts the count at one, and a single complete
      scan a minute later settles the item and completes it. These two passes over empty tables do so. */
  lemma PartialSightingCounts(p: string, size: nat, seen: Fingerprint) returns (held: Tables, done: Tables)
    requires !HasSlash(p)
    ensures held.rows.Keys == done.rows.Keys == {p} && done.rows[p].state == Downloaded
    ensures var (a, b) := (Sighting(p, size, seen, true, 0), Sighting(p, size, seen, false, 60));
            && NodePaths(a.nodes) == NodePaths(b.nodes) == {p}
            && Persisted(a, NO_TABLES, held, {p}, {}, {}) && Persisted(b, held, done, {p}, {}, {p})
            && var history := [EntryOf(a, NO_TABLES, held, {p}, {}, {}), EntryOf(b, held, done, {p}, {}, {p})];
               Sound(NO_TABLES, history) && history[1].Completes(p) && CompleteScans(history, p, 0) == 1
  {
    var (a, b) := (Sighting(p, size, seen, true, 0), Sighting(p, size, seen, false, 60));
    held, done := TwoSightings(p, size, seen);
    TwoPassesAreSound(NO_TABLES, a, held, {p}, {}, {}, b, done, {p}, {}, {p});
    SightingsAreEntered(p, a, b, held, done);
  }

  /** A local-only pass sees no fingerprint, so it moves no item's settle record. */
  lemma LocalPassLeavesSettleAlone(a: PassInput, before: Tables, after: Tables, shown: set<string>, purged: set<string>,
                                   triggered: set<string>)
    requires Persisted(a, before, after, shown, purged, triggered) && a.fingerprints.None?
    ensures after.settle == before.settle
  {
    forall p
      ensures Get(after.settle, p) == Get(before.settle, p)
    {
      SettleAfter(a, before, after, shown, purged, triggered, p);
    }
    SameEntries(after.settle, before.settle);
  }

  // --- Where a completion goes unstamped ---------------------------------------------------------------------------

  /** Visiting a row can leave it DOWNLOADED without a completion time in exactly one way: it is protected,
      it was removed, and both copies are back and equal. */
  lemma CorrectionGoesUnstamped(prev: ItemRow, n: Node, record: Option<SettleRecord>, a: PassInput)
    requires prev.state != Downloaded && prev.downloadedAt.None?
    ensures var row := AfterVisit(Some(prev), n, record, a);
            row.state == Downloaded && row.downloadedAt.None?
            <==> n.relPath in a.isProtected && TerminalRemoved(prev.state) && n.structural == Downloaded
                 && n.remoteSize.Some? && n.localSize.Some?
  {
  }

  /** The sweep, which stamps nothing, makes a row DOWNLOADED exactly when the poller cleaned an item that
      read LOCAL_ONLY and the grace period still holds it. */
  lemma CleanedRowGoesUnstamped(w: Sweep, shown: set<string>, p: string)
    requires p in w.previous && w.previous[p].state != Downloaded
    ensures var row := w.previous[p];
            && RowAfter(w, shown, p).downloadedAt == row.downloadedAt
            && (RowAfter(w, shown, p).state == Downloaded
                <==> row.state == LocalOnly && row.arrCleaned && p !in w.archives
                     && !(w.mountOk && row.firstMissingAt.Some? && GraceOver(row.firstMissingAt.value, w.now)))
  {
  }
}
