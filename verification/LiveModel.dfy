/**
 The page a browser shows, kept equal to the engine's model by one snapshot and a stream of row
 deltas.

 The engine, the database, the connections and the other writers are one state machine. What a
 client will show once it has caught up is its rows with its pending messages applied; the
 invariant says how that relates to the engine's model at every moment, however scans, forgets,
 connections and writes by others interleave.
 */
module LiveModel {
  import opened Common
  import opened EventBus

  type Key = (int, string)      // queue id and path
  type ClientId = int

  /** One row as published (`item_view`). */
  datatype View = View(state: ItemState, localSize: Option<nat>, remoteSize: Option<nat>)
  type Rows = map<Key, View>

  datatype Message = Message(changed: Rows, removed: set<Key>)

  // --- Deltas --------------------------------------------------------------------------------------------

  /** `diff_nodes` */
  function Diff(before: Rows, after: Rows): Message {
    Message(map k | k in after && Get(before, k) != Some(after[k]) :: after[k], set k | k in before && k !in after)
  }

  /** What the browser does with a delta. */
  function Apply(rows: Rows, m: Message): Rows {
    map k | k in rows.Keys + m.changed.Keys && k !in m.removed :: if k in m.changed then m.changed[k] else rows[k]
  }

  predicate Touches(m: Message, k: Key) { k in m.changed || k in m.removed }

  function Told(m: Message, k: Key): Option<View> { if k in m.removed then None else Get(m.changed, k) }

  lemma ApplyAt(rows: Rows, m: Message, k: Key)
    ensures Get(Apply(rows, m), k) == if Touches(m, k) then Told(m, k) else Get(rows, k)
  {
  }

  /** A diff takes the old rows to the new ones; it takes any other rows there exactly when they already
      agree with the new rows wherever old and new agree. */
  lemma DiffRepairsExactlyWhen(before: Rows, after: Rows, rows: Rows)
    ensures Apply(before, Diff(before, after)) == after
    ensures Apply(rows, Diff(before, after)) == after
            <==> forall k :: Get(before, k) == Get(after, k) ==> Get(rows, k) == Get(after, k)
  {
    SameEntries(Apply(before, Diff(before, after)), after);
    if forall k :: Get(before, k) == Get(after, k) ==> Get(rows, k) == Get(after, k) {
      forall k
        ensures Get(Apply(rows, Diff(before, after)), k) == Get(after, k)
      {
        ApplyAt(rows, Diff(before, after), k);
      }
      SameEntries(Apply(rows, Diff(before, after)), after);
    }
    if Apply(rows, Diff(before, after)) == after {
      forall k | Get(before, k) == Get(after, k)
        ensures Get(rows, k) == Get(after, k)
      {
        ApplyAt(rows, Diff(before, after), k);
      }
    }
  }

  function ApplyAll(rows: Rows, ms: seq<Message>): Rows {
    if ms == [] then rows else Apply(ApplyAll(rows, ms[..|ms| - 1]), ms[|ms| - 1])
  }

  /** What the messages say of a row last, if any of them says anything. */
  function LastTold(ms: seq<Message>, k: Key): Option<Option<View>> {
    if ms == [] then None
    else if Touches(ms[|ms| - 1], k) then Some(Told(ms[|ms| - 1], k))
    else LastTold(ms[..|ms| - 1], k)
  }

  lemma {:induction false} LastWordCounts(rows: Rows, ms: seq<Message>, k: Key)
    ensures Get(ApplyAll(rows, ms), k) == match LastTold(ms, k) case Some(v) => v case None => Get(rows, k)
  {
    if ms != [] {
      LastWordCounts(rows, ms[..|ms| - 1], k);
      ApplyAt(ApplyAll(rows, ms[..|ms| - 1]), ms[|ms| - 1], k);
    }
  }

  lemma {:induction false} ApplyFirst(rows: Rows, ms: seq<Message>)
    requires ms != []
    ensures ApplyAll(rows, ms) == ApplyAll(Apply(rows, ms[0]), ms[1..])
  {
    if |ms| == 1 {
      assert ms[..0] == [] && ms[1..] == [];
    } else {
      var n := |ms| - 1;
      ApplyFirst(rows, ms[..n]);
      assert ms[1..][..n - 1] == ms[..n][1..];
    }
  }

  /** Dropping the oldest message does no harm exactly when a later one mentions each row it touches, or
      the row already reads as it says. */
  lemma DroppingIsHarmlessExactlyWhen(rows: Rows, ms: seq<Message>)
    requires ms != []
    ensures ApplyAll(rows, ms[1..]) == ApplyAll(rows, ms)
            <==> forall k :: Touches(ms[0], k) && LastTold(ms[1..], k).None? ==> Get(rows, k) == Told(ms[0], k)
  {
    ApplyFirst(rows, ms);
    forall k
      ensures Get(ApplyAll(rows, ms[1..]), k) == Get(ApplyAll(rows, ms), k)
              <==> (Touches(ms[0], k) && LastTold(ms[1..], k).None? ==> Get(rows, k) == Told(ms[0], k))
    {
      LastWordCounts(rows, ms[1..], k);
      LastWordCounts(Apply(rows, ms[0]), ms[1..], k);
      ApplyAt(rows, ms[0], k);
    }
    if forall k :: Touches(ms[0], k) && LastTold(ms[1..], k).None? ==> Get(rows, k) == Told(ms[0], k) {
      SameEntries(ApplyAll(rows, ms[1..]), ApplyAll(rows, ms));
    }
  }

  // --- The system ------------------------------------------------------------------------------------------

  /** A connection: the snapshot may not have been taken yet; `intact` until its queue overflows. */
  datatype Client = Client(snapshotTaken: bool, rows: Rows, pending: seq<Message>, intact: bool)
  {
    function Eventually(): Rows { ApplyAll(rows, pending) }
  }

  /** `scanning`: a scan has stored its rows and not published them. `forgetting`: rows deleted whose
      eviction is still to come. `stray`: rows another writer told the browsers about, or a scan stored
      and never published, that no published change has named since. */
  datatype System = System(
    db: Rows, model: Rows, scanning: Option<(int, set<Key>)>, forgetting: set<Key>, stray: set<Key>,
    clients: map<ClientId, Client>, maxsize: int)

  datatype Step =
    | StoreScan(queue: int, stored: Rows, written: set<Key>)
    | PublishScan
    | AbandonScan
    | DeleteRows(keys: set<Key>)
    | Forget(keys: set<Key>)
    | WriteElsewhere(key: Key, view: View)
    | Connect(client: ClientId)
    | TakeSnapshot(client: ClientId)
    | Deliver(client: ClientId)
    | Disconnect(client: ClientId)

  predicate Enabled(s: System, t: Step) {
    match t
    case StoreScan(q, stored, written) => s.scanning.None? && (forall k :: k in stored ==> k.0 == q)
    case PublishScan => s.scanning.Some?
    case AbandonScan => s.scanning.Some?
    case DeleteRows(_) => true
    case Forget(keys) => keys <= s.forgetting
    case WriteElsewhere(k, _) => k in s.db
    case Connect(c) => c !in s.clients
    case TakeSnapshot(c) => c in s.clients && !s.clients[c].snapshotTaken
    case Deliver(c) => c in s.clients && s.clients[c].snapshotTaken && s.clients[c].pending != []
    case Disconnect(c) => c in s.clients
  }

  /** One more message for a subscriber whose queue holds at most `maxsize`. */
  function Sent(c: Client, m: Message, maxsize: int): Client {
    var all := c.pending + [m];
    c.(pending := Last(all, maxsize), intact := c.intact && Last(all, maxsize) == all)
  }

  function Published(s: System, m: Message): System {
    s.(clients := map c | c in s.clients :: Sent(s.clients[c], m, s.maxsize))
  }

  function OfQueue(rows: Rows, q: int): Rows { map k | k in rows && k.0 == q :: rows[k] }

  function Replaced(rows: Rows, q: int, with: Rows): Rows {
    map k | k in rows.Keys + with.Keys && (if k.0 == q then k in with else k in rows) ::
      if k.0 == q then with[k] else rows[k]
  }

  /** `_project`: the stored rows this scan is entitled to publish. */
  function Projected(s: System): Rows
    requires s.scanning.Some?
  {
    map k | k in s.db && k.0 == s.scanning.value.0 && k in s.scanning.value.1 :: s.db[k]
  }

  function Next(s: System, t: Step): System
    requires Enabled(s, t)
  {
    match t
    case StoreScan(q, stored, written) => s.(db := s.db + stored, scanning := Some((q, written)))
    case PublishScan =>
      var q := s.scanning.value.0;
      var m := Diff(OfQueue(s.model, q), Projected(s));
      Published(s, m).(model := Replaced(s.model, q, Projected(s)), scanning := None,
                       stray := set k | k in s.stray && !Touches(m, k))
    case AbandonScan =>
      s.(scanning := None,
         stray := s.stray + set k | k in s.model && k.0 == s.scanning.value.0 && Get(s.db, k) != Get(s.model, k))
    case DeleteRows(keys) => s.(db := s.db - keys, forgetting := s.forgetting + keys)
    case Forget(keys) =>
      var gone := set k | k in keys && k in s.model;
      var v := s.(model := s.model - keys, forgetting := s.forgetting - keys, stray := s.stray - gone);
      if gone == {} then v else Published(v, Message(map[], gone))
    case WriteElsewhere(k, view) =>
      Published(s, Message(map[k := view], {})).(db := s.db[k := view], stray := s.stray + {k})
    case Connect(c) => s.(clients := s.clients[c := Client(false, map[], [], true)])
    case TakeSnapshot(c) =>
      var seen := map k | k in s.model && k in s.db :: s.db[k];
      s.(clients := s.clients[c := s.clients[c].(snapshotTaken := true, rows := seen)])
    case Deliver(c) =>
      var client := s.clients[c];
      var told := client.(rows := Apply(client.rows, client.pending[0]), pending := client.pending[1..]);
      s.(clients := s.clients[c := told])
    case Disconnect(c) => s.(clients := map d | d in s.clients && d != c :: s.clients[d])
  }

  // --- The invariant -------------------------------------------------------------------------------------------

  predicate InFlight(s: System, k: Key) { s.scanning.Some? && s.scanning.value.0 == k.0 }

  /** How the database stands to the model at one row. */
  predicate Stored(s: System, k: Key) {
    k in s.model ==> k in s.forgetting || k in s.stray || (k in s.db && (InFlight(s, k) || s.db[k] == s.model[k]))
  }

  /** How a row a client will show stands to the model. */
  predicate Faithful(s: System, k: Key, shown: Option<View>) {
    || k in s.stray
    || shown == Get(s.model, k)
    || (k in s.model && (k in s.forgetting || (InFlight(s, k) && shown.Some? && shown == Get(s.db, k))))
  }

  /** What the messages waiting for a client say of a row agrees with the model. */
  predicate WordIsGood(s: System, k: Key, told: Option<Option<View>>) {
    told.None? || k in s.stray || told.value == Get(s.model, k)
  }

  predicate ClientIsGood(s: System, c: Client, k: Key) {
    c.intact ==> WordIsGood(s, k, LastTold(c.pending, k))
                 && (c.snapshotTaken ==> Faithful(s, k, Get(c.Eventually(), k)))
  }

  predicate GoodAt(s: System, k: Key) {
    Stored(s, k) && forall c :: c in s.clients ==> ClientIsGood(s, s.clients[c], k)
  }

  ghost predicate Good(s: System) { forall k: Key :: GoodAt(s, k) }

  // --- Every step keeps it ----------------------------------------------------------------------------------------

  lemma Snoc(rows: Rows, ms: seq<Message>, m: Message, k: Key)
    ensures LastTold(ms + [m], k) == if Touches(m, k) then Some(Told(m, k)) else LastTold(ms, k)
    ensures Get(ApplyAll(rows, ms + [m]), k) == if Touches(m, k) then Told(m, k) else Get(ApplyAll(rows, ms), k)
  {
  }

  /** A message all of whose words are good leaves every client good, if what it leaves unsaid was. */
  lemma SendingKeepsGood(s: System, v: System, c: Client, m: Message, k: Key)
    requires ClientIsGood(s, c, k)
    requires Touches(m, k) ==> k in v.stray || Told(m, k) == Get(v.model, k)
    requires !Touches(m, k) ==> forall shown :: Faithful(s, k, shown) ==> Faithful(v, k, shown)
    requires !Touches(m, k) ==> forall told :: WordIsGood(s, k, told) ==> WordIsGood(v, k, told)
    ensures ClientIsGood(v, Sent(c, m, s.maxsize), k)
  {
  }

  /** A step that sends nothing and leaves the clients alone. */
  lemma QuietStepKeepsGood(s: System, v: System, c: Client, k: Key)
    requires ClientIsGood(s, c, k)
    requires forall shown :: Faithful(s, k, shown) ==> Faithful(v, k, shown)
    requires forall told :: WordIsGood(s, k, told) ==> WordIsGood(v, k, told)
    ensures ClientIsGood(v, c, k)
  {
  }

  lemma PublishingKeepsGood(s: System, k: Key)
    requires Enabled(s, PublishScan) && GoodAt(s, k)
    ensures GoodAt(Next(s, PublishScan), k)
  {
    var v := Next(s, PublishScan);
    var q := s.scanning.value.0;
    var m := Diff(OfQueue(s.model, q), Projected(s));
    assert Get(v.model, k) == if k.0 == q then Get(Projected(s), k) else Get(s.model, k);
    assert Touches(m, k) ==> k.0 == q && Told(m, k) == Get(Projected(s), k);
    assert !Touches(m, k) ==> Get(v.model, k) == Get(s.model, k);
    forall c | c in v.clients
      ensures ClientIsGood(v, v.clients[c], k)
    {
      SendingKeepsGood(s, v, s.clients[c], m, k);
    }
  }

  lemma ForgettingKeepsGood(s: System, keys: set<Key>, k: Key)
    requires Enabled(s, Forget(keys)) && GoodAt(s, k)
    ensures GoodAt(Next(s, Forget(keys)), k)
  {
    var v := Next(s, Forget(keys));
    var gone := set j | j in keys && j in s.model;
    assert k in keys && k in s.model <==> k in gone;
    forall c | c in v.clients
      ensures ClientIsGood(v, v.clients[c], k)
    {
      if gone == {} {
        QuietStepKeepsGood(s, v, s.clients[c], k);
      } else {
        SendingKeepsGood(s, v, s.clients[c], Message(map[], gone), k);
      }
    }
  }

  lemma OtherWritesKeepGood(s: System, key: Key, view: View, k: Key)
    requires Enabled(s, WriteElsewhere(key, view)) && GoodAt(s, k)
    ensures GoodAt(Next(s, WriteElsewhere(key, view)), k)
  {
  }

  lemma AbandoningKeepsGood(s: System, k: Key)
    requires Enabled(s, AbandonScan) && GoodAt(s, k)
    ensures GoodAt(Next(s, AbandonScan), k)
  {
  }

  /** A snapshot shows each row of the model as stored; messages that were already waiting are older news,
      and what they say last is what the model says. */
  lemma SnapshotIsFaithful(s: System, id: ClientId, k: Key)
    requires Enabled(s, TakeSnapshot(id)) && Stored(s, k) && ClientIsGood(s, s.clients[id], k)
    ensures ClientIsGood(s, Next(s, TakeSnapshot(id)).clients[id], k)
  {
    var c := Next(s, TakeSnapshot(id)).clients[id];
    LastWordCounts(c.rows, c.pending, k);
  }

  lemma {:induction false} LastWordOfRest(ms: seq<Message>, k: Key)
    requires ms != []
    ensures LastTold(ms, k) == if LastTold(ms[1..], k).Some? then LastTold(ms[1..], k)
                               else if Touches(ms[0], k) then Some(Told(ms[0], k)) else None
  {
    var n := |ms| - 1;
    if n > 0 {
      LastWordOfRest(ms[..n], k);
      assert ms[..n][1..] == ms[1..][..n - 1];
    } else {
      assert ms[1..] == [] && ms[..0] == [];
    }
  }

  /** Delivering a message changes nothing about where the client is heading. */
  lemma DeliveryKeepsGood(s: System, id: ClientId, k: Key)
    requires Enabled(s, Deliver(id)) && ClientIsGood(s, s.clients[id], k)
    ensures ClientIsGood(s, Next(s, Deliver(id)).clients[id], k)
    ensures Next(s, Deliver(id)).clients[id].Eventually() == s.clients[id].Eventually()
  {
    var c := s.clients[id];
    ApplyFirst(c.rows, c.pending);
    LastWordOfRest(c.pending, k);
  }

  lemma StepKeepsGoodAt(s: System, t: Step, k: Key)
    requires GoodAt(s, k) && Enabled(s, t)
    ensures GoodAt(Next(s, t), k)
  {
    match t {
      case StoreScan(_, _, _) =>
      case PublishScan => PublishingKeepsGood(s, k);
      case AbandonScan => AbandoningKeepsGood(s, k);
      case DeleteRows(_) =>
      case Forget(keys) => ForgettingKeepsGood(s, keys, k);
      case WriteElsewhere(key, view) => OtherWritesKeepGood(s, key, view, k);
      case TakeSnapshot(id) => SnapshotIsFaithful(s, id, k);
      case Deliver(id) => DeliveryKeepsGood(s, id, k);
      case Connect(_) =>
      case Disconnect(_) =>
    }
  }

  /** Whatever is done, by whomever, every row stays accounted for. */
  lemma StepKeepsGood(s: System, t: Step)
    requires Good(s) && Enabled(s, t)
    ensures Good(Next(s, t))
  {
    forall k: Key
      ensures GoodAt(Next(s, t), k)
    {
      assert GoodAt(s, k);
      StepKeepsGoodAt(s, t, k);
    }
  }

  // --- Runs ---------------------------------------------------------------------------------------------------------

  predicate Runs(s: System, steps: seq<Step>)
    decreases |steps|
  {
    steps != [] ==> Enabled(s, steps[0]) && Runs(Next(s, steps[0]), steps[1..])
  }

  function After(s: System, steps: seq<Step>): System
    requires Runs(s, steps)
    decreases |steps|
  {
    if steps == [] then s else After(Next(s, steps[0]), steps[1..])
  }

  /** A process that has published nothing yet, over whatever rows it finds stored. */
  function Start(db: Rows, maxsize: int): System { System(db, map[], None, {}, {}, map[], maxsize) }

  lemma {:induction false} RunsKeepGood(s: System, steps: seq<Step>)
    requires Good(s) && Runs(s, steps)
    ensures Good(After(s, steps))
    decreases |steps|
  {
    if steps != [] {
      StepKeepsGood(s, steps[0]);
      RunsKeepGood(Next(s, steps[0]), steps[1..]);
    }
  }

  /** Nothing is under way, and the client has received all there was for it. */
  predicate CaughtUp(s: System, id: ClientId) {
    id in s.clients && s.clients[id].snapshotTaken && s.clients[id].pending == []
    && s.scanning.None? && s.forgetting == {}
  }

  /** Whatever the interleaving, a client that never lost a message and has caught up shows every row as the
      model has it, except rows astray. */
  lemma CaughtUpClientShowsTheModel(db: Rows, maxsize: int, steps: seq<Step>, id: ClientId, k: Key)
    requires Runs(Start(db, maxsize), steps)
    requires var s := After(Start(db, maxsize), steps);
             CaughtUp(s, id) && s.clients[id].intact && k !in s.stray
    ensures var s := After(Start(db, maxsize), steps);
            Get(s.clients[id].rows, k) == Get(s.model, k)
  {
    RunsKeepGood(Start(db, maxsize), steps);
    var s := After(Start(db, maxsize), steps);
    assert GoodAt(s, k) && ClientIsGood(s, s.clients[id], k) && s.clients[id].Eventually() == s.clients[id].rows;
  }

  predicate OnlyScansAndForgets(steps: seq<Step>) {
    forall t :: t in steps ==> !t.WriteElsewhere? && !t.AbandonScan?
  }

  lemma {:induction false} NothingGoesAstray(s: System, steps: seq<Step>)
    requires Runs(s, steps) && s.stray == {} && OnlyScansAndForgets(steps)
    ensures After(s, steps).stray == {}
    decreases |steps|
  {
    if steps != [] {
      assert steps[0] in steps && forall t :: t in steps[1..] ==> t in steps;
      NothingGoesAstray(Next(s, steps[0]), steps[1..]);
    }
  }

  /** With scans and forgets alone, it shows the model. */
  lemma CaughtUpClientEqualsTheModel(db: Rows, maxsize: int, steps: seq<Step>, id: ClientId)
    requires Runs(Start(db, maxsize), steps) && OnlyScansAndForgets(steps)
    requires var s := After(Start(db, maxsize), steps);
             CaughtUp(s, id) && s.clients[id].intact
    ensures var s := After(Start(db, maxsize), steps);
            s.clients[id].rows == s.model
  {
    var s := After(Start(db, maxsize), steps);
    NothingGoesAstray(Start(db, maxsize), steps);
    forall k: Key
      ensures Get(s.clients[id].rows, k) == Get(s.model, k)
    {
      CaughtUpClientShowsTheModel(db, maxsize, steps, id, k);
    }
    SameEntries(s.clients[id].rows, s.model);
  }

  // --- What can go wrong -------------------------------------------------------------------------------------------

  /** A row that a client has wrong stays wrong over every scan that finds it as the engine last had it:
      row deltas do not heal. It is put right exactly when the scan finds it changed, or finds it as shown. */
  lemma ScanRepairsExactlyWhen(s: System, id: ClientId, k: Key)
    requires Enabled(s, PublishScan) && id in s.clients && s.scanning.value.0 == k.0
    requires s.maxsize <= 0 || |s.clients[id].pending| < s.maxsize
    ensures var v := Next(s, PublishScan);
            Get(v.clients[id].Eventually(), k) == Get(v.model, k)
            <==> Get(Projected(s), k) != Get(s.model, k) || Get(s.clients[id].Eventually(), k) == Get(Projected(s), k)
  {
    var c := s.clients[id];
    var m := Diff(OfQueue(s.model, k.0), Projected(s));
    Snoc(c.rows, c.pending, m, k);
    assert Last(c.pending + [m], s.maxsize) == c.pending + [m];
    assert Next(s, PublishScan).clients[id].Eventually() == ApplyAll(c.rows, c.pending + [m]);
  }

  lemma {:induction false} OneStepMore(s: System, steps: seq<Step>, t: Step)
    requires Runs(s, steps) && Enabled(After(s, steps), t)
    ensures Runs(s, steps + [t]) && After(s, steps + [t]) == Next(After(s, steps), t)
    decreases |steps|
  {
    if steps == [] {
      assert (steps + [t])[1..] == [];
    } else {
      assert (steps + [t])[1..] == steps[1..] + [t];
      OneStepMore(Next(s, steps[0]), steps[1..], t);
    }
  }

  /** A run that takes a given step next and ends in a given state. */
  lemma Goes(start: System, steps: seq<Step>, s: System, t: Step, v: System) returns (more: seq<Step>)
    requires Runs(start, steps) && After(start, steps) == s && Enabled(s, t) && Next(s, t) == v
    ensures Runs(start, more) && After(start, more) == v && more == steps + [t]
  {
    OneStepMore(start, steps, t);
    more := steps + [t];
  }

  /** What publishing a scan of one queue does when one client is connected and nothing is astray. */
  lemma PublishedToOne(s: System, c: Client, m: Message, model: Rows)
    requires s.scanning.Some? && s.clients == map[0 := c] && s.stray == {}
    requires m == Diff(OfQueue(s.model, s.scanning.value.0), Projected(s))
    requires model == Replaced(s.model, s.scanning.value.0, Projected(s))
    ensures Next(s, PublishScan) == s.(model := model, scanning := None, clients := map[0 := Sent(c, m, s.maxsize)])
  {
  }

  const NOTHING := Message(map[], {})

  lemma NothingIsApplied(rows: Rows)
    ensures Apply(rows, NOTHING) == rows
  {
    SameEntries(Apply(rows, NOTHING), rows);
  }

  /** A scan of another queue, which has no rows, says nothing. */
  lemma EmptyScanIsPublished(k: Key, a: View, q: int, s: System, c: Client)
    requires q != k.0 && s.scanning == Some((q, {})) && s.model == map[k := a] && s.clients == map[0 := c]
             && s.stray == {}
    ensures Next(s, PublishScan) == s.(scanning := None, clients := map[0 := Sent(c, NOTHING, s.maxsize)])
  {
    assert Diff(OfQueue(s.model, q), Projected(s)) == NOTHING;
    assert Replaced(s.model, q, Projected(s)) == s.model;
    PublishedToOne(s, c, NOTHING, s.model);
  }

  lemma FirstScanIsPublished(k: Key, a: View, s: System, c: Client)
    requires s.scanning == Some((k.0, {k})) && s.db == map[k := a] && s.model == map[] && s.clients == map[0 := c]
             && s.stray == {}
    ensures Next(s, PublishScan)
         == s.(scanning := None, model := map[k := a],
               clients := map[0 := Sent(c, Message(map[k := a], {}), s.maxsize)])
  {
    assert Diff(OfQueue(s.model, k.0), Projected(s)) == Message(map[k := a], {});
    assert Replaced(s.model, k.0, Projected(s)) == map[k := a];
    PublishedToOne(s, c, Message(map[k := a], {}), map[k := a]);
  }

  function Empties(n: nat): seq<Message> { if n == 0 then [] else Empties(n - 1) + [NOTHING] }

  lemma {:induction false} EmptiesSayNothing(n: nat)
    ensures |Empties(n)| == n && forall m :: m in Empties(n) ==> m == NOTHING
  {
    if n > 0 {
      EmptiesSayNothing(n - 1);
    }
  }

  /** One row in the database and the model, and one client, to whom these messages are on their way. */
  function OneRow(k: Key, a: View, c: Client, maxsize: int): System {
    System(map[k := a], map[k := a], None, {}, {}, map[0 := c], maxsize)
  }

  /** The row was sent when the client had just connected, and `n` messages that say nothing after it. */
  function Listening(k: Key, a: View, n: nat, maxsize: int): Client {
    Client(true, map[], Last([Message(map[k := a], {})] + Empties(n), maxsize), maxsize <= 0 || n < maxsize)
  }

  lemma RowIsSent(k: Key, a: View, maxsize: int) returns (steps: seq<Step>)
    requires maxsize >= 1
    ensures Runs(Start(map[], maxsize), steps) && OnlyScansAndForgets(steps)
    ensures After(Start(map[], maxsize), steps) == OneRow(k, a, Listening(k, a, 0, maxsize), maxsize)
  {
    var s0 := Start(map[], maxsize);
    var c := Client(true, map[], [], true);
    var s1 := s0.(clients := map[0 := Client(false, map[], [], true)]);
    var s2 := s0.(clients := map[0 := c]);
    var s3 := s2.(db := map[k := a], scanning := Some((k.0, {k})));
    FirstScanIsPublished(k, a, s3, c);
    assert [] + [Message(map[k := a], {})] == [Message(map[k := a], {})] + Empties(0);
    steps := Goes(s0, [], s0, Connect(0), s1);
    steps := Goes(s0, steps, s1, TakeSnapshot(0), s2);
    steps := Goes(s0, steps, s2, StoreScan(k.0, map[k := a], {k}), s3);
    steps := Goes(s0, steps, s3, PublishScan, OneRow(k, a, Listening(k, a, 0, maxsize), maxsize));
  }

  lemma OneMoreEmpty(k: Key, a: View, n: nat, maxsize: int)
    requires maxsize >= 1
    ensures Sent(Listening(k, a, n, maxsize), NOTHING, maxsize) == Listening(k, a, n + 1, maxsize)
  {
    var all := [Message(map[k := a], {})] + Empties(n);
    EmptiesSayNothing(n);
    assert [Message(map[k := a], {})] + Empties(n + 1) == all + [NOTHING];
    LastOfLast(all, NOTHING, maxsize);
    LastKeepsAll(Last(all, maxsize) + [NOTHING], maxsize);
  }

  /** A run goes on with a scan that says nothing. */
  lemma EmptyScanGoesBy(start: System, steps: seq<Step>, k: Key, a: View, c: Client, maxsize: int)
    returns (more: seq<Step>)
    requires Runs(start, steps) && OnlyScansAndForgets(steps) && After(start, steps) == OneRow(k, a, c, maxsize)
    ensures Runs(start, more) && OnlyScansAndForgets(more)
    ensures After(start, more) == OneRow(k, a, Sent(c, NOTHING, maxsize), maxsize)
  {
    var s := OneRow(k, a, c, maxsize);
    var scanning := s.(scanning := Some((k.0 + 1, {})));
    EmptyScanIsPublished(k, a, k.0 + 1, scanning, c);
    more := Goes(start, steps, s, StoreScan(k.0 + 1, map[], {}), scanning);
    more := Goes(start, more, scanning, PublishScan, OneRow(k, a, Sent(c, NOTHING, maxsize), maxsize));
  }

  lemma {:induction false} EmptyScansGoBy(k: Key, a: View, n: nat, maxsize: int) returns (steps: seq<Step>)
    requires maxsize >= 1
    ensures Runs(Start(map[], maxsize), steps) && OnlyScansAndForgets(steps)
    ensures After(Start(map[], maxsize), steps) == OneRow(k, a, Listening(k, a, n, maxsize), maxsize)
  {
    if n == 0 {
      steps := RowIsSent(k, a, maxsize);
    } else {
      steps := EmptyScansGoBy(k, a, n - 1, maxsize);
      OneMoreEmpty(k, a, n - 1, maxsize);
      steps := EmptyScanGoesBy(Start(map[], maxsize), steps, k, a, Listening(k, a, n - 1, maxsize), maxsize);
    }
  }

  lemma EmptyMessageIsDelivered(s: System, c: Client)
    requires s.clients == map[0 := c] && c.snapshotTaken && c.pending != [] && c.pending[0] == NOTHING
    ensures Next(s, Deliver(0)) == s.(clients := map[0 := c.(pending := c.pending[1..])])
  {
    NothingIsApplied(c.rows);
  }

  lemma {:induction false} EmptiesAreDelivered(start: System, steps: seq<Step>, s: System, c: Client)
    returns (more: seq<Step>)
    requires Runs(start, steps) && OnlyScansAndForgets(steps) && After(start, steps) == s
    requires s.clients == map[0 := c] && c.snapshotTaken && forall m :: m in c.pending ==> m == NOTHING
    ensures Runs(start, more) && OnlyScansAndForgets(more)
            && After(start, more) == s.(clients := map[0 := c.(pending := [])])
    decreases |c.pending|
  {
    if c.pending == [] {
      more := steps;
    } else {
      var d := c.(pending := c.pending[1..]);
      assert c.pending[0] in c.pending && forall m :: m in d.pending ==> m in c.pending;
      EmptyMessageIsDelivered(s, c);
      var next := Goes(start, steps, s, Deliver(0), s.(clients := map[0 := d]));
      more := EmptiesAreDelivered(start, next, s.(clients := map[0 := d]), d);
    }
  }

  /** An overflowing queue loses a row for good, though the documentation of the bus has the next message
      make up for a lost one. Whatever a queue holds, as many scans of another queue push the row's message
      out, and the client ends caught up and without the row. */
  lemma OverflowLosesARow(k: Key, a: View, maxsize: int) returns (steps: seq<Step>)
    requires maxsize >= 1
    ensures Runs(Start(map[], maxsize), steps) && OnlyScansAndForgets(steps)
    ensures var s := After(Start(map[], maxsize), steps);
            CaughtUp(s, 0) && k in s.model && k !in s.clients[0].rows
  {
    var c := Listening(k, a, maxsize, maxsize);
    EmptiesSayNothing(maxsize);
    assert c.pending == Empties(maxsize);
    steps := EmptyScansGoBy(k, a, maxsize, maxsize);
    steps := EmptiesAreDelivered(Start(map[], maxsize), steps, OneRow(k, a, c, maxsize), c);
  }

  // --- Losses without an overflow ----------------------------------------------------------------------------------

  lemma RowIsDelivered(k: Key, a: View, maxsize: int) returns (steps: seq<Step>)
    requires maxsize >= 1
    ensures Runs(Start(map[], maxsize), steps) && OnlyScansAndForgets(steps)
    ensures After(Start(map[], maxsize), steps) == OneRow(k, a, Client(true, map[k := a], [], true), maxsize)
  {
    var c := Listening(k, a, 0, maxsize);
    assert c.pending == [Message(map[k := a], {})];
    assert Apply(map[], c.pending[0]) == map[k := a];
    steps := RowIsSent(k, a, maxsize);
    steps := Goes(Start(map[], maxsize), steps, OneRow(k, a, c, maxsize), Deliver(0),
                  OneRow(k, a, Client(true, map[k := a], [], true), maxsize));
  }

  /** The scan that finds the row as the model has it, published and received: the client shows what it did. */
  lemma UnchangedScanIsReceived(start: System, steps: seq<Step>, k: Key, a: View, b: View, stray: set<Key>, db: Rows,
                                maxsize: int)
    returns (more: seq<Step>)
    requires maxsize >= 1 && Runs(start, steps) && k in stray && db.Keys <= {k}
    requires After(start, steps) == System(db, map[k := a], None, {}, stray,
                                           map[0 := Client(true, map[k := b], [], true)], maxsize)
    ensures Runs(start, more)
    ensures After(start, more)
         == System(map[k := a], map[k := a], None, {}, stray, map[0 := Client(true, map[k := b], [], true)], maxsize)
  {
    var c := Client(true, map[k := b], [], true);
    var s := After(start, steps);
    var t := s.(db := map[k := a], scanning := Some((k.0, {k})));
    assert s.db + map[k := a] == map[k := a];
    more := Goes(start, steps, s, StoreScan(k.0, map[k := a], {k}), t);
    StrayScanIsPublished(k, a, t, c);
    var u := t.(scanning := None, clients := map[0 := c.(pending := [NOTHING])]);
    more := Goes(start, more, t, PublishScan, u);
    EmptyMessageIsDelivered(u, c.(pending := [NOTHING]));
    assert [NOTHING][1..] == [];
    more := Goes(start, more, u, Deliver(0), u.(clients := map[0 := c]));
  }

  lemma StrayScanIsPublished(k: Key, a: View, s: System, c: Client)
    requires s.scanning == Some((k.0, {k})) && s.db == s.model == map[k := a] && s.clients == map[0 := c]
    requires s.maxsize >= 1 && c.pending == []
    ensures Next(s, PublishScan) == s.(scanning := None, clients := map[0 := c.(pending := [NOTHING])])
  {
    assert Diff(OfQueue(s.model, k.0), Projected(s)) == NOTHING;
    assert Replaced(s.model, k.0, Projected(s)) == s.model;
    assert (set j | j in s.stray && !Touches(NOTHING, j)) == s.stray;
    assert [] + [NOTHING] == [NOTHING];
  }

  /** A row pushed by another component and then put back by a scan stays as pushed on the page: the scan
      finds what it published last and says nothing. */
  lemma PushedRowGoesAstray(k: Key, a: View, b: View, maxsize: int) returns (steps: seq<Step>)
    requires maxsize >= 1 && a != b
    ensures Runs(Start(map[], maxsize), steps)
    ensures var s := After(Start(map[], maxsize), steps);
            CaughtUp(s, 0) && s.clients[0].intact && s.model == s.db == map[k := a] && s.clients[0].rows == map[k := b]
  {
    var start := Start(map[], maxsize);
    var s := OneRow(k, a, Client(true, map[k := a], [], true), maxsize);
    var m := Message(map[k := b], {});
    var pushed := System(map[k := b], map[k := a], None, {}, {k}, map[0 := Client(true, map[k := a], [m], true)],
                         maxsize);
    assert [] + [m] == [m] && [m][1..] == [] && Apply(map[k := a], m) == map[k := b];
    steps := RowIsDelivered(k, a, maxsize);
    steps := Goes(start, steps, s, WriteElsewhere(k, b), pushed);
    steps := Goes(start, steps, pushed, Deliver(0), pushed.(clients := map[0 := Client(true, map[k := b], [], true)]));
    steps := UnchangedScanIsReceived(start, steps, k, a, b, {k}, map[k := b], maxsize);
  }

  lemma RowIsScanned(k: Key, a: View, maxsize: int) returns (steps: seq<Step>)
    ensures Runs(Start(map[], maxsize), steps)
    ensures After(Start(map[], maxsize), steps) == System(map[k := a], map[k := a], None, {}, {}, map[], maxsize)
  {
    var s := Start(map[], maxsize);
    var t := s.(db := map[k := a], scanning := Some((k.0, {k})));
    assert Replaced(t.model, k.0, Projected(t)) == map[k := a];
    steps := Goes(s, [], s, StoreScan(k.0, map[k := a], {k}), t);
    steps := Goes(s, steps, t, PublishScan, System(map[k := a], map[k := a], None, {}, {}, map[], maxsize));
  }

  /** A client that connects while a scan has stored a row it then fails to publish keeps that row, once the
      next scan puts it back as it was. */
  lemma AbandonedRowGoesAstray(k: Key, a: View, b: View, maxsize: int) returns (steps: seq<Step>)
    requires maxsize >= 1 && a != b
    ensures Runs(Start(map[], maxsize), steps)
    ensures var s := After(Start(map[], maxsize), steps);
            CaughtUp(s, 0) && s.clients[0].intact && s.model == s.db == map[k := a] && s.clients[0].rows == map[k := b]
  {
    var start := Start(map[], maxsize);
    var s := System(map[k := a], map[k := a], None, {}, {}, map[], maxsize);
    var stored := s.(db := map[k := b], scanning := Some((k.0, {k})));
    var c := Client(true, map[k := b], [], true);
    var seen := stored.(clients := map[0 := c]);
    assert s.db + map[k := b] == map[k := b];
    assert (map j | j in seen.model && j in seen.db :: seen.db[j]) == map[k := b];
    steps := RowIsScanned(k, a, maxsize);
    steps := Goes(start, steps, s, StoreScan(k.0, map[k := b], {k}), stored);
    steps := Goes(start, steps, stored, Connect(0), stored.(clients := map[0 := Client(false, map[], [], true)]));
    steps := Goes(start, steps, stored.(clients := map[0 := Client(false, map[], [], true)]), TakeSnapshot(0), seen);
    AbandonedIsStray(k, a, b, seen);
    steps := Goes(start, steps, seen, AbandonScan, seen.(scanning := None, stray := {k}));
    steps := UnchangedScanIsReceived(start, steps, k, a, b, {k}, map[k := b], maxsize);
  }

  lemma AbandonedIsStray(k: Key, a: View, b: View, s: System)
    requires a != b && s.db == map[k := b] && s.model == map[k := a] && s.scanning == Some((k.0, {k})) && s.stray == {}
    ensures Next(s, AbandonScan) == s.(scanning := None, stray := {k})
  {
    assert (set j | j in s.model && j.0 == k.0 && Get(s.db, j) != Get(s.model, j)) == {k};
  }

  // --- Forgetting --------------------------------------------------------------------------------------------------

  /** `forget_rel_paths`: the evicted rows, and the paths to tell the browsers, each once. */
  method ForgetRelPaths(model: Rows, queue: int, relPaths: seq<string>) returns (left: Rows, removed: seq<string>)
    ensures left == model - set p | p in relPaths :: (queue, p)
    ensures forall p :: p in removed <==> p in relPaths && (queue, p) in model
    ensures forall i, j :: 0 <= i < j < |removed| ==> removed[i] != removed[j]
  {
    left, removed := model, [];
    for i := 0 to |relPaths|
      invariant left == model - set p | p in relPaths[..i] :: (queue, p)
      invariant forall p :: p in removed <==> p in relPaths[..i] && (queue, p) in model
      invariant forall i, j :: 0 <= i < j < |removed| ==> removed[i] != removed[j]
    {
      var key: Key := (queue, relPaths[i]);
      assert relPaths[..i + 1] == relPaths[..i] + [relPaths[i]];
      if key in left {
        left := left - {key};
        removed := removed + [relPaths[i]];
      }
    }
    assert relPaths[..|relPaths|] == relPaths;
  }
}
