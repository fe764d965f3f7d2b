/**
 What a browser's page shows, said of the steps that led there: the scans that were stored and
 published, the rows deleted, the writes of others.
 */
module LivePage {
  import opened Common
  import opened EventBus
  import opened LiveModel

  /** A published scan replaces its queue's rows of the model by the stored rows it wrote, and no others. */
  lemma PublishedModelIs(s: System, k: Key)
    requires Enabled(s, PublishScan)
    ensures var (v, (queue, written)) := (Next(s, PublishScan), s.scanning.value);
            && (k.0 == queue ==> (k in v.model <==> k in written && k in s.db))
            && (k.0 == queue && k in v.model ==> v.model[k] == s.db[k])
            && (k.0 != queue ==> Get(v.model, k) == Get(s.model, k))
            && v.db == s.db && v.scanning == None
  {
  }

  /** What the browsers are told of a published scan: each row of its queue that the model had differently. */
  lemma PublishedMessageSays(s: System, id: ClientId, k: Key)
    requires Enabled(s, PublishScan) && id in s.clients && (s.maxsize <= 0 || |s.clients[id].pending| < s.maxsize)
    ensures var (v, before) := (Next(s, PublishScan), s.clients[id].pending);
            && id in v.clients && |v.clients[id].pending| == |before| + 1 && before <= v.clients[id].pending
            && var m := v.clients[id].pending[|before|];
               && (k in m.changed <==> k in v.model && Get(s.model, k) != Some(v.model[k]))
               && (k in m.changed ==> m.changed[k] == v.model[k])
               && (k in m.removed <==> k in s.model && k !in v.model)
  {
  }

  // --- Reading the steps -----------------------------------------------------------------------------------

  /** The row stored for a key, as the writes to the table have left it. */
  function StoredRow(db: Rows, steps: seq<Step>, k: Key): Option<View> {
    if steps == [] then Get(db, k)
    else
      var (before, t) := (steps[..|steps| - 1], steps[|steps| - 1]);
      match t
      case StoreScan(_, stored, _) => if k in stored then Some(stored[k]) else StoredRow(db, before, k)
      case DeleteRows(keys) => if k in keys then None else StoredRow(db, before, k)
      case WriteElsewhere(key, view) => if k == key then Some(view) else StoredRow(db, before, k)
      case _ => StoredRow(db, before, k)
  }

  /** The scan that has been stored and neither published nor abandoned: its queue, and the keys it wrote. */
  function Underway(steps: seq<Step>): Option<(int, set<Key>)> {
    if steps == [] then None
    else match steps[|steps| - 1]
      case StoreScan(queue, _, written) => Some((queue, written))
      case PublishScan => None
      case AbandonScan => None
      case _ => Underway(steps[..|steps| - 1])
  }

  /** Step `j` publishes a scan of this queue. */
  predicate PublishesQueue(steps: seq<Step>, j: nat, queue: int)
    requires j < |steps|
  {
    steps[j].PublishScan? && Underway(steps[..j]).Some? && Underway(steps[..j]).value.0 == queue
  }

  /** The last published scan of the queue wrote the row, it was stored then, and it was not forgotten since. */
  predicate OnPage(db: Rows, steps: seq<Step>, k: Key) {
    steps != [] &&
    var (before, n) := (steps[..|steps| - 1], |steps| - 1);
    if PublishesQueue(steps, n, k.0) then k in Underway(before).value.1 && StoredRow(db, before, k).Some?
    else OnPage(db, before, k) && !(steps[n].Forget? && k in steps[n].keys)
  }

  lemma {:induction false} LastStep(s: System, steps: seq<Step>)
    requires Runs(s, steps) && steps != []
    ensures var (before, t) := (steps[..|steps| - 1], steps[|steps| - 1]);
            Runs(s, before) && Enabled(After(s, before), t) && After(s, steps) == Next(After(s, before), t)
    decreases |steps|
  {
    if |steps| > 1 {
      LastStep(Next(s, steps[0]), steps[1..]);
      assert steps[1..][..|steps| - 2] == steps[..|steps| - 1][1..];
    }
  }

  /** The database, the scan under way and the model are what the steps say. */
  lemma {:induction false} StepsTell(db: Rows, maxsize: int, steps: seq<Step>, k: Key)
    requires Runs(Start(db, maxsize), steps)
    ensures var s := After(Start(db, maxsize), steps);
            && Get(s.db, k) == StoredRow(db, steps, k) && s.scanning == Underway(steps)
            && (k in s.model <==> OnPage(db, steps, k))
    decreases |steps|
  {
    if steps != [] {
      var before := steps[..|steps| - 1];
      LastStep(Start(db, maxsize), steps);
      StepsTell(db, maxsize, before, k);
      var s := After(Start(db, maxsize), before);
      if steps[|steps| - 1].PublishScan? {
        PublishedModelIs(s, k);
      }
    }
  }

  // --- The page ----------------------------------------------------------------------------------------------

  /** Step `m` can lead row `k` astray: another writer tells the browsers of it, or a scan of its queue is stored
      and never published. */
  predicate LeadsAstray(steps: seq<Step>, m: nat, k: Key)
    requires m < |steps|
  {
    (steps[m].WriteElsewhere? && steps[m].key == k)
    || (steps[m].AbandonScan? && Underway(steps[..m]).Some? && Underway(steps[..m]).value.0 == k.0)
  }

  lemma {:induction false} StrayWasLed(db: Rows, maxsize: int, steps: seq<Step>, k: Key) returns (m: nat)
    requires Runs(Start(db, maxsize), steps) && k in After(Start(db, maxsize), steps).stray
    ensures m < |steps| && LeadsAstray(steps, m, k)
    decreases |steps|
  {
    var n := |steps| - 1;
    LastStep(Start(db, maxsize), steps);
    StepsTell(db, maxsize, steps[..n], k);
    if k in After(Start(db, maxsize), steps[..n]).stray {
      m := StrayWasLed(db, maxsize, steps[..n], k);
      assert steps[..n][..m] == steps[..m];
    } else {
      m := n;
    }
  }

  /** A client that lost nothing and has caught up shows exactly the rows on the page by the steps taken, each
      as it is stored. `StrayWasLed` says which rows can be astray. */
  lemma PageShowsExactly(db: Rows, maxsize: int, steps: seq<Step>, id: ClientId, k: Key)
    requires Runs(Start(db, maxsize), steps)
    requires var s := After(Start(db, maxsize), steps);
             CaughtUp(s, id) && s.clients[id].intact && k !in s.stray
    ensures var shown := After(Start(db, maxsize), steps).clients[id].rows;
            && (k in shown <==> OnPage(db, steps, k))
            && (k in shown ==> Some(shown[k]) == StoredRow(db, steps, k))
  {
    var s := After(Start(db, maxsize), steps);
    CaughtUpClientShowsTheModel(db, maxsize, steps, id, k);
    StepsTell(db, maxsize, steps, k);
    RunsKeepGood(Start(db, maxsize), steps);
    assert GoodAt(s, k);
  }

  lemma {:induction false} NotWrittenNotOnPage(db: Rows, steps: seq<Step>, k: Key, j: nat)
    requires j < |steps| && PublishesQueue(steps, j, k.0) && k !in Underway(steps[..j]).value.1
    requires forall m :: j < m < |steps| ==> !PublishesQueue(steps, m, k.0)
    ensures !OnPage(db, steps, k)
    decreases |steps|
  {
    var n := |steps| - 1;
    if j < n {
      assert steps[..n][..j] == steps[..j];
      forall m | j < m < n
        ensures !PublishesQueue(steps[..n], m, k.0)
      {
        assert steps[..n][..m] == steps[..m] && !PublishesQueue(steps, m, k.0);
      }
      NotWrittenNotOnPage(db, steps[..n], k, j);
    }
  }

  /** What the last published scan of its queue did not write has left the page. */
  lemma UnwrittenRowIsNotShown(db: Rows, maxsize: int, steps: seq<Step>, id: ClientId, k: Key, j: nat)
    requires Runs(Start(db, maxsize), steps)
    requires var s := After(Start(db, maxsize), steps);
             CaughtUp(s, id) && s.clients[id].intact && k !in s.stray
    requires j < |steps| && PublishesQueue(steps, j, k.0) && k !in Underway(steps[..j]).value.1
    requires forall m :: j < m < |steps| ==> !PublishesQueue(steps, m, k.0)
    ensures k !in After(Start(db, maxsize), steps).clients[id].rows
  {
    PageShowsExactly(db, maxsize, steps, id, k);
    NotWrittenNotOnPage(db, steps, k, j);
  }
}
