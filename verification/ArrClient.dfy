/**
 Reading an *arr instance: page walks that do not trust the page size they asked for, and a
 download that stops at a byte budget.
 */
module ArrClient {
  import opened Common
  import opened ArrLifecycle

  /** What the instance holds, the page size it really uses, and whether it says how much there is. */
  datatype Server<T> = Server(all: seq<T>, pageSize: nat, reportsTotal: bool)
  {
    predicate Sane() { pageSize >= 1 }

    /** Page `p`, counted from 1: what lies after the pages before it. */
    function Page(p: nat): seq<T>
      requires p >= 1
    {
      all[Min(|all|, (p - 1) * pageSize)..][..Min(|all| - Min(|all|, (p - 1) * pageSize), pageSize)]
    }

    /** `data.get("totalRecords", len(raw_records))` */
    function Total(p: nat): nat
      requires p >= 1
    {
      if reportsTotal then |all| else |Page(p)|
    }
  }

  /** Everything on pages `1..p`. */
  function Through<T>(server: Server<T>, p: nat): seq<T> { server.all[..Min(|server.all|, p * server.pageSize)] }

  lemma NextPage<T>(server: Server<T>, p: nat)
    requires server.Sane() && p >= 1
    ensures Through(server, p) == Through(server, p - 1) + server.Page(p)
    ensures server.Page(p) == [] <==> Through(server, p - 1) == server.all
  {
  }

  /** What a walk brings back: without a total, a page is taken to be all there is. */
  function Walked<T>(server: Server<T>): seq<T> { if server.reportsTotal then server.all else server.Page(1) }

  /** The walk both `queue_records` and `import_events` make. */
  method WalkPages<T>(server: Server<T>) returns (records: seq<T>, requests: nat)
    requires server.Sane()
    ensures records == Walked(server)
    ensures requests >= 1
    ensures requests > 1 ==> server.reportsTotal && (requests - 1) * server.pageSize < |server.all|
  {
    records := [];
    var page := 1;
    while true
      invariant page >= 1 && records == Through(server, page - 1)
      invariant page > 1 ==> server.reportsTotal && |records| < |server.all|
      decreases |server.all| - |records|
    {
      NextPage(server, page);
      var rawRecords := server.Page(page);
      records := records + rawRecords;
      if rawRecords == [] || |records| >= server.Total(page) {
        break;
      }
      page := page + 1;
    }
    requests := page;
  }

  /** Walking returns everything exactly when the instance says how much there is, or it all fits one page. */
  lemma WalkIsCompleteWhen<T>(server: Server<T>)
    requires server.Sane()
    ensures Walked(server) == server.all <==> server.reportsTotal || |server.all| <= server.pageSize
    ensures !server.reportsTotal ==> Walked(server) == server.all[..Min(|server.all|, server.pageSize)]
  {
  }

  // --- History -----------------------------------------------------------------------------------------

  datatype EventType = Text(text: string) | Number(code: int) | Absent

  const EVENT_TYPE_DOWNLOAD_FOLDER_IMPORTED := "downloadFolderImported"
  const LEGACY_EVENT_TYPE_DOWNLOAD_FOLDER_IMPORTED := 3

  predicate IsImportEvent(e: EventType) {
    match e
    case Text(t) => t == EVENT_TYPE_DOWNLOAD_FOLDER_IMPORTED
    case _ => e == Number(LEGACY_EVENT_TYPE_DOWNLOAD_FOLDER_IMPORTED)
  }

  datatype Filter = ByDownloadId(id: string) | BySourceTitle(title: string)

  /** `import_events`: the instance's history for one release. */
  method ImportEvents(downloadId: Option<string>, sourceTitle: Option<string>, history: Filter -> Server<EventType>)
    returns (events: seq<EventType>)
    requires forall f :: history(f).Sane()
    ensures match (downloadId, sourceTitle)
            case (Some(id), _) => events == Walked(history(ByDownloadId(id)))
            case (None, Some(title)) => events == Walked(history(BySourceTitle(title)))
            case (None, None) => events == []
  {
    if downloadId.None? && sourceTitle.None? {
      return [];
    }
    var filter := if downloadId.Some? then ByDownloadId(downloadId.value) else BySourceTitle(sourceTitle.value);
    var requests;
    events, requests := WalkPages(history(filter));
  }

  function Flags(events: seq<EventType>): seq<bool> {
    seq(|events|, k requires 0 <= k < |events| => IsImportEvent(events[k]))
  }

  /** The poller sees an import exactly when one event, on whatever page, is of the import type. */
  lemma ImportsAreSeen(events: seq<EventType>)
    ensures CountImports(Flags(events)) > 0
            <==> exists k :: 0 <= k < |events|
                             && (events[k] == Text("downloadFolderImported") || events[k] == Number(3))
  {
    AnyImportCounts(Flags(events));
    if true in Flags(events) {
      var k :| 0 <= k < |Flags(events)| && Flags(events)[k];
      assert IsImportEvent(events[k]);
    }
    if k :| 0 <= k < |events| && (events[k] == Text("downloadFolderImported") || events[k] == Number(3)) {
      assert Flags(events)[k];
    }
  }

  // --- Downloading a log file ------------------------------------------------------------------------------

  type Byte = b: int | 0 <= b < 256

  /** The bytes of the first `n` chunks. */
  function Arrived(chunks: seq<seq<Byte>>, n: nat): seq<Byte>
    requires n <= |chunks|
  {
    if n == 0 then [] else Arrived(chunks, n - 1) + chunks[n - 1]
  }

  function Stream(chunks: seq<seq<Byte>>): seq<Byte> { Arrived(chunks, |chunks|) }

  function Budget(maxBytes: int): nat { if maxBytes < 0 then 0 else maxBytes }

  /** Chunk `i` arrives although the budget is already spent, or goes over it. */
  predicate OverrunBy(chunks: seq<seq<Byte>>, i: nat, budget: nat)
    requires i < |chunks|
  {
    |Arrived(chunks, i)| >= budget || |Arrived(chunks, i)| + |chunks[i]| > budget
  }

  predicate Overran(chunks: seq<seq<Byte>>, budget: nat) {
    exists i: nat | i < |chunks| :: OverrunBy(chunks, i, budget)
  }

  /** `download_log_file`: the first bytes, up to the budget. */
  method DownloadLogFile(chunks: seq<seq<Byte>>, maxBytes: int) returns (content: seq<Byte>, truncated: bool)
    ensures content <= Stream(chunks) && |content| == Min(Budget(maxBytes), |Stream(chunks)|)
    ensures truncated == Overran(chunks, Budget(maxBytes))
  {
    content, truncated := [], false;
    for i := 0 to |chunks|
      invariant !truncated && content == Arrived(chunks, i) && |content| <= Budget(maxBytes)
      invariant forall j: nat :: j < i ==> !OverrunBy(chunks, j, Budget(maxBytes))
    {
      ArrivedGrows(chunks, i);
      assert |content| + |chunks[i]| > Budget(maxBytes) || |content| >= Budget(maxBytes)
             ==> OverrunBy(chunks, i, Budget(maxBytes));
      var remaining := maxBytes - |content|;
      if remaining <= 0 {
        truncated := true;
        return;
      }
      if |chunks[i]| > remaining {
        ArrivedGrows(chunks, i + 1);
        assert content + chunks[i][..remaining] <= Arrived(chunks, i + 1);
        content := content + chunks[i][..remaining];
        truncated := true;
        return;
      }
      content := content + chunks[i];
    }
  }

  lemma {:induction false} ArrivedGrows(chunks: seq<seq<Byte>>, i: nat)
    requires i <= |chunks|
    ensures Arrived(chunks, i) <= Stream(chunks)
    decreases |chunks| - i
  {
    if i < |chunks| {
      ArrivedGrows(chunks, i + 1);
    }
  }

  lemma {:induction false} ArrivedSo(chunks: seq<seq<Byte>>, i: nat, j: nat)
    requires i <= j <= |chunks|
    ensures |Arrived(chunks, i)| <= |Arrived(chunks, j)|
    decreases j
  {
    if i < j {
      ArrivedSo(chunks, i, j - 1);
    }
  }

  /** `truncated` says that the file was longer than the budget, exactly unless the file ends on the budget
      with an empty chunk to follow. */
  lemma TruncatedMeansLongerExactlyWhen(chunks: seq<seq<Byte>>, budget: nat)
    ensures (Overran(chunks, budget) <==> |Stream(chunks)| > budget)
            <==> !(|Stream(chunks)| == budget && chunks != [] && chunks[|chunks| - 1] == [])
  {
    var n := |chunks|;
    if n > 0 {
      var last := OverrunBy(chunks, n - 1, budget);
      assert last <==> |Arrived(chunks, n - 1)| >= budget || |Stream(chunks)| > budget;
    }
    if i: nat :| i < n && OverrunBy(chunks, i, budget) {
      ArrivedSo(chunks, i, n - 1);
      ArrivedSo(chunks, i + 1, n);
    }
  }

  /** So as long as no chunk is empty, as from a real stream, it says just that. */
  lemma TruncatedMeansLonger(chunks: seq<seq<Byte>>, budget: nat)
    requires forall c :: c in chunks ==> c != []
    ensures Overran(chunks, budget) <==> |Stream(chunks)| > budget
  {
    TruncatedMeansLongerExactlyWhen(chunks, budget);
    assert chunks != [] ==> chunks[|chunks| - 1] in chunks;
  }
}
