/** The query runner: requests pages of studies one after another, follows
    the continuation token the registry returns, and accumulates the records
    the projector extracts. The network is replaced by a server oracle that
    gives the response to each request by its number. */
module TrialFetch {
  import opened Wrappers
  import opened JsonValues
  import opened StudyExtraction

  /** The outcome of one GET request. */
  datatype Response =
    | TransportError  // connection failure, timeout or a 4xx or 5xx status
    | DecodeError     // the body is not valid JSON
    | Ok(body: Json)  // the decoded body

  /** The response to each request, by request number (0 for the first). */
  type Server = nat -> Response

  const DefaultPageSize: int := 100
  const DefaultMaxPages: int := 10

  /** The list of raw studies of a page body: `data.get('studies', [])`. */
  function RawStudies(body: Json): Json
  {
    match body
    case JObject(fields) => if "studies" in fields then fields["studies"] else JArray([])
    case _ => JArray([])  // not reached: Readable demands a dict
  }

  /** `data.get('nextPageToken')`, which is `None` when absent. */
  function NextToken(body: Json): Json
  {
    match body
    case JObject(fields) => if "nextPageToken" in fields then fields["nextPageToken"] else JNull
    case _ => JNull  // not reached: Readable demands a dict
  }

  /** A body the loop reads without raising. The code that reads it runs
      outside any `try`: a body that is not a dict, or whose `studies` has no
      length (null, a number, a boolean), makes the client itself raise. */
  predicate Readable(body: Json)
  {
    && body.JObject?
    && (RawStudies(body).JArray? || RawStudies(body).JObject? || RawStudies(body).JString?)
  }

  /** `len(studies)`: how many raw studies the page iterates over. */
  function RawCount(body: Json): nat
  {
    match RawStudies(body)
    case JArray(xs) => |xs|
    case JObject(fields) => |fields|
    case JString(s) => |s|
    case _ => 0
  }

  /** The successful extractions of `studies`, in order; failures are dropped. */
  function Kept(studies: seq<Json>): seq<Record>
  {
    if studies == [] then []
    else
      match ExtractStudyData(studies[0])
      case Success(record) => [record] + Kept(studies[1..])
      case Failure(_) => Kept(studies[1..])
  }

  /** The records one page contributes. A dict or a string in place of the
      list iterates over keys or characters, which are strings, and
      extraction fails on every one of them. */
  function PageRecords(body: Json): seq<Record>
  {
    StudiesRecords(RawStudies(body))
  }

  function StudiesRecords(studiesRaw: Json): seq<Record>
  {
    match studiesRaw
    case JArray(xs) => Kept(xs)
    case _ => []
  }

  /** `for study_raw in studies: ...append(...)`: extract every raw study in
      iteration order and append each success to `accumulated`. */
  method AppendExtracted(accumulated: seq<Record>, studiesRaw: Json) returns (result: seq<Record>)
    requires studiesRaw.JArray? || studiesRaw.JObject? || studiesRaw.JString?
    ensures result == accumulated + StudiesRecords(studiesRaw)
  {
    result := accumulated;
    match studiesRaw {
      case JArray(xs) =>
        for i := 0 to |xs|
          invariant result == accumulated + Kept(xs[..i])
        {
          var extracted := ExtractStudyData(xs[i]);
          if extracted.Success? {
            result := result + [extracted.value];
          }
          KeptConcat(xs[..i], [xs[i]]);
          assert xs[..i + 1] == xs[..i] + [xs[i]];
        }
        assert xs[..|xs|] == xs;
      case JString(s) =>
        for i := 0 to |s|
          invariant result == accumulated
        {
          var extracted := ExtractStudyData(JString([s[i]]));
          assert extracted.Failure?;  // a string is not a dict: nothing to append
        }
      case JObject(fields) =>
        var keys := fields.Keys;
        while keys != {}
          invariant result == accumulated
          decreases keys
        {
          var key :| key in keys;
          var extracted := ExtractStudyData(JString(key));
          assert extracted.Failure?;  // a string is not a dict: nothing to append
          keys := keys - {key};
        }
    }
  }

  /** The records accumulated from request number `page` on, when the
      requests before it have been made and the last one returned a token. */
  function Fetched(server: Server, maxPages: int, page: nat): seq<Record>
    decreases maxPages - page
  {
    if page >= maxPages then []
    else
      match server(page)
      case Ok(body) =>
        PageRecords(body) + if Truthy(NextToken(body)) then Fetched(server, maxPages, page + 1) else []
      case _ => []
  }

  /** The number of requests made from request number `page` on. */
  function RequestCount(server: Server, maxPages: int, page: nat): nat
    decreases maxPages - page
  {
    if page >= maxPages then 0
    else
      match server(page)
      case Ok(body) => 1 + if Truthy(NextToken(body)) then RequestCount(server, maxPages, page + 1) else 0
      case _ => 1
  }

  /** The raw studies on the pages fetched from request number `page` on. */
  function RawFetched(server: Server, maxPages: int, page: nat): nat
    decreases maxPages - page
  {
    if page >= maxPages then 0
    else
      match server(page)
      case Ok(body) =>
        RawCount(body) + if Truthy(NextToken(body)) then RawFetched(server, maxPages, page + 1) else 0
      case _ => 0
  }

  /** The records of the pages numbered `from` up to `to` (exclusive),
      page after page. */
  function RecordsOfPages(server: Server, from: nat, to: nat): seq<Record>
    decreases (to as int) - from
  {
    if from >= to then []
    else
      (match server(from) case Ok(body) => PageRecords(body) case _ => [])
      + RecordsOfPages(server, from + 1, to)
  }

  /** The parameters of request number `k`: the caller's query with
      `pageSize` set, and from the second request on `pageToken` set to the
      token of the previous page. */
  function ParamsFor(query: map<string, Json>, pageSize: int, server: Server, k: nat): map<string, Json>
  {
    var base := query["pageSize" := JInt(pageSize)];
    if k == 0 then base
    else match server(k - 1)
      case Ok(body) => base["pageToken" := NextToken(body)]
      case _ => base  // not reached: no request follows a failed one
  }

  /** Page number `k` was fetched and handed out a continuation token. */
  predicate Continues(server: Server, k: nat)
  {
    server(k).Ok? && Truthy(NextToken(server(k).body))
  }

  /** Fetch every page of the query, at most `maxPages` of them, and return
      the records extracted, in registry order. `sent` lists the parameters
      of each request made. */
  method FetchAllTrials(server: Server, queryParams: map<string, Json>,
                        maxPages: int := DefaultMaxPages, pageSize: int := DefaultPageSize)
    returns (allExtracted: seq<Record>, ghost sent: seq<map<string, Json>>)
    requires forall k: nat :: k < maxPages && server(k).Ok? ==> Readable(server(k).body)
    ensures allExtracted == Fetched(server, maxPages, 0)
    ensures |sent| == RequestCount(server, maxPages, 0)
    ensures maxPages <= 0 ==> |sent| == 0 && |allExtracted| == 0
    ensures forall k :: 0 <= k < |sent| ==> sent[k] == ParamsFor(queryParams, pageSize, server, k)
    ensures forall k :: 0 <= k < |sent| - 1 ==> Continues(server, k)
  {
    allExtracted := [];
    sent := [];
    var currentPage := 0;
    var localQueryParams := queryParams;
    localQueryParams := localQueryParams["pageSize" := JInt(pageSize)];

    while true
      invariant currentPage == |sent|
      invariant currentPage == 0 || currentPage <= maxPages
      invariant allExtracted + Fetched(server, maxPages, currentPage) == Fetched(server, maxPages, 0)
      invariant RequestCount(server, maxPages, 0) == currentPage + RequestCount(server, maxPages, currentPage)
      invariant localQueryParams == ParamsFor(queryParams, pageSize, server, currentPage)
      invariant forall k :: 0 <= k < |sent| ==> sent[k] == ParamsFor(queryParams, pageSize, server, k)
      invariant forall k :: 0 <= k < |sent| ==> Continues(server, k)
      decreases maxPages - currentPage
    {
      PageStep(server, maxPages, currentPage);
      currentPage := currentPage + 1;
      if currentPage > maxPages {
        assert allExtracted + [] == allExtracted;
        break;
      }

      RecordRequest(queryParams, pageSize, server, sent, localQueryParams);
      sent := sent + [localQueryParams];
      var response := server(currentPage - 1);
      if !response.Ok? {
        assert allExtracted + [] == allExtracted;
        break;  // transport, status or decode failure: keep what was accumulated
      }
      var data := response.body;
      assert Readable(data);

      ghost var before := allExtracted;
      allExtracted := AppendExtracted(allExtracted, RawStudies(data));
      AppendAssoc(before, PageRecords(data), Fetched(server, maxPages, currentPage));

      var nextPageToken := NextToken(data);
      if Truthy(nextPageToken) {
        ParamsStep(queryParams, pageSize, server, currentPage - 1);
        localQueryParams := localQueryParams["pageToken" := nextPageToken];
      } else {
        break;
      }
    }
  }

  /** Appending the parameters of the next request keeps `sent` in step
      with ParamsFor. */
  lemma RecordRequest(query: map<string, Json>, pageSize: int, server: Server,
                      sent: seq<map<string, Json>>, params: map<string, Json>)
    requires forall k :: 0 <= k < |sent| ==> sent[k] == ParamsFor(query, pageSize, server, k)
    requires params == ParamsFor(query, pageSize, server, |sent|)
    ensures forall k :: 0 <= k < |sent + [params]| ==> (sent + [params])[k] == ParamsFor(query, pageSize, server, k)
  {
  }

  /** Appending is associative (stated as a lemma so that the loop proof
      gets exactly this instance, which keeps it cheap). */
  lemma AppendAssoc<T>(a: seq<T>, b: seq<T>, c: seq<T>)
    ensures (a + b) + c == a + (b + c)
  {
  }

  /** How one request moves the accumulated records and the request count. */
  lemma PageStep(server: Server, maxPages: int, k: nat)
    ensures k >= maxPages ==> Fetched(server, maxPages, k) == [] && RequestCount(server, maxPages, k) == 0
    ensures k < maxPages && Continues(server, k) ==>
      && Fetched(server, maxPages, k) == PageRecords(server(k).body) + Fetched(server, maxPages, k + 1)
      && RequestCount(server, maxPages, k) == 1 + RequestCount(server, maxPages, k + 1)
    ensures k < maxPages && server(k).Ok? && !Continues(server, k) ==>
      && Fetched(server, maxPages, k) == PageRecords(server(k).body)
      && RequestCount(server, maxPages, k) == 1
    ensures k < maxPages && !server(k).Ok? ==> Fetched(server, maxPages, k) == [] && RequestCount(server, maxPages, k) == 1
  {
  }

  /** Storing the token of page `k` turns the parameters of request `k` into
      those of request `k + 1`. */
  lemma ParamsStep(query: map<string, Json>, pageSize: int, server: Server, k: nat)
    requires server(k).Ok?
    ensures ParamsFor(query, pageSize, server, k + 1)
      == ParamsFor(query, pageSize, server, k)["pageToken" := NextToken(server(k).body)]
  {
    var base := query["pageSize" := JInt(pageSize)];
    if k > 0 && server(k - 1).Ok? {
      var previous := NextToken(server(k - 1).body);
      assert base["pageToken" := previous]["pageToken" := NextToken(server(k).body)]
        == base["pageToken" := NextToken(server(k).body)];
    }
  }

  // ---------------------------------------------------------------------
  // Properties of the accumulated records and of the requests

  /** Filtering distributes over concatenation: the kept records keep the
      order of the studies they come from. */
  lemma {:induction false} KeptConcat(a: seq<Json>, b: seq<Json>)
    ensures Kept(a + b) == Kept(a) + Kept(b)
  {
    if a == [] {
      assert a + b == b;
    } else {
      assert (a + b)[0] == a[0];
      assert (a + b)[1..] == a[1..] + b;
      KeptConcat(a[1..], b);
    }
  }

  /** A record is kept exactly when some study extracts to it. */
  lemma {:induction false} KeptExactlySuccesses(studies: seq<Json>, record: Record)
    ensures record in Kept(studies) <==>
      exists i :: 0 <= i < |studies| && ExtractStudyData(studies[i]) == Success(record)
  {
    if studies != [] {
      KeptExactlySuccesses(studies[1..], record);
      if exists i :: 0 <= i < |studies| && ExtractStudyData(studies[i]) == Success(record) {
        var i :| 0 <= i < |studies| && ExtractStudyData(studies[i]) == Success(record);
        if i > 0 {
          assert studies[1..][i - 1] == studies[i];
        }
      }
      if exists i :: 0 <= i < |studies| - 1 && ExtractStudyData(studies[1..][i]) == Success(record) {
        var i :| 0 <= i < |studies| - 1 && ExtractStudyData(studies[1..][i]) == Success(record);
        assert studies[i + 1] == studies[1..][i];
      }
    }
  }

  /** There are never more kept records than studies, and as many exactly
      when every extraction succeeds. */
  lemma {:induction false} KeptAtMost(studies: seq<Json>)
    ensures |Kept(studies)| <= |studies|
    ensures |Kept(studies)| == |studies| <==> forall i :: 0 <= i < |studies| ==> ExtractStudyData(studies[i]).Success?
  {
    if studies != [] {
      KeptAtMost(studies[1..]);
      assert forall i :: 1 <= i < |studies| ==> studies[i] == studies[1..][i - 1];
    }
  }

  /** A page contributes no more records than it has raw studies. */
  lemma PageRecordsBound(body: Json)
    ensures |PageRecords(body)| <= RawCount(body)
  {
    if RawStudies(body).JArray? {
      KeptAtMost(RawStudies(body).elems);
    }
  }

  /** No more than `maxPages` requests are made, and none at all when
      `maxPages` is zero or negative. */
  lemma {:induction false} RequestsAtMostMaxPages(server: Server, maxPages: int, page: nat)
    ensures RequestCount(server, maxPages, page) <= if maxPages <= page then 0 else maxPages - page
    decreases maxPages - page
  {
    if page < maxPages && server(page).Ok? && Truthy(NextToken(server(page).body)) {
      RequestsAtMostMaxPages(server, maxPages, page + 1);
    }
  }

  /** The result has at most as many records as the fetched pages had raw
      studies. */
  lemma {:induction false} FetchedAtMostRaw(server: Server, maxPages: int, page: nat)
    ensures |Fetched(server, maxPages, page)| <= RawFetched(server, maxPages, page)
    decreases maxPages - page
  {
    if page < maxPages && server(page).Ok? {
      PageRecordsBound(server(page).body);
      if Truthy(NextToken(server(page).body)) {
        FetchedAtMostRaw(server, maxPages, page + 1);
      }
    }
  }

  /** When the server never returns more studies per page than asked for,
      the result has at most (requests made) * pageSize records. */
  lemma {:induction false} FetchedWithinPageSize(server: Server, maxPages: int, pageSize: nat, page: nat)
    requires forall k: nat :: k < maxPages && server(k).Ok? ==> RawCount(server(k).body) <= pageSize
    ensures |Fetched(server, maxPages, page)| <= RequestCount(server, maxPages, page) * pageSize
    decreases maxPages - page
  {
    if page < maxPages && server(page).Ok? {
      PageRecordsBound(server(page).body);
      if Truthy(NextToken(server(page).body)) {
        var rest := RequestCount(server, maxPages, page + 1);
        FetchedWithinPageSize(server, maxPages, pageSize, page + 1);
        assert (1 + rest) * pageSize == pageSize + rest * pageSize;
      }
    }
  }

  /** While every page hands out a token, the result is the records of those
      pages, page by page, followed by what the later requests bring. */
  lemma {:induction false} FetchedPrefix(server: Server, maxPages: int, from: nat, to: nat)
    requires from <= to <= maxPages
    requires forall j :: from <= j < to ==> Continues(server, j)
    ensures Fetched(server, maxPages, from) == RecordsOfPages(server, from, to) + Fetched(server, maxPages, to)
    decreases (to as int) - from
  {
    if from < to {
      assert Continues(server, from);
      var body := server(from).body;
      assert Fetched(server, maxPages, from) == PageRecords(body) + Fetched(server, maxPages, from + 1);
      FetchedPrefix(server, maxPages, from + 1, to);
    }
  }

  /** ... and each of those pages costs one request. */
  lemma {:induction false} RequestCountPrefix(server: Server, maxPages: int, from: nat, to: nat)
    requires from <= to <= maxPages
    requires forall j :: from <= j < to ==> Continues(server, j)
    ensures RequestCount(server, maxPages, from) == (to - from) + RequestCount(server, maxPages, to)
    decreases (to as int) - from
  {
    if from < to {
      assert Continues(server, from);
      RequestCountPrefix(server, maxPages, from + 1, to);
    }
  }

  /** The loop stops after the first page without a (truthy) token: exactly
      that many requests are made and the result is the records of those
      pages, in order. */
  lemma StopsAtFirstPageWithoutToken(server: Server, maxPages: int, last: nat)
    requires last < maxPages
    requires forall j :: 0 <= j < last ==> Continues(server, j)
    requires server(last).Ok? && !Truthy(NextToken(server(last).body))
    ensures RequestCount(server, maxPages, 0) == last + 1
    ensures Fetched(server, maxPages, 0) == RecordsOfPages(server, 0, last + 1)
  {
    FetchedPrefix(server, maxPages, 0, last);
    RequestCountPrefix(server, maxPages, 0, last);
    RecordsOfPagesSplit(server, 0, last, last + 1);
    assert Fetched(server, maxPages, last) == PageRecords(server(last).body) == RecordsOfPages(server, last, last + 1);
  }

  /** A failed request ends the loop: the result is exactly the records of
      the earlier pages (none if the first request failed). */
  lemma StopsOnFailedRequest(server: Server, maxPages: int, failed: nat)
    requires failed < maxPages
    requires forall j :: 0 <= j < failed ==> Continues(server, j)
    requires !server(failed).Ok?
    ensures RequestCount(server, maxPages, 0) == failed + 1
    ensures Fetched(server, maxPages, 0) == RecordsOfPages(server, 0, failed)
  {
    FetchedPrefix(server, maxPages, 0, failed);
    RequestCountPrefix(server, maxPages, 0, failed);
  }

  /** When every page hands out a token, exactly `maxPages` requests are made
      and the records of all of them are returned. */
  lemma StopsAtPageLimit(server: Server, maxPages: nat)
    requires forall j :: 0 <= j < maxPages ==> Continues(server, j)
    ensures RequestCount(server, maxPages, 0) == maxPages
    ensures Fetched(server, maxPages, 0) == RecordsOfPages(server, 0, maxPages)
  {
    FetchedPrefix(server, maxPages, 0, maxPages);
    RequestCountPrefix(server, maxPages, 0, maxPages);
  }

  /** A page with no studies but with a token does not stop the loop. */
  lemma EmptyPageWithTokenContinues(server: Server, maxPages: int, page: nat)
    requires page < maxPages
    requires Continues(server, page) && RawCount(server(page).body) == 0
    ensures Fetched(server, maxPages, page) == Fetched(server, maxPages, page + 1)
    ensures RequestCount(server, maxPages, page) == 1 + RequestCount(server, maxPages, page + 1)
  {
    PageRecordsBound(server(page).body);
  }

  /** RecordsOfPages over adjacent ranges concatenates. */
  lemma {:induction false} RecordsOfPagesSplit(server: Server, from: nat, mid: nat, to: nat)
    requires from <= mid <= to
    ensures RecordsOfPages(server, from, to) == RecordsOfPages(server, from, mid) + RecordsOfPages(server, mid, to)
    decreases (mid as int) - from
  {
    if from < mid {
      RecordsOfPagesSplit(server, from + 1, mid, to);
    }
  }
}
