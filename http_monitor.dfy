/**
 * The HTTP executor: one GET request per check, classified into up/down/error,
 * batches of checks with a pause between batches, and the protocol check on a
 * monitor's URL. The request itself (axios) and the URL parser are oracles: the
 * model receives what they produced.
 */
module HttpMonitor {
  import opened Wrappers
  import opened Text
  import opened Domain

  datatype HttpResponse = HttpResponse(status: int, statusText: string)

  /** What the request did: it resolved with a response (the request options accept
      every status below 500), or it threw an error that may carry a `code`, may
      carry the server's `response`, and has a `message` (possibly empty). */
  datatype HttpOutcome =
    | Responded(received: HttpResponse)
    | Threw(code: Option<string>, errorResponse: Option<HttpResponse>, message: string)

  /** One request and the milliseconds between its start and its settling. */
  datatype HttpProbe = HttpProbe(outcome: HttpOutcome, elapsedMs: nat)

  /** The detail reported for the network error codes the executor recognises. */
  function NetworkErrorDetail(code: Option<string>): Option<string> {
    match code
    case None => None
    case Some(c) =>
      if c == "ENOTFOUND" || c == "EAI_AGAIN" then Some("DNS resolution failed")
      else if c == "ECONNREFUSED" || c == "ECONNRESET" then Some("Connection refused")
      else if c == "ETIMEDOUT" then Some("Request timeout")
      else None
  }

  /** `HTTP <status>: <statusText>`. */
  function ResponseDetail(r: HttpResponse): string {
    "HTTP " + IntToString(r.status) + ": " + r.statusText
  }

  /** `performCheck`: classify one request for `monitor`. Up means a response with
      a status in 200..499 came back; error means the request failed with neither
      a recognised network code nor a response; everything else is down. The
      elapsed time is reported on every path. */
  function PerformCheck(monitor: Monitor, probe: HttpProbe): (e: Executed)
    ensures e.row == ToCheckRow(e.result)
    ensures e.result.monitorId == monitor.id
    ensures e.result.responseTime == Some(probe.elapsedMs)
    ensures e.result.status != Unknown
    ensures e.result.status == Up <==>
      probe.outcome.Responded? && 200 <= probe.outcome.received.status < 500
    ensures e.result.status == Up ==>
      e.result.statusCode == Some(probe.outcome.received.status) && e.result.errorMessage == None
    ensures e.result.status == Error <==>
      probe.outcome.Threw? && NetworkErrorDetail(probe.outcome.code).None? && probe.outcome.errorResponse.None?
    ensures e.result.status == Error ==>
      e.result.statusCode == None
      && e.result.errorMessage == Some(if probe.outcome.message == "" then "Unknown error" else probe.outcome.message)
  {
    var t := Some(probe.elapsedMs);
    var result :=
      match probe.outcome
      case Responded(resp) =>
        if 200 <= resp.status < 400 then CheckResult(monitor.id, Up, t, Some(resp.status), None)
        else if 400 <= resp.status < 500 then CheckResult(monitor.id, Up, t, Some(resp.status), None)
        else CheckResult(monitor.id, Down, t, Some(resp.status), None)
      case Threw(code, response, message) =>
        if NetworkErrorDetail(code).Some? then
          CheckResult(monitor.id, Down, t, None, NetworkErrorDetail(code))
        else if response.Some? then
          CheckResult(monitor.id, Down, t, Some(response.value.status), Some(ResponseDetail(response.value)))
        else
          CheckResult(monitor.id, Error, t, None, Some(if message == "" then "Unknown error" else message));
    Finish(result)
  }

  /** A recognised network error code decides the result even when the error also
      carries a response: down, no status code, and the code's fixed detail. */
  lemma NetworkCodeTakesPrecedence(monitor: Monitor, code: string, response: Option<HttpResponse>, message: string, t: nat)
    requires code in {"ENOTFOUND", "EAI_AGAIN", "ECONNREFUSED", "ECONNRESET", "ETIMEDOUT"}
    ensures var r := PerformCheck(monitor, HttpProbe(Threw(Some(code), response, message), t)).result;
      && r.status == Down && r.statusCode == None
      && r.errorMessage == Some(
        if code in {"ENOTFOUND", "EAI_AGAIN"} then "DNS resolution failed"
        else if code in {"ECONNREFUSED", "ECONNRESET"} then "Connection refused"
        else "Request timeout")
  {
  }

  /** A rejected response (status 500 and above, delivered as an error) without a
      recognised network code is down and keeps the server's status code. */
  lemma ServerErrorIsDown(monitor: Monitor, code: Option<string>, resp: HttpResponse, message: string, t: nat)
    requires NetworkErrorDetail(code).None?
    ensures var r := PerformCheck(monitor, HttpProbe(Threw(code, Some(resp), message), t)).result;
      r.status == Down && r.statusCode == Some(resp.status) && r.errorMessage == Some(ResponseDetail(resp))
  {
  }

  // ---------------------------------------------------------------------------
  // checkMultipleMonitors

  function Flatten<T>(parts: seq<seq<T>>): seq<T>
    decreases |parts|
  {
    if |parts| == 0 then [] else Flatten(parts[..|parts| - 1]) + parts[|parts| - 1]
  }

  lemma FlattenSnoc<T>(parts: seq<seq<T>>, last: seq<T>)
    ensures Flatten(parts + [last]) == Flatten(parts) + last
  {
    assert (parts + [last])[..|parts|] == parts;
  }

  lemma MulCancel(x: int, y: int, c: int)
    requires c > 0 && x * c < y * c
    ensures x < y
  {
    assert (y - x) * c == y * c - x * c;
  }

  /** The number of batches of size `c` needed for `n` items, rounded up. */
  lemma CeilingBatches(n: nat, c: nat, b: nat)
    requires c >= 1 && (b - 1) * c < n <= b * c
    ensures b == (n + c - 1) / c
  {
    var q := (n + c - 1) / c;
    var r := (n + c - 1) % c;
    assert q * c == n + c - 1 - r;
    assert (q - 1) * c == q * c - c;
    MulCancel(q - 1, b, c);
    MulCancel(b - 1, q, c);
  }

  /** `batch.map(performCheck)` awaited together: one result per monitor of the
      batch, in order; the batch starts at position `offset` of the whole list. */
  method CheckBatch(batch: seq<Monitor>, probes: nat -> HttpProbe, offset: nat) returns (batchResults: seq<CheckResult>)
    ensures |batchResults| == |batch|
    ensures forall q :: 0 <= q < |batch| ==> batchResults[q] == PerformCheck(batch[q], probes(offset + q)).result
  {
    batchResults := [];
    for k := 0 to |batch|
      invariant |batchResults| == k
      invariant forall q :: 0 <= q < k ==> batchResults[q] == PerformCheck(batch[q], probes(offset + q)).result
    {
      batchResults := batchResults + [PerformCheck(batch[k], probes(offset + k)).result];
    }
  }

  /** The results of a batch continue the results of the monitors before it. */
  lemma AppendBatch(monitors: seq<Monitor>, probes: nat -> HttpProbe, results: seq<CheckResult>,
                    batch: seq<Monitor>, batchResults: seq<CheckResult>, end: nat)
    requires |results| <= end <= |monitors| && batch == monitors[|results|..end]
    requires forall k :: 0 <= k < |results| ==> results[k] == PerformCheck(monitors[k], probes(k)).result
    requires |batchResults| == |batch|
    requires forall q :: 0 <= q < |batch| ==> batchResults[q] == PerformCheck(batch[q], probes(|results| + q)).result
    ensures forall k :: 0 <= k < end ==> (results + batchResults)[k] == PerformCheck(monitors[k], probes(k)).result
  {
    forall k | |results| <= k < end
      ensures (results + batchResults)[k] == PerformCheck(monitors[k], probes(k)).result
    {
      var q := k - |results|;
      assert batch[q] == monitors[k];
    }
  }

  const DefaultConcurrency := 10

  /** The batch size: the requested concurrency, 10 when omitted. */
  function BatchSize(concurrency: Option<int>): (c: int)
    ensures concurrency.None? ==> c == DefaultConcurrency
    ensures concurrency.Some? ==> c == concurrency.value
  {
    if concurrency.Some? then concurrency.value else DefaultConcurrency
  }

  /** `checkMultipleMonitors`: checks the monitors in batches of `concurrency`
      (the last batch may be shorter), collecting one result per monitor in input
      order, and sleeps once between consecutive batches. `probes(k)` is what the
      request for the monitor at position `k` does. An omitted `concurrency`
      means 10; one below 1 makes the source loop forever, so it is excluded. */
  method CheckMultipleMonitors(monitors: seq<Monitor>, probes: nat -> HttpProbe, concurrency: Option<int>)
    returns (results: seq<CheckResult>, pauses: nat, ghost batches: seq<seq<Monitor>>)
    requires concurrency.Some? ==> concurrency.value >= 1
    ensures |results| == |monitors|
    ensures forall k :: 0 <= k < |monitors| ==> results[k] == PerformCheck(monitors[k], probes(k)).result
    ensures Flatten(batches) == monitors
    ensures forall j :: 0 <= j < |batches| ==> 1 <= |batches[j]| <= BatchSize(concurrency)
    ensures pauses == if |monitors| == 0 then 0 else (|monitors| + BatchSize(concurrency) - 1) / BatchSize(concurrency) - 1
    ensures |monitors| > 0 ==> |batches| == pauses + 1
  {
    var c := BatchSize(concurrency);
    var n := |monitors|;
    results, pauses, batches := [], 0, [];
    var i := 0;
    while i < n
      invariant 0 <= i && i == |batches| * c
      invariant i < n || i == 0 ==> |results| == i && pauses == |batches|
      invariant i >= n && i > 0 ==> |results| == n && |batches| >= 1 && pauses == |batches| - 1
      invariant i >= n && i > 0 ==> (|batches| - 1) * c < n
      invariant Flatten(batches) == monitors[..|results|]
      invariant forall j :: 0 <= j < |batches| ==> 1 <= |batches[j]| <= c
      invariant forall k :: 0 <= k < |results| ==> results[k] == PerformCheck(monitors[k], probes(k)).result
    {
      var end := if i + c < n then i + c else n;
      var batch := monitors[i..end];
      var batchResults := CheckBatch(batch, probes, i);
      FlattenSnoc(batches, batch);
      assert monitors[..i] + batch == monitors[..end];
      AppendBatch(monitors, probes, results, batch, batchResults, end);
      results := results + batchResults;
      batches := batches + [batch];
      if i + c < n {
        pauses := pauses + 1;
      }
      assert |batches| * c == (|batches| - 1) * c + c;
      i := i + c;
    }
    if n > 0 {
      CeilingBatches(n, c, |batches|);
    }
    assert monitors[..|results|] == monitors;
  }

  // ---------------------------------------------------------------------------
  // validateUrl

  /** What the URL parser made of a monitor's URL: its protocol (with the colon)
      and host name, or the message of the error it threw. */
  datatype UrlParse = Parsed(protocol: string, hostname: string) | Unparsable(message: string)

  /** The catch block of `validateUrl`: errors whose message mentions `URL` are
      rethrown as they are, any other becomes `Invalid URL format`. */
  function Rethrown(message: string): string {
    if Contains(message, "URL") then message else "Invalid URL format"
  }

  /** `validateUrl`: accepts exactly the URLs the parser reads with protocol `http:`
      or `https:` and a non-empty host name; `Success(true)` is its `return true`. */
  function ValidateUrl(url: UrlParse): (r: Result<bool>)
    ensures r.Success? <==> url.Parsed? && (url.protocol == "http:" || url.protocol == "https:") && url.hostname != ""
    ensures r.Success? ==> r.value
  {
    match url
    case Unparsable(message) => Failure(Rethrown(message))
    case Parsed(protocol, hostname) =>
      if protocol != "http:" && protocol != "https:" then Failure(Rethrown("URL must use HTTP or HTTPS protocol"))
      else if hostname == "" then Failure(Rethrown("URL must include a hostname"))
      else Success(true)
  }

  /** The validator's own messages mention `URL`, so the catch block rethrows them
      unchanged: a wrong protocol reports exactly that. */
  lemma WrongProtocolMessage(protocol: string, hostname: string)
    requires protocol != "http:" && protocol != "https:"
    ensures ValidateUrl(Parsed(protocol, hostname)) == Failure("URL must use HTTP or HTTPS protocol")
  {
    assert StartsWith("URL must use HTTP or HTTPS protocol", "URL");
  }
}
