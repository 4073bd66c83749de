/**
 * The ping executor: reduce a monitor's URL to a host, send one echo request, and
 * classify the reply; plus the validator for ping targets. The URL parser and the
 * ping utility are oracles.
 */
module PingMonitor {
  import opened Wrappers
  import opened Text
  import opened Domain
  import opened HostNames
  import HttpMonitor

  /** What the ping utility reported for a host: alive with a round-trip time
      (already rounded to whole milliseconds), not alive, or a thrown error. */
  datatype PingReply = Alive(timeMs: int) | NotAlive | PingThrew(message: string)

  /** The host that is pinged: a URL starting with `http://` or `https://` is
      replaced by the host name the URL parser reads from it (or fails with the
      parser's message); any other URL is pinged as written. */
  function PingTarget(url: string, parsed: HttpMonitor.UrlParse): (r: Result<string>)
    ensures !(StartsWith(url, "http://") || StartsWith(url, "https://")) ==> r == Success(url)
    ensures (StartsWith(url, "http://") || StartsWith(url, "https://")) ==>
      (r.Success? <==> parsed.Parsed?) && (r.Success? ==> r.value == parsed.hostname)
    ensures (StartsWith(url, "http://") || StartsWith(url, "https://")) && parsed.Unparsable? ==>
      r == Failure(parsed.message)
  {
    if StartsWith(url, "http://") || StartsWith(url, "https://") then
      match parsed
      case Parsed(_, hostname) => Success(hostname)
      case Unparsable(message) => Failure(message)
    else Success(url)
  }

  /** `error.message || 'Ping check failed'`. */
  function OrPingFailed(message: string): (m: string)
    ensures m != "" && (message != "" ==> m == message)
  {
    if message == "" then "Ping check failed" else message
  }

  /** `performCheck`: `pinger(h)` is what the utility reports for host `h`, and
      `elapsedMs` the time until the attempt settled. Alive is up with the ping's
      own round-trip time; not alive is down with `Host not reachable` and no time;
      a failure (of the URL parser or the utility) is an error with the elapsed
      time and the error's message, or `Ping check failed` when it has none. A ping
      result never has a status code. */
  function PerformCheck(monitor: Monitor, parsed: HttpMonitor.UrlParse, pinger: string -> PingReply, elapsedMs: nat)
    : (e: Executed)
    ensures e.row == ToCheckRow(e.result)
    ensures e.result.monitorId == monitor.id && e.result.statusCode == None && e.result.status != Unknown
    ensures e.result.status == Up <==>
      PingTarget(monitor.url, parsed).Success? && pinger(PingTarget(monitor.url, parsed).value).Alive?
    ensures e.result.status == Up ==>
      e.result.responseTime == Some(pinger(PingTarget(monitor.url, parsed).value).timeMs) && e.result.errorMessage == None
    ensures e.result.status == Down <==>
      PingTarget(monitor.url, parsed).Success? && pinger(PingTarget(monitor.url, parsed).value).NotAlive?
    ensures e.result.status == Down ==>
      e.result.responseTime == None && e.result.errorMessage == Some("Host not reachable")
    ensures e.result.status == Error ==> e.result.responseTime == Some(elapsedMs)
    ensures PingTarget(monitor.url, parsed).Failure? ==>
      e.result.status == Error && e.result.errorMessage == Some(OrPingFailed(PingTarget(monitor.url, parsed).error))
    ensures PingTarget(monitor.url, parsed).Success? && pinger(PingTarget(monitor.url, parsed).value).PingThrew? ==>
      e.result.status == Error
      && e.result.errorMessage == Some(OrPingFailed(pinger(PingTarget(monitor.url, parsed).value).message))
  {
    var failed := (message: string) =>
      CheckResult(monitor.id, Error, Some(elapsedMs), None, Some(OrPingFailed(message)));
    var result :=
      match PingTarget(monitor.url, parsed)
      case Failure(message) => failed(message)
      case Success(host) =>
        match pinger(host)
        case Alive(timeMs) => CheckResult(monitor.id, Up, Some(timeMs), None, None)
        case NotAlive => CheckResult(monitor.id, Down, None, None, Some("Host not reachable"))
        case PingThrew(message) => failed(message);
    Finish(result)
  }

  /** For a URL written with a web scheme, the host name is pinged, not the URL. */
  lemma WebUrlPingsHostName(monitor: Monitor, protocol: string, hostname: string, pinger: string -> PingReply, t: nat)
    requires StartsWith(monitor.url, "https://")
    requires pinger(hostname) == NotAlive
    ensures PerformCheck(monitor, HttpMonitor.Parsed(protocol, hostname), pinger, t).result.status == Down
  {
  }

  /** `validateHost`: a blank host is refused first; otherwise the host, as written
      (untrimmed), must be a dotted host name or IPv4-shaped. */
  function ValidateHost(host: string): (r: Result<bool>)
    ensures Trim(host) == "" ==> r == Failure("Host is required for ping monitoring")
    ensures r.Success? <==> Trim(host) != "" && (IsDottedHostname(host) || IsIpv4Shape(host))
    ensures r.Success? ==> r.value
  {
    if host == "" || Trim(host) == "" then Failure("Host is required for ping monitoring")
    else if IsDottedHostname(host) || IsIpv4Shape(host) then Success(true)
    else Failure("Host must be a valid hostname or IP address")
  }

  /** A host name without a dot, such as `localhost`, is refused. */
  lemma SingleLabelHostRefused(host: string)
    requires '.' !in host && Trim(host) != ""
    ensures ValidateHost(host) == Failure("Host must be a valid hostname or IP address")
  {
    SingleLabelRejected(host);
  }
}
