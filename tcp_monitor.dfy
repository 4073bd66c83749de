/**
 * The TCP executor: parse `host:port` out of a monitor's URL, try one connection,
 * and classify it; plus the validator for TCP targets. The socket is an oracle:
 * the model receives the first event the socket emitted.
 */
module TcpMonitor {
  import opened Wrappers
  import opened Text
  import opened Domain
  import opened HostNames

  datatype HostPort = HostPort(host: string, port: int)

  const FormatError := "TCP monitor URL must be in format host:port"
  const HostRequired := "Host is required"
  const PortOutOfRange := "Port must be a number between 1 and 65535"

  /** `url.replace(/^(tcp:\/\/|https?:\/\/)/, '')`: drops one leading `tcp://`,
      `https://` or `http://`, and only one. */
  function StripScheme(url: string): (s: string)
    ensures |s| <= |url| && s == url[|url| - |s|..]
    ensures |url| - |s| in {0, 6, 7, 8}
    ensures s == url <==> !(StartsWith(url, "tcp://") || StartsWith(url, "http://") || StartsWith(url, "https://"))
    ensures StartsWith(url, "tcp://") ==> s == url[6..]
    ensures StartsWith(url, "https://") ==> s == url[8..]
    ensures StartsWith(url, "http://") && !StartsWith(url, "https://") ==> s == url[7..]
  {
    if StartsWith(url, "tcp://") then
      assert url[0] == "tcp://"[0] == 't';
      assert !StartsWith(url, "http://") && !StartsWith(url, "https://");
      url[6..]
    else if StartsWith(url, "https://") then url[8..]
    else if StartsWith(url, "http://") then url[7..]
    else url
  }

  /** `parseHostPort`: split the scheme-less URL on `:` into exactly two parts,
      trim both, read the port with `parseInt`, and reject an empty host or a port
      that is not a number in 1..65535. */
  function ParseHostPort(url: string): (r: Result<HostPort>)
    ensures r == Failure(FormatError) <==> Occurrences(StripScheme(url), ':') != 1
    ensures var parts := Split(StripScheme(url), ':');
      |parts| == 2 ==>
        && (Trim(parts[0]) == "" ==> r == Failure(HostRequired))
        && (var port := ParseInt(Trim(parts[1]));
            Trim(parts[0]) != "" && (port.None? || port.value < 1 || port.value > 65535) ==>
              r == Failure(PortOutOfRange))
        && (r.Success? ==> r.value.host == Trim(parts[0]) && Some(r.value.port) == ParseInt(Trim(parts[1])))
    ensures r.Success? <==>
      var parts := Split(StripScheme(url), ':');
      && |parts| == 2 && Trim(parts[0]) != ""
      && ParseInt(Trim(parts[1])).Some? && 1 <= ParseInt(Trim(parts[1])).value <= 65535
    ensures r.Success? ==>
      && r.value.host != "" && ':' !in r.value.host && Trim(r.value.host) == r.value.host
      && 1 <= r.value.port <= 65535
  {
    var parts := Split(StripScheme(url), ':');
    if |parts| != 2 then Failure(FormatError)
    else
      var host := Trim(parts[0]);
      var port := ParseInt(Trim(parts[1]));
      if host == "" then Failure(HostRequired)
      else if port.None? || port.value < 1 || port.value > 65535 then Failure(PortOutOfRange)
      else
        TrimAvoids(parts[0], ':');
        Success(HostPort(host, port.value))
  }

  /** `host:port`, the shape a TCP monitor's URL is written in. */
  function FormatHostPort(host: string, port: nat): string {
    host + ":" + NatToString(port)
  }

  /** A target without any colon, such as `nohost`, fails with the format error. */
  lemma NoColonRejected(url: string)
    requires ':' !in url
    ensures ParseHostPort(url) == Failure(FormatError)
  {
    var s := StripScheme(url);
    assert forall i :: 0 <= i < |s| ==> s[i] == url[|url| - |s| + i];
    NoOccurrences(s, ':');
  }

  lemma NoColonSlash(host: string, digits: string, c: nat)
    requires ':' !in host && ':' !in digits && |digits| > 0 && DigitValue(digits[0]) < 10
    requires c + 1 < |host| + 1 + |digits|
    ensures var s := host + ":" + digits; !(s[c] == ':' && s[c + 1] == '/')
  {
    var s := host + ":" + digits;
    if c < |host| {
      assert s[c] == host[c];
    } else if c == |host| {
      assert s[c + 1] == digits[0];
    } else {
      assert s[c] == digits[c - |host| - 1];
    }
  }

  /** A text whose characters `c` and `c + 1` are not `:/` does not start with a
      prefix that has `:/` there. */
  lemma NotPrefixAt(s: string, prefix: string, c: nat)
    requires c + 1 < |prefix| && prefix[c] == ':' && prefix[c + 1] == '/'
    requires c + 1 < |s| ==> !(s[c] == ':' && s[c + 1] == '/')
    ensures !StartsWith(s, prefix)
  {
  }

  /** A formatted target never starts with a scheme, so nothing is stripped. */
  lemma NoSchemePrefix(host: string, digits: string)
    requires ':' !in host && |digits| > 0 && forall i :: 0 <= i < |digits| ==> DigitValue(digits[i]) < 10
    ensures StripScheme(host + ":" + digits) == host + ":" + digits
  {
    var s := host + ":" + digits;
    assert ':' !in digits by {
      assert forall i :: 0 <= i < |digits| ==> DigitValue(digits[i]) < 10;
    }
    assert DigitValue(digits[0]) < 10;
    if |s| > 4 {
      NoColonSlash(host, digits, 3);
    }
    if |s| > 5 {
      NoColonSlash(host, digits, 4);
    }
    if |s| > 6 {
      NoColonSlash(host, digits, 5);
    }
    NotPrefixAt(s, "tcp://", 3);
    NotPrefixAt(s, "http://", 4);
    NotPrefixAt(s, "https://", 5);
  }

  /** Parsing undoes formatting: a trimmed, colon-free, non-empty host and a port in
      1..65535 are read back exactly. */
  lemma ParseFormatRoundTrip(host: string, port: nat)
    requires host != "" && ':' !in host && !IsWhitespace(host[0]) && !IsWhitespace(host[|host| - 1])
    requires 1 <= port <= 65535
    ensures ParseHostPort(FormatHostPort(host, port)) == Success(HostPort(host, port))
  {
    var digits := NatToString(port);
    assert ':' !in digits by {
      assert forall i :: 0 <= i < |digits| ==> DigitValue(digits[i]) < 10;
    }
    NoSchemePrefix(host, digits);
    assert FormatHostPort(host, port) == host + [':'] + digits;
    SplitPair(host, digits, ':');
    TrimNoop(host);
    NatToStringHead(port);
    assert !IsWhitespace(digits[|digits| - 1]) by {
      assert DigitValue(digits[|digits| - 1]) < 10;
    }
    TrimNoop(digits);
    ParseIntNatToString(port);
  }

  // ---------------------------------------------------------------------------
  // Connection and classification

  /** The first event the socket emitted. */
  datatype SocketEvent = Connected | SocketTimeout | SocketError(code: Option<string>, message: string)

  /** What `checkTCPConnection` resolves with; `error` is empty when absent. */
  datatype Connection = Connection(success: bool, error: string)

  /** `checkTCPConnection`: a connect succeeds, a timeout reports `Connection
      timeout`, a refused connection reports `Connection refused`, and any other
      socket error reports its own message. */
  function CheckTcpConnection(event: SocketEvent): (c: Connection)
    ensures c.success <==> event.Connected?
    ensures event.SocketTimeout? ==> c.error == "Connection timeout"
    ensures event.SocketError? && event.code == Some("ECONNREFUSED") ==> c.error == "Connection refused"
    ensures event.SocketError? && event.code != Some("ECONNREFUSED") ==> c.error == event.message
    ensures event.Connected? ==> c.error == ""
  {
    match event
    case Connected => Connection(true, "")
    case SocketTimeout => Connection(false, "Connection timeout")
    case SocketError(code, message) =>
      Connection(false, if code == Some("ECONNREFUSED") then "Connection refused" else message)
  }

  /** One TCP check: the socket's first event and the milliseconds it took. */
  datatype TcpProbe = TcpProbe(event: SocketEvent, elapsedMs: nat)

  /** `performCheck`: a target that does not parse is an error carrying the parse
      message; otherwise a successful connect is up with the port stored as the
      status code, and a failed one is down with the connection's error, or
      `Connection refused` when it gave none. */
  function PerformCheck(monitor: Monitor, probe: TcpProbe): (e: Executed)
    ensures e.row == ToCheckRow(e.result)
    ensures e.result.monitorId == monitor.id && e.result.responseTime == Some(probe.elapsedMs)
    ensures ParseHostPort(monitor.url).Failure? ==>
      e.result.status == Error && e.result.errorMessage == Some(ParseHostPort(monitor.url).error)
    ensures e.result.status == Up <==> ParseHostPort(monitor.url).Success? && probe.event.Connected?
    ensures e.result.status == Up ==>
      e.result.statusCode == Some(ParseHostPort(monitor.url).value.port) && e.result.errorMessage == None
    ensures ParseHostPort(monitor.url).Success? && !probe.event.Connected? ==>
      var error := CheckTcpConnection(probe.event).error;
      && e.result.status == Down && e.result.statusCode == None
      && e.result.errorMessage == Some(if error == "" then "Connection refused" else error)
    ensures e.result.status == Down <==> ParseHostPort(monitor.url).Success? && !probe.event.Connected?
    ensures e.result.status != Unknown
  {
    var t := Some(probe.elapsedMs);
    var result :=
      match ParseHostPort(monitor.url)
      case Failure(message) =>
        CheckResult(monitor.id, Error, t, None, Some(if message == "" then "TCP check failed" else message))
      case Success(target) =>
        var connection := CheckTcpConnection(probe.event);
        if connection.success then CheckResult(monitor.id, Up, t, Some(target.port), None)
        else CheckResult(monitor.id, Down, t, None,
          Some(if connection.error == "" then "Connection refused" else connection.error));
    Finish(result)
  }

  /** Parsing happens before any connection attempt: when the target does not parse,
      the socket's behaviour has no influence on the result. */
  lemma ParseBeforeConnect(monitor: Monitor, e1: SocketEvent, e2: SocketEvent, t: nat)
    requires ParseHostPort(monitor.url).Failure?
    ensures PerformCheck(monitor, TcpProbe(e1, t)) == PerformCheck(monitor, TcpProbe(e2, t))
  {
  }

  /** A refused connection to a well-formed target is down with `Connection refused`. */
  lemma RefusedIsDown(monitor: Monitor, message: string, t: nat)
    requires ParseHostPort(monitor.url).Success?
    ensures var r := PerformCheck(monitor, TcpProbe(SocketError(Some("ECONNREFUSED"), message), t)).result;
      r.status == Down && r.errorMessage == Some("Connection refused")
  {
  }

  // ---------------------------------------------------------------------------
  // validateHostPort

  /** `validateHostPort`: rejects a blank target before parsing, propagates the
      parse error, and accepts a parsed host that is a dot-separated sequence of
      labels or IPv4-shaped. */
  function ValidateHostPort(hostPort: string): (r: Result<bool>)
    ensures Trim(hostPort) == "" ==> r == Failure("Host:port is required for TCP monitoring")
    ensures r.Success? <==>
      Trim(hostPort) != "" && ParseHostPort(hostPort).Success?
      && (IsLabelSequence(ParseHostPort(hostPort).value.host) || IsIpv4Shape(ParseHostPort(hostPort).value.host))
    ensures r.Success? ==> r.value
  {
    if hostPort == "" || Trim(hostPort) == "" then Failure("Host:port is required for TCP monitoring")
    else
      match ParseHostPort(hostPort)
      case Failure(message) => Failure(message)
      case Success(target) =>
        if IsLabelSequence(target.host) || IsIpv4Shape(target.host) then Success(true)
        else Failure("Host must be a valid hostname or IP address")
  }
}
