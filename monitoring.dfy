/**
 * The unified monitoring service: dispatch a check to the executor for the
 * monitor's type, turn every failure into an `error` result, check a list of
 * monitors one by one, and dispatch validation the same way.
 */
module Monitoring {
  import opened Wrappers
  import opened Domain
  import HttpMonitor
  import PingMonitor
  import TcpMonitor
  import MonitorCheck

  /** Everything one check receives from the outside world: the HTTP request's
      outcome, the URL parser's reading of the monitor's URL, the ping utility,
      the ping attempt's elapsed time, and the current timestamp. */
  datatype Environment = Environment(
    http: HttpMonitor.HttpProbe,
    parsed: HttpMonitor.UrlParse,
    ping: string -> PingMonitor.PingReply,
    pingElapsedMs: nat,
    now: string)

  /** Where a dispatched check was recorded: the row an executor handed to the
      result sink, or the attempt to build a check record for an error result
      (a failed attempt is logged and swallowed). */
  datatype Recorded = ExecutorRow(row: CheckRow) | ErrorRecord(attempt: Result<MonitorCheck.CheckRecord>)

  datatype Dispatched = Dispatched(result: CheckResult, recorded: Recorded)

  /** The error result built in the catch block of `performCheck`. */
  function ErrorResult(monitor: Monitor, message: string): (r: CheckResult)
    ensures r.monitorId == monitor.id && r.status == Error
    ensures r.responseTime == None && r.statusCode == None && r.errorMessage == Some(message)
  {
    CheckResult(monitor.id, Error, None, None, Some(message))
  }

  /** `performCheck`: `http`/`https` go to the HTTP executor and `ping` to the ping
      executor; `tcp` and any other type become an error result naming the reason,
      and an attempt is made to store it as a check record. It never fails. */
  function PerformCheck(monitor: Monitor, env: Environment): (d: Dispatched)
    ensures monitor.kind == "http" || monitor.kind == "https" ==>
      d.result == HttpMonitor.PerformCheck(monitor, env.http).result
    ensures monitor.kind == "ping" ==>
      d.result == PingMonitor.PerformCheck(monitor, env.parsed, env.ping, env.pingElapsedMs).result
    ensures monitor.kind == "tcp" ==>
      d.result == ErrorResult(monitor, "TCP monitoring not yet implemented for monitor: " + monitor.name)
    ensures monitor.kind !in {"http", "https", "ping", "tcp"} ==>
      d.result == ErrorResult(monitor, "Unknown monitor type: " + monitor.kind)
    ensures d.recorded.ExecutorRow? <==> monitor.kind in {"http", "https", "ping"}
    ensures d.recorded.ExecutorRow? ==> d.recorded.row == ToCheckRow(d.result)
    ensures d.recorded.ErrorRecord? ==>
      d.recorded.attempt == MonitorCheck.Constructed(MonitorCheck.FromCheckResult(d.result, env.now), env.now)
    ensures d.result.monitorId == monitor.id && d.result.status != Unknown
  {
    if monitor.kind == "http" || monitor.kind == "https" then
      var e := HttpMonitor.PerformCheck(monitor, env.http);
      Dispatched(e.result, ExecutorRow(e.row))
    else if monitor.kind == "ping" then
      var e := PingMonitor.PerformCheck(monitor, env.parsed, env.ping, env.pingElapsedMs);
      Dispatched(e.result, ExecutorRow(e.row))
    else
      var message :=
        if monitor.kind == "tcp" then "TCP monitoring not yet implemented for monitor: " + monitor.name
        else "Unknown monitor type: " + monitor.kind;
      var result := ErrorResult(monitor, message);
      var attempt := MonitorCheck.Constructed(MonitorCheck.FromCheckResult(result, env.now), env.now);
      Dispatched(result, ErrorRecord(attempt))
  }

  /** Only the three supported types reach an executor; every other type gives an
      error result without a response time or status code, and a failure to store
      it does not change the result. */
  lemma {:induction false} NoExecutorForOtherTypes(monitor: Monitor, env: Environment)
    requires monitor.kind !in {"http", "https", "ping"}
    ensures var d := PerformCheck(monitor, env);
      && d.result.status == Error && d.result.responseTime == None && d.result.statusCode == None
      && d.recorded.ErrorRecord?
      && (d.recorded.attempt.Success? <==> monitor.id != 0)
  {
    var d := PerformCheck(monitor, env);
    var data := MonitorCheck.FromCheckResult(d.result, env.now);
    var c := MonitorCheck.ApplyDefaults(data, env.now);
    assert Truthy(Num(monitor.id)) <==> monitor.id != 0;
    assert c.status == Str("error");
  }

  /** Each result so far is the check of the monitor at its position. */
  ghost predicate CheckedInOrder(results: seq<CheckResult>, monitors: seq<Monitor>, envs: nat -> Environment)
    requires |results| <= |monitors|
  {
    forall j :: 0 <= j < |results| ==> results[j] == PerformCheck(monitors[j], envs(j)).result
  }

  lemma AppendResult(results: seq<CheckResult>, monitors: seq<Monitor>, envs: nat -> Environment)
    requires |results| < |monitors| && CheckedInOrder(results, monitors, envs)
    ensures CheckedInOrder(results + [PerformCheck(monitors[|results|], envs(|results|)).result], monitors, envs)
  {
  }

  /** `checkAllMonitors`: uses the given list when there is one, otherwise the
      registry's list (`registry` is what `Monitor.findAll` returned), and checks
      the monitors one after another, one result per monitor in order (`envs(k)`
      is what the outside world does during the `k`-th check). A registry failure
      is rethrown with a prefix; nothing else fails. */
  method CheckAllMonitors(given: Option<seq<Monitor>>, registry: Result<seq<Monitor>>, envs: nat -> Environment)
    returns (r: Result<seq<CheckResult>>)
    ensures r.Success? <==> given.Some? || registry.Success?
    ensures given.None? && registry.Failure? ==> r == Failure("Failed to check all monitors: " + registry.error)
    ensures r.Success? ==>
      var monitors := if given.Some? then given.value else registry.value;
      && |r.value| == |monitors|
      && forall k :: 0 <= k < |monitors| ==> r.value[k] == PerformCheck(monitors[k], envs(k)).result
  {
    var monitors: seq<Monitor>;
    if given.None? {
      if registry.Failure? {
        return Failure("Failed to check all monitors: " + registry.error);
      }
      monitors := registry.value;
    } else {
      monitors := given.value;
    }
    var results: seq<CheckResult> := [];
    for k := 0 to |monitors|
      invariant |results| == k
      invariant CheckedInOrder(results, monitors, envs)
    {
      var d := PerformCheck(monitors[k], envs(k));
      AppendResult(results, monitors, envs);
      results := results + [d.result];
    }
    r := Success(results);
  }

  /** `validateMonitor`: the URL check for `http`/`https` (`parsed` is the URL
      parser's reading of the monitor's URL), the host check for `ping`, and a
      refusal for `tcp` and every other type. */
  function ValidateMonitor(monitor: Monitor, parsed: HttpMonitor.UrlParse): (r: Result<bool>)
    ensures monitor.kind == "tcp" ==> r == Failure("TCP validation not yet implemented")
    ensures monitor.kind !in {"http", "https", "ping", "tcp"} ==> r == Failure("Unknown monitor type: " + monitor.kind)
    ensures r.Success? ==> r.value && monitor.kind in {"http", "https", "ping"}
    ensures monitor.kind == "ping" ==> r == PingMonitor.ValidateHost(monitor.url)
    ensures monitor.kind in {"http", "https"} ==> r == HttpMonitor.ValidateUrl(parsed)
  {
    if monitor.kind == "http" || monitor.kind == "https" then HttpMonitor.ValidateUrl(parsed)
    else if monitor.kind == "ping" then PingMonitor.ValidateHost(monitor.url)
    else if monitor.kind == "tcp" then Failure("TCP validation not yet implemented")
    else Failure("Unknown monitor type: " + monitor.kind)
  }

  /** A TCP check that connects to a port below 100 (such as 22) puts the port in
      the status code, and a check record built from that result does not
      validate. */
  lemma TcpPortIsNotAStatusCode(monitor: Monitor, t: nat, now: string)
    requires TcpMonitor.ParseHostPort(monitor.url).Success? && TcpMonitor.ParseHostPort(monitor.url).value.port < 100
    ensures var r := TcpMonitor.PerformCheck(monitor, TcpMonitor.TcpProbe(TcpMonitor.Connected, t)).result;
      MonitorCheck.Constructed(MonitorCheck.FromCheckResult(r, now), now).Failure?
  {
    var r := TcpMonitor.PerformCheck(monitor, TcpMonitor.TcpProbe(TcpMonitor.Connected, t)).result;
    var port := TcpMonitor.ParseHostPort(monitor.url).value.port;
    assert r.statusCode == Some(port);
    var data := MonitorCheck.FromCheckResult(r, now);
    assert data.statusCode == Num(port) && Truthy(Num(port));
    var c := MonitorCheck.ApplyDefaults(data, now);
    MonitorCheck.SmallStatusCodeRejected(c, port);
  }
}
