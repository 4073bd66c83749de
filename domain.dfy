/**
 * Records shared by the monitoring services: the monitor definition read from the
 * registry, the `checkResult` record every executor returns, and the row each
 * executor hands to the result sink.
 */
module Domain {
  import opened Wrappers

  /** A dynamically typed JavaScript value, as far as the services inspect one. */
  datatype JsValue = Undefined | Null | Num(n: int) | Str(s: string) | Bool(b: bool)

  /** JavaScript truthiness (`NaN` is not modelled). */
  predicate Truthy(v: JsValue) {
    match v
    case Undefined => false
    case Null => false
    case Num(n) => n != 0
    case Str(s) => s != ""
    case Bool(b) => b
  }

  /** A monitor definition as the registry returns it. `intervalSeconds` is the
      `interval_seconds` column read by the scheduler; `interval` is the separate
      `interval` property that the schedule summary groups by. `None` stands for
      `null`/`undefined`. */
  datatype Monitor = Monitor(
    id: int,
    name: string,
    url: string,
    kind: string,
    intervalSeconds: Option<int>,
    interval: Option<int>,
    isActive: bool)

  /** Check outcome. `Unknown` is the value a result starts with. */
  datatype Status = Up | Down | Error | Unknown

  /** The `checkResult` record: `None` stands for `null`. */
  datatype CheckResult = CheckResult(
    monitorId: int,
    status: Status,
    responseTime: Option<int>,
    statusCode: Option<int>,
    errorMessage: Option<string>)

  /** The row an executor passes to the result sink (`dbCheckData`). */
  datatype CheckRow = CheckRow(
    monitorId: int,
    statusCode: Option<int>,
    responseTimeMs: Option<int>,
    isUp: int,
    errorMessage: Option<string>)

  /** What an executor produces: the result it returns and the row it tries to save.
      A failed save is logged and swallowed, so it never changes `result`. */
  datatype Executed = Executed(result: CheckResult, row: CheckRow)

  /** The row persisted for a result: `is_up` is a 0/1 flag that is 1 exactly for
      `up`, and the other columns carry the result's fields unchanged. */
  function ToCheckRow(r: CheckResult): (row: CheckRow)
    ensures row.isUp == 0 || row.isUp == 1
    ensures row.isUp == 1 <==> r.status == Up
    ensures row.monitorId == r.monitorId && row.statusCode == r.statusCode
    ensures row.responseTimeMs == r.responseTime && row.errorMessage == r.errorMessage
  {
    CheckRow(r.monitorId, r.statusCode, r.responseTime, if r.status == Up then 1 else 0, r.errorMessage)
  }

  /** Packs an executor's result with the row it saves. */
  function Finish(r: CheckResult): (e: Executed)
    ensures e.result == r && e.row == ToCheckRow(r)
  {
    Executed(r, ToCheckRow(r))
  }
}
