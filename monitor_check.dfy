/**
 * The stored check record: the constructor's falsy-coalescing defaults, the four
 * validation rules whose violations are collected into one error, and `fromRow`.
 * Every field holds a dynamically typed value, because the rules test the types.
 */
module MonitorCheck {
  import opened Wrappers
  import opened Text
  import opened Domain

  /** The fields of a check record (also the shape of the constructor's argument
      and of a database row). `checkedAt` is an ISO timestamp string when set. */
  datatype CheckRecord = CheckRecord(
    id: JsValue,
    monitorId: JsValue,
    status: JsValue,
    responseTime: JsValue,
    statusCode: JsValue,
    errorMessage: JsValue,
    checkedAt: JsValue)

  /** `x || fallback`. */
  function Or(x: JsValue, fallback: JsValue): JsValue {
    if Truthy(x) then x else fallback
  }

  /** The field assignments of the constructor: a falsy `id`, `monitor_id`,
      `response_time`, `status_code` or `error_message` becomes `null`, a falsy
      status becomes `unknown`, and a falsy timestamp becomes `now`. */
  function ApplyDefaults(data: CheckRecord, now: string): (c: CheckRecord)
    ensures Truthy(data.monitorId) ==> c.monitorId == data.monitorId
    ensures !Truthy(data.monitorId) ==> c.monitorId == Null
    ensures Truthy(data.responseTime) ==> c.responseTime == data.responseTime
    ensures !Truthy(data.responseTime) ==> c.responseTime == Null
    ensures Truthy(data.statusCode) ==> c.statusCode == data.statusCode
    ensures !Truthy(data.statusCode) ==> c.statusCode == Null
    ensures c.status == if Truthy(data.status) then data.status else Str("unknown")
    ensures c.checkedAt == if Truthy(data.checkedAt) then data.checkedAt else Str(now)
    ensures c.id == (if Truthy(data.id) then data.id else Null)
    ensures c.errorMessage == (if Truthy(data.errorMessage) then data.errorMessage else Null)
  {
    CheckRecord(
      Or(data.id, Null),
      Or(data.monitorId, Null),
      Or(data.status, Str("unknown")),
      Or(data.responseTime, Null),
      Or(data.statusCode, Null),
      Or(data.errorMessage, Null),
      Or(data.checkedAt, Str(now)))
  }

  /** Falsy coalescing loses zeros: a response time or status code of 0 is stored
      as `null`, and a record always has a truthy status and timestamp. */
  lemma {:induction false} ZeroBecomesNull(data: CheckRecord, now: string)
    requires data.responseTime == Num(0) && data.statusCode == Num(0) && now != ""
    ensures var c := ApplyDefaults(data, now);
      c.responseTime == Null && c.statusCode == Null && Truthy(c.status) && Truthy(c.checkedAt)
  {
    var c := ApplyDefaults(data, now);
    assert !Truthy(Num(0));
    assert Truthy(Str(now));
  }

  // ---------------------------------------------------------------------------
  // validate

  const ValidStatuses: seq<string> := ["up", "down", "error", "unknown"]

  const MonitorIdMessage := "Monitor ID is required and must be a number"
  const StatusMessage := "Status must be one of: up, down, error, unknown"
  const ResponseTimeMessage := "Response time must be a positive number or null"
  const StatusCodeMessage := "Status code must be a valid HTTP status code (100-599) or null"
  const FailurePrefix := "Monitor check validation failed: "

  /** The four rules, in the order `validate` checks them. */
  datatype Rule = MonitorIdRule | StatusRule | ResponseTimeRule | StatusCodeRule

  const Rules: seq<Rule> := [MonitorIdRule, StatusRule, ResponseTimeRule, StatusCodeRule]

  /** Whether record `c` passes `rule`, as the rule's guard in `validate` reads. */
  predicate Holds(rule: Rule, c: CheckRecord) {
    match rule
    case MonitorIdRule => Truthy(c.monitorId) && c.monitorId.Num?
    case StatusRule => c.status.Str? && c.status.s in ValidStatuses
    case ResponseTimeRule => c.responseTime == Null || (c.responseTime.Num? && c.responseTime.n >= 0)
    case StatusCodeRule => c.statusCode == Null || (c.statusCode.Num? && 100 <= c.statusCode.n <= 599)
  }

  function Message(rule: Rule): string {
    match rule
    case MonitorIdRule => MonitorIdMessage
    case StatusRule => StatusMessage
    case ResponseTimeRule => ResponseTimeMessage
    case StatusCodeRule => StatusCodeMessage
  }

  /** The messages of the rules in `rules` that `c` fails, in rule order. */
  function Failing(rules: seq<Rule>, c: CheckRecord): seq<string>
    decreases |rules|
  {
    if |rules| == 0 then []
    else (if Holds(rules[0], c) then [] else [Message(rules[0])]) + Failing(rules[1..], c)
  }

  /** The errors `validate` collects for `c`. */
  function Violations(c: CheckRecord): seq<string> {
    Failing(Rules, c)
  }

  /** What a valid record is: a non-zero numeric monitor id, one of the four status
      names, a null or non-negative response time, and a null status code or one in
      100..599. */
  predicate WellFormed(c: CheckRecord) {
    && c.monitorId.Num? && c.monitorId.n != 0
    && c.status in {Str("up"), Str("down"), Str("error"), Str("unknown")}
    && (c.responseTime.Null? || (c.responseTime.Num? && c.responseTime.n >= 0))
    && (c.statusCode.Null? || (c.statusCode.Num? && 100 <= c.statusCode.n <= 599))
  }

  lemma MessagesDistinct(r1: Rule, r2: Rule)
    requires Message(r1) == Message(r2)
    ensures r1 == r2
  {
    var m1, m2 := Message(r1), Message(r2);
    assert m1[0] == m2[0] && m1[7] == m2[7];
  }

  /** A message is listed exactly when its rule is among `rules` and fails. */
  lemma {:induction false} FailingLists(rules: seq<Rule>, c: CheckRecord, rule: Rule)
    ensures Message(rule) in Failing(rules, c) <==> rule in rules && !Holds(rule, c)
    decreases |rules|
  {
    if |rules| > 0 {
      FailingLists(rules[1..], c, rule);
      if Message(rule) == Message(rules[0]) {
        MessagesDistinct(rule, rules[0]);
      }
      assert rules == [rules[0]] + rules[1..];
    }
  }

  /** The collected errors are empty exactly for a well-formed record, and each
      rule the record breaks is named in them. */
  lemma ViolationsIffMalformed(c: CheckRecord)
    ensures Violations(c) == [] <==> WellFormed(c)
    ensures forall rule :: !Holds(rule, c) ==> Message(rule) in Violations(c)
    ensures |Violations(c)| <= 4
  {
    forall rule | !Holds(rule, c) ensures Message(rule) in Violations(c) {
      FailingLists(Rules, c, rule);
    }
    if WellFormed(c) {
      forall rule | true ensures Holds(rule, c) {
        if !Holds(rule, c) {
          FailingLists(Rules, c, rule);
        }
      }
      UnfoldViolations(c);
    } else {
      var rule :=
        if !Holds(MonitorIdRule, c) then MonitorIdRule
        else if !Holds(StatusRule, c) then StatusRule
        else if !Holds(ResponseTimeRule, c) then ResponseTimeRule
        else StatusCodeRule;
      FailingLists(Rules, c, rule);
    }
    UnfoldViolations(c);
  }

  lemma UnfoldViolations(c: CheckRecord)
    ensures Violations(c) ==
      (if Holds(MonitorIdRule, c) then [] else [MonitorIdMessage])
      + (if Holds(StatusRule, c) then [] else [StatusMessage])
      + (if Holds(ResponseTimeRule, c) then [] else [ResponseTimeMessage])
      + (if Holds(StatusCodeRule, c) then [] else [StatusCodeMessage])
  {
    assert Rules[1..] == [StatusRule, ResponseTimeRule, StatusCodeRule];
    assert Rules[1..][1..] == [ResponseTimeRule, StatusCodeRule];
    assert Rules[1..][1..][1..] == [StatusCodeRule];
  }

  /** `validate`: checks the four rules in order, pushing each failing rule's
      message, and fails with all of them joined by `, ` when any was pushed. */
  method Validate(c: CheckRecord) returns (failure: Option<string>)
    ensures failure.None? <==> WellFormed(c)
    ensures failure.Some? ==> failure.value == FailurePrefix + Join(Violations(c), ", ")
  {
    var errors: seq<string> := [];
    if !Truthy(c.monitorId) || !c.monitorId.Num? {
      errors := errors + [MonitorIdMessage];
    }
    assert errors == if Holds(MonitorIdRule, c) then [] else [MonitorIdMessage];
    if !(c.status.Str? && c.status.s in ValidStatuses) {
      errors := errors + [StatusMessage];
    }
    ghost var upToStatus := errors;
    assert upToStatus == (if Holds(MonitorIdRule, c) then [] else [MonitorIdMessage])
      + (if Holds(StatusRule, c) then [] else [StatusMessage]);
    if c.responseTime != Null && (!c.responseTime.Num? || c.responseTime.n < 0) {
      errors := errors + [ResponseTimeMessage];
    }
    assert errors == upToStatus + if Holds(ResponseTimeRule, c) then [] else [ResponseTimeMessage];
    ghost var upToResponseTime := errors;
    if c.statusCode != Null && (!c.statusCode.Num? || c.statusCode.n < 100 || c.statusCode.n > 599) {
      errors := errors + [StatusCodeMessage];
    }
    assert errors == upToResponseTime + if Holds(StatusCodeRule, c) then [] else [StatusCodeMessage];
    UnfoldViolations(c);
    ViolationsIffMalformed(c);
    assert errors == Violations(c);
    if |errors| > 0 {
      failure := Some(FailurePrefix + Join(errors, ", "));
    } else {
      failure := None;
    }
  }

  /** What `new MonitorCheck(data)` produces: the defaulted record when it is well
      formed, otherwise the validation error listing every broken rule. */
  function Constructed(data: CheckRecord, now: string): Result<CheckRecord> {
    var c := ApplyDefaults(data, now);
    if WellFormed(c) then Success(c) else Failure(FailurePrefix + Join(Violations(c), ", "))
  }

  /** `new MonitorCheck(data)`: assigns the defaulted fields, then runs `validate`. */
  method Create(data: CheckRecord, now: string) returns (r: Result<CheckRecord>)
    ensures r == Constructed(data, now)
  {
    var c := ApplyDefaults(data, now);
    var failure := Validate(c);
    if failure.Some? {
      r := Failure(failure.value);
    } else {
      r := Success(c);
    }
  }

  /** Whether every field of a row is truthy (so no default replaces it). */
  predicate AllTruthy(row: CheckRecord) {
    && Truthy(row.id) && Truthy(row.monitorId) && Truthy(row.status) && Truthy(row.responseTime)
    && Truthy(row.statusCode) && Truthy(row.errorMessage) && Truthy(row.checkedAt)
  }

  /** `fromRow`: builds a record from a row's columns. A well-formed row without
      falsy values comes back unchanged; any row that builds at all is well formed. */
  method FromRow(row: CheckRecord, now: string) returns (r: Result<CheckRecord>)
    ensures r == Constructed(row, now)
    ensures AllTruthy(row) && WellFormed(row) ==> r == Success(row)
    ensures r.Success? ==> WellFormed(r.value) && r.value.monitorId == row.monitorId
  {
    var data := CheckRecord(row.id, row.monitorId, row.status, row.responseTime, row.statusCode,
      row.errorMessage, row.checkedAt);
    r := Create(data, now);
  }

  /** The name a status is stored under. */
  function StatusName(s: Status): string {
    match s
    case Up => "up"
    case Down => "down"
    case Error => "error"
    case Unknown => "unknown"
  }

  function OptionNum(v: Option<int>): JsValue {
    if v.Some? then Num(v.value) else Null
  }

  /** The constructor argument built from an executor's result record (`null`
      fields stay `null`, present ones carry their value, the record has no `id`),
      stamped with `now`. */
  function FromCheckResult(r: CheckResult, now: string): (data: CheckRecord)
    ensures data.monitorId == Num(r.monitorId) && data.id == Undefined && data.checkedAt == Str(now)
    ensures data.status.Str? && data.status.s in ValidStatuses
    ensures data.status == Str("up") <==> r.status == Up
    ensures data.responseTime.Null? <==> r.responseTime.None?
    ensures r.responseTime.Some? ==> data.responseTime == Num(r.responseTime.value)
    ensures data.statusCode.Null? <==> r.statusCode.None?
    ensures r.statusCode.Some? ==> data.statusCode == Num(r.statusCode.value)
    ensures data.errorMessage.Null? <==> r.errorMessage.None?
    ensures r.errorMessage.Some? ==> data.errorMessage == Str(r.errorMessage.value)
  {
    CheckRecord(Undefined, Num(r.monitorId), Str(StatusName(r.status)), OptionNum(r.responseTime),
      OptionNum(r.statusCode), if r.errorMessage.Some? then Str(r.errorMessage.value) else Null, Str(now))
  }

  /** A status code below 100, such as a TCP port like 22, fails validation. */
  lemma SmallStatusCodeRejected(c: CheckRecord, code: int)
    requires c.statusCode == Num(code) && code < 100
    ensures !WellFormed(c) && StatusCodeMessage in Violations(c)
  {
    FailingLists(Rules, c, StatusCodeRule);
  }
}
