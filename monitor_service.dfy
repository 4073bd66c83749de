/**
 * The monitor registry service: input validation, duplicate-name rejection on
 * create, the update guard, lookup by name, the prefix of monitors due for a
 * check, and batch creation. The registry is the list `Monitor.findAll` returns
 * (active monitors, newest first); `Monitor.create` and `Monitor.update` are
 * oracles whose outcome the operations receive.
 */
module MonitorRegistry {
  import opened Wrappers
  import opened Text
  import opened Domain

  /** The fields of a monitor definition that the service inspects. */
  datatype MonitorData = MonitorData(name: JsValue, url: JsValue, kind: JsValue)

  const NameMessage := "Monitor name is required and must be a string"
  const UrlMessage := "Monitor URL is required and must be a string"
  const TypeMessage := "Monitor type must be http, https, ping, or tcp"
  const CreatePrefix := "Failed to create monitor: "

  /** A non-empty string. */
  predicate IsFilledString(v: JsValue) {
    v.Str? && v.s != ""
  }

  const MonitorTypes: set<JsValue> := {Str("http"), Str("https"), Str("ping"), Str("tcp")}

  /** `validateMonitorData`: the name, then the URL, then the type; the first rule
      that fails decides the error, `None` means the data passed. */
  function ValidateMonitorData(data: MonitorData): (failure: Option<string>)
    ensures failure.None? <==> IsFilledString(data.name) && IsFilledString(data.url) && data.kind in MonitorTypes
    ensures !IsFilledString(data.name) ==> failure == Some(NameMessage)
    ensures IsFilledString(data.name) && !IsFilledString(data.url) ==> failure == Some(UrlMessage)
    ensures IsFilledString(data.name) && IsFilledString(data.url) && data.kind !in MonitorTypes ==>
      failure == Some(TypeMessage)
  {
    if !Truthy(data.name) || !data.name.Str? then Some(NameMessage)
    else if !Truthy(data.url) || !data.url.Str? then Some(UrlMessage)
    else if !Truthy(data.kind) || !(data.kind.Str? && data.kind.s in ["http", "https", "ping", "tcp"]) then
      Some(TypeMessage)
    else None
  }

  /** The position of the first monitor called `name`, or `|monitors|` when none is. */
  function FirstNamed(monitors: seq<Monitor>, name: string): (i: nat)
    ensures i <= |monitors|
    ensures i < |monitors| ==> monitors[i].name == name
    ensures forall j :: 0 <= j < i ==> monitors[j].name != name
    decreases |monitors|
  {
    if |monitors| == 0 then 0
    else if monitors[0].name == name then 0
    else 1 + FirstNamed(monitors[1..], name)
  }

  /** `findMonitorByName`: the first monitor with exactly that name, or `null`. */
  function FindMonitorByName(monitors: seq<Monitor>, name: string): (r: Option<Monitor>)
    ensures r.None? <==> forall j :: 0 <= j < |monitors| ==> monitors[j].name != name
    ensures r.Some? ==> r.value.name == name && r.value in monitors
    ensures r.Some? ==> exists i :: 0 <= i < |monitors| && monitors[i] == r.value && FirstNamed(monitors, name) == i
  {
    var i := FirstNamed(monitors, name);
    if i < |monitors| then Some(monitors[i]) else None
  }

  /** JavaScript's `slice(0, k)`: a negative `k` counts from the end. */
  function SliceEnd(n: nat, k: int): (e: nat)
    ensures e <= n
  {
    if k < 0 then (if n + k < 0 then 0 else n + k) else if k > n then n else k
  }

  /** `getMonitorsNeedingChecks`: the first `maxChecks` monitors (100 when it is
      not given), in registry order; a negative limit drops that many from the
      end. `registry` is what `Monitor.findAll` returned; its failure is rethrown
      with a prefix. */
  function MonitorsNeedingChecks(registry: Result<seq<Monitor>>, maxChecks: Option<int>): (r: Result<seq<Monitor>>)
    ensures r.Success? <==> registry.Success?
    ensures registry.Failure? ==> r == Failure("Failed to get monitors needing checks: " + registry.error)
    ensures r.Success? ==>
      var monitors := registry.value;
      var k := if maxChecks.Some? then maxChecks.value else 100;
      && |r.value| <= |monitors| && r.value == monitors[..|r.value|]
      && (k >= 0 ==> |r.value| == if k < |monitors| then k else |monitors|)
      && (k < 0 ==> |r.value| == if |monitors| + k < 0 then 0 else |monitors| + k)
  {
    match registry
    case Failure(message) => Failure("Failed to get monitors needing checks: " + message)
    case Success(monitors) =>
      var k := if maxChecks.Some? then maxChecks.value else 100;
      Success(monitors[..SliceEnd(|monitors|, k)])
  }

  /** `updateMonitor`: the full validation runs only when a name, URL or type is
      supplied; then the registry's update outcome is passed on. Every failure is
      rethrown naming the monitor. */
  function UpdateMonitor(id: int, data: MonitorData, updated: Result<Monitor>): (r: Result<Monitor>)
    ensures !Truthy(data.name) && !Truthy(data.url) && !Truthy(data.kind) ==>
      r == (if updated.Success? then updated else Failure("Failed to update monitor " + IntToString(id) + ": " + updated.error))
    ensures r.Success? ==> r == updated
    ensures (Truthy(data.name) || Truthy(data.url) || Truthy(data.kind)) && ValidateMonitorData(data).Some? ==>
      r == Failure("Failed to update monitor " + IntToString(id) + ": " + ValidateMonitorData(data).value)
    ensures ValidateMonitorData(data).None? ==>
      r == (if updated.Success? then updated else Failure("Failed to update monitor " + IntToString(id) + ": " + updated.error))
  {
    var prefix := "Failed to update monitor " + IntToString(id) + ": ";
    var guard := Truthy(data.name) || Truthy(data.url) || Truthy(data.kind);
    if guard && ValidateMonitorData(data).Some? then Failure(prefix + ValidateMonitorData(data).value)
    else if updated.Failure? then Failure(prefix + updated.error)
    else updated
  }

  /** Renaming alone is refused: a supplied name triggers the full validation, which
      then demands a URL. */
  lemma RenameAloneRefused(id: int, name: string, updated: Result<Monitor>)
    requires name != ""
    ensures UpdateMonitor(id, MonitorData(Str(name), Undefined, Undefined), updated)
      == Failure("Failed to update monitor " + IntToString(id) + ": " + UrlMessage)
  {
  }

  /** No two monitors share a name. */
  predicate UniqueNames(monitors: seq<Monitor>) {
    forall i, j :: 0 <= i < j < |monitors| ==> monitors[i].name != monitors[j].name
  }

  /** The active monitors among `created`, newest first: the order in which they
      appear at the head of the registry after being created one by one. */
  function NewestActive(created: seq<Monitor>): seq<Monitor>
    decreases |created|
  {
    if |created| == 0 then []
    else
      var last := created[|created| - 1];
      (if last.isActive then [last] else []) + NewestActive(created[..|created| - 1])
  }

  /** Whether each insertion that succeeds returns a monitor under the requested name. */
  predicate KeepsNames(inputs: seq<MonitorData>, inserts: nat -> Result<Monitor>) {
    forall k :: 0 <= k < |inputs| && inserts(k).Success? && inputs[k].name.Str? ==>
      inserts(k).value.name == inputs[k].name.s
  }

  function DuplicateMessage(name: string): string {
    "Monitor with name \"" + name + "\" already exists"
  }

  /** What one `createMonitor` call produces: its outcome and the registry after it. */
  datatype CreateOutcome = CreateOutcome(result: Result<Monitor>, registry: seq<Monitor>)

  lemma CreatePrefixed(message: string)
    ensures StartsWith(CreatePrefix + message, CreatePrefix)
  {
    assert (CreatePrefix + message)[..|CreatePrefix|] == CreatePrefix;
  }

  /** `createMonitor` on the registry `monitors`, with `inserted` what
      `Monitor.create` produced: invalid data and a name the registry already has
      are refused, otherwise the insertion's outcome is passed on. Every failure
      carries the create prefix and leaves the registry as it was; a created active
      monitor becomes the registry's newest entry; unique names stay unique. */
  function Create(data: MonitorData, inserted: Result<Monitor>, monitors: seq<Monitor>): (o: CreateOutcome)
    ensures ValidateMonitorData(data).Some? ==> o.result == Failure(CreatePrefix + ValidateMonitorData(data).value)
    ensures ValidateMonitorData(data).None? && FindMonitorByName(monitors, data.name.s).Some? ==>
      o.result == Failure(CreatePrefix + DuplicateMessage(data.name.s))
    ensures ValidateMonitorData(data).None? && FindMonitorByName(monitors, data.name.s).None? ==>
      o.result == (if inserted.Success? then inserted else Failure(CreatePrefix + inserted.error))
    ensures o.result.Success? ==> o.result == inserted && ValidateMonitorData(data).None?
    ensures o.result.Failure? ==> o.registry == monitors && StartsWith(o.result.error, CreatePrefix)
    ensures o.result.Success? ==> o.registry == (if o.result.value.isActive then [o.result.value] else []) + monitors
    ensures UniqueNames(monitors) && (o.result.Success? ==> o.result.value.name == data.name.s) ==>
      UniqueNames(o.registry)
  {
    var failure := ValidateMonitorData(data);
    if failure.Some? then
      CreatePrefixed(failure.value);
      CreateOutcome(Failure(CreatePrefix + failure.value), monitors)
    else if FindMonitorByName(monitors, data.name.s).Some? then
      CreatePrefixed(DuplicateMessage(data.name.s));
      CreateOutcome(Failure(CreatePrefix + DuplicateMessage(data.name.s)), monitors)
    else
      match inserted
      case Failure(message) =>
        CreatePrefixed(message);
        CreateOutcome(Failure(CreatePrefix + message), monitors)
      case Success(monitor) =>
        CreateOutcome(inserted, if monitor.isActive then [monitor] + monitors else monitors)
  }

  /** One entry of a batch's error list: the input and the error's message. */
  datatype BatchError = BatchError(data: MonitorData, error: string)

  /** What a batch has produced so far: the created monitors and the errors in
      input order, and the registry after them. */
  datatype BatchState = BatchState(created: seq<Monitor>, errors: seq<BatchError>, registry: seq<Monitor>)

  /** `createMonitorsBatch` on the registry `monitors`: the inputs are created one
      after another, each against the registry the earlier ones left (`inserts(k)`
      is what `Monitor.create` produces for input `k`). */
  function BatchOutcome(inputs: seq<MonitorData>, inserts: nat -> Result<Monitor>, monitors: seq<Monitor>): BatchState
    decreases |inputs|
  {
    if |inputs| == 0 then BatchState([], [], monitors)
    else
      var k := |inputs| - 1;
      BatchStep(BatchOutcome(inputs[..k], inserts, monitors), inputs[k], inserts(k))
  }

  /** One iteration of the batch loop: create `data` against the registry so far
      and file the outcome. */
  function BatchStep(s: BatchState, data: MonitorData, inserted: Result<Monitor>): BatchState {
    var o := Create(data, inserted, s.registry);
    match o.result
    case Success(m) => BatchState(s.created + [m], s.errors, o.registry)
    case Failure(e) => BatchState(s.created, s.errors + [BatchError(data, e)], o.registry)
  }

  /** Creating one more monitor puts it, when active, in front of the registry. */
  lemma NewestActiveSnoc(created: seq<Monitor>, m: Monitor, base: seq<Monitor>)
    ensures (if m.isActive then [m] else []) + (NewestActive(created) + base) == NewestActive(created + [m]) + base
  {
    assert (created + [m])[..|created|] == created;
    assert NewestActive(created + [m]) == (if m.isActive then [m] else []) + NewestActive(created);
  }

  /** Every entry of an error list names one of the inputs and carries the
      create prefix. */
  predicate ErrorsFromInputs(errors: seq<BatchError>, inputs: seq<MonitorData>) {
    forall j :: 0 <= j < |errors| ==> errors[j].data in inputs && StartsWith(errors[j].error, CreatePrefix)
  }

  lemma AppendError(errors: seq<BatchError>, e: BatchError, inputs: seq<MonitorData>)
    requires ErrorsFromInputs(errors, inputs)
    requires e.data in inputs && StartsWith(e.error, CreatePrefix)
    ensures ErrorsFromInputs(errors + [e], inputs)
  {
    forall j | 0 <= j < |errors| + 1
      ensures (errors + [e])[j].data in inputs && StartsWith((errors + [e])[j].error, CreatePrefix)
    {
      if j < |errors| {
        assert (errors + [e])[j] == errors[j];
      }
    }
  }

  /** The error list of a prefix of the inputs names inputs of the whole batch. */
  lemma ErrorsFromLongerInputs(errors: seq<BatchError>, inputs: seq<MonitorData>, k: nat)
    requires k <= |inputs| && ErrorsFromInputs(errors, inputs[..k])
    ensures ErrorsFromInputs(errors, inputs)
  {
    forall j | 0 <= j < |errors| ensures errors[j].data in inputs {
      var i :| 0 <= i < k && inputs[..k][i] == errors[j].data;
      assert inputs[i] == errors[j].data;
    }
  }

  /** What holds of a batch after the inputs `done`: every one of them is either
      created or in the error list; each error names one of them and carries the
      create prefix; the registry gained the created active monitors, newest
      first; and when insertions keep the requested names, names stayed unique. */
  predicate BatchInvariant(s: BatchState, done: seq<MonitorData>, inserts: nat -> Result<Monitor>, monitors: seq<Monitor>) {
    && |s.created| + |s.errors| == |done|
    && ErrorsFromInputs(s.errors, done)
    && s.registry == NewestActive(s.created) + monitors
    && (UniqueNames(monitors) && KeepsNames(done, inserts) ==> UniqueNames(s.registry))
  }

  /** One more input keeps the batch invariant. */
  lemma BatchStepKeeps(s: BatchState, inputs: seq<MonitorData>, k: nat, inserts: nat -> Result<Monitor>, monitors: seq<Monitor>)
    requires k < |inputs| && BatchInvariant(s, inputs[..k], inserts, monitors)
    ensures BatchInvariant(BatchStep(s, inputs[k], inserts(k)), inputs[..k + 1], inserts, monitors)
  {
    var done := inputs[..k + 1];
    assert done[..k] == inputs[..k] && done[k] == inputs[k];
    ErrorsFromLongerInputs(s.errors, done, k);
    if UniqueNames(monitors) && KeepsNames(done, inserts) {
      assert KeepsNames(inputs[..k], inserts) by {
        forall j | 0 <= j < k ensures inputs[..k][j] == done[j] { }
      }
    }
    var o := Create(inputs[k], inserts(k), s.registry);
    match o.result
    case Success(m) =>
      NewestActiveSnoc(s.created, m, monitors);
    case Failure(e) =>
      AppendError(s.errors, BatchError(inputs[k], e), done);
  }

  /** The batch invariant holds of the whole batch. */
  lemma {:induction false} BatchOutcomeProperties(inputs: seq<MonitorData>, inserts: nat -> Result<Monitor>, monitors: seq<Monitor>)
    ensures BatchInvariant(BatchOutcome(inputs, inserts, monitors), inputs, inserts, monitors)
    decreases |inputs|
  {
    if |inputs| > 0 {
      var k := |inputs| - 1;
      BatchOutcomeProperties(inputs[..k], inserts, monitors);
      BatchStepKeeps(BatchOutcome(inputs[..k], inserts, monitors), inputs, k, inserts, monitors);
      assert inputs[..k + 1] == inputs;
    }
  }

  /** Within one batch, a second input with the name of an earlier one that was
      created active is refused as a duplicate; an inactive one would not be, as
      the registry lists active monitors only. */
  lemma SameNameInBatchRefused(a: MonitorData, b: MonitorData, inserts: nat -> Result<Monitor>, monitors: seq<Monitor>)
    requires ValidateMonitorData(a).None? && ValidateMonitorData(b).None? && a.name == b.name
    requires FindMonitorByName(monitors, a.name.s).None?
    requires inserts(0).Success? && inserts(0).value.isActive && inserts(0).value.name == a.name.s
    ensures BatchOutcome([a, b], inserts, monitors).errors == [BatchError(b, CreatePrefix + DuplicateMessage(b.name.s))]
  {
    assert [a, b][..1] == [a];
    assert [a][..0] == [];
    var s1 := BatchStep(BatchState([], [], monitors), a, inserts(0));
    assert s1.errors == [] && s1.registry == [inserts(0).value] + monitors;
    assert BatchOutcome([a], inserts, monitors) == s1;
    assert s1.registry[0].name == b.name.s;
    assert FindMonitorByName(s1.registry, b.name.s).Some?;
    assert BatchOutcome([a, b], inserts, monitors) == BatchStep(s1, b, inserts(1));
  }

  datatype BatchReport = BatchReport(
    created: seq<Monitor>,
    errors: seq<BatchError>,
    totalCreated: nat,
    totalErrors: nat)

  /** The service over the registry. `monitors` is what `Monitor.findAll` returns. */
  class MonitorService {
    var monitors: seq<Monitor>

    constructor(monitors: seq<Monitor>)
      ensures this.monitors == monitors
    {
      this.monitors := monitors;
    }

    /** `createMonitor`: validate, refuse a name some registered monitor already
        has, then insert (`inserted` is what `Monitor.create` produced); the
        outcome and the new registry are those of `Create`. */
    method CreateMonitor(data: MonitorData, inserted: Result<Monitor>) returns (r: Result<Monitor>)
      modifies this
      ensures r == Create(data, inserted, old(monitors)).result
      ensures monitors == Create(data, inserted, old(monitors)).registry
    {
      var failure := ValidateMonitorData(data);
      if failure.Some? {
        r := Failure(CreatePrefix + failure.value);
        return;
      }
      var name := data.name.s;
      if FindMonitorByName(monitors, name).Some? {
        r := Failure(CreatePrefix + DuplicateMessage(name));
        return;
      }
      match inserted
      case Failure(message) =>
        r := Failure(CreatePrefix + message);
      case Success(monitor) =>
        if monitor.isActive {
          monitors := [monitor] + monitors;
        }
        r := Success(monitor);
    }

    /** `createMonitorsBatch`: creates the inputs in order (`inserts(k)` is what
        `Monitor.create` produces for input `k`), collecting the created monitors
        and, for each failure, the input with its error; the totals are the two
        lists' lengths. The lists and the new registry are those of `BatchOutcome`,
        so every input is counted once and the registry gains exactly the created
        active monitors. */
    method CreateMonitorsBatch(inputs: seq<MonitorData>, inserts: nat -> Result<Monitor>) returns (report: BatchReport)
      modifies this
      ensures var s := BatchOutcome(inputs, inserts, old(monitors));
        && report == BatchReport(s.created, s.errors, |s.created|, |s.errors|)
        && monitors == s.registry
      ensures report.totalCreated + report.totalErrors == |inputs|
      ensures monitors == NewestActive(report.created) + old(monitors)
    {
      var created: seq<Monitor> := [];
      var errors: seq<BatchError> := [];
      for k := 0 to |inputs|
        invariant BatchOutcome(inputs[..k], inserts, old(monitors)) == BatchState(created, errors, monitors)
      {
        assert inputs[..k + 1][..k] == inputs[..k];
        var r := CreateMonitor(inputs[k], inserts(k));
        if r.Success? {
          created := created + [r.value];
        } else {
          errors := errors + [BatchError(inputs[k], r.error)];
        }
      }
      assert inputs[..|inputs|] == inputs;
      BatchOutcomeProperties(inputs, inserts, old(monitors));
      report := BatchReport(created, errors, |created|, |errors|);
    }
  }
}
