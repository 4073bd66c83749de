# CloudPulse monitor: check engine model

This project models the check engine of the CloudPulse uptime monitor, plus the
front end's toast queue, in Dafny. The contracts state how each check is
classified, what is stored, which errors are reported, and how the scheduler's,
the registry's and the toast queue's state changes.

The backend part covers:

- the scheduler that keeps one cron job per active monitor;
- the dispatcher that sends a check to the executor for the monitor's type;
- the HTTP, TCP and ping executors, which classify a probe outcome into an
  `up`/`down`/`error` result;
- the check record with its falsy defaults and its four validation rules;
- the monitor registry service: validation, the duplicate-name refusal, the
  update guard, lookup by name, and batch creation.

Every call into the outside world becomes an input of the model:

- the database (`Monitor.findAll`, `findById`, `create`, `update`);
- the HTTP client, the socket, the ping utility and the URL parser;
- the clock.

Each operation receives what that call produced, as a `Result` when the call
can fail. The result sink each executor writes to is modelled as the row it is
handed.

One module per source file:

| module | file |
|---|---|
| `Scheduler` | `backend/src/services/SchedulerService.js` |
| `Monitoring` | `backend/src/services/MonitoringService.js` |
| `HttpMonitor` | `backend/src/services/HTTPMonitorService.js` |
| `TcpMonitor` | `backend/src/services/TCPMonitorService.js` |
| `PingMonitor` | `backend/src/services/PingMonitorService.js` |
| `MonitorCheck` | `backend/src/models/MonitorCheck.js` |
| `MonitorRegistry` | `backend/src/services/MonitorService.js` |
| `Toasts` | `frontend/src/composables/useToast.ts` |

Shared modules:

- `Domain`: the monitor, the check result, and the row persisted for a result.
- `Text`: the JavaScript string built-ins the code relies on:
  - `split`, `join`, `includes`;
  - `trim`, with ECMAScript white space;
  - `parseInt`;
  - decimal rendering.
- `HostNames`: the host-name regular expressions, stated label by label.
- `Wrappers`: `Option` and `Result`.

Stateful parts are classes whose methods update fields:

- `SchedulerService`: the running flag, the job map and the counters.
- `Job`: a cron task with a `running` flag.
- `MonitorService`: the registry list.
- `ToastQueue`: the toast list, the id counter and the scheduled timers.

The loops are methods with invariants:

- `checkAllMonitors` and `checkMultipleMonitors` are proved against the
  executors' functions.
- `createMonitorsBatch` is proved against `BatchOutcome`, a fold of the
  single-create specification `Create`.
- `start`, `stop` and `getScheduledJobs` keep the scheduler's and the tallies'
  invariants.

`validate` is straight-line code. It is proved against the rule list
`Violations`.

The registry lists only active monitors, newest first
(`backend/src/models/Monitor.js:3`). A monitor created active therefore becomes
the head of the list.

Behaviour kept as the code has it:

- `scheduleMonitorCheck` replaces a job already filed under the same id without
  stopping it, so the old job keeps running.
- `runMonitorCheck` always uses the HTTP executor, whatever the monitor's type.

## Model

| member | source | states |
|---|---|---|
| Text.Split | backend/src/services/TCPMonitorService.js:126 | `split` on one character yields one more part than there are separators, and no part holds the separator |
| Text.JoinSplit | backend/src/models/MonitorCheck.js:57 | joining the parts of a split with the same character gives the text back |
| Text.ContainsIffOccurs | backend/src/services/HTTPMonitorService.js:157 | `includes` holds exactly when the substring starts at some position |
| Text.TrimShape | backend/src/services/TCPMonitorService.js:132 | `trim` returns an inner stretch of its input that neither starts nor ends with white space, and everything cut off is white space |
| Text.TrimAvoids | backend/src/services/TCPMonitorService.js:132 | trimming a text without some character gives a text without it that a second trim leaves alone |
| Text.TrimEmptyIffBlank | backend/src/services/PingMonitorService.js:90 | `trim().length === 0` exactly when every character is white space |
| Text.DigitPrefix | backend/src/services/TCPMonitorService.js:133 | the longest run of digits at the head of the text, stopping at the first non-digit |
| Text.NatToStringValue | backend/src/services/HTTPMonitorService.js:83 | the decimal rendering of a number reads back as that number |
| Text.ParseIntNatToString | backend/src/services/TCPMonitorService.js:133 | `parseInt` reads back what `${n}` renders |
| Domain.ToCheckRow | backend/src/services/HTTPMonitorService.js:94-100 | the persisted `is_up` is 0 or 1, and 1 exactly when the status is `up`; the other columns carry the result's fields |
| HostNames.Ipv4ShapeIsLabelSequence | backend/src/services/TCPMonitorService.js:162 | every IPv4-shaped host also matches the label alternative of the TCP host pattern |
| HostNames.SingleLabelRejected | backend/src/services/PingMonitorService.js:95 | a host without a dot matches neither alternative of the ping host pattern |
| HostNames.DigitGroupsAreIpv4Shape | backend/src/services/PingMonitorService.js:95 | any four groups of one to three digits joined by dots are IPv4-shaped, with no 0..255 range check |
| HttpMonitor.PerformCheck | backend/src/services/HTTPMonitorService.js:21-108 | up exactly for a response with status 200..499, which keeps the status code; error exactly for a failure with no recognised code and no response, with the message or `Unknown error`; down otherwise; the elapsed time is set on every path; the saved row matches the result |
| HttpMonitor.NetworkCodeTakesPrecedence | backend/src/services/HTTPMonitorService.js:67-78 | the five network codes give down with their fixed detail and no status code, even when the error carries a response |
| HttpMonitor.ServerErrorIsDown | backend/src/services/HTTPMonitorService.js:79-83 | a rejected response without a recognised code is down with the server's status and `HTTP <status>: <text>` |
| HttpMonitor.CheckBatch | backend/src/services/HTTPMonitorService.js:121-124 | one result per monitor of the batch, in order |
| HttpMonitor.CheckMultipleMonitors | backend/src/services/HTTPMonitorService.js:116-135 | one result per monitor in input order; the batches concatenate to the input, each holds 1 to c monitors, where c is `concurrency` or 10 when it is omitted, and there are ceil(n/c) of them with one pause fewer |
| HttpMonitor.CeilingBatches | backend/src/services/HTTPMonitorService.js:120 | stepping by `c` until `n` is passed takes ceil(n/c) steps |
| HttpMonitor.ValidateUrl | backend/src/services/HTTPMonitorService.js:143-162 | accepts exactly parsed URLs with protocol `http:` or `https:` and a non-empty host name |
| HttpMonitor.WrongProtocolMessage | backend/src/services/HTTPMonitorService.js:147-158 | a wrong protocol is reported with its own message, because the catch block rethrows messages mentioning `URL` |
| TcpMonitor.StripScheme | backend/src/services/TCPMonitorService.js:123 | at most one leading `tcp://`, `https://` or `http://` is removed, and it is exactly the prefix the text starts with; the text is unchanged exactly when it has none |
| TcpMonitor.ParseHostPort | backend/src/services/TCPMonitorService.js:121-144 | the format error exactly when the target does not hold one colon; `Host is required` for a blank host; the port error for NaN or outside 1..65535; success exactly when there are two parts, a non-blank host and a port in 1..65535, with blanks around either part and trailing non-digits after the port allowed; on success the trimmed, non-empty, colon-free host and the port read from the second part |
| TcpMonitor.NoColonRejected | backend/src/services/TCPMonitorService.js:126-130 | a target without a colon, such as `nohost`, fails with the format error |
| TcpMonitor.NoSchemePrefix | backend/src/services/TCPMonitorService.js:123 | a `host:port` text starts with no scheme, so nothing is stripped from it |
| TcpMonitor.ParseFormatRoundTrip | backend/src/services/TCPMonitorService.js:121-144 | parsing `host:port` gives back the trimmed colon-free host and the port in 1..65535 |
| TcpMonitor.CheckTcpConnection | backend/src/services/TCPMonitorService.js:84-113 | success exactly for a connect; a timeout reports `Connection timeout`; `ECONNREFUSED` reports `Connection refused`; any other socket error reports its own message |
| TcpMonitor.PerformCheck | backend/src/services/TCPMonitorService.js:20-76 | a parse failure is an error with the parse message; up exactly when the target parses and the socket connects, with the port as status code; down exactly when the target parses and the connect fails, with the connection's error or `Connection refused` and no status code; the elapsed time is always set; the saved row matches the result |
| TcpMonitor.ParseBeforeConnect | backend/src/services/TCPMonitorService.js:32-37 | when the target does not parse, the socket's behaviour does not affect the result |
| TcpMonitor.RefusedIsDown | backend/src/services/TCPMonitorService.js:41-49 | a refused connection to a well-formed target is down with `Connection refused` |
| TcpMonitor.ValidateHostPort | backend/src/services/TCPMonitorService.js:152-172 | a blank target is refused before parsing; success exactly when the target parses and the host is a label sequence or IPv4-shaped |
| PingMonitor.PingTarget | backend/src/services/PingMonitorService.js:34-38 | a web URL is reduced to the parser's host name (or fails with the parser's message); any other target is used as written |
| PingMonitor.PerformCheck | backend/src/services/PingMonitorService.js:20-81 | up exactly when the target resolves and the host is alive, with the ping time; down exactly when it resolves and the host is not alive, with `Host not reachable` and no time; error with the elapsed time and the parser's or utility's message, or `Ping check failed` when it is empty; never a status code; the saved row matches the result |
| PingMonitor.WebUrlPingsHostName | backend/src/services/PingMonitorService.js:35-53 | for a web URL the host name is pinged, not the URL |
| PingMonitor.ValidateHost | backend/src/services/PingMonitorService.js:89-101 | a blank host is refused first; success exactly when the untrimmed host is a dotted host name or IPv4-shaped |
| PingMonitor.SingleLabelHostRefused | backend/src/services/PingMonitorService.js:95-98 | a host without a dot, such as `localhost`, is refused |
| MonitorCheck.ApplyDefaults | backend/src/models/MonitorCheck.js:15-22 | each falsy field becomes `null`, a falsy status `unknown` and a falsy timestamp the current time; truthy fields are kept |
| MonitorCheck.ZeroBecomesNull | backend/src/models/MonitorCheck.js:19-20 | a response time or status code of 0 is stored as `null` |
| MonitorCheck.FailingLists | backend/src/models/MonitorCheck.js:32-55 | a rule's message is collected exactly when the rule is checked and fails |
| MonitorCheck.ViolationsIffMalformed | backend/src/models/MonitorCheck.js:32-58 | the collected errors are empty exactly for a well-formed record; every broken rule is named; there are at most four |
| MonitorCheck.UnfoldViolations | backend/src/models/MonitorCheck.js:35-54 | the errors are collected in rule order: monitor id, status, response time, status code |
| MonitorCheck.Validate | backend/src/models/MonitorCheck.js:32-59 | throws exactly when the record is not well formed, with every violated rule's message joined by `, ` after the fixed prefix |
| MonitorCheck.Create | backend/src/models/MonitorCheck.js:15-26 | the constructor's defaults followed by validation |
| MonitorCheck.FromRow | backend/src/models/MonitorCheck.js:94-104 | the constructor applied to a row: a well-formed row without falsy values comes back unchanged, and any record built is well formed and keeps the row's monitor id |
| MonitorCheck.FromCheckResult | backend/src/services/MonitoringService.js:39-46 | the constructor argument built from a result keeps the monitor id, has no id of its own, is stamped with now, has a valid status name that is `up` exactly for up, is `null` exactly where the result is, and carries the result's response time, status code and message |
| MonitorCheck.SmallStatusCodeRejected | backend/src/models/MonitorCheck.js:52-54 | a status code below 100 is reported as a violation |
| Monitoring.ErrorResult | backend/src/services/MonitoringService.js:39-46 | the error result has the monitor's id, status `error`, no time or status code, and the message |
| Monitoring.PerformCheck | backend/src/services/MonitoringService.js:20-59 | `http`/`https` give the HTTP executor's result and `ping` the ping executor's; `tcp` and other types give error results with their messages; only those three types reach an executor; the result always has the monitor's id |
| Monitoring.NoExecutorForOtherTypes | backend/src/services/MonitoringService.js:30-57 | other types give an error result whatever happens to its storage, which succeeds exactly for a non-zero monitor id |
| Monitoring.CheckAllMonitors | backend/src/services/MonitoringService.js:66-103 | fails exactly when no list is given and the registry fails, then with the prefix; otherwise the given list (or else the registry's) gets exactly one result per monitor, the check of that monitor at its position |
| Monitoring.ValidateMonitor | backend/src/services/MonitoringService.js:134-154 | web types use the URL check and `ping` the host check; `tcp` and unknown types always fail |
| Monitoring.TcpPortIsNotAStatusCode | backend/src/services/TCPMonitorService.js:41-44 | a connected TCP check on a port below 100 yields a result that the check record refuses |
| MonitorRegistry.ValidateMonitorData | backend/src/services/MonitorService.js:14-24 | passes exactly for a non-empty string name and URL and a known type; the first failing rule in name, URL, type order decides the message |
| MonitorRegistry.FirstNamed | backend/src/services/MonitorService.js:116 | the position of the first monitor with the name, no earlier monitor having it |
| MonitorRegistry.FindMonitorByName | backend/src/services/MonitorService.js:113-120 | the first monitor with exactly that name, or none exactly when no monitor has it |
| MonitorRegistry.MonitorsNeedingChecks | backend/src/services/MonitorService.js:153-162 | a registry failure is rethrown with the `Failed to get monitors needing checks: ` prefix; otherwise a prefix of the registry of length min(k, n) with k defaulting to 100, a negative k dropping that many from the end |
| MonitorRegistry.UpdateMonitor | backend/src/services/MonitorService.js:82-94 | validation runs only when a name, URL or type is supplied, and its failure is reported; when validation is skipped or passes, the registry's update is passed on, a failure with the `Failed to update monitor <id>: ` prefix |
| MonitorRegistry.RenameAloneRefused | backend/src/services/MonitorService.js:85-86 | supplying only a new name fails, because the full validation then demands a URL |
| MonitorRegistry.MonitorService.constructor | backend/src/services/MonitorService.js:5-7 | the service over a given registry list |
| MonitorRegistry.MonitorService.CreateMonitor | backend/src/services/MonitorService.js:31-49 | the outcome and the new registry are those of `Create` on the old registry |
| MonitorRegistry.Create | backend/src/services/MonitorService.js:31-49 | invalid data and a name already registered are refused with the `Failed to create monitor: ` prefix; otherwise the insertion's outcome is passed on, its failure prefixed; failures leave the registry unchanged; a created active monitor becomes the head; unique names stay unique |
| MonitorRegistry.MonitorService.CreateMonitorsBatch | backend/src/services/MonitorService.js:169-191 | the created list, the error list and the new registry are those of `BatchOutcome`, each input created against the registry the earlier ones left; the totals are the lists' lengths and add up to the number of inputs; the registry gains the active created monitors |
| MonitorRegistry.BatchStepKeeps | backend/src/services/MonitorService.js:174-182 | one more create keeps the batch invariant: inputs counted once, errors naming inputs with the create prefix, the registry grown by the created active monitors, and unique names |
| MonitorRegistry.BatchOutcomeProperties | backend/src/services/MonitorService.js:169-191 | after a whole batch every input is created or in the error list, each error names an input and carries the create prefix, the registry gained exactly the created active monitors newest first, and names stay unique when insertions keep the requested names |
| MonitorRegistry.SameNameInBatchRefused | backend/src/services/MonitorService.js:36-39 | a second input of a batch named like an earlier input that was created active is refused as a duplicate |
| Scheduler.IntervalSeconds | backend/src/services/SchedulerService.js:72 | a missing or zero interval means 60 seconds |
| Scheduler.CronStep | backend/src/services/SchedulerService.js:73 | the step is the interval divided by 60, rounded down |
| Scheduler.DefaultAndShortIntervals | backend/src/services/SchedulerService.js:72-73 | no interval gives step 1, and any interval under a minute gives step 0 |
| Scheduler.ActiveIds | backend/src/services/SchedulerService.js:27-31 | exactly the ids of the active monitors, the ones the start loop schedules |
| Scheduler.Without | backend/src/services/SchedulerService.js:96 | the key order after `Map.delete`: the same keys without the deleted one, and the order unchanged when the key is absent |
| Scheduler.WithoutAt | backend/src/services/SchedulerService.js:96 | in an order without repeats, deleting a key cuts out its one position and keeps the others in order |
| Scheduler.Job.constructor | backend/src/services/SchedulerService.js:75-79 | a job is created stopped with the monitor's id and expression |
| Scheduler.Job.Start | backend/src/services/SchedulerService.js:82 | the job runs |
| Scheduler.Job.Stop | backend/src/services/SchedulerService.js:48 | the job no longer runs |
| Scheduler.SchedulerService.constructor | backend/src/services/SchedulerService.js:6-16 | not running, no jobs, zeroed counters |
| Scheduler.SchedulerService.ScheduleMonitorCheck | backend/src/services/SchedulerService.js:70-89 | exactly one entry changes: the monitor's id maps to a fresh running job with its expression; a replaced job is not stopped; a new id is appended to the key order, a replaced one keeps its place |
| Scheduler.SchedulerService.Start | backend/src/services/SchedulerService.js:18-39 | refused while running, changing nothing; a registry failure leaves the scheduler stopped and the map unchanged; otherwise running, a fresh running job for each active monitor, other jobs untouched, and the count of monitors read |
| Scheduler.SchedulerService.Stop | backend/src/services/SchedulerService.js:41-58 | refused while stopped; otherwise every job is stopped, the map is emptied, the scheduler stops, and 0 is reported |
| Scheduler.SchedulerService.Restart | backend/src/services/SchedulerService.js:60-68 | a stopped scheduler is refused with the restart prefix, its jobs, their flags and the key order unchanged; otherwise every old job is stopped, a registry failure leaves the scheduler stopped and empty, and success files exactly the active monitors' ids with fresh running jobs |
| Scheduler.SchedulerService.UnscheduleMonitor | backend/src/services/SchedulerService.js:91-105 | true exactly when the id was filed; then that job is stopped, only its key removed, and the key order is the old one without it; otherwise nothing changes |
| Scheduler.SchedulerService.RunMonitorCheck | backend/src/services/SchedulerService.js:107-131 | a failing lookup counts an error and is rethrown; a missing or inactive monitor is skipped with the counters unchanged; otherwise one more check is counted, stamped with now, and the HTTP executor's result is returned |
| Scheduler.SchedulerService.GetStatus | backend/src/services/SchedulerService.js:133-140 | the flag, the map's size, the counters, and an uptime present exactly after a first check |
| Scheduler.SchedulerService.GetScheduledJobs | backend/src/services/SchedulerService.js:142-166 | the number of monitors and the tallies by interval key and by type; each tally adds up to the number of monitors |
| Scheduler.TallySum | backend/src/services/SchedulerService.js:152-163 | the counts of a tally add up to the number of keys counted |
| Scheduler.TallyCounts | backend/src/services/SchedulerService.js:152-163 | a tally has one entry per distinct key, holding how often that key occurs |
| Scheduler.BumpSum | backend/src/services/SchedulerService.js:154-157 | counting one more key raises the total by one |
| Scheduler.BumpLookup | backend/src/services/SchedulerService.js:154-157 | counting a key raises its own count by one and leaves the others |
| Scheduler.BumpDistinct | backend/src/services/SchedulerService.js:154-157 | counting a key keeps the keys distinct and adds no key but it |
| Toasts.FindIndex | frontend/src/composables/useToast.ts:43 | the position of the first toast with the id, or -1 exactly when none has it |
| Toasts.RemovedDropsFirstMatch | frontend/src/composables/useToast.ts:42-47 | removal takes out only the first toast with the id, keeping the others in order; without a match the list is unchanged |
| Toasts.RemovedKeepsIncreasing | frontend/src/composables/useToast.ts:42-47 | with increasing ids, removal keeps them increasing and leaves no toast with the removed id |
| Toasts.RemoveUndoesShow | frontend/src/composables/useToast.ts:22-47 | removing the toast just shown gives back the list as it was |
| Toasts.ToastQueue.constructor | frontend/src/composables/useToast.ts:12-13 | no toasts and the counter at 0 |
| Toasts.ToastQueue.ShowToast | frontend/src/composables/useToast.ts:22-36 | the id is the counter's old value, newer than every listed id; the counter moves on by one; one toast with the defaulted type and duration is appended; a removal timer is recorded exactly for a positive duration; ids stay increasing |
| Toasts.ToastQueue.RemoveToast | frontend/src/composables/useToast.ts:42-47 | the list becomes the list without its first toast with the id, no toast with that id remains, and the counter and timers are unchanged |
| Toasts.ToastQueue.ShowSuccess | frontend/src/composables/useToast.ts:52 | appends a `success` toast with the next id, duration 10000 when omitted, and records a removal timer exactly for a positive duration |
| Toasts.ToastQueue.ShowError | frontend/src/composables/useToast.ts:53 | appends an `error` toast with the next id, duration 10000 when omitted, and records a removal timer exactly for a positive duration |
| Toasts.ToastQueue.ShowWarning | frontend/src/composables/useToast.ts:54 | appends a `warning` toast with the next id, duration 10000 when omitted, and records a removal timer exactly for a positive duration |
| Toasts.ToastQueue.ShowInfo | frontend/src/composables/useToast.ts:55 | appends an `info` toast with the next id, duration 10000 when omitted, and records a removal timer exactly for a positive duration |

## Left out

- Database access is left out, because it is SQL in a foreign engine. That
  covers:
  - every prepared statement;
  - `MonitorCheck.save`, `findByMonitorId`, `findRecent`, `getStatsForMonitor`,
    `getSystemStats` and `cleanupOldRecords`;
  - `getHTTPStats`, `getResponseTimeDistribution` and `getMonitoringStats`;
  - the thin wrappers `getAllMonitors`, `getMonitorById`, `deleteMonitor`,
    `getMonitorsByType` and `getMonitorStats`.

  The registry's answers are inputs, and the executors' `MonitorCheck.create`
  is an abstract sink that receives the row.
- Network probes are inputs (`HttpProbe`, `SocketEvent`, `PingReply`), because
  `axios`, `net.Socket` and the ping utility are I/O. The ping utility's
  options (timeout, one packet) are not modelled.
- The WHATWG URL parser is an input (`UrlParse`), because it is a library.
- Clocks and timers are inputs:
  - timestamps and elapsed times are given as numbers;
  - cron jobs are handles with a `running` flag;
  - the toast timers are recorded requests (`Timer`), not run.

  The cron expression's meaning is not modelled. Its six fields make the step
  count seconds, not minutes.
- `cron.schedule` and `job.start` are taken never to throw. That makes the
  catch blocks of `scheduleMonitorCheck` and `unscheduleMonitor` unreachable, as
  is `start`'s recovery from a scheduling failure. The catch in
  `checkAllMonitors` around `performCheck` is unreachable too, because
  `performCheck` never throws.
- Console logging is left out; it has no effect on results.
- `Math.round(pingResult.time)` is left out, because it is floating point. The
  ping utility's round-trip time arrives already whole.
- JavaScript numbers are integers here, because nothing in the core depends on
  fractions:
  - `NaN` is absent, except as `parseInt`'s `None`;
  - `Infinity` is absent.
- `Promise.all` concurrency inside an HTTP batch is left out. Its results come
  back in batch order, which is what is modelled. The one-second pause is
  counted, not timed.
- HttpMonitor.CheckMultipleMonitors: requires a given `concurrency` to be at
  least 1. Below 1, the source loop never advances (0) or never ends (negative).
  An omitted one is 10.
- Scheduler.SchedulerService.GetScheduledJobs: renders an absent `interval` as
  `undefined`. A `null` interval (rendered `null`) is not distinguished from an
  absent one.
- MonitorRegistry.FindMonitorByName: is modelled on the registry list, so a
  failure of `Monitor.findAll` during the duplicate check is not modelled.
  `createMonitor`'s registry-failure path, which would fail with
  `Failed to create monitor: Failed to find monitor by name <name>: ...`, is
  absent from MonitorRegistry.Create and from the batch built on it.
- The `checked_at` timestamp of the executors' result records is left out,
  because it is the clock's reading and nothing in the core reads it back. The
  check record built from a result is stamped with the `now` it receives.
- MonitorRegistry.MonitorService.CreateMonitor: the model assumes that a monitor
  `Monitor.create` inserts as active becomes the head of the registry. That is
  the `ORDER BY created_at DESC` ordering, with creation times increasing.
- The frontend's `readonly` wrapper and Vue reactivity are left out, because
  they do not change the list's contents.
