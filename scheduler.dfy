/**
 * The scheduler: one cron job per active monitor, started and stopped as a whole,
 * plus the check each job runs and the counters it keeps. Cron jobs are handles
 * with a `running` flag; the registry's answers and the clock are inputs.
 */
module Scheduler {
  import opened Wrappers
  import opened Text
  import opened Domain
  import HttpMonitor

  // ---------------------------------------------------------------------------
  // Cron arithmetic

  /** `monitor.interval_seconds || 60`: a missing or zero interval means 60. */
  function IntervalSeconds(monitor: Monitor): (s: int)
    ensures monitor.intervalSeconds.Some? && monitor.intervalSeconds.value != 0 ==> s == monitor.intervalSeconds.value
    ensures monitor.intervalSeconds.None? || monitor.intervalSeconds.value == 0 ==> s == 60
  {
    match monitor.intervalSeconds
    case Some(v) => if v != 0 then v else 60
    case None => 60
  }

  /** `Math.floor(intervalSeconds / 60)`: the interval in whole minutes, rounded down. */
  function CronStep(monitor: Monitor): (step: int)
    ensures step * 60 <= IntervalSeconds(monitor) < step * 60 + 60
  {
    IntervalSeconds(monitor) / 60
  }

  /** `*\/<step> * * * * *`, the six-field expression the job is created with. */
  function CronExpression(monitor: Monitor): string {
    "*/" + IntToString(CronStep(monitor)) + " * * * * *"
  }

  /** A monitor without an interval gets step 1; any interval under a minute gets
      step 0. */
  lemma {:induction false} DefaultAndShortIntervals(monitor: Monitor)
    ensures monitor.intervalSeconds.None? ==> CronStep(monitor) == 1
    ensures monitor.intervalSeconds.Some? && 0 < monitor.intervalSeconds.value < 60 ==> CronStep(monitor) == 0
  {
    var step := CronStep(monitor);
    if monitor.intervalSeconds.None? {
      assert IntervalSeconds(monitor) == 60;
      assert step * 60 <= 60 < step * 60 + 60;
    }
  }

  // ---------------------------------------------------------------------------
  // Jobs

  /** A cron task handle: which monitor it checks, its expression, and whether it
      is running. */
  class Job {
    const monitorId: int
    const cronExpression: string
    var running: bool

    /** `cron.schedule(..., { scheduled: false })`: created stopped. */
    constructor(monitorId: int, cronExpression: string)
      ensures this.monitorId == monitorId && this.cronExpression == cronExpression && !running
    {
      this.monitorId := monitorId;
      this.cronExpression := cronExpression;
      running := false;
    }

    method Start()
      modifies this
      ensures running
    {
      running := true;
    }

    method Stop()
      modifies this
      ensures !running
    {
      running := false;
    }
  }

  /** The ids of the active monitors in `monitors`. */
  function ActiveIds(monitors: seq<Monitor>): (ids: set<int>)
    ensures forall k :: 0 <= k < |monitors| && monitors[k].isActive ==> monitors[k].id in ids
    ensures forall id :: id in ids ==> exists k :: 0 <= k < |monitors| && monitors[k].isActive && monitors[k].id == id
    decreases |monitors|
  {
    if |monitors| == 0 then {}
    else
      var last := monitors[|monitors| - 1];
      ActiveIds(monitors[..|monitors| - 1]) + (if last.isActive then {last.id} else {})
  }

  lemma ActiveIdsSnoc(monitors: seq<Monitor>, k: nat)
    requires k < |monitors|
    ensures ActiveIds(monitors[..k + 1]) == ActiveIds(monitors[..k]) + (if monitors[k].isActive then {monitors[k].id} else {})
  {
    assert monitors[..k + 1][..k] == monitors[..k];
  }

  predicate UniqueIds(monitors: seq<Monitor>) {
    forall i, j :: 0 <= i < j < |monitors| ==> monitors[i].id != monitors[j].id
  }

  /** Each of the first `k` monitors that is active has its job filed under its id,
      with the expression made from its own interval. */
  ghost predicate CronsFiled(jobs: map<int, Job>, monitors: seq<Monitor>, k: nat)
    requires k <= |monitors|
  {
    forall q :: 0 <= q < k && monitors[q].isActive ==>
      monitors[q].id in jobs && jobs[monitors[q].id].cronExpression == CronExpression(monitors[q])
  }

  /** The counters `runMonitorCheck` keeps; `lastCheck` is a time in milliseconds. */
  datatype Stats = Stats(totalChecks: nat, lastCheck: Option<int>, errors: nat)

  datatype SchedulerStatus = SchedulerStatus(isRunning: bool, scheduledJobs: nat, stats: Stats, uptime: Option<int>)

  /** An association list of counts, in the order the keys were first seen (the
      order a JavaScript object keeps string keys in). */
  type Tally = seq<(string, nat)>

  datatype ScheduleSummary = ScheduleSummary(totalMonitors: nat, byInterval: Tally, byType: Tally)

  /** `order` without `x`. */
  function Without(order: seq<int>, x: int): (r: seq<int>)
    ensures forall y :: y in r <==> y in order && y != x
    ensures x !in order ==> r == order
    decreases |order|
  {
    if |order| == 0 then []
    else (if order[0] == x then [] else [order[0]]) + Without(order[1..], x)
  }

  /** No key is listed twice. */
  predicate Distinct(order: seq<int>) {
    forall p, q :: 0 <= p < q < |order| ==> order[p] != order[q]
  }

  /** In a list without repeats, removing a key cuts out its one position and
      keeps the others in their order, as `Map.delete` does to the iteration
      order. */
  lemma {:induction false} WithoutAt(order: seq<int>, i: nat)
    requires i < |order| && Distinct(order)
    ensures Without(order, order[i]) == order[..i] + order[i + 1..]
    decreases |order|
  {
    var x := order[i];
    if i == 0 {
      assert x !in order[1..] by {
        forall q | 0 <= q < |order[1..]| ensures order[1..][q] != x {
          assert order[1..][q] == order[q + 1];
        }
      }
    } else {
      var tail := order[1..];
      assert tail[i - 1] == x;
      assert Distinct(tail) by {
        forall p, q | 0 <= p < q < |tail| ensures tail[p] != tail[q] {
          assert tail[p] == order[p + 1] && tail[q] == order[q + 1];
        }
      }
      WithoutAt(tail, i - 1);
      assert order[0] != x;
      assert order[..i] == [order[0]] + tail[..i - 1];
      assert order[i + 1..] == tail[i..];
    }
  }

  /** Removing a key keeps a list without repeats so. */
  lemma WithoutDistinct(order: seq<int>, x: int)
    requires Distinct(order)
    ensures Distinct(Without(order, x))
  {
    if x in order {
      var i :| 0 <= i < |order| && order[i] == x;
      WithoutAt(order, i);
      var r := order[..i] + order[i + 1..];
      forall p, q | 0 <= p < q < |r| ensures r[p] != r[q] {
        var p' := if p < i then p else p + 1;
        var q' := if q < i then q else q + 1;
        assert r[p] == order[p'] && r[q] == order[q'];
      }
    }
  }

  const AlreadyRunning := "Scheduler is already running"
  const NotRunning := "Scheduler is not running"
  const StartPrefix := "Failed to start scheduler: "
  const RestartPrefix := "Failed to restart scheduler: "

  class SchedulerService {
    var isRunning: bool
    /** The `scheduledJobs` Map: its entries, and its keys in the order the Map
        iterates them (insertion order). */
    var scheduledJobs: map<int, Job>
    var keyOrder: seq<int>
    var stats: Stats

    /** The iteration order lists exactly the Map's keys, each once. */
    ghost predicate Valid()
      reads this
    {
      && (forall id :: id in scheduledJobs ==> id in keyOrder)
      && (forall q :: 0 <= q < |keyOrder| ==> keyOrder[q] in scheduledJobs)
      && Distinct(keyOrder)
    }

    constructor()
      ensures Valid()
      ensures !isRunning && scheduledJobs == map[] && stats == Stats(0, None, 0)
    {
      isRunning := false;
      scheduledJobs := map[];
      keyOrder := [];
      stats := Stats(0, None, 0);
    }

    /** `scheduleMonitorCheck`: creates a job for the monitor, files it under the
        monitor's id and starts it. A job already filed under that id is replaced
        in the map but not stopped. */
    method ScheduleMonitorCheck(monitor: Monitor)
      requires Valid()
      modifies this
      ensures Valid()
      ensures monitor.id in scheduledJobs && scheduledJobs == old(scheduledJobs)[monitor.id := scheduledJobs[monitor.id]]
      ensures var job := scheduledJobs[monitor.id];
        fresh(job) && job.running && job.monitorId == monitor.id && job.cronExpression == CronExpression(monitor)
      ensures keyOrder == old(keyOrder) + (if monitor.id in old(scheduledJobs) then [] else [monitor.id])
      ensures isRunning == old(isRunning) && stats == old(stats)
      ensures forall j :: j in old(scheduledJobs).Values ==> j.running == old(j.running)
    {
      var job := new Job(monitor.id, CronExpression(monitor));
      if monitor.id !in scheduledJobs {
        keyOrder := keyOrder + [monitor.id];
      }
      scheduledJobs := scheduledJobs[monitor.id := job];
      job.Start();
    }

    /** `start`: refused while running; otherwise reads the registry (`registry`
        is what `Monitor.findAll` returned), schedules every active monitor and
        reports how many monitors were read. A registry failure leaves the
        scheduler stopped. */
    method Start(registry: Result<seq<Monitor>>) returns (r: Result<nat>)
      requires Valid()
      modifies this
      ensures Valid()
      ensures old(isRunning) ==> r == Failure(AlreadyRunning)
      ensures old(isRunning) || registry.Failure? ==> scheduledJobs == old(scheduledJobs) && stats == old(stats)
      ensures !old(isRunning) && registry.Failure? ==>
        r == Failure(StartPrefix + registry.error) && !isRunning
      ensures !old(isRunning) && registry.Success? ==>
        var monitors := registry.value;
        && r == Success(|monitors|) && isRunning && stats == old(stats)
        && scheduledJobs.Keys == old(scheduledJobs).Keys + ActiveIds(monitors)
        && (forall id :: id in old(scheduledJobs) && id !in ActiveIds(monitors) ==> scheduledJobs[id] == old(scheduledJobs)[id])
        && (forall id :: id in ActiveIds(monitors) ==>
              fresh(scheduledJobs[id]) && scheduledJobs[id].running && scheduledJobs[id].monitorId == id)
        && (UniqueIds(monitors) ==> CronsFiled(scheduledJobs, monitors, |monitors|))
      ensures isRunning <==> old(isRunning) || registry.Success?
      ensures forall j :: j in old(scheduledJobs).Values ==> j.running == old(j.running)
    {
      if isRunning {
        return Failure(AlreadyRunning);
      }
      isRunning := true;
      if registry.Failure? {
        isRunning := false;
        return Failure(StartPrefix + registry.error);
      }
      var monitors := registry.value;
      for k := 0 to |monitors|
        invariant Valid() && isRunning && stats == old(stats)
        invariant scheduledJobs.Keys == old(scheduledJobs).Keys + ActiveIds(monitors[..k])
        invariant forall id :: id in old(scheduledJobs) && id !in ActiveIds(monitors[..k]) ==>
          scheduledJobs[id] == old(scheduledJobs)[id]
        invariant forall id :: id in ActiveIds(monitors[..k]) ==>
          fresh(scheduledJobs[id]) && scheduledJobs[id].running && scheduledJobs[id].monitorId == id
        invariant UniqueIds(monitors) ==> CronsFiled(scheduledJobs, monitors, k)
        invariant forall j :: j in old(scheduledJobs).Values ==> j.running == old(j.running)
      {
        ActiveIdsSnoc(monitors, k);
        if monitors[k].isActive {
          ghost var before := scheduledJobs;
          ScheduleMonitorCheck(monitors[k]);
          forall id | id in old(scheduledJobs) && id !in ActiveIds(monitors[..k + 1])
            ensures scheduledJobs[id] == old(scheduledJobs)[id]
          {
            assert id != monitors[k].id && scheduledJobs[id] == before[id];
          }
          if UniqueIds(monitors) {
            forall q | 0 <= q < k + 1 && monitors[q].isActive
              ensures monitors[q].id in scheduledJobs
              ensures scheduledJobs[monitors[q].id].cronExpression == CronExpression(monitors[q])
            {
              if q < k {
                assert monitors[q].id != monitors[k].id;
                assert scheduledJobs[monitors[q].id] == before[monitors[q].id];
              }
            }
          }
        }
      }
      assert monitors[..|monitors|] == monitors;
      r := Success(|monitors|);
    }

    /** `stop`: refused while stopped; otherwise stops every job, empties the map
        and reports the map's size after clearing it, which is always 0. */
    method Stop() returns (r: Result<nat>)
      requires Valid()
      modifies this, scheduledJobs.Values
      ensures Valid()
      ensures !old(isRunning) ==>
        r == Failure(NotRunning) && scheduledJobs == old(scheduledJobs) && keyOrder == old(keyOrder)
      ensures !old(isRunning) ==> forall j :: j in old(scheduledJobs).Values ==> j.running == old(j.running)
      ensures old(isRunning) ==>
        && r == Success(0) && !isRunning && scheduledJobs == map[]
        && forall id :: id in old(scheduledJobs) ==> !old(scheduledJobs)[id].running
      ensures !isRunning && stats == old(stats)
    {
      if !isRunning {
        return Failure(NotRunning);
      }
      for k := 0 to |keyOrder|
        invariant Valid() && scheduledJobs == old(scheduledJobs) && keyOrder == old(keyOrder)
        invariant isRunning && stats == old(stats)
        invariant forall q :: 0 <= q < k ==> !scheduledJobs[keyOrder[q]].running
      {
        scheduledJobs[keyOrder[k]].Stop();
      }
      forall id | id in scheduledJobs ensures !scheduledJobs[id].running {
        var q :| 0 <= q < |keyOrder| && keyOrder[q] == id;
      }
      scheduledJobs := map[];
      keyOrder := [];
      isRunning := false;
      r := Success(|scheduledJobs|);
    }

    /** `restart`: stop, then start; either failure is reported with the
        `Failed to restart scheduler: ` prefix, so restarting a stopped scheduler
        fails and changes nothing. */
    method Restart(registry: Result<seq<Monitor>>) returns (r: Result<bool>)
      requires Valid()
      modifies this, scheduledJobs.Values
      ensures Valid()
      ensures !old(isRunning) ==>
        r == Failure(RestartPrefix + NotRunning) && scheduledJobs == old(scheduledJobs) && keyOrder == old(keyOrder)
      ensures !old(isRunning) ==> forall j :: j in old(scheduledJobs).Values ==> j.running == old(j.running)
      ensures old(isRunning) && registry.Failure? ==>
        r == Failure(RestartPrefix + (StartPrefix + registry.error))
        && !isRunning && scheduledJobs == map[]
      ensures old(isRunning) ==> forall id :: id in old(scheduledJobs) ==> !old(scheduledJobs)[id].running
      ensures r.Success? ==>
        && old(isRunning) && registry.Success? && r.value && isRunning
        && scheduledJobs.Keys == ActiveIds(registry.value)
        && forall id :: id in scheduledJobs ==> fresh(scheduledJobs[id]) && scheduledJobs[id].running
      ensures stats == old(stats)
    {
      var stopped := Stop();
      if stopped.Failure? {
        return Failure(RestartPrefix + stopped.error);
      }
      assert !isRunning && scheduledJobs == map[];
      ghost var previous := old(scheduledJobs);
      assert forall id :: id in previous ==> !previous[id].running;
      var started := Start(registry);
      assert forall id :: id in previous ==> !previous[id].running;
      if started.Failure? {
        return Failure(RestartPrefix + started.error);
      }
      assert scheduledJobs.Keys == ActiveIds(registry.value);
      r := Success(true);
    }

    /** `unscheduleMonitor`: stops and removes the job filed under the id, if any,
        and reports whether there was one. */
    method UnscheduleMonitor(monitorId: int) returns (found: bool)
      requires Valid()
      modifies this, scheduledJobs.Values
      ensures Valid()
      ensures found <==> monitorId in old(scheduledJobs)
      ensures found ==> scheduledJobs == old(scheduledJobs) - {monitorId} && !old(scheduledJobs)[monitorId].running
      ensures !found ==> scheduledJobs == old(scheduledJobs) && keyOrder == old(keyOrder)
      ensures found ==> keyOrder == Without(old(keyOrder), monitorId)
      ensures forall j :: j in old(scheduledJobs).Values && (!found || j != old(scheduledJobs)[monitorId]) ==>
        j.running == old(j.running)
      ensures isRunning == old(isRunning) && stats == old(stats)
    {
      if monitorId in scheduledJobs {
        var job := scheduledJobs[monitorId];
        job.Stop();
        scheduledJobs := scheduledJobs - {monitorId};
        WithoutDistinct(keyOrder, monitorId);
        keyOrder := Without(keyOrder, monitorId);
        forall q | 0 <= q < |keyOrder| ensures keyOrder[q] in scheduledJobs {
          assert keyOrder[q] in keyOrder;
        }
        return true;
      }
      return false;
    }

    /** `runMonitorCheck`: `lookup` is what `Monitor.findById` returned and `probe`
        what the HTTP request did. A missing or inactive monitor is skipped with
        the counters untouched; otherwise the check is counted, stamped with `now`
        and run by the HTTP executor whatever the monitor's type. A failing lookup
        is counted as an error and rethrown. */
    method RunMonitorCheck(monitorId: int, lookup: Result<Option<Monitor>>, probe: HttpMonitor.HttpProbe, now: int)
      returns (r: Result<Option<CheckResult>>)
      requires Valid()
      modifies this
      ensures Valid()
      ensures lookup.Failure? ==>
        r == Failure(lookup.error) && stats == old(stats).(errors := old(stats).errors + 1)
      ensures lookup.Success? && (lookup.value.None? || !lookup.value.value.isActive) ==>
        r == Success(None) && stats == old(stats)
      ensures lookup.Success? && lookup.value.Some? && lookup.value.value.isActive ==>
        && r == Success(Some(HttpMonitor.PerformCheck(lookup.value.value, probe).result))
        && stats == old(stats).(totalChecks := old(stats).totalChecks + 1, lastCheck := Some(now))
      ensures isRunning == old(isRunning) && scheduledJobs == old(scheduledJobs) && keyOrder == old(keyOrder)
    {
      if lookup.Failure? {
        stats := stats.(errors := stats.errors + 1);
        return Failure(lookup.error);
      }
      var found := lookup.value;
      if found.None? || !found.value.isActive {
        return Success(None);
      }
      stats := stats.(totalChecks := stats.totalChecks + 1, lastCheck := Some(now));
      var checked := HttpMonitor.PerformCheck(found.value, probe);
      r := Success(Some(checked.result));
    }

    /** `getStatus`: the flag, the number of filed jobs, the counters, and the time
        since the last check (null before the first one). */
    function GetStatus(now: int): (s: SchedulerStatus)
      reads this
      ensures s.isRunning == isRunning && s.scheduledJobs == |scheduledJobs| && s.stats == stats
      ensures s.uptime.Some? <==> stats.lastCheck.Some?
      ensures s.uptime.Some? ==> s.uptime.value + stats.lastCheck.value == now
    {
      SchedulerStatus(isRunning, |scheduledJobs|, stats,
        if stats.lastCheck.Some? then Some(now - stats.lastCheck.value) else None)
    }

    /** `getScheduledJobs`: counts the registry's monitors (`registry` is what
        `Monitor.findAll` returned) by interval key and by type. Every monitor is
        counted exactly once in each tally. */
    method GetScheduledJobs(registry: Result<seq<Monitor>>) returns (r: Result<ScheduleSummary>)
      ensures registry.Failure? ==> r == Failure(registry.error)
      ensures registry.Success? ==>
        var monitors := registry.value;
        && r.Success? && r.value.totalMonitors == |monitors|
        && r.value.byInterval == TallyOf(IntervalKeys(monitors))
        && r.value.byType == TallyOf(TypeKeys(monitors))
        && Sum(r.value.byInterval) == |monitors| && Sum(r.value.byType) == |monitors|
    {
      if registry.Failure? {
        return Failure(registry.error);
      }
      var monitors := registry.value;
      var byInterval: Tally := [];
      var byType: Tally := [];
      for k := 0 to |monitors|
        invariant byInterval == TallyOf(IntervalKeys(monitors[..k]))
        invariant byType == TallyOf(TypeKeys(monitors[..k]))
      {
        assert monitors[..k + 1][..k] == monitors[..k];
        byInterval := Bump(byInterval, IntervalKey(monitors[k]));
        byType := Bump(byType, monitors[k].kind);
      }
      assert monitors[..|monitors|] == monitors;
      TallySum(IntervalKeys(monitors));
      TallySum(TypeKeys(monitors));
      r := Success(ScheduleSummary(|monitors|, byInterval, byType));
    }
  }

  // ---------------------------------------------------------------------------
  // Tallies

  /** `${monitor.interval}s`; an absent `interval` renders as `undefined`. */
  function IntervalKey(monitor: Monitor): string {
    (if monitor.interval.Some? then IntToString(monitor.interval.value) else "undefined") + "s"
  }

  function IntervalKeys(monitors: seq<Monitor>): (keys: seq<string>)
    ensures |keys| == |monitors|
    decreases |monitors|
  {
    if |monitors| == 0 then [] else IntervalKeys(monitors[..|monitors| - 1]) + [IntervalKey(monitors[|monitors| - 1])]
  }

  function TypeKeys(monitors: seq<Monitor>): (keys: seq<string>)
    ensures |keys| == |monitors|
    decreases |monitors|
  {
    if |monitors| == 0 then [] else TypeKeys(monitors[..|monitors| - 1]) + [monitors[|monitors| - 1].kind]
  }

  /** `if (!t[key]) t[key] = 0; t[key]++`: counts one more `key`. */
  function Bump(t: Tally, key: string): Tally
    decreases |t|
  {
    if |t| == 0 then [(key, 1)]
    else if t[0].0 == key then [(key, t[0].1 + 1)] + t[1..]
    else [t[0]] + Bump(t[1..], key)
  }

  /** The tally of `keys`, counted one after another. */
  function TallyOf(keys: seq<string>): Tally
    decreases |keys|
  {
    if |keys| == 0 then [] else Bump(TallyOf(keys[..|keys| - 1]), keys[|keys| - 1])
  }

  function Sum(t: Tally): nat
    decreases |t|
  {
    if |t| == 0 then 0 else t[0].1 + Sum(t[1..])
  }

  /** The count a tally holds for `key` (0 when the key is absent). */
  function Lookup(t: Tally, key: string): nat
    decreases |t|
  {
    if |t| == 0 then 0 else (if t[0].0 == key then t[0].1 else 0) + Lookup(t[1..], key)
  }

  /** How often `key` occurs in `keys`. */
  function CountOf(keys: seq<string>, key: string): nat
    decreases |keys|
  {
    if |keys| == 0 then 0 else CountOf(keys[..|keys| - 1], key) + (if keys[|keys| - 1] == key then 1 else 0)
  }

  predicate DistinctKeys(t: Tally) {
    forall i, j :: 0 <= i < j < |t| ==> t[i].0 != t[j].0
  }

  lemma {:induction false} BumpSum(t: Tally, key: string)
    ensures Sum(Bump(t, key)) == Sum(t) + 1
    decreases |t|
  {
    if |t| > 0 && t[0].0 != key {
      BumpSum(t[1..], key);
      assert ([t[0]] + Bump(t[1..], key))[1..] == Bump(t[1..], key);
    } else if |t| > 0 {
      assert ([(key, t[0].1 + 1)] + t[1..])[1..] == t[1..];
    }
  }

  /** The counts of a tally add up to the number of keys counted: in the schedule
      summary, each tally sums to the number of monitors. */
  lemma {:induction false} TallySum(keys: seq<string>)
    ensures Sum(TallyOf(keys)) == |keys|
    decreases |keys|
  {
    if |keys| > 0 {
      TallySum(keys[..|keys| - 1]);
      BumpSum(TallyOf(keys[..|keys| - 1]), keys[|keys| - 1]);
    }
  }

  lemma {:induction false} BumpLookup(t: Tally, key: string, other: string)
    ensures Lookup(Bump(t, key), other) == Lookup(t, other) + (if other == key then 1 else 0)
    decreases |t|
  {
    if |t| > 0 && t[0].0 != key {
      BumpLookup(t[1..], key, other);
      assert ([t[0]] + Bump(t[1..], key))[1..] == Bump(t[1..], key);
    } else if |t| > 0 {
      assert ([(key, t[0].1 + 1)] + t[1..])[1..] == t[1..];
    }
  }

  lemma {:induction false} BumpDistinct(t: Tally, key: string)
    requires DistinctKeys(t)
    ensures DistinctKeys(Bump(t, key))
    ensures forall i :: 0 <= i < |Bump(t, key)| ==> Bump(t, key)[i].0 == key || exists j :: 0 <= j < |t| && t[j].0 == Bump(t, key)[i].0
    decreases |t|
  {
    if |t| > 0 && t[0].0 != key {
      BumpDistinct(t[1..], key);
      var b := Bump(t[1..], key);
      assert Bump(t, key) == [t[0]] + b;
      forall i | 0 < i < |Bump(t, key)| ensures Bump(t, key)[i].0 != t[0].0 {
        assert Bump(t, key)[i] == b[i - 1];
        if b[i - 1].0 != key {
          var j :| 0 <= j < |t[1..]| && t[1..][j].0 == b[i - 1].0;
          assert t[j + 1].0 == b[i - 1].0;
        }
      }
      forall i | 0 < i < |Bump(t, key)|
        ensures Bump(t, key)[i].0 == key || exists j :: 0 <= j < |t| && t[j].0 == Bump(t, key)[i].0
      {
        assert Bump(t, key)[i] == b[i - 1];
        if b[i - 1].0 != key {
          var j :| 0 <= j < |t[1..]| && t[1..][j].0 == b[i - 1].0;
          assert t[j + 1].0 == b[i - 1].0;
        }
      }
    } else if |t| > 0 {
      var b := Bump(t, key);
      assert b == [(key, t[0].1 + 1)] + t[1..];
      forall i | 0 < i < |b| ensures b[i] == t[i] {
      }
    }
  }

  /** The tally has one entry per distinct key, and the entry for a key holds how
      often the key occurs: every monitor is counted under its own key. */
  lemma {:induction false} TallyCounts(keys: seq<string>, key: string)
    ensures DistinctKeys(TallyOf(keys))
    ensures Lookup(TallyOf(keys), key) == CountOf(keys, key)
    decreases |keys|
  {
    if |keys| > 0 {
      var init := keys[..|keys| - 1];
      TallyCounts(init, key);
      BumpLookup(TallyOf(init), keys[|keys| - 1], key);
      BumpDistinct(TallyOf(init), keys[|keys| - 1]);
    }
  }
}
