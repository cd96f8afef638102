/** `estimate_smoke_runtime` (`experiments/evidence.py`) and the checks of the
    `RuntimeEstimate` record it builds (`experiments/contracts.py`). */
module RuntimeEstimates {
  import opened Wrappers
  import opened ListSchedule
  import opened Reals
  import opened Sequences

  datatype Device = Cpu | Cuda

  /** `runtime_seconds` of a record: a number, a number that is not finite, or no number. */
  datatype Runtime = Seconds(value: real) | NotFinite | NotANumber

  /** An entry of the inventory's record list. */
  datatype Entry =
    | NotARecord
    | Record(modelId: string, packageVersion: string, device: Device, fixtureId: string, status: string, runtime: Runtime)

  datatype Condition = Condition(id: string, taskName: string, modelId: string, packageVersion: string, device: Device)

  datatype EstimateError = NoTimingRecords | NoRuntimeFor(modelId: string) | NotSixAndFour

  datatype Estimate = Estimate(conditionSeconds: map<string, real>, cpuIds: seq<string>, gpuIds: seq<string>,
                               cpuSeconds: real, gpuSeconds: real, totalSeconds: real)

  /** A frozen plan names each condition and each task once. */
  ghost predicate ValidPlan(plan: seq<Condition>) {
    forall i, j :: 0 <= i < j < |plan| ==> plan[i].id != plan[j].id && plan[i].taskName != plan[j].taskName
  }

  // ----- the duration of a condition -----

  predicate Supports(e: Entry, c: Condition) {
    && e.Record? && e.modelId == c.modelId && e.packageVersion == c.packageVersion && e.device == c.device
    && e.fixtureId == "binary_numerical" && e.status == "PASS"
    && e.runtime.Seconds? && e.runtime.value > 0.0
  }

  ghost predicate Supported(records: seq<Entry>, c: Condition) {
    exists k :: 0 <= k < |records| && Supports(records[k], c)
  }

  /** The largest accepted runtime of a condition. */
  ghost predicate IsDuration(records: seq<Entry>, c: Condition, d: real) {
    && (exists k :: 0 <= k < |records| && Supports(records[k], c) && records[k].runtime.value == d)
    && (forall k :: 0 <= k < |records| && Supports(records[k], c) ==> records[k].runtime.value <= d)
  }

  /** `max(candidates)`, if there are any. */
  method Duration(records: seq<Entry>, c: Condition) returns (r: Option<real>)
    ensures r.None? <==> !Supported(records, c)
    ensures r.Some? ==> IsDuration(records, c, r.value)
  {
    r := None;
    for i := 0 to |records|
      invariant r.None? ==> forall k :: 0 <= k < i ==> !Supports(records[k], c)
      invariant r.Some? ==> exists k :: 0 <= k < i && Supports(records[k], c) && records[k].runtime.value == r.value
      invariant r.Some? ==> forall k :: 0 <= k < i && Supports(records[k], c) ==> records[k].runtime.value <= r.value
    {
      if Supports(records[i], c) && (r.None? || r.value < records[i].runtime.value) {
        r := Some(records[i].runtime.value);
      }
    }
  }

  ghost predicate Durations(records: seq<Entry>, plan: seq<Condition>, seconds: map<string, real>) {
    && (forall id :: id in seconds <==> exists k :: 0 <= k < |plan| && plan[k].id == id)
    && (forall k :: 0 <= k < |plan| ==> plan[k].id in seconds && IsDuration(records, plan[k], seconds[plan[k].id]))
  }

  /** The first loop: a duration for every condition, or the model of the first one without. */
  method ConditionSeconds(records: seq<Entry>, plan: seq<Condition>) returns (r: Result<map<string, real>, EstimateError>)
    requires ValidPlan(plan)
    ensures r.Ok? <==> forall k :: 0 <= k < |plan| ==> Supported(records, plan[k])
    ensures r.Ok? ==> Durations(records, plan, r.value)
    ensures r.Err? ==> exists k :: 0 <= k < |plan| && !Supported(records, plan[k]) && r.error == NoRuntimeFor(plan[k].modelId)
                                   && forall j :: 0 <= j < k ==> Supported(records, plan[j])
  {
    hide Supported, IsDuration;
    var seconds: map<string, real> := map[];
    for i := 0 to |plan|
      invariant forall id :: id in seconds <==> exists k :: 0 <= k < i && plan[k].id == id
      invariant forall k :: 0 <= k < i ==> Supported(records, plan[k])
      invariant forall k :: 0 <= k < i ==> plan[k].id in seconds && IsDuration(records, plan[k], seconds[plan[k].id])
    {
      var d := Duration(records, plan[i]);
      if d.None? {
        return Err(NoRuntimeFor(plan[i].modelId));
      }
      seconds := seconds[plan[i].id := d.value];
    }
    return Ok(seconds);
  }

  // ----- the schedule -----

  /** `by_task`. */
  function ByTask(plan: seq<Condition>): (m: map<string, Condition>)
    ensures forall t :: t in m <==> exists k :: 0 <= k < |plan| && plan[k].taskName == t
    ensures forall t :: t in m ==> m[t] in plan && m[t].taskName == t
  {
    if plan == [] then map[]
    else
      var n := |plan| - 1;
      ByTask(plan[..n])[plan[n].taskName := plan[n]]
  }

  /** The durations of the tasks on one device, in the order of the schedule. */
  function DeviceDurations(order: seq<string>, onCpu: map<string, bool>, timing: map<string, real>, cpu: bool): seq<real>
    requires forall k :: 0 <= k < |order| ==> order[k] in onCpu && order[k] in timing
  {
    if order == [] then []
    else
      var n := |order| - 1;
      DeviceDurations(order[..n], onCpu, timing, cpu) + (if onCpu[order[n]] == cpu then [timing[order[n]]] else [])
  }

  function OnCpu(plan: seq<Condition>): map<string, bool> {
    map t | t in ByTask(plan) :: ByTask(plan)[t].device.Cpu?
  }

  /** Seconds by task name. */
  function Timing(plan: seq<Condition>, seconds: map<string, real>): map<string, real>
    requires forall k :: 0 <= k < |plan| ==> plan[k].id in seconds
  {
    map t | t in ByTask(plan) :: seconds[ByTask(plan)[t].id]
  }

  /** The tasks of the scheduler plan are tasks of the smoke plan. */
  ghost predicate Schedules(order: seq<string>, plan: seq<Condition>) {
    forall k :: 0 <= k < |order| ==> order[k] in ByTask(plan)
  }

  function IdsOn(plan: seq<Condition>, device: Device): seq<string> {
    if plan == [] then []
    else
      var n := |plan| - 1;
      IdsOn(plan[..n], device) + (if plan[n].device == device then [plan[n].id] else [])
  }

  lemma NothingScheduled(onCpu: map<string, bool>, timing: map<string, real>)
    ensures DeviceDurations([], onCpu, timing, true) == [] && DeviceDurations([], onCpu, timing, false) == []
    ensures Greedy([]) == Loads(0.0, 0.0) && Sum([]) == 0.0
  {
  }

  lemma DurationsStep(order: seq<string>, i: nat, onCpu: map<string, bool>, timing: map<string, real>, cpu: bool)
    requires i < |order| && forall k :: 0 <= k < |order| ==> order[k] in onCpu && order[k] in timing
    ensures var before, after := DeviceDurations(order[..i], onCpu, timing, cpu), DeviceDurations(order[..i + 1], onCpu, timing, cpu);
            after == if onCpu[order[i]] == cpu then before + [timing[order[i]]] else before
  {
    assert order[..i + 1][..i] == order[..i];
  }

  /** The second loop: the CPU loads and the GPU total. */
  method ScheduleTasks(plan: seq<Condition>, seconds: map<string, real>, order: seq<string>) returns (cpu: real, gpu: real)
    requires forall k :: 0 <= k < |plan| ==> plan[k].id in seconds
    requires Schedules(order, plan)
    ensures cpu == Makespan(Greedy(DeviceDurations(order, OnCpu(plan), Timing(plan, seconds), true)))
    ensures gpu == Sum(DeviceDurations(order, OnCpu(plan), Timing(plan, seconds), false))
  {
    hide ByTask, Greedy, Sum, DeviceDurations;
    var byTask := ByTask(plan);
    ghost var onCpu, timing := OnCpu(plan), Timing(plan, seconds);
    var cpuLoads := new real[2](_ => 0.0);
    gpu := 0.0;
    NothingScheduled(onCpu, timing);
    assert order[..0] == [];
    for i := 0 to |order|
      invariant Greedy(DeviceDurations(order[..i], onCpu, timing, true)) == Loads(cpuLoads[0], cpuLoads[1])
      invariant gpu == Sum(DeviceDurations(order[..i], onCpu, timing, false))
    {
      var condition := byTask[order[i]];
      var duration := seconds[condition.id];
      DurationsStep(order, i, onCpu, timing, true);
      DurationsStep(order, i, onCpu, timing, false);
      GreedyStep(DeviceDurations(order[..i], onCpu, timing, true), duration);
      SumStep(DeviceDurations(order[..i], onCpu, timing, false), duration);
      if condition.device.Cpu? {
        var worker := if cpuLoads[1] < cpuLoads[0] then 1 else 0;
        cpuLoads[worker] := cpuLoads[worker] + duration;
      } else {
        gpu := gpu + duration;
      }
    }
    assert order[..|order|] == order;
    cpu := Max(cpuLoads[0], cpuLoads[1]);
  }

  /** What an estimate must be: durations from the records, the greedy makespan on two CPU
      workers, the GPU total, and the safety formula. */
  ghost predicate IsEstimate(e: Estimate, records: seq<Entry>, plan: seq<Condition>, order: seq<string>)
    requires Schedules(order, plan)
  {
    && Durations(records, plan, e.conditionSeconds)
    && e.cpuIds == IdsOn(plan, Cpu) && e.gpuIds == IdsOn(plan, Cuda) && |e.cpuIds| == 6 && |e.gpuIds| == 4
    && e.cpuSeconds == Makespan(Greedy(DeviceDurations(order, OnCpu(plan), Timing(plan, e.conditionSeconds), true)))
    && e.gpuSeconds == Sum(DeviceDurations(order, OnCpu(plan), Timing(plan, e.conditionSeconds), false))
    && e.totalSeconds == (e.cpuSeconds + e.gpuSeconds) * 1.5 + 60.0
  }

  /** `estimate_smoke_runtime`; `None` is an inventory without a record list. */
  method EstimateSmokeRuntime(inventory: Option<seq<Entry>>, plan: seq<Condition>, order: seq<string>)
    returns (r: Result<Estimate, EstimateError>)
    requires ValidPlan(plan) && Schedules(order, plan)
    ensures r.Ok? <==> (&& inventory.Some? && (forall k :: 0 <= k < |plan| ==> Supported(inventory.value, plan[k]))
                        && |IdsOn(plan, Cpu)| == 6 && |IdsOn(plan, Cuda)| == 4)
    ensures r.Ok? ==> IsEstimate(r.value, inventory.value, plan, order)
    ensures r == Err(NoTimingRecords) <==> inventory.None?
    ensures r.Err? && r.error.NoRuntimeFor? ==> exists c :: c in plan && !Supported(inventory.value, c) && r.error.modelId == c.modelId
  {
    hide Supported, IsDuration, ValidPlan;
    if inventory.None? {
      return Err(NoTimingRecords);
    }
    var seconds := ConditionSeconds(inventory.value, plan);
    if seconds.Err? {
      return Err(seconds.error);
    }
    var cpu, gpu := ScheduleTasks(plan, seconds.value, order);
    var cpuIds, gpuIds := IdsOn(plan, Cpu), IdsOn(plan, Cuda);
    if |cpuIds| != 6 || |gpuIds| != 4 {
      return Err(NotSixAndFour);
    }
    return Ok(Estimate(seconds.value, cpuIds, gpuIds, cpu, gpu, (cpu + gpu) * 1.5 + 60.0));
  }

  // ----- what the estimate is made of -----

  /** Only the accepted binary-fixture runs of this very model, version and device count: any other
      entry could as well not be there. */
  lemma OtherRecordsDoNotCount(records: seq<Entry>, e: Entry, c: Condition, d: real)
    requires e.NotARecord? || e.modelId != c.modelId || e.packageVersion != c.packageVersion || e.device != c.device
          || e.fixtureId != "binary_numerical" || e.status != "PASS" || !e.runtime.Seconds? || e.runtime.value <= 0.0
    ensures IsDuration(records + [e], c, d) <==> IsDuration(records, c, d)
    ensures Supported(records + [e], c) <==> Supported(records, c)
  {
    var more := records + [e];
    assert forall k :: 0 <= k < |records| ==> more[k] == records[k];
    assert more[|records|] == e && !Supports(e, c);
  }

  /** And such a run does count. */
  lemma AcceptedRunCounts(records: seq<Entry>, c: Condition, seconds: real)
    requires seconds > 0.0
    ensures var e := Record(c.modelId, c.packageVersion, c.device, "binary_numerical", "PASS", Seconds(seconds));
            Supported(records + [e], c) && forall d :: IsDuration(records + [e], c, d) ==> seconds <= d
  {
    var e := Record(c.modelId, c.packageVersion, c.device, "binary_numerical", "PASS", Seconds(seconds));
    assert (records + [e])[|records|] == e && Supports(e, c);
  }

  /** The conditions on a device. */
  lemma {:induction false} IdsOnMeans(plan: seq<Condition>, device: Device, id: string)
    ensures id in IdsOn(plan, device) <==> exists k :: 0 <= k < |plan| && plan[k].device == device && plan[k].id == id
  {
    if plan != [] {
      var n := |plan| - 1;
      IdsOnMeans(plan[..n], device, id);
      if k :| 0 <= k < |plan| && plan[k].device == device && plan[k].id == id {
        if k < n {
          assert plan[..n][k] == plan[k];
        }
      }
    }
  }

  /** The durations of the tasks, whatever their device. */
  function TaskDurations(order: seq<string>, timing: map<string, real>): (r: seq<real>)
    requires forall k :: 0 <= k < |order| ==> order[k] in timing
    ensures |r| == |order| && forall k :: 0 <= k < |r| ==> r[k] == timing[order[k]]
  {
    seq(|order|, k requires 0 <= k < |order| => timing[order[k]])
  }

  lemma DurationsLast(order: seq<string>, onCpu: map<string, bool>, timing: map<string, real>, cpu: bool)
    requires order != [] && forall k :: 0 <= k < |order| ==> order[k] in onCpu && order[k] in timing
    ensures var n := |order| - 1;
            Sum(DeviceDurations(order, onCpu, timing, cpu))
            == Sum(DeviceDurations(order[..n], onCpu, timing, cpu)) + (if onCpu[order[n]] == cpu then timing[order[n]] else 0.0)
  {
    var n := |order| - 1;
    var rest := DeviceDurations(order[..n], onCpu, timing, cpu);
    SumStep(rest, timing[order[n]]);
    assert rest + [] == rest;
    hide Sum;
  }

  lemma TasksLast(order: seq<string>, timing: map<string, real>)
    requires order != [] && forall k :: 0 <= k < |order| ==> order[k] in timing
    ensures var n := |order| - 1;
            Sum(TaskDurations(order, timing)) == Sum(TaskDurations(order[..n], timing)) + timing[order[n]]
  {
    var n := |order| - 1;
    SumStep(TaskDurations(order[..n], timing), timing[order[n]]);
    hide Sum;
    assert TaskDurations(order, timing) == TaskDurations(order[..n], timing) + [timing[order[n]]];
  }

  /** The two devices share the work between them: none is lost, none done twice. */
  lemma {:induction false} DevicesConserveWork(order: seq<string>, onCpu: map<string, bool>, timing: map<string, real>)
    requires forall k :: 0 <= k < |order| ==> order[k] in onCpu && order[k] in timing
    ensures Sum(DeviceDurations(order, onCpu, timing, true)) + Sum(DeviceDurations(order, onCpu, timing, false)) == Sum(TaskDurations(order, timing))
  {
    if order == [] {
      assert TaskDurations(order, timing) == [];
    } else {
      hide DeviceDurations, TaskDurations, Sum;
      DevicesConserveWork(order[..|order| - 1], onCpu, timing);
      DurationsLast(order, onCpu, timing, true);
      DurationsLast(order, onCpu, timing, false);
      TasksLast(order, timing);
    }
  }

  predicate RunsOn(plan: seq<Condition>, task: string, device: Device) {
    exists k :: 0 <= k < |plan| && plan[k].taskName == task && plan[k].device == device
  }

  /** The tasks on a device, in the order of the schedule. */
  function TasksOn(order: seq<string>, plan: seq<Condition>, device: Device): seq<string> {
    if order == [] then []
    else
      var n := |order| - 1;
      TasksOn(order[..n], plan, device) + (if RunsOn(plan, order[n], device) then [order[n]] else [])
  }

  /** The CPU workers get exactly the tasks of CPU conditions, the GPU the others, each with the
      duration of its condition. */
  lemma {:induction false} DurationsAreThoseOfTheDevice(order: seq<string>, plan: seq<Condition>, seconds: map<string, real>, device: Device)
    requires ValidPlan(plan) && Schedules(order, plan) && forall k :: 0 <= k < |plan| ==> plan[k].id in seconds
    ensures forall k :: 0 <= k < |TasksOn(order, plan, device)| ==> TasksOn(order, plan, device)[k] in Timing(plan, seconds)
    ensures DeviceDurations(order, OnCpu(plan), Timing(plan, seconds), device.Cpu?) == TaskDurations(TasksOn(order, plan, device), Timing(plan, seconds))
  {
    hide ByTask, RunsOn, ValidPlan;
    if order != [] {
      var n := |order| - 1;
      DurationsAreThoseOfTheDevice(order[..n], plan, seconds, device);
      OneConditionATask(plan, order[n]);
    }
  }

  /** So the estimate is one and a half times the greedy makespan of the CPU tasks and the work of
      the GPU tasks, and a minute. */
  lemma EstimateMeans(e: Estimate, records: seq<Entry>, plan: seq<Condition>, order: seq<string>)
    requires ValidPlan(plan) && Schedules(order, plan) && IsEstimate(e, records, plan, order)
    ensures forall k :: 0 <= k < |plan| ==> plan[k].id in e.conditionSeconds
    ensures var timing := Timing(plan, e.conditionSeconds);
            var cpu, gpu := TasksOn(order, plan, Cpu), TasksOn(order, plan, Cuda);
            && (forall k :: 0 <= k < |cpu| ==> cpu[k] in timing) && (forall k :: 0 <= k < |gpu| ==> gpu[k] in timing)
            && e.totalSeconds == 1.5 * Makespan(Greedy(TaskDurations(cpu, timing))) + 1.5 * Sum(TaskDurations(gpu, timing)) + 60.0
  {
    DurationsAreThoseOfTheDevice(order, plan, e.conditionSeconds, Cpu);
    DurationsAreThoseOfTheDevice(order, plan, e.conditionSeconds, Cuda);
    hide Greedy, Sum, Makespan, DeviceDurations, TaskDurations, TasksOn, Timing, ByTask, ValidPlan, Schedules;
  }

  lemma OneConditionATask(plan: seq<Condition>, task: string)
    requires ValidPlan(plan) && task in ByTask(plan)
    ensures forall device :: RunsOn(plan, task, device) <==> ByTask(plan)[task].device == device
    ensures forall c :: c in plan && c.taskName == task ==> c == ByTask(plan)[task]
  {
    hide ByTask;
    var mine := ByTask(plan)[task];
    forall c | c in plan && c.taskName == task
      ensures c == mine
    {
      var i :| 0 <= i < |plan| && plan[i] == c;
      var j :| 0 <= j < |plan| && plan[j] == mine;
    }
    var own :| 0 <= own < |plan| && plan[own] == mine;
    forall device
      ensures RunsOn(plan, task, device) <==> mine.device == device
    {
      if mine.device == device {
        assert plan[own].device == device;
      }
    }
  }

  // ----- what the estimate covers -----

  lemma {:induction false} DurationsAppend(s: seq<string>, t: seq<string>, onCpu: map<string, bool>, timing: map<string, real>, cpu: bool)
    requires forall k :: 0 <= k < |s| ==> s[k] in onCpu && s[k] in timing
    requires forall k :: 0 <= k < |t| ==> t[k] in onCpu && t[k] in timing
    ensures DeviceDurations(s + t, onCpu, timing, cpu) == DeviceDurations(s, onCpu, timing, cpu) + DeviceDurations(t, onCpu, timing, cpu)
    decreases |t|
  {
    if t == [] {
      assert s + t == s;
    } else {
      var n := |t| - 1;
      assert (s + t)[..|s + t| - 1] == s + t[..n];
      DurationsAppend(s, t[..n], onCpu, timing, cpu);
    }
  }

  lemma DurationsWithOneMore(a: seq<string>, x: string, b: seq<string>, onCpu: map<string, bool>, timing: map<string, real>, cpu: bool)
    requires forall k :: 0 <= k < |a| ==> a[k] in onCpu && a[k] in timing
    requires forall k :: 0 <= k < |b| ==> b[k] in onCpu && b[k] in timing
    requires x in onCpu && x in timing
    ensures multiset(DeviceDurations(a + [x] + b, onCpu, timing, cpu))
         == multiset(DeviceDurations(a + b, onCpu, timing, cpu)) + (if onCpu[x] == cpu then multiset{timing[x]} else multiset{})
  {
    assert [x][..0] == [];
    DurationsAppend(a, [x], onCpu, timing, cpu);
    DurationsAppend(a + [x], b, onCpu, timing, cpu);
    DurationsAppend(a, b, onCpu, timing, cpu);
  }

  ghost predicate Timed(order: seq<string>, onCpu: map<string, bool>, timing: map<string, real>) {
    forall k :: 0 <= k < |order| ==> order[k] in onCpu && order[k] in timing
  }

  lemma TimedReorders(s: seq<string>, t: seq<string>, onCpu: map<string, bool>, timing: map<string, real>)
    requires multiset(s) == multiset(t) && Timed(s, onCpu, timing)
    ensures Timed(t, onCpu, timing)
  {
    forall k | 0 <= k < |t|
      ensures t[k] in onCpu && t[k] in timing
    {
      assert t[k] in multiset(s);
    }
  }

  lemma TimedParts(s: seq<string>, j: nat, onCpu: map<string, bool>, timing: map<string, real>)
    requires j < |s| && Timed(s, onCpu, timing)
    ensures Timed(s[..j], onCpu, timing) && Timed(s[j + 1..], onCpu, timing) && s[j] in onCpu && s[j] in timing
    ensures Timed(s[..j] + s[j + 1..], onCpu, timing)
  {
  }

  /** Another order of the tasks gives the same durations in another order. */
  lemma {:induction false} DurationsReorder(s: seq<string>, t: seq<string>, onCpu: map<string, bool>, timing: map<string, real>, cpu: bool)
    requires multiset(s) == multiset(t) && Timed(s, onCpu, timing) && Timed(t, onCpu, timing)
    ensures multiset(DeviceDurations(s, onCpu, timing, cpu)) == multiset(DeviceDurations(t, onCpu, timing, cpu))
  {
    hide DeviceDurations;
    assert |multiset(s)| == |s| && |multiset(t)| == |t|;
    if s == [] {
      assert t == [];
    } else {
      assert s[0] in multiset(t);
      var j :| 0 <= j < |t| && t[j] == s[0];
      TakeOut(s, 0);
      TakeOut(t, j);
      TimedParts(s, 0, onCpu, timing);
      TimedParts(t, j, onCpu, timing);
      DurationsReorder(s[..0] + s[1..], t[..j] + t[j + 1..], onCpu, timing, cpu);
      DurationsWithOneMore(s[..0], s[0], s[1..], onCpu, timing, cpu);
      DurationsWithOneMore(t[..j], s[0], t[j + 1..], onCpu, timing, cpu);
    }
  }

  lemma {:induction false} DurationsPointwise(order: seq<string>, onCpu: map<string, bool>, low: map<string, real>, high: map<string, real>, cpu: bool)
    requires forall k :: 0 <= k < |order| ==> order[k] in onCpu && order[k] in low && order[k] in high
    requires forall k :: 0 <= k < |order| ==> 0.0 <= low[order[k]] <= high[order[k]]
    ensures var s, t := DeviceDurations(order, onCpu, low, cpu), DeviceDurations(order, onCpu, high, cpu);
            |s| == |t| && forall k :: 0 <= k < |s| ==> 0.0 <= s[k] <= t[k]
  {
    if order != [] {
      DurationsPointwise(order[..|order| - 1], onCpu, low, high, cpu);
    }
  }

  /** An estimate covers every run of its tasks: whatever order the two CPU workers take them
      in, if no task takes longer than its condition's duration, greedy CPU work and then GPU
      work end within the estimated total, its minute of coordination left over. */
  lemma EstimateCoversEveryRun(e: Estimate, records: seq<Entry>, plan: seq<Condition>, order: seq<string>,
                               order': seq<string>, actual: map<string, real>)
    requires Schedules(order, plan) && IsEstimate(e, records, plan, order)
    requires multiset(order') == multiset(order)
    requires forall k :: 0 <= k < |order'| ==>
               order'[k] in ByTask(plan) && order'[k] in actual && 0.0 <= actual[order'[k]] <= e.conditionSeconds[ByTask(plan)[order'[k]].id]
    ensures Makespan(Greedy(DeviceDurations(order', OnCpu(plan), actual, true)))
          + Sum(DeviceDurations(order', OnCpu(plan), actual, false)) + 60.0 <= e.totalSeconds
  {
    hide ByTask, Greedy, Sum, Longest, Makespan, DeviceDurations, Durations;
    var onCpu := OnCpu(plan);
    CoversPlan(records, plan, e.conditionSeconds);
    var timing := Timing(plan, e.conditionSeconds);
    assert Timed(order, onCpu, timing);
    TimedReorders(order, order', onCpu, timing);
    DurationsReorder(order', order, onCpu, timing, true);
    DurationsReorder(order', order, onCpu, timing, false);
    DurationsPointwise(order', onCpu, actual, timing, true);
    DurationsPointwise(order', onCpu, actual, timing, false);
    DurationsPointwise(order', onCpu, timing, timing, false);
    var gpu, gpu' := DeviceDurations(order', onCpu, actual, false), DeviceDurations(order, onCpu, timing, false);
    SumIgnoresOrder(DeviceDurations(order', onCpu, timing, false), gpu');
    SumIsMonotone(gpu, DeviceDurations(order', onCpu, timing, false));
    SumNonNegative(gpu);
    DurationsPositive(order, onCpu, timing, plan, records, e.conditionSeconds);
    ThreeHalvesCoverEveryOrder(DeviceDurations(order, onCpu, timing, true), DeviceDurations(order', onCpu, timing, true),
                               DeviceDurations(order', onCpu, actual, true));
  }

  lemma CoversPlan(records: seq<Entry>, plan: seq<Condition>, seconds: map<string, real>)
    requires Durations(records, plan, seconds)
    ensures forall k :: 0 <= k < |plan| ==> plan[k].id in seconds
    ensures forall t :: t in ByTask(plan) ==> ByTask(plan)[t].id in seconds && seconds[ByTask(plan)[t].id] > 0.0
  {
    forall t | t in ByTask(plan)
      ensures ByTask(plan)[t].id in seconds && seconds[ByTask(plan)[t].id] > 0.0
    {
      var k :| 0 <= k < |plan| && plan[k] == ByTask(plan)[t];
      assert IsDuration(records, plan[k], seconds[plan[k].id]);
    }
  }

  lemma DurationsPositive(order: seq<string>, onCpu: map<string, bool>, timing: map<string, real>,
                          plan: seq<Condition>, records: seq<Entry>, seconds: map<string, real>)
    requires Schedules(order, plan) && Durations(records, plan, seconds) && onCpu == OnCpu(plan)
    requires forall k :: 0 <= k < |plan| ==> plan[k].id in seconds
    requires timing == Timing(plan, seconds)
    ensures NonNegative(DeviceDurations(order, onCpu, timing, true))
  {
    hide ByTask, Durations;
    CoversPlan(records, plan, seconds);
    DurationsPointwise(order, onCpu, timing, timing, true);
  }
}
