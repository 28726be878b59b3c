/** One run of a plan: its mutable context, and a task as a sequence of segments between awaits. */
module ExecutionModel {
  import opened Plans

  const MAX_RECOVERY_ACTIONS := 5
  const MAX_PLAN_STEPS := 100
  const DEFAULT_SPAWN_LIMIT := 3

  // A preview_state value. Whether it is truthy decides an approval; only a dictionary or null
  // can be stored as a step's result.
  datatype Value = Value(truthy: bool, storable: bool, content: nat)
  type Preview = map<string, Value>

  datatype ResultStatus = Completed | FailedResult | SkippedResult
  datatype StepResult = StepResult(status: ResultStatus, content: nat)
  type Results = map<int, StepResult>

  datatype Attestation = Attestation(revision: nat, child: PlanStep)

  datatype Origin = ByLevel | ByRecovery | BySpawn

  // What a task can wait for: its own call, a spawn request, the call of a child.
  datatype Awaited = OwnCall | SpawnCall(child: PlanStep) | ChildCall(child: PlanStep)

  // The history of a run. `seen` are the steps that had a result at the dispatch; an answer
  // goes to the task of its step.
  datatype TraceEvent =
    | Dispatched(step: PlanStep, origin: Origin, seen: set<int>)
    | Executed(step: PlanStep, origin: Origin)
    | Answered(step: PlanStep, call: Awaited, reply: Reply)
    | Finished(step: PlanStep, outcome: TaskOutcome)

  datatype Ctx = Ctx(results: Results, spawned: seq<PlanStep>, attestations: seq<Attestation>, revision: nat,
                     recoveries: nat, trace: seq<TraceEvent>)

  datatype Failure =
    | GateRequired(gateId: string, step: int, partial: Results)
    | NotConnected
    | SpawnDenied
    | OtherError

  datatype TaskOutcome = Returned(content: nat) | Raised(failure: Failure)

  // A spawn request; building a step from a malformed one raises.
  datatype SpawnRequest = SpawnRequest(wellFormed: bool, role: Role, kind: StepType, uses: string, call: string)

  // What the environment answers at an await: the tool, the model, the policy engine.
  datatype Reply = Reply(ok: bool, connected: bool, content: nat, requests: seq<SpawnRequest>, allowed: bool, requiresApproval: bool)

  // A task. `asked` is history: how many steps had been spawned when the request was made.
  datatype Task =
    | Ready(step: PlanStep, origin: Origin)
    | Running(step: PlanStep)
    | Asking(step: PlanStep, child: PlanStep, asked: nat, rest: seq<SpawnRequest>, content: nat)
    | Recorded(step: PlanStep, child: PlanStep, gated: bool, rest: seq<SpawnRequest>, content: nat)
    | ChildRunning(step: PlanStep, child: PlanStep, rest: seq<SpawnRequest>, content: nat)
    | ChildReturned(step: PlanStep, child: PlanStep, childContent: nat, rest: seq<SpawnRequest>, content: nat)
    | Finishing(step: PlanStep, content: nat)
    | Done(step: PlanStep, outcome: TaskOutcome)

  function Decimal(n: nat): string {
    if n < 10 then [('0' as int + n) as char] else Decimal(n / 10) + [('0' as int + n % 10) as char]
  }

  // The number a string of digits stands for.
  function Parsed(digits: string): int {
    if digits == "" then 0 else 10 * Parsed(digits[..|digits| - 1]) + (digits[|digits| - 1] as int - '0' as int)
  }

  // Decimal writes a number in digits that stand for it, without leading zeros.
  lemma {:induction false} DecimalParses(n: nat)
    ensures Parsed(Decimal(n)) == n && |Decimal(n)| > 0 && (forall i :: 0 <= i < |Decimal(n)| ==> '0' <= Decimal(n)[i] <= '9')
    ensures n > 0 ==> Decimal(n)[0] != '0'
  {
    if n >= 10 {
      DecimalParses(n / 10);
      var d := Decimal(n);
      assert d[..|d| - 1] == Decimal(n / 10);
      assert d[0] == Decimal(n / 10)[0];
    } else {
      assert Decimal(n)[..0] == "";
    }
  }

  function CarriedKey(step: StepId): string {
    "completed_step_" + Decimal(step)
  }

  predicate Approved(preview: Preview, gateId: string) {
    gateId in preview && preview[gateId].truthy
  }

  predicate GateOpen(preview: Preview, s: PlanStep) {
    s.gateId.Some? && s.gateId.value != "" ==> Approved(preview, s.gateId.value)
  }

  function MaxStep(graph: seq<PlanStep>): (m: nat)
    ensures forall s :: s in graph ==> s.step <= m
  {
    if graph == [] then 0
    else
      var rest := MaxStep(graph[..|graph| - 1]);
      var last := graph[|graph| - 1].step;
      if last > rest then last else rest
  }

  // It is the number of some step, or zero without any.
  lemma {:induction false} MaxStepReached(graph: seq<PlanStep>)
    ensures if graph == [] then MaxStep(graph) == 0 else MaxStep(graph) in Ids(graph)
  {
    if graph != [] {
      var n := |graph| - 1;
      MaxStepReached(graph[..n]);
      assert graph[n].step as int in Ids(graph);
      assert Ids(graph[..n]) <= Ids(graph);
    }
  }

  function CountBy(spawned: seq<PlanStep>, parent: int): nat {
    if spawned == [] then 0
    else CountBy(spawned[..|spawned| - 1], parent) + (if spawned[|spawned| - 1].spawnedBy == Some(parent) then 1 else 0)
  }

  function IndicesBy(spawned: seq<PlanStep>, parent: int): set<nat> {
    set i: nat | i < |spawned| && spawned[i].spawnedBy == Some(parent)
  }

  lemma {:induction false} CountByIsCount(spawned: seq<PlanStep>, parent: int)
    ensures CountBy(spawned, parent) == |IndicesBy(spawned, parent)|
  {
    if spawned != [] {
      var n := |spawned| - 1;
      CountByIsCount(spawned[..n], parent);
      var more: set<nat> := if spawned[n].spawnedBy == Some(parent) then {n} else {};
      assert IndicesBy(spawned, parent) == IndicesBy(spawned[..n], parent) + more;
    }
  }

  function Limit(s: PlanStep): nat {
    if s.maxSpawned.Some? then s.maxSpawned.value else DEFAULT_SPAWN_LIMIT
  }

  predicate SpawnsChildren(s: PlanStep) {
    s.kind.LlmReasoning? && s.trustLevel == Some(Trusted) && s.canSpawn
  }

  function NewChild(graph: seq<PlanStep>, spawned: seq<PlanStep>, parent: PlanStep, req: SpawnRequest): PlanStep {
    var n := MaxStep(graph) + |spawned| + 1;
    PlanStep(n, req.role, req.kind, req.uses, req.call, [parent.step as int], [],
             if req.role.Booker? then Some("gate-spawn-" + Decimal(n)) else None, true, None, false, None,
             Some(parent.step as int), None, None, None)
  }

  // The synchronous stretch from one spawn request to the next await.
  function NextRequest(graph: seq<PlanStep>, spawned: seq<PlanStep>, s: PlanStep, reqs: seq<SpawnRequest>, content: nat): Task {
    if reqs == [] then Finishing(s, content)
    else if CountBy(spawned, s.step) >= Limit(s) then Done(s, Raised(SpawnDenied))
    else if |graph| + |spawned| >= MAX_PLAN_STEPS then Done(s, Raised(SpawnDenied))
    else if !reqs[0].wellFormed then Done(s, Raised(OtherError))
    else Asking(s, NewChild(graph, spawned, s, reqs[0]), |spawned|, reqs[1..], content)
  }

  function Attest(c: Ctx, child: PlanStep): Ctx {
    c.(revision := c.revision + 1, attestations := c.attestations + [Attestation(c.revision + 1, child)],
       spawned := c.spawned + [child])
  }

  function Log(c: Ctx, e: TraceEvent): Ctx {
    c.(trace := c.trace + [e])
  }

  function ToolError(reply: Reply): Failure {
    if reply.connected then OtherError else NotConnected
  }

  // The stretch of a task from an await to the next.
  function Stretch(graph: seq<PlanStep>, preview: Preview, c: Ctx, task: Task, reply: Reply): (Ctx, Task) {
    match task
    case Ready(s, origin) =>
      var d := Log(c, Dispatched(s, origin, c.results.Keys));
      if GateOpen(preview, s) then (Log(d, Executed(s, origin)), Running(s))
      else (d, Done(s, Raised(GateRequired(s.gateId.value, s.step, c.results))))
    case Running(s) =>
      if !reply.ok then (c, Done(s, Raised(ToolError(reply))))
      else if SpawnsChildren(s) then (c, NextRequest(graph, c.spawned, s, reply.requests, reply.content))
      else (c, Finishing(s, reply.content))
    case Asking(s, child, _, rest, content) =>
      if !reply.ok then (c, Done(s, Raised(ToolError(reply))))
      else if !reply.allowed then (c, Done(s, Raised(SpawnDenied)))
      else (Attest(c, child), Recorded(s, child, reply.requiresApproval || child.gateId.Some?, rest, content))
    case Recorded(s, child, gated, rest, content) =>
      if gated then (c, NextRequest(graph, c.spawned, s, rest, content))
      else
        var d := Log(c, Dispatched(child, BySpawn, c.results.Keys));
        if GateOpen(preview, child) then (Log(d, Executed(child, BySpawn)), ChildRunning(s, child, rest, content))
        else (d, Done(s, Raised(GateRequired(child.gateId.value, child.step, c.results))))
    case ChildRunning(s, child, rest, content) =>
      if !reply.ok then (c, Done(s, Raised(ToolError(reply))))
      else (c, ChildReturned(s, child, reply.content, rest, content))
    case ChildReturned(s, child, childContent, rest, content) =>
      (c.(results := c.results[child.step as int := StepResult(Completed, childContent)]),
       NextRequest(graph, c.spawned, s, rest, content))
    case Finishing(s, content) => (c, Done(s, Returned(content)))
    case Done(_, _) => (c, task)
  }

  predicate Awaits(task: Task) {
    task.Running? || task.Asking? || task.ChildRunning?
  }

  function CallOf(task: Task): Awaited
    requires Awaits(task)
  {
    match task
    case Running(_) => OwnCall
    case Asking(_, child, _, _, _) => SpawnCall(child)
    case ChildRunning(_, child, _, _) => ChildCall(child)
  }

  function Heard(c: Ctx, task: Task, reply: Reply): Ctx {
    if Awaits(task) then Log(c, Answered(task.step, CallOf(task), reply)) else c
  }

  // One segment of a task; the answer it starts with and the end of the task go down in the history.
  function Segment(graph: seq<PlanStep>, preview: Preview, c: Ctx, task: Task, reply: Reply): (Ctx, Task) {
    var (d, next) := Stretch(graph, preview, Heard(c, task, reply), task, reply);
    (if next.Done? && !task.Done? then Log(d, Finished(next.step, next.outcome)) else d, next)
  }

  // ---- what every segment keeps ----------------------------------------------

  ghost predicate ChildOk(graph: seq<PlanStep>, child: PlanStep) {
    && child.spawnedBy.Some? && child.after == [child.spawnedBy.value] && !child.canSpawn
    && MaxStep(graph) < child.step
    && (child.role.Booker? <==> child.gateId.Some?)
  }

  // The revision counts the attestations and the spawned steps, the i-th attestation carries
  // revision i, no number is higher than counting on would give, and no parent has more
  // children than its limit.
  ghost predicate Accounted(graph: seq<PlanStep>, c: Ctx) {
    && c.revision == |c.attestations| == |c.spawned|
    && (forall i :: 0 <= i < |c.spawned| ==> c.attestations[i] == Attestation(i + 1, c.spawned[i]))
    && (forall i :: 0 <= i < |c.spawned| ==> ChildOk(graph, c.spawned[i]) && c.spawned[i].step <= MaxStep(graph) + 1 + i)
    && (forall s :: s in graph ==> CountBy(c.spawned, s.step) <= Limit(s))
  }

  ghost predicate DepsIn(graph: seq<PlanStep>, s: PlanStep, known: set<int>) {
    forall d :: d in s.after && d in Ids(graph) ==> d in known
  }

  predicate Skippable(preview: Preview, s: PlanStep) {
    s.executeMode == Some(PreviewOnly) || CarriedKey(s.step) in preview
  }

  // The level loop dispatches a step only after its present dependencies have results, and
  // never one that is previewed or carried over; a step is executed only with its gate
  // approved; a spawned Booker is not executed.
  ghost predicate EventOk(graph: seq<PlanStep>, preview: Preview, e: TraceEvent) {
    match e
    case Dispatched(s, origin, seen) =>
      origin.ByLevel? ==> s in graph && DepsIn(graph, s, seen) && !Skippable(preview, s)
    case Executed(s, origin) => GateOpen(preview, s) && (origin.BySpawn? ==> !s.role.Booker?)
    case Answered(_, _, _) => true
    case Finished(_, _) => true
  }

  // Every execution directly follows the dispatch of the same step.
  ghost predicate Tied(trace: seq<TraceEvent>, i: nat)
    requires i < |trace|
  {
    trace[i].Executed? ==>
      i > 0 && trace[i - 1].Dispatched? && trace[i - 1].step == trace[i].step && trace[i - 1].origin == trace[i].origin
  }

  ghost predicate TraceOk(graph: seq<PlanStep>, preview: Preview, trace: seq<TraceEvent>) {
    && (forall i :: 0 <= i < |trace| ==> EventOk(graph, preview, trace[i]))
    && (forall i :: 0 <= i < |trace| ==> Tied(trace, i))
  }

  // The steps of `base` and, besides, only spawned ones.
  ghost predicate PlannedAre(graph: seq<PlanStep>, base: set<int>, keys: set<int>) {
    base <= keys && forall n :: n in keys && n <= MaxStep(graph) ==> n in base
  }

  // The planned steps' results among these are the ones of the run.
  ghost predicate AsStored(graph: seq<PlanStep>, partial: Results, results: Results) {
    forall n :: n in partial && n <= MaxStep(graph) ==> n in results && results[n] == partial[n]
  }

  ghost predicate GateStopOk(graph: seq<PlanStep>, preview: Preview, base: set<int>, s: PlanStep, f: Failure) {
    f.GateRequired? ==>
      && s.gateId == Some(f.gateId) && f.gateId != "" && !Approved(preview, f.gateId)
      && f.step == s.step && PlannedAre(graph, base, f.partial.Keys)
  }

  // A task that stopped at a gate reports results of the run.
  ghost predicate ReportsStored(graph: seq<PlanStep>, c: Ctx, task: Task) {
    task.Done? && task.outcome.Raised? && task.outcome.failure.GateRequired? ==>
      AsStored(graph, task.outcome.failure.partial, c.results)
  }

  // `base` are the steps that had results when the tasks were created.
  ghost predicate TaskOk(graph: seq<PlanStep>, preview: Preview, base: set<int>, c: Ctx, task: Task) {
    && task.step in graph
    && PlannedAre(graph, base, c.results.Keys)
    && (task.Ready? && task.origin.ByLevel? ==> DepsIn(graph, task.step, base) && !Skippable(preview, task.step))
    && (task.Ready? ==> !task.origin.BySpawn?)
    && (task.Asking? || task.Recorded? || task.ChildRunning? || task.ChildReturned? ==>
          SpawnsChildren(task.step) && ChildOk(graph, task.child) && task.child.spawnedBy == Some(task.step.step as int))
    && (task.Asking? ==>
          && CountBy(c.spawned, task.step.step) < Limit(task.step)
          && task.child.step == MaxStep(graph) + task.asked + 1
          && task.asked <= |c.spawned| && |graph| + task.asked < MAX_PLAN_STEPS)
    && (task.Recorded? && !task.gated ==> task.child.gateId.None?)
    && (task.Done? && task.outcome.Raised? ==> GateStopOk(graph, preview, base, task.step, task.outcome.failure))
    && ReportsStored(graph, c, task)
  }

  // The end of a task is in the history.
  ghost predicate Logged(c: Ctx, task: Task) {
    task.Done? ==> Finished(task.step, task.outcome) in c.trace
  }

  lemma CountBySnoc(spawned: seq<PlanStep>, child: PlanStep, parent: int)
    ensures CountBy(spawned + [child], parent) == CountBy(spawned, parent) + (if child.spawnedBy == Some(parent) then 1 else 0)
  {
    assert (spawned + [child])[..|spawned|] == spawned;
  }

  lemma AttestAccounted(graph: seq<PlanStep>, c: Ctx, s: PlanStep, child: PlanStep)
    requires DistinctSteps(graph) && Accounted(graph, c) && s in graph
    requires ChildOk(graph, child) && child.spawnedBy == Some(s.step as int) && CountBy(c.spawned, s.step) < Limit(s)
    requires child.step <= MaxStep(graph) + 1 + |c.spawned|
    ensures Accounted(graph, Attest(c, child))
  {
    forall t | t in graph ensures CountBy(c.spawned + [child], t.step) <= Limit(t) {
      CountBySnoc(c.spawned, child, t.step);
      if t.step == s.step {
        SameStep(graph, s, t);
      }
    }
  }

  lemma SameStep(graph: seq<PlanStep>, s: PlanStep, t: PlanStep)
    requires DistinctSteps(graph) && s in graph && t in graph && s.step == t.step
    ensures s == t
  {}

  lemma LogOk(graph: seq<PlanStep>, preview: Preview, c: Ctx, e: TraceEvent)
    requires Accounted(graph, c) && TraceOk(graph, preview, c.trace) && EventOk(graph, preview, e)
    requires Tied(c.trace + [e], |c.trace|)
    ensures Accounted(graph, Log(c, e)) && TraceOk(graph, preview, Log(c, e).trace)
  {
    forall i | 0 <= i < |c.trace| ensures Tied(c.trace + [e], i) {
      assert Tied(c.trace, i);
    }
  }

  // What one segment may change of the context: results above the plan's own numbers, at
  // most one new spawned step, new history, and never the recovery count.
  ghost predicate Changes(graph: seq<PlanStep>, s: PlanStep, c: Ctx, d: Ctx) {
    && d.recoveries == c.recoveries && c.trace <= d.trace
    && c.results.Keys <= d.results.Keys
    && (forall n :: n in d.results && n <= MaxStep(graph) ==> n in c.results && d.results[n] == c.results[n])
    && (d.spawned == c.spawned || exists child: PlanStep :: child.spawnedBy == Some(s.step as int) && d.spawned == c.spawned + [child])
  }

  ghost predicate StretchKeeps(graph: seq<PlanStep>, preview: Preview, base: set<int>, c: Ctx, task: Task, d: Ctx, next: Task) {
    && Accounted(graph, d) && TraceOk(graph, preview, d.trace)
    && TaskOk(graph, preview, base, d, next) && next.step == task.step
    && Changes(graph, task.step, c, d)
  }

  lemma DispatchOk(graph: seq<PlanStep>, preview: Preview, c: Ctx, s: PlanStep, origin: Origin)
    requires Accounted(graph, c) && TraceOk(graph, preview, c.trace)
    requires origin.ByLevel? ==> s in graph && DepsIn(graph, s, c.results.Keys) && !Skippable(preview, s)
    requires origin.BySpawn? ==> !s.role.Booker?
    ensures var d := Log(c, Dispatched(s, origin, c.results.Keys));
            && Accounted(graph, d) && TraceOk(graph, preview, d.trace)
            && (GateOpen(preview, s) ==> Accounted(graph, Log(d, Executed(s, origin)))
                                         && TraceOk(graph, preview, Log(d, Executed(s, origin)).trace))
  {
    var e := Dispatched(s, origin, c.results.Keys);
    LogOk(graph, preview, c, e);
    if GateOpen(preview, s) {
      LogOk(graph, preview, Log(c, e), Executed(s, origin));
    }
  }

  lemma NextRequestOk(graph: seq<PlanStep>, preview: Preview, base: set<int>, c: Ctx, s: PlanStep, reqs: seq<SpawnRequest>, content: nat)
    requires s in graph && SpawnsChildren(s) && PlannedAre(graph, base, c.results.Keys)
    ensures TaskOk(graph, preview, base, c, NextRequest(graph, c.spawned, s, reqs, content))
    ensures NextRequest(graph, c.spawned, s, reqs, content).step == s
  {}

  lemma AskingStretchOk(graph: seq<PlanStep>, preview: Preview, base: set<int>, c: Ctx, task: Task, reply: Reply)
    requires DistinctSteps(graph) && Accounted(graph, c) && TraceOk(graph, preview, c.trace)
    requires TaskOk(graph, preview, base, c, task) && task.Asking?
    ensures var (d, next) := Stretch(graph, preview, c, task, reply); StretchKeeps(graph, preview, base, c, task, d, next)
  {
    if reply.ok && reply.allowed {
      AttestAccounted(graph, c, task.step, task.child);
    }
  }

  lemma RecordedStretchOk(graph: seq<PlanStep>, preview: Preview, base: set<int>, c: Ctx, task: Task, reply: Reply)
    requires Accounted(graph, c) && TraceOk(graph, preview, c.trace)
    requires TaskOk(graph, preview, base, c, task) && task.Recorded?
    ensures var (d, next) := Stretch(graph, preview, c, task, reply); StretchKeeps(graph, preview, base, c, task, d, next)
  {
    if task.gated {
      NextRequestOk(graph, preview, base, c, task.step, task.rest, task.content);
    } else {
      DispatchOk(graph, preview, c, task.child, BySpawn);
    }
  }

  // The stretches that dispatch nothing: after a call, and at the end.
  lemma QuietStretchOk(graph: seq<PlanStep>, preview: Preview, base: set<int>, c: Ctx, task: Task, reply: Reply)
    requires Accounted(graph, c) && TraceOk(graph, preview, c.trace)
    requires TaskOk(graph, preview, base, c, task) && !task.Ready? && !task.Asking? && !task.Recorded?
    ensures var (d, next) := Stretch(graph, preview, c, task, reply); StretchKeeps(graph, preview, base, c, task, d, next)
  {
    match task
    case Running(s) =>
      if SpawnsChildren(s) { NextRequestOk(graph, preview, base, c, s, reply.requests, reply.content); }
    case ChildReturned(s, _, _, rest, content) =>
      NextRequestOk(graph, preview, base, Stretch(graph, preview, c, task, reply).0, s, rest, content);
    case _ =>
  }

  lemma StretchOk(graph: seq<PlanStep>, preview: Preview, base: set<int>, c: Ctx, task: Task, reply: Reply)
    requires DistinctSteps(graph) && Accounted(graph, c) && TraceOk(graph, preview, c.trace)
    requires TaskOk(graph, preview, base, c, task)
    ensures var (d, next) := Stretch(graph, preview, c, task, reply); StretchKeeps(graph, preview, base, c, task, d, next)
  {
    match task
    case Ready(s, origin) => DispatchOk(graph, preview, c, s, origin);
    case Asking(_, _, _, _, _) => AskingStretchOk(graph, preview, base, c, task, reply);
    case Recorded(_, _, _, _, _) => RecordedStretchOk(graph, preview, base, c, task, reply);
    case _ => QuietStretchOk(graph, preview, base, c, task, reply);
  }

  lemma FinishOk(graph: seq<PlanStep>, preview: Preview, base: set<int>, c: Ctx, task: Task, d: Ctx, next: Task)
    requires StretchKeeps(graph, preview, base, c, task, d, next) && next.Done?
    ensures var e := Log(d, Finished(next.step, next.outcome));
            StretchKeeps(graph, preview, base, c, task, e, next) && Logged(e, next)
  {
    var event := Finished(next.step, next.outcome);
    LogOk(graph, preview, d, event);
    assert Log(d, event).trace[|d.trace|] == event;
  }

  lemma HeardOk(graph: seq<PlanStep>, preview: Preview, base: set<int>, c: Ctx, task: Task, reply: Reply)
    requires Accounted(graph, c) && TraceOk(graph, preview, c.trace) && TaskOk(graph, preview, base, c, task)
    ensures var d := Heard(c, task, reply);
            && Accounted(graph, d) && TraceOk(graph, preview, d.trace) && TaskOk(graph, preview, base, d, task)
            && c.trace <= d.trace && d == c.(trace := d.trace)
  {
    if Awaits(task) {
      LogOk(graph, preview, c, Answered(task.step, CallOf(task), reply));
    }
  }

  lemma ChangesAfter(graph: seq<PlanStep>, s: PlanStep, c: Ctx, h: Ctx, d: Ctx)
    requires h == c.(trace := h.trace) && c.trace <= h.trace && Changes(graph, s, h, d)
    ensures Changes(graph, s, c, d)
  {}

  lemma SegmentOk(graph: seq<PlanStep>, preview: Preview, base: set<int>, c: Ctx, task: Task, reply: Reply)
    requires DistinctSteps(graph) && Accounted(graph, c) && TraceOk(graph, preview, c.trace)
    requires TaskOk(graph, preview, base, c, task) && Logged(c, task)
    ensures var (d, next) := Segment(graph, preview, c, task, reply);
            StretchKeeps(graph, preview, base, c, task, d, next) && Logged(d, next)
  {
    HeardOk(graph, preview, base, c, task, reply);
    var h := Heard(c, task, reply);
    StretchOk(graph, preview, base, h, task, reply);
    var (d, next) := Stretch(graph, preview, h, task, reply);
    ChangesAfter(graph, task.step, c, h, d);
    if next.Done? && !task.Done? {
      FinishOk(graph, preview, base, c, task, d, next);
    }
  }

  // A segment of one task leaves the others' conditions intact.
  lemma OthersOk(graph: seq<PlanStep>, preview: Preview, base: set<int>, s: PlanStep, c: Ctx, d: Ctx, other: Task)
    requires TaskOk(graph, preview, base, c, other) && Logged(c, other) && Changes(graph, s, c, d) && other.step.step != s.step
    ensures TaskOk(graph, preview, base, d, other) && Logged(d, other)
  {
    StaysLogged(c, d, other);
    if d.spawned != c.spawned {
      var child: PlanStep :| child.spawnedBy == Some(s.step as int) && d.spawned == c.spawned + [child];
      CountBySnoc(c.spawned, child, other.step.step);
    }
  }

  lemma StaysLogged(c: Ctx, d: Ctx, task: Task)
    requires Logged(c, task) && c.trace <= d.trace
    ensures Logged(d, task)
  {
    if task.Done? {
      StaysIn(c.trace, d.trace, Finished(task.step, task.outcome));
    }
  }

  lemma StaysIn(trace: seq<TraceEvent>, later: seq<TraceEvent>, e: TraceEvent)
    requires e in trace && trace <= later
    ensures e in later
  {
    var i :| 0 <= i < |trace| && trace[i] == e;
    assert later[i] == e;
  }

  // ---- a level's tasks together ----------------------------------------------

  ghost predicate TasksDistinct(tasks: seq<Task>) {
    forall i, j :: 0 <= i < j < |tasks| ==> tasks[i].step.step != tasks[j].step.step
  }

  ghost predicate SystemOk(graph: seq<PlanStep>, preview: Preview, base: set<int>, c: Ctx, tasks: seq<Task>) {
    && Accounted(graph, c) && TraceOk(graph, preview, c.trace) && TasksDistinct(tasks)
    && (forall i :: 0 <= i < |tasks| ==> TaskOk(graph, preview, base, c, tasks[i]) && Logged(c, tasks[i]))
  }

  // Whatever task runs next and whatever it is answered, the invariant stays.
  lemma SystemNext(graph: seq<PlanStep>, preview: Preview, base: set<int>, c: Ctx, tasks: seq<Task>, k: nat, reply: Reply)
    requires DistinctSteps(graph) && SystemOk(graph, preview, base, c, tasks) && k < |tasks|
    ensures var (d, next) := Segment(graph, preview, c, tasks[k], reply);
            SystemOk(graph, preview, base, d, tasks[k := next]) && Changes(graph, tasks[k].step, c, d)
  {
    var (d, next) := Segment(graph, preview, c, tasks[k], reply);
    SegmentOk(graph, preview, base, c, tasks[k], reply);
    forall i | 0 <= i < |tasks| && i != k ensures TaskOk(graph, preview, base, d, tasks[i]) && Logged(d, tasks[i]) {
      OthersOk(graph, preview, base, tasks[k].step, c, d, tasks[i]);
    }
  }

  function Sum(tasks: seq<Task>, f: Task -> nat): nat {
    if tasks == [] then 0 else Sum(tasks[..|tasks| - 1], f) + f(tasks[|tasks| - 1])
  }

  lemma {:induction false} SumUpdate(tasks: seq<Task>, f: Task -> nat, k: nat, t: Task)
    requires k < |tasks|
    ensures Sum(tasks[k := t], f) + f(tasks[k]) == Sum(tasks, f) + f(t)
  {
    var n := |tasks| - 1;
    if k < n {
      SumUpdate(tasks[..n], f, k, t);
      assert tasks[k := t][..n] == tasks[..n][k := t];
    } else {
      assert tasks[k := t][..n] == tasks[..n];
    }
  }

  lemma {:induction false} SumAtMost(tasks: seq<Task>, f: Task -> nat, g: Task -> nat)
    requires forall i :: 0 <= i < |tasks| ==> f(tasks[i]) <= g(tasks[i])
    ensures Sum(tasks, f) <= Sum(tasks, g)
  {
    if tasks != [] {
      SumAtMost(tasks[..|tasks| - 1], f, g);
    }
  }

  lemma {:induction false} SumHas(tasks: seq<Task>, f: Task -> nat, k: nat)
    requires k < |tasks|
    ensures f(tasks[k]) <= Sum(tasks, f)
    ensures forall j :: 0 <= j < |tasks| && j != k ==> f(tasks[k]) + f(tasks[j]) <= Sum(tasks, f)
  {
    var n := |tasks| - 1;
    if k < n {
      SumHas(tasks[..n], f, k);
    } else {
      forall j | 0 <= j < n ensures f(tasks[j]) <= Sum(tasks[..n], f) {
        SumHas(tasks[..n], f, j);
      }
    }
  }

  // Every segment brings the gathering closer to its end.
  function Early(t: Task): nat {
    if t.Ready? then 2 else if t.Running? then 1 else 0
  }

  function Work(t: Task): nat {
    match t
    case Asking(_, _, _, rest, _) => 4 * |rest| + 5
    case Recorded(_, _, _, rest, _) => 4 * |rest| + 4
    case ChildRunning(_, _, rest, _) => 4 * |rest| + 3
    case ChildReturned(_, _, _, rest, _) => 4 * |rest| + 2
    case Finishing(_, _) => 1
    case _ => 0
  }

  predicate Closer(after: seq<Task>, before: seq<Task>) {
    || Sum(after, Early) < Sum(before, Early)
    || (Sum(after, Early) == Sum(before, Early) && Sum(after, Work) < Sum(before, Work))
  }

  lemma Progress(graph: seq<PlanStep>, preview: Preview, c: Ctx, tasks: seq<Task>, k: nat, reply: Reply)
    requires k < |tasks| && !tasks[k].Done?
    ensures var after := tasks[k := Segment(graph, preview, c, tasks[k], reply).1];
            Closer(after, tasks)
  {
    var next := Segment(graph, preview, c, tasks[k], reply).1;
    SumUpdate(tasks, Early, k, next);
    SumUpdate(tasks, Work, k, next);
  }

  function AskingOf(t: Task): nat {
    if t.Asking? then 1 else 0
  }

  function SpawnerOf(t: Task): nat {
    if SpawnsChildren(t.step) then 1 else 0
  }

  // Steps planned, spawned and asked for, against the limit with room for `width` overlapping requests.
  ghost predicate SizeOk(graph: seq<PlanStep>, c: Ctx, asking: nat, width: nat) {
    |graph| + |c.spawned| + asking <= if |graph| > 99 + width then |graph| else 99 + width
  }

  lemma SizeNext(graph: seq<PlanStep>, preview: Preview, c: Ctx, tasks: seq<Task>, k: nat, reply: Reply, width: nat)
    requires k < |tasks| && SizeOk(graph, c, Sum(tasks, AskingOf), width)
    requires Sum(tasks[k := Segment(graph, preview, c, tasks[k], reply).1], AskingOf) <= width
    ensures var (d, next) := Segment(graph, preview, c, tasks[k], reply);
            SizeOk(graph, d, Sum(tasks[k := next], AskingOf), width)
  {
    SumUpdate(tasks, AskingOf, k, Segment(graph, preview, c, tasks[k], reply).1);
  }

  lemma AskersAreSpawners(graph: seq<PlanStep>, preview: Preview, base: set<int>, c: Ctx, tasks: seq<Task>)
    requires SystemOk(graph, preview, base, c, tasks)
    ensures Sum(tasks, AskingOf) <= Sum(tasks, SpawnerOf)
  {
    forall i | 0 <= i < |tasks| ensures AskingOf(tasks[i]) <= SpawnerOf(tasks[i]) {
      assert TaskOk(graph, preview, base, c, tasks[i]);
    }
    SumAtMost(tasks, AskingOf, SpawnerOf);
  }

  // ---- how exact numbers and sizes are -------------------------------------------

  // The spawned steps are numbered on from the plan's highest number, without gaps.
  ghost predicate Numbered(graph: seq<PlanStep>, c: Ctx) {
    forall i :: 0 <= i < |c.spawned| ==> c.spawned[i].step == MaxStep(graph) + 1 + i
  }

  // Spawning took the plan past its limit.
  predicate Oversized(graph: seq<PlanStep>, c: Ctx) {
    c.spawned != [] && |graph| + |c.spawned| > MAX_PLAN_STEPS
  }

  predicate Granted(task: Task, reply: Reply) {
    task.Asking? && reply.ok && reply.allowed
  }

  // A request is allowed although another child has been recorded since it was made.
  predicate StaleGrant(c: Ctx, task: Task, reply: Reply) {
    Granted(task, reply) && task.asked != |c.spawned|
  }

  // A request is allowed although the plan is full by now.
  predicate CrowdedGrant(graph: seq<PlanStep>, c: Ctx, task: Task, reply: Reply) {
    Granted(task, reply) && |graph| + |c.spawned| >= MAX_PLAN_STEPS
  }

  // Numbers that do not run ahead of the count are gapless exactly if no two are the same.
  lemma NumberedIffDistinct(graph: seq<PlanStep>, c: Ctx)
    requires Accounted(graph, c)
    ensures Numbered(graph, c) <==> DistinctSteps(c.spawned)
  {
    if DistinctSteps(c.spawned) {
      forall i: nat | i < |c.spawned| ensures c.spawned[i].step == MaxStep(graph) + 1 + i {
        DistinctIsNumbered(graph, c, i);
      }
    }
  }

  lemma {:induction false} DistinctIsNumbered(graph: seq<PlanStep>, c: Ctx, i: nat)
    requires Accounted(graph, c) && DistinctSteps(c.spawned) && i < |c.spawned|
    ensures c.spawned[i].step == MaxStep(graph) + 1 + i
    decreases i
  {
    var j := c.spawned[i].step - MaxStep(graph) - 1;
    assert ChildOk(graph, c.spawned[i]);
    if j < i {
      DistinctIsNumbered(graph, c, j);
    }
  }

  // Exactly: fresh numbers stay fresh in a segment if and only if it is not the grant of a
  // stale request, and numbers that are not fresh never become so.
  lemma NumberedNextIff(graph: seq<PlanStep>, preview: Preview, base: set<int>, c: Ctx, task: Task, reply: Reply)
    requires TaskOk(graph, preview, base, c, task)
    ensures Numbered(graph, Segment(graph, preview, c, task, reply).0) <==> Numbered(graph, c) && !StaleGrant(c, task, reply)
  {
    SegmentSpawns(graph, preview, c, task, reply);
    var d := Segment(graph, preview, c, task, reply).0;
    if Granted(task, reply) {
      assert d.spawned[|c.spawned|] == task.child;
      assert forall i :: 0 <= i < |c.spawned| ==> d.spawned[i] == c.spawned[i];
    }
  }

  // Exactly: spawning takes the plan past its limit if and only if a request is allowed
  // while the plan is full.
  lemma SizeNextIff(graph: seq<PlanStep>, preview: Preview, c: Ctx, task: Task, reply: Reply)
    ensures Oversized(graph, Segment(graph, preview, c, task, reply).0) <==> Oversized(graph, c) || CrowdedGrant(graph, c, task, reply)
  {
    SegmentSpawns(graph, preview, c, task, reply);
  }

  lemma SegmentSpawns(graph: seq<PlanStep>, preview: Preview, c: Ctx, task: Task, reply: Reply)
    ensures var (d, next) := Segment(graph, preview, c, task, reply);
            && d.spawned == c.spawned + (if Granted(task, reply) then [task.child] else [])
            && (next.Asking? ==> !Granted(task, reply) && next.asked == |c.spawned|)
  {}

  // What has happened to the spawn requests of a run so far: two were with the policy engine
  // at once, a stale one was allowed, one was allowed while the plan was full.
  datatype Spawning = Spawning(overlapped: bool, stale: bool, crowded: bool)

  function Noted(graph: seq<PlanStep>, h: Spawning, c: Ctx, task: Task, reply: Reply, after: seq<Task>): Spawning {
    Spawning(h.overlapped || Sum(after, AskingOf) > 1,
             h.stale || StaleGrant(c, task, reply),
             h.crowded || CrowdedGrant(graph, c, task, reply))
  }

  // Numbers are fresh if and only if no stale request was allowed, and the size is within its
  // limit if and only if none was allowed while the plan was full. The second needs the
  // first, the first needs an overlap, and an overlap needs two spawning steps in a level.
  ghost predicate SpawningExact(graph: seq<PlanStep>, width: nat, h: Spawning, c: Ctx) {
    && (h.stale <==> !Numbered(graph, c))
    && (h.crowded <==> Oversized(graph, c))
    && (h.crowded ==> h.stale) && (h.stale ==> h.overlapped) && (width == 1 ==> !h.overlapped)
  }

  ghost predicate Unlapped(c: Ctx, tasks: seq<Task>) {
    && Sum(tasks, AskingOf) <= 1
    && forall i :: 0 <= i < |tasks| && tasks[i].Asking? ==> tasks[i].asked == |c.spawned|
  }

  lemma OnlyAsker(tasks: seq<Task>, k: nat)
    requires k < |tasks| && tasks[k].Asking? && Sum(tasks, AskingOf) <= 1
    ensures forall j :: 0 <= j < |tasks| && j != k ==> !tasks[j].Asking?
  {
    SumHas(tasks, AskingOf, k);
    forall j | 0 <= j < |tasks| && j != k ensures !tasks[j].Asking? {
      assert AskingOf(tasks[k]) + AskingOf(tasks[j]) <= Sum(tasks, AskingOf);
    }
  }

  lemma UnlappedNext(graph: seq<PlanStep>, preview: Preview, c: Ctx, tasks: seq<Task>, k: nat, reply: Reply, d: Ctx, next: Task)
    requires k < |tasks| && Unlapped(c, tasks) && (d, next) == Segment(graph, preview, c, tasks[k], reply)
    requires Sum(tasks[k := next], AskingOf) <= 1
    ensures Unlapped(d, tasks[k := next])
  {
    SegmentSpawns(graph, preview, c, tasks[k], reply);
    if tasks[k].Asking? {
      OnlyAsker(tasks, k);
    }
  }

  lemma SpawningNext(graph: seq<PlanStep>, preview: Preview, base: set<int>, width: nat, h: Spawning, c: Ctx,
                     tasks: seq<Task>, k: nat, reply: Reply, d: Ctx, next: Task)
    requires k < |tasks| && TaskOk(graph, preview, base, c, tasks[k]) && (d, next) == Segment(graph, preview, c, tasks[k], reply)
    requires SpawningExact(graph, width, h, c) && (!h.overlapped ==> Unlapped(c, tasks))
    requires width == 1 ==> Sum(tasks[k := next], AskingOf) <= 1
    ensures SpawningExact(graph, width, Noted(graph, h, c, tasks[k], reply, tasks[k := next]), d)
  {
    NumberedNextIff(graph, preview, base, c, tasks[k], reply);
    SizeNextIff(graph, preview, c, tasks[k], reply);
  }

  // ---- how often the level loop dispatches a step ------------------------------

  function LevelRuns(trace: seq<TraceEvent>, n: int): nat {
    if trace == [] then 0
    else
      var e := trace[|trace| - 1];
      LevelRuns(trace[..|trace| - 1], n) + (if e.Dispatched? && e.origin.ByLevel? && e.step.step == n then 1 else 0)
  }

  lemma LevelRunsSnoc(trace: seq<TraceEvent>, e: TraceEvent, n: int)
    ensures LevelRuns(trace + [e], n) ==
            LevelRuns(trace, n) + (if e.Dispatched? && e.origin.ByLevel? && e.step.step == n then 1 else 0)
  {
    assert (trace + [e])[..|trace|] == trace;
  }

  // Tasks of the level loop have been dispatched once each as soon as they are not ready any
  // more; tasks of a recovery leave the counts alone.
  ghost predicate LevelCounted(before: seq<TraceEvent>, byLevel: bool, trace: seq<TraceEvent>, tasks: seq<Task>) {
    && (forall i :: 0 <= i < |tasks| && tasks[i].Ready? ==> tasks[i].origin == if byLevel then ByLevel else ByRecovery)
    && (forall i :: 0 <= i < |tasks| ==>
          LevelRuns(trace, tasks[i].step.step) ==
          LevelRuns(before, tasks[i].step.step) + (if byLevel && !tasks[i].Ready? then 1 else 0))
    && (forall n :: HasNumber(tasks, n) || LevelRuns(trace, n) == LevelRuns(before, n))
  }

  ghost predicate HasNumber(tasks: seq<Task>, n: int) {
    exists i :: 0 <= i < |tasks| && tasks[i].step.step == n
  }

  lemma StretchRuns(graph: seq<PlanStep>, preview: Preview, c: Ctx, task: Task, reply: Reply, n: int)
    ensures LevelRuns(Stretch(graph, preview, c, task, reply).0.trace, n) ==
            LevelRuns(c.trace, n) + (if Starts(task, n) then 1 else 0)
  {
    if task.Ready? {
      PairRuns(c, task.step, task.origin, n);
    } else if task.Recorded? {
      PairRuns(c, task.child, BySpawn, n);
    }
  }

  lemma PairRuns(c: Ctx, s: PlanStep, origin: Origin, n: int)
    ensures var d := Log(c, Dispatched(s, origin, c.results.Keys));
            && LevelRuns(d.trace, n) == LevelRuns(c.trace, n) + (if origin.ByLevel? && s.step == n then 1 else 0)
            && LevelRuns(Log(d, Executed(s, origin)).trace, n) == LevelRuns(d.trace, n)
  {
    var e := Dispatched(s, origin, c.results.Keys);
    LevelRunsSnoc(c.trace, e, n);
    LevelRunsSnoc(c.trace + [e], Executed(s, origin), n);
  }

  lemma SegmentRuns(graph: seq<PlanStep>, preview: Preview, c: Ctx, task: Task, reply: Reply, n: int, d: Ctx, next: Task)
    requires (d, next) == Segment(graph, preview, c, task, reply)
    ensures LevelRuns(d.trace, n) == LevelRuns(c.trace, n) + (if Starts(task, n) then 1 else 0)
  {
    if Awaits(task) {
      LevelRunsSnoc(c.trace, Answered(task.step, CallOf(task), reply), n);
    }
    var h := Heard(c, task, reply);
    StretchRuns(graph, preview, h, task, reply, n);
    if next.Done? {
      LevelRunsSnoc(Stretch(graph, preview, h, task, reply).0.trace, Finished(next.step, next.outcome), n);
    }
  }

  lemma SameStepNext(graph: seq<PlanStep>, preview: Preview, c: Ctx, task: Task, reply: Reply)
    ensures var next := Segment(graph, preview, c, task, reply).1; !next.Ready? && next.step == task.step
  {}

  lemma CountedNext(before: seq<TraceEvent>, byLevel: bool, graph: seq<PlanStep>, preview: Preview, c: Ctx,
                    tasks: seq<Task>, k: nat, reply: Reply, d: Ctx, next: Task)
    requires k < |tasks| && TasksDistinct(tasks) && LevelCounted(before, byLevel, c.trace, tasks)
    requires (d, next) == Segment(graph, preview, c, tasks[k], reply)
    ensures LevelCounted(before, byLevel, d.trace, tasks[k := next])
  {
    forall n ensures LevelRuns(d.trace, n) == LevelRuns(c.trace, n) + (if Starts(tasks[k], n) then 1 else 0) {
      SegmentRuns(graph, preview, c, tasks[k], reply, n, d, next);
    }
    SameStepNext(graph, preview, c, tasks[k], reply);
    CountedUpdate(before, byLevel, c.trace, d.trace, tasks, k, next);
  }

  predicate Starts(task: Task, n: int) {
    task.Ready? && task.origin.ByLevel? && task.step.step == n
  }

  lemma CountedUpdate(before: seq<TraceEvent>, byLevel: bool, earlier: seq<TraceEvent>, later: seq<TraceEvent>,
                      tasks: seq<Task>, k: nat, next: Task)
    requires k < |tasks| && TasksDistinct(tasks) && LevelCounted(before, byLevel, earlier, tasks)
    requires !next.Ready? && next.step == tasks[k].step
    requires forall n :: LevelRuns(later, n) == LevelRuns(earlier, n) + (if Starts(tasks[k], n) then 1 else 0)
    ensures LevelCounted(before, byLevel, later, tasks[k := next])
  {
    var after := tasks[k := next];
    assert forall i :: 0 <= i < |tasks| ==> tasks[i].step == after[i].step;
    forall n | !HasNumber(after, n) ensures LevelRuns(later, n) == LevelRuns(before, n) {
      assert after[k].step.step != n;
      assert !HasNumber(tasks, n);
    }
  }

  // The level loop has dispatched exactly these steps once more than before.
  ghost predicate RunsAdded(before: seq<TraceEvent>, after: seq<TraceEvent>, ids: set<int>) {
    forall n :: LevelRuns(after, n) == LevelRuns(before, n) + (if n in ids then 1 else 0)
  }

  lemma RunsChain(before: seq<TraceEvent>, middle: seq<TraceEvent>, after: seq<TraceEvent>, a: set<int>, b: set<int>)
    requires RunsAdded(before, middle, a) && RunsAdded(middle, after, b) && a !! b
    ensures RunsAdded(before, after, a + b)
  {}

  lemma CountedAtEnd(before: seq<TraceEvent>, byLevel: bool, trace: seq<TraceEvent>, tasks: seq<Task>, ids: set<int>)
    requires LevelCounted(before, byLevel, trace, tasks) && forall i :: 0 <= i < |tasks| ==> tasks[i].Done?
    requires forall n :: n in ids <==> byLevel && HasNumber(tasks, n)
    ensures RunsAdded(before, trace, ids)
  {
    forall n ensures LevelRuns(trace, n) == LevelRuns(before, n) + (if n in ids then 1 else 0) {
      if HasNumber(tasks, n) {
        var i :| 0 <= i < |tasks| && tasks[i].step.step == n;
      }
    }
  }

  // The whole invariant of a gathering.
  ghost predicate Gathering(graph: seq<PlanStep>, preview: Preview, base: set<int>, width: nat, h: Spawning, c: Ctx, tasks: seq<Task>) {
    && DistinctSteps(graph) && SystemOk(graph, preview, base, c, tasks)
    && Sum(tasks, SpawnerOf) <= width && 1 <= width
    && SizeOk(graph, c, Sum(tasks, AskingOf), width)
    && SpawningExact(graph, width, h, c)
    && (!h.overlapped ==> Unlapped(c, tasks))
  }

  // Any task may run next and be answered anything.
  lemma GatheringNext(graph: seq<PlanStep>, preview: Preview, base: set<int>, width: nat, h: Spawning,
                      c: Ctx, tasks: seq<Task>, k: nat, reply: Reply)
    requires Gathering(graph, preview, base, width, h, c, tasks) && k < |tasks|
    ensures var (d, next) := Segment(graph, preview, c, tasks[k], reply);
            var after := tasks[k := next];
            Gathering(graph, preview, base, width, Noted(graph, h, c, tasks[k], reply, after), d, after)
  {
    var (d, next) := Segment(graph, preview, c, tasks[k], reply);
    var after := tasks[k := next];
    SystemNext(graph, preview, base, c, tasks, k, reply);
    SameStepNext(graph, preview, c, tasks[k], reply);
    SumUpdate(tasks, SpawnerOf, k, next);
    AskersAreSpawners(graph, preview, base, d, after);
    SizeNext(graph, preview, c, tasks, k, reply, width);
    SpawningNext(graph, preview, base, width, h, c, tasks, k, reply, d, next);
    if !h.overlapped && Sum(after, AskingOf) <= 1 {
      UnlappedNext(graph, preview, c, tasks, k, reply, d, next);
    }
  }
}
