/** The execution engine: level loop, gathering of interleaved tasks, skipping, gates and recovery. */
module ExecuteService {
  import opened Plans
  import opened ExecutionModel
  import opened Chains
  import DagResolver
  import History = ExecutionHistory

  datatype Fault =
    | Gate(gateId: string, step: int, partial: Results)
    | IntegrationNotConnected(step: int)
    | StepFailed(step: int)
    | RecoveryExhausted(step: int, attempts: nat)
    | BadCarried(step: int)

  // The error types of a response, such as `token_expired` and `step_failure`.
  datatype ErrorKind =
    TokenExpired | PlanExpired | InternalError | CycleError | IntegrationError | StepFailure | RecoveryError

  datatype Outcome =
    | Success(totalSteps: nat, planRevision: nat)
    | ApprovalRequired(gateId: string, step: int, partial: Results)
    | Error(kind: ErrorKind, failedStep: Option<int>, totalSteps: nat, planRevision: nat)

  // The history grew by no dispatch of the level loop.
  ghost predicate RunsNone(before: seq<TraceEvent>, after: seq<TraceEvent>) {
    RunsAdded(before, after, {}) && before <= after
  }

  function FailedIds(graph: seq<PlanStep>, results: Results): set<int> {
    set n | n in Ids(graph) && n in results && results[n].status.FailedResult?
  }

  // The value a step would be skipped with, if there is one, cannot be stored as a result.
  predicate Malformed(preview: Preview, s: PlanStep) {
    if s.executeMode == Some(PreviewOnly) then Decimal(s.step) in preview && !preview[Decimal(s.step)].storable
    else CarriedKey(s.step) in preview && !preview[CarriedKey(s.step)].storable
  }

  ghost predicate HasMalformed(preview: Preview, steps: seq<PlanStep>, n: int) {
    exists s :: s in steps && s.step == n && Malformed(preview, s)
  }

  lemma NoneMalformedNext(preview: Preview, steps: seq<PlanStep>, i: nat)
    requires i < |steps| && NoneMalformed(preview, steps[..i]) && !Malformed(preview, steps[i])
    ensures NoneMalformed(preview, steps[..i + 1])
  {
    assert steps[..i + 1] == steps[..i] + [steps[i]];
  }

  lemma MalformedAt(preview: Preview, steps: seq<PlanStep>, i: nat)
    requires i < |steps| && Malformed(preview, steps[i])
    ensures HasMalformed(preview, steps, steps[i].step)
  {}

  ghost predicate NoneMalformed(preview: Preview, steps: seq<PlanStep>) {
    forall s :: s in steps ==> !Malformed(preview, s)
  }

  // A previewed step gets its preview, a carried one the result of an earlier round, and no
  // other step counts as skipped.
  ghost predicate ResultFits(preview: Preview, s: PlanStep, r: StepResult) {
    if s.executeMode == Some(PreviewOnly) then
      r.status.SkippedResult? && r.content == if Decimal(s.step) in preview then preview[Decimal(s.step)].content else 0
    else if CarriedKey(s.step) in preview then
      r.status.Completed? && r.content == preview[CarriedKey(s.step)].content
    else !r.status.SkippedResult?
  }

  ghost predicate ResultsFit(graph: seq<PlanStep>, preview: Preview, results: Results) {
    forall s :: s in graph && s.step as int in results ==> ResultFits(preview, s, results[s.step as int])
  }

  // A returned content is stored as completed, a failure that was recovered as failed.
  predicate StoredAs(outcome: TaskOutcome, r: StepResult) {
    if outcome.Returned? then r == StepResult(Completed, outcome.content) else r.status.FailedResult?
  }

  // Some task of this step ended with this result.
  ghost predicate FromTask(trace: seq<TraceEvent>, s: PlanStep, r: StepResult) {
    exists outcome :: Finished(s, outcome) in trace && StoredAs(outcome, r)
  }

  ghost predicate ResultsLogged(graph: seq<PlanStep>, preview: Preview, results: Results, trace: seq<TraceEvent>) {
    forall s :: s in graph && s.step as int in results && !Skippable(preview, s) ==> FromTask(trace, s, results[s.step as int])
  }

  // The numbers of the steps that the level loop has to execute.
  function Due(preview: Preview, steps: seq<PlanStep>): set<int> {
    set s | s in steps && !Skippable(preview, s) :: s.step as int
  }

  // What every run keeps, from its first step to its last: the spawn accounting, the trace
  // rules, the size bound, when exactly numbers are fresh and the size is within its limit,
  // the stored results of exactly the skipped steps, for every other step a result that one of
  // its tasks ended with, an explained history, and as many failed planned steps as recovery
  // actions, at most five.
  ghost predicate Sound(graph: seq<PlanStep>, preview: Preview, width: nat, h: Spawning, c: Ctx) {
    && Accounted(graph, c) && TraceOk(graph, preview, c.trace)
    && SizeOk(graph, c, 0, width) && SpawningExact(graph, width, h, c)
    && ResultsFit(graph, preview, c.results) && ResultsLogged(graph, preview, c.results, c.trace)
    && History.Remembers(graph, preview, c, [])
    && c.recoveries == |FailedIds(graph, c.results)| <= MAX_RECOVERY_ACTIONS
  }

  // Results of planned steps are as they were.
  ghost predicate SamePlanned(graph: seq<PlanStep>, before: Results, after: Results) {
    && before.Keys <= after.Keys
    && (forall n :: n in after && n <= MaxStep(graph) ==> n in before && after[n] == before[n])
  }

  // Results of planned steps that were there are there unchanged.
  ghost predicate KeepsPlanned(graph: seq<PlanStep>, before: Results, after: Results) {
    forall n :: n in before ==> n in after && (n in Ids(graph) ==> after[n] == before[n])
  }

  lemma KeptAgain(graph: seq<PlanStep>, r0: Results, r1: Results, r2: Results)
    requires KeepsPlanned(graph, r0, r1) && KeepsPlanned(graph, r1, r2)
    ensures KeepsPlanned(graph, r0, r2)
  {}

  lemma SameIsKept(graph: seq<PlanStep>, before: Results, after: Results)
    requires SamePlanned(graph, before, after)
    ensures KeepsPlanned(graph, before, after)
  {
    IdsBelowMax(graph);
  }

  lemma IdsBelowMax(graph: seq<PlanStep>)
    ensures forall n :: n in Ids(graph) ==> n <= MaxStep(graph)
  {}

  lemma SamePlannedFailures(graph: seq<PlanStep>, before: Results, after: Results)
    requires SamePlanned(graph, before, after)
    ensures FailedIds(graph, after) == FailedIds(graph, before)
    ensures after.Keys * Ids(graph) == before.Keys * Ids(graph)
  {
    IdsBelowMax(graph);
  }

  lemma RecordFailures(graph: seq<PlanStep>, results: Results, n: int, r: StepResult)
    requires n in Ids(graph) && n !in results
    ensures FailedIds(graph, results[n := r]) ==
            if r.status.FailedResult? then FailedIds(graph, results) + {n} else FailedIds(graph, results)
    ensures n !in FailedIds(graph, results)
    ensures results[n := r].Keys * Ids(graph) == results.Keys * Ids(graph) + {n}
  {}

  lemma RecordFits(graph: seq<PlanStep>, preview: Preview, results: Results, s: PlanStep, r: StepResult)
    requires DistinctSteps(graph) && s in graph && ResultsFit(graph, preview, results) && ResultFits(preview, s, r)
    ensures ResultsFit(graph, preview, results[s.step as int := r])
  {
    forall t | t in graph && t.step == s.step ensures t == s {
      SameStep(graph, s, t);
    }
  }

  lemma StillFromTask(trace: seq<TraceEvent>, later: seq<TraceEvent>, s: PlanStep, r: StepResult)
    requires FromTask(trace, s, r) && trace <= later
    ensures FromTask(later, s, r)
  {
    var outcome :| Finished(s, outcome) in trace && StoredAs(outcome, r);
    StaysIn(trace, later, Finished(s, outcome));
  }

  lemma StillLogged(graph: seq<PlanStep>, preview: Preview, before: Results, after: Results, trace: seq<TraceEvent>, later: seq<TraceEvent>)
    requires SamePlanned(graph, before, after) && trace <= later && ResultsLogged(graph, preview, before, trace)
    ensures ResultsLogged(graph, preview, after, later)
  {
    forall s | s in graph && s.step as int in after && !Skippable(preview, s) ensures FromTask(later, s, after[s.step as int]) {
      StillFromTask(trace, later, s, before[s.step as int]);
    }
  }

  lemma RecordLogged(graph: seq<PlanStep>, preview: Preview, results: Results, trace: seq<TraceEvent>, s: PlanStep, r: StepResult)
    requires DistinctSteps(graph) && s in graph && ResultsLogged(graph, preview, results, trace)
    requires Skippable(preview, s) || FromTask(trace, s, r)
    ensures ResultsLogged(graph, preview, results[s.step as int := r], trace)
  {
    forall t | t in graph && t.step == s.step ensures t == s {
      SameStep(graph, s, t);
    }
  }

  // A planned step gets its result; a failed one counts as a recovery.
  function WithResult(c: Ctx, s: PlanStep, r: StepResult): Ctx {
    c.(results := c.results[s.step as int := r], recoveries := c.recoveries + (if r.status.FailedResult? then 1 else 0))
  }

  lemma RecordSound(graph: seq<PlanStep>, preview: Preview, width: nat, h: Spawning, c: Ctx, s: PlanStep, r: StepResult, d: Ctx)
    requires DistinctSteps(graph) && Sound(graph, preview, width, h, c) && d == WithResult(c, s, r)
    requires s in graph && s.step as int !in c.results && ResultFits(preview, s, r)
    requires r.status.FailedResult? ==> c.recoveries < MAX_RECOVERY_ACTIONS
    requires Skippable(preview, s) || FromTask(c.trace, s, r)
    ensures Sound(graph, preview, width, h, d)
    ensures d.results.Keys * Ids(graph) == c.results.Keys * Ids(graph) + {s.step as int}
    ensures KeepsPlanned(graph, c.results, d.results)
  {
    assert s.step as int in Ids(graph);
    RecordFailures(graph, c.results, s.step, r);
    RecordFits(graph, preview, c.results, s, r);
    RecordLogged(graph, preview, c.results, c.trace, s, r);
    History.RemembersRecorded(graph, preview, c, s, r, d.recoveries);
  }

  function SpawnersIn(level: seq<PlanStep>): nat {
    if level == [] then 0 else SpawnersIn(level[..|level| - 1]) + (if SpawnsChildren(level[|level| - 1]) then 1 else 0)
  }

  function ReadyTasks(steps: seq<PlanStep>): seq<Task> {
    seq(|steps|, i requires 0 <= i < |steps| => Ready(steps[i], ByLevel))
  }

  lemma {:induction false} SpawnersOfTasks(steps: seq<PlanStep>)
    ensures Sum(ReadyTasks(steps), SpawnerOf) == SpawnersIn(steps)
    ensures Sum(ReadyTasks(steps), AskingOf) == 0
  {
    if steps != [] {
      var n := |steps| - 1;
      assert ReadyTasks(steps)[..n] == ReadyTasks(steps[..n]);
      SpawnersOfTasks(steps[..n]);
    }
  }

  lemma {:induction false} AllDoneAskNothing(tasks: seq<Task>)
    requires forall i :: 0 <= i < |tasks| ==> tasks[i].Done?
    ensures Sum(tasks, AskingOf) == 0
  {
    if tasks != [] {
      AllDoneAskNothing(tasks[..|tasks| - 1]);
    }
  }

  // Part of a level split into what was skipped, which now has a result, and what is left to execute.
  ghost predicate Filtered(graph: seq<PlanStep>, preview: Preview, before: set<int>, level: seq<PlanStep>,
                           known: set<int>, executable: seq<PlanStep>) {
    && DistinctSteps(executable) && SpawnersIn(executable) <= SpawnersIn(level)
    && (forall s :: s in executable ==> s in level && !Skippable(preview, s) && s.step as int !in known)
    && Ids(executable) == Due(preview, level)
    && before <= known
    && known * Ids(graph) + Ids(executable) == before * Ids(graph) + Ids(level)
  }

  lemma RunsNoneAgain(before: seq<TraceEvent>, middle: seq<TraceEvent>, after: seq<TraceEvent>)
    requires RunsNone(before, middle) && RunsNone(middle, after)
    ensures RunsNone(before, after)
  {}

  lemma RunsThenNone(before: seq<TraceEvent>, middle: seq<TraceEvent>, after: seq<TraceEvent>, ids: set<int>)
    requires RunsAdded(before, middle, ids) && RunsNone(middle, after)
    ensures RunsAdded(before, after, ids)
  {}

  lemma IdsSnoc(steps: seq<PlanStep>, s: PlanStep)
    ensures Ids(steps + [s]) == Ids(steps) + {s.step as int}
    ensures SpawnersIn(steps + [s]) == SpawnersIn(steps) + (if SpawnsChildren(s) then 1 else 0)
  {
    DagResolver.IdsConcat(steps, [s]);
    assert Ids([s]) == {s.step as int} by { assert [s][0].step in Ids([s]); }
    assert (steps + [s])[..|steps|] == steps;
  }

  lemma DueSnoc(preview: Preview, steps: seq<PlanStep>, s: PlanStep)
    ensures Due(preview, steps + [s]) == Due(preview, steps) + (if Skippable(preview, s) then {} else {s.step as int})
  {}

  lemma FilteredSkip(graph: seq<PlanStep>, preview: Preview, before: set<int>, level: seq<PlanStep>,
                     known: set<int>, executable: seq<PlanStep>, s: PlanStep)
    requires Filtered(graph, preview, before, level, known, executable)
    requires Skippable(preview, s) && s in graph && s.step as int !in Ids(level)
    ensures Filtered(graph, preview, before, level + [s], known + {s.step as int}, executable)
  {
    IdsSnoc(level, s);
    DueSnoc(preview, level, s);
    assert s.step as int in Ids(graph);
  }

  lemma FilteredKeep(graph: seq<PlanStep>, preview: Preview, before: set<int>, level: seq<PlanStep>,
                     known: set<int>, executable: seq<PlanStep>, s: PlanStep)
    requires Filtered(graph, preview, before, level, known, executable)
    requires !Skippable(preview, s) && s.step as int !in known && s.step as int !in Ids(level)
    ensures Filtered(graph, preview, before, level + [s], known, executable + [s])
  {
    IdsSnoc(level, s);
    DueSnoc(preview, level, s);
    IdsSnoc(executable, s);
    assert forall t :: t in executable ==> t.step as int in Ids(executable);
  }

  lemma FilteredNext(graph: seq<PlanStep>, preview: Preview, before: set<int>, level: seq<PlanStep>, i: nat,
                     known: set<int>, executable: seq<PlanStep>)
    requires i < |level| && DistinctSteps(level) && level[i] in graph && level[i].step as int !in known
    requires Filtered(graph, preview, before, level[..i], known, executable)
    ensures Skippable(preview, level[i]) ==> Filtered(graph, preview, before, level[..i + 1], known + {level[i].step as int}, executable)
    ensures !Skippable(preview, level[i]) ==> Filtered(graph, preview, before, level[..i + 1], known, executable + [level[i]])
  {
    assert level[..i + 1] == level[..i] + [level[i]];
    if Skippable(preview, level[i]) {
      FilteredSkip(graph, preview, before, level[..i], known, executable, level[i]);
    } else {
      FilteredKeep(graph, preview, before, level[..i], known, executable, level[i]);
    }
  }

  ghost predicate SameSteps(a: seq<Task>, b: seq<Task>) {
    |a| == |b| && forall i :: 0 <= i < |a| ==> a[i].step == b[i].step
  }

  lemma SameAgain(graph: seq<PlanStep>, r0: Results, r1: Results, r2: Results, t0: seq<Task>, t1: seq<Task>, t2: seq<Task>)
    requires SamePlanned(graph, r0, r1) && SamePlanned(graph, r1, r2) && SameSteps(t0, t1) && SameSteps(t1, t2)
    ensures SamePlanned(graph, r0, r2) && SameSteps(t0, t2)
  {}

  // A turn leaves planned results alone, adds to the history and brings the end closer.
  ghost predicate TurnDone(graph: seq<PlanStep>, before: Results, after: Results, earlier: seq<TraceEvent>, later: seq<TraceEvent>,
                           tasks: seq<Task>, next: seq<Task>) {
    SamePlanned(graph, before, after) && earlier <= later && SameSteps(tasks, next) && Closer(next, tasks)
  }

  // What one turn keeps: whichever task goes on, and whatever it is answered.
  lemma TurnKeeps(graph: seq<PlanStep>, preview: Preview, base: set<int>, width: nat, h: Spawning, before: seq<TraceEvent>,
                  byLevel: bool, c: Ctx, tasks: seq<Task>, k: nat, reply: Reply, d: Ctx, next: Task, after: seq<Task>)
    requires k < |tasks| && !tasks[k].Done? && Ongoing(graph, preview, base, width, h, before, byLevel, c, tasks)
    requires (d, next) == Segment(graph, preview, c, tasks[k], reply) && after == tasks[k := next]
    ensures Ongoing(graph, preview, base, width, Noted(graph, h, c, tasks[k], reply, after), before, byLevel, d, after)
    ensures TurnDone(graph, c.results, d.results, c.trace, d.trace, tasks, after) && d.recoveries == c.recoveries
  {
    GatheringNext(graph, preview, base, width, h, c, tasks, k, reply);
    CountedNext(before, byLevel, graph, preview, c, tasks, k, reply, d, next);
    TurnChanges(graph, preview, base, c, tasks, k, reply, d, next);
    TurnRemembers(graph, preview, base, before, byLevel, c, tasks, k, reply, d, next);
    Progress(graph, preview, c, tasks, k, reply);
  }

  lemma TurnRemembers(graph: seq<PlanStep>, preview: Preview, base: set<int>, before: seq<TraceEvent>, byLevel: bool, c: Ctx,
                      tasks: seq<Task>, k: nat, reply: Reply, d: Ctx, next: Task)
    requires k < |tasks| && !tasks[k].Done? && SystemOk(graph, preview, base, c, tasks) && c.trace <= d.trace
    requires History.Remembers(graph, preview, c, tasks) && History.Lasted(before, byLevel, c.trace, tasks)
    requires (d, next) == Segment(graph, preview, c, tasks[k], reply)
    ensures History.Remembers(graph, preview, d, tasks[k := next]) && History.Lasted(before, byLevel, d.trace, tasks[k := next])
  {
    assert TaskOk(graph, preview, base, c, tasks[k]);
    History.RemembersNext(graph, preview, c, tasks, k, reply, d, next);
    History.LastedNext(before, byLevel, graph, preview, c, tasks, k, reply, d, next);
  }

  // The whole state of a gathering that began when the history was `before`.
  ghost predicate Ongoing(graph: seq<PlanStep>, preview: Preview, base: set<int>, width: nat, h: Spawning, before: seq<TraceEvent>,
                          byLevel: bool, c: Ctx, tasks: seq<Task>) {
    && Gathering(graph, preview, base, width, h, c, tasks) && LevelCounted(before, byLevel, c.trace, tasks)
    && History.Remembers(graph, preview, c, tasks) && History.Lasted(before, byLevel, c.trace, tasks)
  }

  lemma TurnChanges(graph: seq<PlanStep>, preview: Preview, base: set<int>, c: Ctx, tasks: seq<Task>, k: nat, reply: Reply,
                    d: Ctx, next: Task)
    requires k < |tasks| && DistinctSteps(graph) && SystemOk(graph, preview, base, c, tasks)
    requires (d, next) == Segment(graph, preview, c, tasks[k], reply)
    ensures next.step == tasks[k].step && SamePlanned(graph, c.results, d.results) && d.recoveries == c.recoveries
    ensures c.trace <= d.trace
  {
    SegmentOk(graph, preview, base, c, tasks[k], reply);
  }

  const FRESH := Ctx(map[], [], [], 0, 0, [])

  // The first step in the plan that can recover.
  ghost predicate FirstReasoner(graph: seq<PlanStep>, r: PlanStep) {
    exists i :: 0 <= i < |graph| && graph[i] == r && r.role.Reasoner? && r.canSpawn
                && forall j :: 0 <= j < i ==> !(graph[j].role.Reasoner? && graph[j].canSpawn)
  }

  // Since then this reasoner ran as a recovery, and ended like this.
  ghost predicate RecoveredBy(graph: seq<PlanStep>, since: nat, trace: seq<TraceEvent>, r: PlanStep, o: TaskOutcome) {
    FirstReasoner(graph, r) && History.BeganIn(trace, since, r, ByRecovery) && History.EndedIn(trace, since, r, o)
  }

  predicate CanRecover(graph: seq<PlanStep>) {
    exists i :: 0 <= i < |graph| && graph[i].role.Reasoner? && graph[i].canSpawn
  }

  class ExecuteService {
    const graph: seq<PlanStep>
    const preview: Preview
    var stepResults: Results
    var spawnedSteps: seq<PlanStep>
    var attestations: seq<Attestation>
    var planRevision: nat
    var recoveryActionCount: nat
    ghost var trace: seq<TraceEvent>
    ghost var spawning: Spawning

    constructor (graph: seq<PlanStep>, preview: Preview)
      ensures this.graph == graph && this.preview == preview
      ensures Fresh()
    {
      this.graph, this.preview := graph, preview;
      stepResults, spawnedSteps, attestations, planRevision, recoveryActionCount := map[], [], [], 0, 0;
      trace, spawning := [], Spawning(false, false, false);
    }

    ghost function Now(): Ctx
      reads this
    {
      Ctx(stepResults, spawnedSteps, attestations, planRevision, recoveryActionCount, trace)
    }

    // Nothing has happened yet.
    ghost predicate Fresh()
      reads this
    {
      Now() == FRESH && spawning == Spawning(false, false, false)
    }

    // What holds between levels, for levels with at most `width` spawning steps.
    ghost predicate Valid(width: nat)
      reads this
    {
      ValidBut(width, 0)
    }

    // As many recoveries have run as were counted, but for those still owed.
    ghost predicate ValidBut(width: nat, owed: nat)
      reads this
    {
      && History.Recoveries(trace) + owed == recoveryActionCount
      && DistinctSteps(graph) && width >= 1 && Sound(graph, preview, width, spawning, Now())
    }

    // One segment of one task.
    method Advance(task: Task, reply: Reply) returns (next: Task)
      modifies this`stepResults, this`spawnedSteps, this`attestations, this`planRevision, this`trace
      ensures (Now(), next) == Segment(graph, preview, old(Now()), task, reply)
      ensures task.Running? ==> |trace| > |old(trace)| && trace[|old(trace)|] == Answered(task.step, OwnCall, reply)
      ensures task.Asking? ==> |trace| > |old(trace)| && trace[|old(trace)|] == Answered(task.step, SpawnCall(task.child), reply)
      ensures task.ChildRunning? ==> |trace| > |old(trace)| && trace[|old(trace)|] == Answered(task.step, ChildCall(task.child), reply)
      ensures task.Ready? ==> |trace| > |old(trace)| && trace[|old(trace)|] == Dispatched(task.step, task.origin, old(stepResults).Keys)
    {
      if task.Running? {
        trace := trace + [Answered(task.step, OwnCall, reply)];
      } else if task.Asking? {
        trace := trace + [Answered(task.step, SpawnCall(task.child), reply)];
      } else if task.ChildRunning? {
        trace := trace + [Answered(task.step, ChildCall(task.child), reply)];
      }
      next := Proceed(task, reply);
      if next.Done? && !task.Done? {
        trace := trace + [Finished(next.step, next.outcome)];
      }
    }

    method Proceed(task: Task, reply: Reply) returns (next: Task)
      modifies this`stepResults, this`spawnedSteps, this`attestations, this`planRevision, this`trace
      ensures (Now(), next) == Stretch(graph, preview, old(Now()), task, reply)
    {
      match task {
        case Ready(s, origin) =>
          trace := trace + [Dispatched(s, origin, stepResults.Keys)];
          if s.gateId.Some? && s.gateId.value != "" && !(s.gateId.value in preview && preview[s.gateId.value].truthy) {
            return Done(s, Raised(GateRequired(s.gateId.value, s.step, stepResults)));
          }
          trace := trace + [Executed(s, origin)];
          next := Running(s);
        case Running(s) =>
          if !reply.ok {
            return Done(s, Raised(ToolError(reply)));
          }
          next := if SpawnsChildren(s) then NextRequest(graph, spawnedSteps, s, reply.requests, reply.content)
                  else Finishing(s, reply.content);
        case Asking(s, child, _, rest, content) =>
          if !reply.ok {
            return Done(s, Raised(ToolError(reply)));
          }
          if !reply.allowed {
            return Done(s, Raised(SpawnDenied));
          }
          planRevision := planRevision + 1;
          attestations := attestations + [Attestation(planRevision, child)];
          spawnedSteps := spawnedSteps + [child];
          next := Recorded(s, child, reply.requiresApproval || child.gateId.Some?, rest, content);
        case Recorded(s, child, gated, rest, content) =>
          if gated {
            return NextRequest(graph, spawnedSteps, s, rest, content);
          }
          trace := trace + [Dispatched(child, BySpawn, stepResults.Keys)];
          if child.gateId.Some? && child.gateId.value != "" && !(child.gateId.value in preview && preview[child.gateId.value].truthy) {
            return Done(s, Raised(GateRequired(child.gateId.value, child.step, stepResults)));
          }
          trace := trace + [Executed(child, BySpawn)];
          next := ChildRunning(s, child, rest, content);
        case ChildRunning(s, child, rest, content) =>
          if !reply.ok {
            return Done(s, Raised(ToolError(reply)));
          }
          next := ChildReturned(s, child, reply.content, rest, content);
        case ChildReturned(s, child, childContent, rest, content) =>
          stepResults := stepResults[child.step as int := StepResult(Completed, childContent)];
          next := NextRequest(graph, spawnedSteps, s, rest, content);
        case Finishing(s, content) =>
          next := Done(s, Returned(content));
        case Done(_, _) =>
          next := task;
      }
    }

    // The state of a gathering that began when the trace was `before`.
    ghost predicate Underway(base: set<int>, width: nat, before: seq<TraceEvent>, byLevel: bool, tasks: seq<Task>)
      reads this
    {
      Ongoing(graph, preview, base, width, spawning, before, byLevel, Now(), tasks)
    }

    // One turn of the event loop keeps the gathering's invariant, and brings the end closer.
    method Turn(ghost base: set<int>, ghost width: nat, ghost before: seq<TraceEvent>, ghost byLevel: bool,
                tasks: seq<Task>, k: nat, reply: Reply)
      returns (after: seq<Task>)
      requires k < |tasks| && !tasks[k].Done? && Underway(base, width, before, byLevel, tasks)
      modifies this`stepResults, this`spawnedSteps, this`attestations, this`planRevision, this`trace, this`spawning
      ensures Underway(base, width, before, byLevel, after)
      ensures TurnDone(graph, old(stepResults), stepResults, old(trace), trace, tasks, after)
      ensures spawning == Noted(graph, old(spawning), old(Now()), tasks[k], reply, after)
    {
      ghost var c, h := Now(), spawning;
      var next := Advance(tasks[k], reply);
      after := tasks[k := next];
      ghost var d := Now();
      spawning := Noted(graph, h, c, tasks[k], reply, after);
      assert Now() == d;
      TurnKeeps(graph, preview, base, width, h, before, byLevel, c, tasks, k, reply, d, next, after);
    }

    // asyncio.gather: any unfinished task may run next, and the environment answers as it likes.
    method Gather(ghost base: set<int>, ghost width: nat, ghost byLevel: bool, start: seq<Task>) returns (tasks: seq<Task>)
      requires Underway(base, width, trace, byLevel, start)
      modifies this`stepResults, this`spawnedSteps, this`attestations, this`planRevision, this`trace, this`spawning
      ensures Underway(base, width, old(trace), byLevel, tasks) && forall i :: 0 <= i < |tasks| ==> tasks[i].Done?
      ensures SameSteps(start, tasks)
      ensures SamePlanned(graph, old(stepResults), stepResults) && old(trace) <= trace
    {
      tasks := start;
      while exists k :: 0 <= k < |tasks| && !tasks[k].Done?
        invariant Underway(base, width, old(trace), byLevel, tasks)
        invariant SameSteps(start, tasks)
        invariant SamePlanned(graph, old(stepResults), stepResults) && old(trace) <= trace
        decreases Sum(tasks, Early), Sum(tasks, Work)
      {
        var k :| 0 <= k < |tasks| && !tasks[k].Done?;
        var reply: Reply := *;
        ghost var before, results := tasks, stepResults;
        tasks := Turn(base, width, old(trace), byLevel, tasks, k, reply);
        SameAgain(graph, old(stepResults), results, stepResults, start, before, tasks);
      }
    }

    method FindRecoveryReasoner() returns (r: Option<PlanStep>)
      ensures r.Some? ==> r.value in graph && FirstReasoner(graph, r.value)
      ensures r.Some? <==> CanRecover(graph)
    {
      for i := 0 to |graph|
        invariant forall j :: 0 <= j < i ==> !(graph[j].role.Reasoner? && graph[j].canSpawn)
      {
        if graph[i].role.Reasoner? && graph[i].canSpawn {
          return Some(graph[i]);
        }
      }
      return None;
    }

    // A failed step is recorded and the recovery reasoner runs, or the run ends.
    method HandleStepFailure(step: PlanStep, failure: Failure, ghost width: nat) returns (fault: Option<Fault>)
      requires !failure.GateRequired? && FailedIn(trace, step, failure)
      requires Valid(width) && step in graph && step.step as int !in stepResults && !Skippable(preview, step)
      modifies this
      ensures Valid(width) && KeepsPlanned(graph, old(stepResults), stepResults) && RunsNone(old(trace), trace)
      ensures fault.Some? ==> !fault.value.Gate? && fault.value.step == step.step && Explains(graph, fault.value, failure, Now())
      ensures fault.None? ==> stepResults.Keys * Ids(graph) == old(stepResults).Keys * Ids(graph) + {step.step as int}
      ensures fault.Some? && fault.value.IntegrationNotConnected? <==> failure.NotConnected?
      ensures fault.Some? && fault.value.RecoveryExhausted? <==>
              !failure.NotConnected? && CanRecover(graph) && old(recoveryActionCount) == 5
      ensures failure.NotConnected? || !CanRecover(graph) || old(recoveryActionCount) == 5 ==>
                fault.Some? && Now() == old(Now())
      ensures !(failure.NotConnected? || !CanRecover(graph) || old(recoveryActionCount) == 5) ==>
                && recoveryActionCount == old(recoveryActionCount) + 1
                && step.step as int in stepResults && stepResults[step.step as int].status.FailedResult?
                && exists r, o :: RecoveredBy(graph, |old(trace)|, trace, r, o) && (fault.None? <==> o.Returned?)
    {
      if failure.NotConnected? {
        return Some(IntegrationNotConnected(step.step));
      }
      var reasoner := FindRecoveryReasoner();
      if reasoner.None? {
        return Some(StepFailed(step.step));
      }
      if recoveryActionCount >= MAX_RECOVERY_ACTIONS {
        return Some(RecoveryExhausted(step.step, recoveryActionCount));
      }
      assert StoredAs(Raised(failure), StepResult(FailedResult, 0));
      var recovered := Recover(step, reasoner.value, width);
      ghost var outcome :| RecoveredBy(graph, |old(trace)|, trace, reasoner.value, outcome) && (recovered <==> outcome.Returned?);
      return if recovered then None else Some(StepFailed(step.step));
    }

    // The failure is recorded and counted, and the reasoner runs.
    method Recover(step: PlanStep, reasoner: PlanStep, ghost width: nat) returns (recovered: bool)
      requires Valid(width) && step in graph && step.step as int !in stepResults && !Skippable(preview, step)
      requires recoveryActionCount < MAX_RECOVERY_ACTIONS && reasoner in graph && FirstReasoner(graph, reasoner)
      requires FromTask(trace, step, StepResult(FailedResult, 0))
      modifies this
      ensures Valid(width) && KeepsPlanned(graph, old(stepResults), stepResults) && RunsNone(old(trace), trace)
      ensures stepResults.Keys * Ids(graph) == old(stepResults).Keys * Ids(graph) + {step.step as int}
      ensures recoveryActionCount == old(recoveryActionCount) + 1
      ensures step.step as int in stepResults && stepResults[step.step as int].status.FailedResult?
      ensures exists o :: RecoveredBy(graph, |old(trace)|, trace, reasoner, o) && (recovered <==> o.Returned?)
    {
      RecordFailure(step, width);
      ghost var recorded := stepResults;
      var outcome := RunRecovery(reasoner, width);
      SameIsKept(graph, recorded, stepResults);
      KeptAgain(graph, old(stepResults), recorded, stepResults);
      recovered := outcome.Returned?;
    }

    method RecordFailure(step: PlanStep, ghost width: nat)
      requires Valid(width) && step in graph && step.step as int !in stepResults && !Skippable(preview, step)
      requires recoveryActionCount < MAX_RECOVERY_ACTIONS && FromTask(trace, step, StepResult(FailedResult, 0))
      modifies this`stepResults, this`recoveryActionCount
      ensures ValidBut(width, 1) && recoveryActionCount == old(recoveryActionCount) + 1
      ensures stepResults == old(stepResults)[step.step as int := StepResult(FailedResult, 0)] && step.step as int in Ids(graph)
      ensures KeepsPlanned(graph, old(stepResults), stepResults)
      ensures stepResults.Keys * Ids(graph) == old(stepResults).Keys * Ids(graph) + {step.step as int}
    {
      assert step.step as int in Ids(graph);
      ghost var d := WithResult(Now(), step, StepResult(FailedResult, 0));
      RecordSound(graph, preview, width, spawning, Now(), step, StepResult(FailedResult, 0), d);
      stepResults := stepResults[step.step as int := StepResult(FailedResult, 0)];
      recoveryActionCount := recoveryActionCount + 1;
      assert Now() == d;
    }

    // The recovery reasoner runs alone; what it returns is not kept.
    method RunRecovery(reasoner: PlanStep, ghost width: nat) returns (outcome: TaskOutcome)
      requires ValidBut(width, 1) && reasoner in graph && FirstReasoner(graph, reasoner)
      modifies this`stepResults, this`spawnedSteps, this`attestations, this`planRevision, this`trace, this`spawning
      ensures ValidBut(width, 0) && RecoveredBy(graph, |old(trace)|, trace, reasoner, outcome)
      ensures SamePlanned(graph, old(stepResults), stepResults)
      ensures stepResults.Keys * Ids(graph) == old(stepResults).Keys * Ids(graph)
      ensures RunsNone(old(trace), trace)
    {
      var start := [Ready(reasoner, ByRecovery)];
      AloneOk(graph, preview, width, spawning, Now(), reasoner, start);
      ghost var base := stepResults.Keys;
      var tasks := Gather(base, width, false, start);
      ghost var d := Now();
      CountedAtEnd(old(trace), false, trace, tasks, {});
      SingleSum(tasks[0], History.BegunOf);
      assert History.LastedOne(old(trace), false, trace, tasks[0]);
      GatheringEnds(graph, preview, base, width, spawning, old(stepResults), old(trace), d, tasks);
      return tasks[0].outcome;
    }

    // _should_skip over a level: previewed and carried steps get their stored result, unless one
    // of these values cannot be stored.
    method FilterLevel(level: seq<PlanStep>, ghost width: nat) returns (fault: Option<Fault>, executable: seq<PlanStep>)
      requires Valid(width) && DistinctSteps(level)
      requires forall i :: 0 <= i < |level| ==> level[i] in graph && level[i].step as int !in stepResults
      modifies this`stepResults
      ensures Valid(width) && KeepsPlanned(graph, old(stepResults), stepResults)
      ensures fault.None? ==> NoneMalformed(preview, level)
                              && Filtered(graph, preview, old(stepResults).Keys, level, stepResults.Keys, executable)
      ensures fault.Some? ==> fault.value.BadCarried? && HasMalformed(preview, level, fault.value.step)
    {
      executable := [];
      assert level[..0] == [];
      for i := 0 to |level|
        invariant FilteredUpTo(width, level, i, old(stepResults).Keys, executable)
        invariant KeepsPlanned(graph, old(stepResults), stepResults)
        invariant NoneMalformed(preview, level[..i])
      {
        if Malformed(preview, level[i]) {
          MalformedAt(preview, level, i);
          return Some(BadCarried(level[i].step)), executable;
        }
        NoneMalformedNext(preview, level, i);
        ghost var results := stepResults;
        executable := FilterStep(width, level, i, old(stepResults).Keys, executable);
        KeptAgain(graph, old(stepResults), results, stepResults);
      }
      assert level[..|level|] == level;
      return None, executable;
    }

    ghost predicate FilteredUpTo(width: nat, level: seq<PlanStep>, i: nat, before: set<int>, executable: seq<PlanStep>)
      requires i <= |level|
      reads this
    {
      && Valid(width) && Filtered(graph, preview, before, level[..i], stepResults.Keys, executable)
      && forall j :: i <= j < |level| ==> level[j].step as int !in stepResults
    }

    method FilterStep(ghost width: nat, level: seq<PlanStep>, i: nat, ghost before: set<int>, executable0: seq<PlanStep>)
      returns (executable: seq<PlanStep>)
      requires i < |level| && DistinctSteps(level) && level[i] in graph && !Malformed(preview, level[i])
      requires FilteredUpTo(width, level, i, before, executable0)
      modifies this`stepResults
      ensures FilteredUpTo(width, level, i + 1, before, executable) && KeepsPlanned(graph, old(stepResults), stepResults)
    {
      var s := level[i];
      FilteredNext(graph, preview, before, level, i, stepResults.Keys, executable0);
      if Skippable(preview, s) {
        SkipStep(s, width);
        return executable0;
      }
      return executable0 + [s];
    }

    method SkipStep(s: PlanStep, ghost width: nat)
      requires Valid(width) && s in graph && s.step as int !in stepResults && Skippable(preview, s) && !Malformed(preview, s)
      modifies this`stepResults
      ensures Valid(width)
      ensures stepResults.Keys == old(stepResults).Keys + {s.step as int}
      ensures stepResults == old(stepResults)[s.step as int := stepResults[s.step as int]]
      ensures ResultFits(preview, s, stepResults[s.step as int])
      ensures KeepsPlanned(graph, old(stepResults), stepResults)
      ensures stepResults.Keys * Ids(graph) == old(stepResults).Keys * Ids(graph) + {s.step as int}
    {
      var r: StepResult;
      if s.executeMode == Some(PreviewOnly) {
        r := StepResult(SkippedResult, if Decimal(s.step) in preview then preview[Decimal(s.step)].content else 0);
      } else {
        r := StepResult(Completed, preview[CarriedKey(s.step)].content);
      }
      ghost var d := WithResult(Now(), s, r);
      RecordSound(graph, preview, width, spawning, Now(), s, r, d);
      stepResults := stepResults[s.step as int := r];
      assert Now() == d;
    }

    // The results of a gathering in task order: the first gate stops, failures go to recovery.
    method Settle(steps: seq<PlanStep>, tasks: seq<Task>, ghost base: set<int>, ghost width: nat) returns (fault: Option<Fault>)
      requires Valid(width) && DistinctSteps(steps) && |tasks| == |steps|
      requires forall s :: s in steps ==> s in graph && s.step as int !in stepResults && !Skippable(preview, s)
      requires forall i :: 0 <= i < |tasks| ==>
                             tasks[i].Done? && Settleable(graph, preview, base, Now(), steps[i], tasks[i])
      modifies this
      ensures Valid(width) && KeepsPlanned(graph, old(stepResults), stepResults) && RunsNone(old(trace), trace)
      ensures fault.None? ==> stepResults.Keys * Ids(graph) == old(stepResults).Keys * Ids(graph) + Ids(steps)
      ensures fault.None? ==> OutcomesStored(steps, tasks, |steps|, stepResults)
      ensures fault.Some? ==> exists i :: 0 <= i < |tasks| && OutcomesStored(steps, tasks, i, stepResults) && tasks[i].outcome.Raised?
                                          && fault.value.step == steps[i].step
                                          && Explains(graph, fault.value, tasks[i].outcome.failure, Now())
      ensures fault.Some? ==> !fault.value.BadCarried? && Blamed(graph, preview, base * Ids(graph), steps, fault.value, Now())
    {
      assert steps[..0] == [];
      for i := 0 to |steps|
        invariant SettledUpTo(width, steps, tasks, i, old(stepResults), old(trace))
      {
        assert Settleable(graph, preview, base, old(Now()), steps[i], tasks[i]);
        fault := SettleNext(steps, tasks, i, old(stepResults), old(trace), width);
        if fault.Some? {
          BlameStep(graph, preview, base, old(Now()), Now(), steps, i, tasks[i], fault.value);
          return;
        }
      }
      assert steps[..|steps|] == steps;
      return None;
    }

    // The first `i` of these steps have got their results, and no recovery counted as a run of the level loop.
    ghost predicate SettledUpTo(width: nat, steps: seq<PlanStep>, tasks: seq<Task>, i: nat, before: Results, runs: seq<TraceEvent>)
      requires i <= |steps| == |tasks| && forall j :: 0 <= j < |tasks| ==> tasks[j].Done?
      reads this
    {
      && Valid(width) && KeepsPlanned(graph, before, stepResults) && RunsNone(runs, trace)
      && stepResults.Keys * Ids(graph) == before.Keys * Ids(graph) + Ids(steps[..i])
      && OutcomesStored(steps, tasks, i, stepResults)
    }

    method SettleNext(steps: seq<PlanStep>, tasks: seq<Task>, i: nat, ghost before: Results, ghost runs: seq<TraceEvent>,
                      ghost width: nat)
      returns (fault: Option<Fault>)
      requires i < |steps| == |tasks| && DistinctSteps(steps)
      requires forall j :: 0 <= j < |tasks| ==> tasks[j].Done? && tasks[j].step == steps[j]
      requires Finished(steps[i], tasks[i].outcome) in runs
      requires forall j :: 0 <= j < |tasks| && tasks[j].outcome.Raised? && tasks[j].outcome.failure.GateRequired? ==>
                             tasks[j].outcome.failure.step == steps[j].step
      requires SettledUpTo(width, steps, tasks, i, before, runs)
      requires forall s :: s in steps ==> s in graph && s.step as int !in before && !Skippable(preview, s)
      modifies this
      ensures Valid(width) && KeepsPlanned(graph, before, stepResults) && RunsNone(runs, trace)
      ensures OutcomesStored(steps, tasks, i, stepResults)
      ensures fault.None? ==> SettledUpTo(width, steps, tasks, i + 1, before, runs)
      ensures fault.Some? ==> tasks[i].outcome.Raised? && fault.value.step == steps[i].step
                              && Explains(graph, fault.value, tasks[i].outcome.failure, Now())
    {
      ghost var results, history := stepResults, trace;
      NextToSettle(graph, steps, i, before.Keys, results.Keys);
      StaysIn(runs, history, Finished(steps[i], tasks[i].outcome));
      fault := SettleOne(steps[i], tasks[i].outcome, width);
      SettledArePlanned(graph, steps);
      SettledMore(graph, steps, tasks, i, before, results, stepResults);
      RunsNoneAgain(runs, history, trace);
    }

    method SettleOne(s: PlanStep, outcome: TaskOutcome, ghost width: nat) returns (fault: Option<Fault>)
      requires Valid(width) && s in graph && s.step as int !in stepResults && !Skippable(preview, s)
      requires Finished(s, outcome) in trace
      requires outcome.Raised? && outcome.failure.GateRequired? ==> outcome.failure.step == s.step
      modifies this
      ensures Valid(width) && KeepsPlanned(graph, old(stepResults), stepResults) && RunsNone(old(trace), trace)
      ensures fault.None? ==> stepResults.Keys * Ids(graph) == old(stepResults).Keys * Ids(graph) + {s.step as int}
      ensures fault.None? ==> s.step as int in stepResults && StoredAs(outcome, stepResults[s.step as int])
      ensures fault.Some? ==> outcome.Raised? && fault.value.step == s.step && Explains(graph, fault.value, outcome.failure, Now())
      ensures outcome.Raised? && outcome.failure.GateRequired? ==> fault.Some? && Now() == old(Now())
    {
      match outcome {
        case Raised(f) =>
          if f.GateRequired? {
            return Some(Gate(f.gateId, f.step, f.partial));
          }
          fault := HandleStepFailure(s, f, width);
        case Returned(content) =>
          assert StoredAs(outcome, StepResult(Completed, content));
          ghost var d := WithResult(Now(), s, StepResult(Completed, content));
          RecordSound(graph, preview, width, spawning, Now(), s, StepResult(Completed, content), d);
          stepResults := stepResults[s.step as int := StepResult(Completed, content)];
          assert Now() == d;
          return None;
      }
    }

    method ExecuteLevel(level: seq<PlanStep>, ghost width: nat) returns (fault: Option<Fault>)
      requires Valid(width) && DistinctSteps(level) && SpawnersIn(level) <= width
      requires forall s :: s in level ==> s in graph && s.step as int !in stepResults && DepsIn(graph, s, stepResults.Keys)
      modifies this
      ensures Valid(width) && KeepsPlanned(graph, old(stepResults), stepResults)
      ensures RunsAdded(old(trace), trace, if fault.Some? && fault.value.BadCarried? then {} else Due(preview, level))
      ensures fault.None? ==> NoneMalformed(preview, level)
                              && stepResults.Keys * Ids(graph) == old(stepResults).Keys * Ids(graph) + Ids(level)
      ensures fault.Some? ==> FaultOf(graph, preview, old(stepResults).Keys, level, fault.value, Now())
    {
      ghost var before := stepResults.Keys;
      var executable;
      fault, executable := FilterLevel(level, width);
      if fault.Some? {
        return;
      }
      FilteredSums(graph, preview, before, level, stepResults.Keys, executable);
      if executable == [] {
        return None;
      }
      ghost var filtered := stepResults;
      fault := RunExecutable(level, executable, before, width);
      KeptAgain(graph, old(stepResults), filtered, stepResults);
    }

    // The part of a level that is not skipped.
    method RunExecutable(ghost level: seq<PlanStep>, executable: seq<PlanStep>, ghost before: set<int>, ghost width: nat)
      returns (fault: Option<Fault>)
      requires Valid(width) && SpawnersIn(level) <= width && NoneMalformed(preview, level)
      requires Filtered(graph, preview, before, level, stepResults.Keys, executable)
      requires forall s :: s in level ==> s in graph && DepsIn(graph, s, before)
      modifies this
      ensures Valid(width) && KeepsPlanned(graph, old(stepResults), stepResults)
      ensures RunsAdded(old(trace), trace, Due(preview, level))
      ensures fault.None? ==> stepResults.Keys * Ids(graph) == old(stepResults).Keys * Ids(graph) + Ids(executable)
      ensures fault.Some? ==> !fault.value.BadCarried? && FaultOf(graph, preview, before, level, fault.value, Now())
    {
      ghost var filtered := stepResults;
      FilteredReady(graph, preview, before, level, filtered.Keys, executable);
      var tasks := GatherLevel(before, width, level, executable);
      StillUnsettled(graph, executable, filtered, stepResults);
      SameIsKept(graph, filtered, stepResults);
      SettledArePlanned(graph, executable);
      ghost var gathered := trace;
      fault := Settle(executable, tasks, filtered.Keys, width);
      RunsThenNone(old(trace), gathered, trace, Due(preview, level));
      if fault.Some? {
        BlamedWider(graph, preview, filtered.Keys * Ids(graph), executable, level, fault.value, Now());
      }
    }

    // The tasks of one level, from their creation until all have ended.
    method GatherLevel(ghost before: set<int>, ghost width: nat, ghost level: seq<PlanStep>, executable: seq<PlanStep>)
      returns (tasks: seq<Task>)
      requires Valid(width) && SpawnersIn(level) <= width
      requires Filtered(graph, preview, before, level, stepResults.Keys, executable)
      requires forall s :: s in level ==> s in graph && DepsIn(graph, s, before)
      modifies this`stepResults, this`spawnedSteps, this`attestations, this`planRevision, this`trace, this`spawning
      ensures Valid(width) && SamePlanned(graph, old(stepResults), stepResults)
      ensures stepResults.Keys * Ids(graph) == old(stepResults).Keys * Ids(graph)
      ensures |tasks| == |executable|
      ensures forall i :: 0 <= i < |tasks| ==>
                            Settleable(graph, preview, old(stepResults).Keys, Now(), executable[i], tasks[i])
      ensures RunsAdded(old(trace), trace, Due(preview, level)) && old(trace) <= trace
    {
      var start := ReadyTasks(executable);
      ghost var base := stepResults.Keys;
      StartOk(graph, preview, before, width, spawning, Now(), level, executable);
      tasks := Gather(base, width, true, start);
      NumbersOfTasks(tasks, executable);
      GatheredAll(graph, preview, base, width, spawning, old(stepResults), old(trace), Now(), tasks, Due(preview, level));
    }

    ghost predicate DoneUpTo(levels: seq<seq<PlanStep>>, k: nat)
      requires k <= |levels|
      reads this
    {
      && DistinctSteps(graph) && DagResolver.Layered(graph, levels)
      && Valid(Width(levels))
      && stepResults.Keys * Ids(graph) == Ids(DagResolver.Flatten(levels[..k]))
      && RunsAdded([], trace, Due(preview, DagResolver.Flatten(levels[..k])))
      && NoneMalformed(preview, DagResolver.Flatten(levels[..k]))
    }

    method RunLevel(levels: seq<seq<PlanStep>>, k: nat) returns (fault: Option<Fault>)
      requires k < |levels| && DoneUpTo(levels, k)
      modifies this
      ensures Valid(Width(levels))
      ensures fault.None? ==> DoneUpTo(levels, k + 1)
      ensures fault.Some? ==> Ended(graph, preview, levels, Ending(if fault.value.BadCarried? then k else k + 1, fault), Now())
    {
      ghost var before := stepResults.Keys;
      LevelReady(graph, levels, k, before);
      WidthCovers(levels, k);
      fault := ExecuteLevel(levels[k], Width(levels));
      LevelRan(preview, levels, k, old(trace), trace, fault.Some? && fault.value.BadCarried?);
      MalformedNext(preview, levels, k);
      if fault.Some? {
        EndedHere(graph, preview, levels, k, before, fault.value, Now());
      }
    }

    // The level loop.
    method RunLevels(levels: seq<seq<PlanStep>>) returns (fault: Option<Fault>, ghost end: Ending)
      requires DistinctSteps(graph) && DagResolver.Layered(graph, levels) && Fresh()
      modifies this
      ensures Valid(Width(levels))
      ensures end.fault == fault && Ended(graph, preview, levels, end, Now())
    {
      NothingYet(graph, preview, 1);
      NothingYet(graph, preview, Width(levels));
      assert levels[..0] == [];
      for k := 0 to |levels|
        invariant DoneUpTo(levels, k)
      {
        fault := RunLevel(levels, k);
        if fault.Some? {
          end := Ending(if fault.value.BadCarried? then k else k + 1, fault);
          return;
        }
      }
      EveryStepDone(graph, levels, stepResults.Keys);
      EveryStepDue(graph, preview, levels);
      return None, Ending(|levels|, None);
    }

    // One run, from a fresh context.
    method ExecutePlan(tokenValid: bool, expired: bool)
      returns (outcome: Outcome, ghost levels: seq<seq<PlanStep>>, ghost end: Ending)
      requires Fresh()
      modifies this
      ensures Sound(graph, preview, Width(levels), spawning, Now()) && History.Recoveries(trace) == recoveryActionCount <= 5
      ensures spawning.stale <==> !DistinctSteps(spawnedSteps)
      ensures AtMostOnce(trace)
      ensures !CanStart(graph, tokenValid, expired) ==>
                && outcome.Error? && outcome.failedStep.None? && outcome.totalSteps == |graph| && outcome.planRevision == 0
                && levels == [] && Now() == old(Now())
                && outcome.kind == if !tokenValid then TokenExpired else if expired then PlanExpired
                                   else if graph == [] then InternalError else CycleError
      ensures CanStart(graph, tokenValid, expired) ==>
                Concluded(graph, preview, levels, end, Now(), outcome)
    {
      NothingYet(graph, preview, 1);
      NumberedIffDistinct(graph, Now());
      var refusal, found := Prepare(tokenValid, expired);
      levels, end := found, Ending(0, None);
      if refusal.Some? {
        return Error(refusal.value, None, |graph| + |spawnedSteps|, planRevision), levels, end;
      }
      outcome, end := RunStarted(found);
    }

    // The run after its preliminary checks.
    method RunStarted(levels: seq<seq<PlanStep>>) returns (outcome: Outcome, ghost end: Ending)
      requires DistinctSteps(graph) && DagResolver.Layered(graph, levels) && Fresh()
      modifies this
      ensures Sound(graph, preview, Width(levels), spawning, Now()) && History.Recoveries(trace) == recoveryActionCount <= 5
      ensures spawning.stale <==> !DistinctSteps(spawnedSteps)
      ensures AtMostOnce(trace) && Concluded(graph, preview, levels, end, Now(), outcome)
    {
      var fault;
      fault, end := RunLevels(levels);
      Conclude(graph, preview, Width(levels), spawning, levels, end, Now());
      outcome := Report(fault, |graph| + |spawnedSteps|, planRevision);
    }

    // Token and age checks, then level resolution.
    method Prepare(tokenValid: bool, expired: bool) returns (refusal: Option<ErrorKind>, levels: seq<seq<PlanStep>>)
      ensures refusal.None? <==> CanStart(graph, tokenValid, expired)
      ensures refusal.None? ==> DistinctSteps(graph) && DagResolver.Layered(graph, levels)
      ensures refusal.Some? ==> levels == []
      ensures refusal.Some? ==> refusal.value == if !tokenValid then TokenExpired else if expired then PlanExpired
                                                 else if graph == [] then InternalError else CycleError
    {
      if !tokenValid {
        return Some(TokenExpired), [];
      }
      if expired {
        return Some(PlanExpired), [];
      }
      var resolved := DagResolver.Resolve(graph);
      match resolved {
        case EmptyGraph => return Some(InternalError), [];
        case CycleDetected(_, _) => return Some(CycleError), [];
        case Resolved(found) => return None, found;
      }
    }
  }

  ghost predicate CanStart(graph: seq<PlanStep>, tokenValid: bool, expired: bool) {
    tokenValid && !expired && graph != [] && DistinctSteps(graph) && !HasCycle(DagResolver.WaitsOf(graph))
  }

  // The level loop dispatches no step twice.
  ghost predicate AtMostOnce(trace: seq<TraceEvent>) {
    forall n :: LevelRuns(trace, n) <= 1
  }

  lemma NumbersOfTasks(tasks: seq<Task>, steps: seq<PlanStep>)
    requires |tasks| == |steps| && forall i :: 0 <= i < |tasks| ==> tasks[i].step == steps[i]
    ensures forall n :: n in Ids(steps) <==> HasNumber(tasks, n)
  {}

  lemma DueNext(preview: Preview, levels: seq<seq<PlanStep>>, k: nat)
    requires k < |levels| && DistinctSteps(DagResolver.Flatten(levels))
    ensures var before := Due(preview, DagResolver.Flatten(levels[..k]));
            && Due(preview, DagResolver.Flatten(levels[..k + 1])) == before + Due(preview, levels[k])
            && before !! Due(preview, levels[k])
  {
    LevelsApart(levels, k);
    assert levels[..k + 1][..k] == levels[..k];
    DueWithin(preview, levels[k]);
    DueWithin(preview, DagResolver.Flatten(levels[..k]));
  }

  // The level loop's dispatches after level `k`, whether or not it got as far as dispatching.
  lemma LevelRan(preview: Preview, levels: seq<seq<PlanStep>>, k: nat, before: seq<TraceEvent>, after: seq<TraceEvent>, cut: bool)
    requires k < |levels| && DistinctSteps(DagResolver.Flatten(levels))
    requires RunsAdded([], before, Due(preview, DagResolver.Flatten(levels[..k])))
    requires RunsAdded(before, after, if cut then {} else Due(preview, levels[k]))
    ensures RunsAdded([], after, Due(preview, DagResolver.Flatten(levels[..if cut then k else k + 1])))
  {
    if !cut {
      DueNext(preview, levels, k);
      RunsChain([], before, after, Due(preview, DagResolver.Flatten(levels[..k])), Due(preview, levels[k]));
    }
  }

  lemma MalformedNext(preview: Preview, levels: seq<seq<PlanStep>>, k: nat)
    requires k < |levels| && NoneMalformed(preview, DagResolver.Flatten(levels[..k]))
    ensures NoneMalformed(preview, levels[k]) ==> NoneMalformed(preview, DagResolver.Flatten(levels[..k + 1]))
  {
    assert levels[..k + 1][..k] == levels[..k];
  }

  lemma DueWithin(preview: Preview, steps: seq<PlanStep>)
    ensures Due(preview, steps) <= Ids(steps)
  {}

  lemma EveryStepDue(graph: seq<PlanStep>, preview: Preview, levels: seq<seq<PlanStep>>)
    requires DagResolver.Layered(graph, levels)
    ensures Due(preview, DagResolver.Flatten(levels[..|levels|])) == Due(preview, graph)
    ensures NoneMalformed(preview, DagResolver.Flatten(levels[..|levels|])) ==> NoneMalformed(preview, graph)
  {
    assert levels[..|levels|] == levels;
    forall s ensures s in graph <==> s in DagResolver.Flatten(levels) {
      DagResolver.LayeredHas(graph, levels, s);
    }
  }

  // The step's task raised this failure.
  ghost predicate FailedIn(trace: seq<TraceEvent>, s: PlanStep, f: Failure) {
    Finished(s, Raised(f)) in trace
  }

  // A recovery ran, and its task raised.
  ghost predicate RecoveryFailed(graph: seq<PlanStep>, trace: seq<TraceEvent>) {
    exists since: nat, r, o :: RecoveredBy(graph, since, trace, r, o) && o.Raised?
  }

  // How a failure led to the end of the run.
  ghost predicate Explains(graph: seq<PlanStep>, fault: Fault, f: Failure, c: Ctx) {
    match fault
    case Gate(gateId, n, partial) => f == GateRequired(gateId, n, partial)
    case IntegrationNotConnected(_) => f.NotConnected?
    case RecoveryExhausted(_, attempts) =>
      !f.GateRequired? && !f.NotConnected? && CanRecover(graph) && attempts == c.recoveries == 5
    case StepFailed(_) =>
      !f.GateRequired? && !f.NotConnected? && (!CanRecover(graph) || RecoveryFailed(graph, c.trace))
    case BadCarried(_) => false
  }

  ghost predicate AsReported(graph: seq<PlanStep>, partial: Results, results: Results) {
    forall n :: n in partial && n in Ids(graph) ==> n in results && results[n] == partial[n]
  }

  // One of these steps raised the failure behind this fault. A reported gate is that step's
  // own, not approved, and comes with the stored results of exactly the planned steps in `ready`.
  ghost predicate BlamedOn(graph: seq<PlanStep>, preview: Preview, ready: set<int>, steps: seq<PlanStep>, fault: Fault, c: Ctx,
                           s: PlanStep, f: Failure) {
    && s in steps && !Skippable(preview, s) && s.step == fault.step
    && FailedIn(c.trace, s, f) && Explains(graph, fault, f, c)
    && (fault.Gate? ==>
          && s.gateId == Some(fault.gateId) && fault.gateId != "" && !Approved(preview, fault.gateId)
          && fault.partial.Keys * Ids(graph) == ready && AsReported(graph, fault.partial, c.results))
  }

  ghost predicate Blamed(graph: seq<PlanStep>, preview: Preview, ready: set<int>, steps: seq<PlanStep>, fault: Fault, c: Ctx) {
    exists s, f :: BlamedOn(graph, preview, ready, steps, fault, c, s, f)
  }

  // The planned steps that have a result when the tasks of a level are created.
  ghost function ReadyAt(graph: seq<PlanStep>, preview: Preview, before: set<int>, level: seq<PlanStep>): set<int> {
    before * Ids(graph) + (Ids(level) - Due(preview, level))
  }

  // Why a level ended the run: a value for a skipped step cannot be stored, or a due step failed.
  ghost predicate FaultOf(graph: seq<PlanStep>, preview: Preview, before: set<int>, level: seq<PlanStep>, fault: Fault, c: Ctx) {
    if fault.BadCarried? then HasMalformed(preview, level, fault.step)
    else NoneMalformed(preview, level) && Blamed(graph, preview, ReadyAt(graph, preview, before, level), level, fault, c)
  }

  lemma BlamedWider(graph: seq<PlanStep>, preview: Preview, ready: set<int>, few: seq<PlanStep>, many: seq<PlanStep>,
                    fault: Fault, c: Ctx)
    requires Blamed(graph, preview, ready, few, fault, c) && forall s :: s in few ==> s in many
    ensures Blamed(graph, preview, ready, many, fault, c)
  {
    var s, f :| BlamedOn(graph, preview, ready, few, fault, c, s, f);
    assert BlamedOn(graph, preview, ready, many, fault, c, s, f);
  }

  // A finished task whose outcome is settled next.
  ghost predicate Settleable(graph: seq<PlanStep>, preview: Preview, base: set<int>, c: Ctx, s: PlanStep, task: Task) {
    && task.Done? && task.step == s && Logged(c, task)
    && (task.outcome.Raised? ==> GateStopOk(graph, preview, base, s, task.outcome.failure)) && ReportsStored(graph, c, task)
  }

  lemma PlannedPart(graph: seq<PlanStep>, base: set<int>, keys: set<int>)
    requires PlannedAre(graph, base, keys)
    ensures keys * Ids(graph) == base * Ids(graph)
  {
    IdsBelowMax(graph);
  }

  lemma BlameStep(graph: seq<PlanStep>, preview: Preview, base: set<int>, c: Ctx, d: Ctx, steps: seq<PlanStep>, i: nat,
                  task: Task, fault: Fault)
    requires i < |steps| && !Skippable(preview, steps[i]) && Settleable(graph, preview, base, c, steps[i], task)
    requires c.trace <= d.trace && KeepsPlanned(graph, c.results, d.results)
    requires task.outcome.Raised? && fault.step == steps[i].step
    requires Explains(graph, fault, task.outcome.failure, d)
    ensures !fault.BadCarried? && Blamed(graph, preview, base * Ids(graph), steps, fault, d)
  {
    StaysLogged(c, d, task);
    if fault.Gate? {
      PlannedPart(graph, base, fault.partial.Keys);
      IdsBelowMax(graph);
    }
    assert BlamedOn(graph, preview, base * Ids(graph), steps, fault, d, steps[i], task.outcome.failure);
  }

  lemma FilteredSums(graph: seq<PlanStep>, preview: Preview, before: set<int>, level: seq<PlanStep>,
                     known: set<int>, executable: seq<PlanStep>)
    requires Filtered(graph, preview, before, level, known, executable)
    ensures known * Ids(graph) + Ids(executable) == before * Ids(graph) + Ids(level)
    ensures executable == [] ==> Due(preview, level) == {} && known * Ids(graph) == before * Ids(graph) + Ids(level)
  {
    if executable == [] {
      assert Ids(executable) == {};
    }
  }

  lemma FilteredReady(graph: seq<PlanStep>, preview: Preview, before: set<int>, level: seq<PlanStep>,
                      known: set<int>, executable: seq<PlanStep>)
    requires Filtered(graph, preview, before, level, known, executable) && forall s :: s in level ==> s in graph
    ensures known * Ids(graph) == ReadyAt(graph, preview, before, level)
  {
    forall n | n in Due(preview, level) ensures n !in known && n in Ids(level) {
      assert n in Ids(executable);
      DueWithin(preview, level);
    }
    assert forall n :: n in known * Ids(graph) ==> n in before * Ids(graph) + Ids(level);
  }

  // Where a run ended: it dispatched the due steps of its first `reached` levels, and stopped
  // for this fault, or for none.
  datatype Ending = Ending(reached: nat, fault: Option<Fault>)

  ghost predicate Ended(graph: seq<PlanStep>, preview: Preview, levels: seq<seq<PlanStep>>, end: Ending, c: Ctx) {
    && end.reached <= |levels|
    && RunsAdded([], c.trace, Due(preview, DagResolver.Flatten(levels[..end.reached])))
    && NoneMalformed(preview, DagResolver.Flatten(levels[..end.reached]))
    && (end.fault.None? ==>
          && end.reached == |levels| && Ids(graph) <= c.results.Keys
          && RunsAdded([], c.trace, Due(preview, graph)) && NoneMalformed(preview, graph))
    && (end.fault.Some? && end.fault.value.BadCarried? ==>
          end.reached < |levels| && HasMalformed(preview, levels[end.reached], end.fault.value.step))
    && (end.fault.Some? && !end.fault.value.BadCarried? ==>
          end.reached > 0 && BlamedAt(graph, preview, levels, end.reached - 1, end.fault.value, c))
  }

  // A run that started has resolved the plan, ended like this, and says so.
  ghost predicate Concluded(graph: seq<PlanStep>, preview: Preview, levels: seq<seq<PlanStep>>, end: Ending, c: Ctx, o: Outcome) {
    && DistinctSteps(graph) && DagResolver.Layered(graph, levels)
    && Ended(graph, preview, levels, end, c)
    && Says(end.fault, o, |graph| + |c.spawned|, |c.attestations|)
    && (o.Success? ==> forall s :: s in graph ==> DoneAs(preview, c, s))
  }

  // A run succeeds if and only if no level ended with a fault, asks for approval exactly for a
  // gate, and otherwise names the kind of fault and the failed step.
  ghost predicate Says(fault: Option<Fault>, o: Outcome, total: nat, revision: nat) {
    && (o.Success? <==> fault.None?) && (o.ApprovalRequired? <==> fault.Some? && fault.value.Gate?)
    && match o
       case Success(steps, rev) => steps == total && rev == revision
       case ApprovalRequired(gateId, n, partial) => fault.value.gateId == gateId && fault.value.step == n && fault.value.partial == partial
       case Error(kind, failedStep, steps, rev) =>
         && steps == total && rev == revision
         && (kind.IntegrationError? <==> fault.value.IntegrationNotConnected?)
         && (kind.StepFailure? <==> fault.value.StepFailed?)
         && (kind.RecoveryError? <==> fault.value.RecoveryExhausted?)
         && (kind.InternalError? <==> fault.value.BadCarried?)
         && (failedStep.None? <==> fault.value.BadCarried?) && (failedStep.Some? ==> failedStep.value == fault.value.step)
  }

  // What became of a step of a successful run: a previewed one has its preview, a carried one its
  // earlier result, neither was dispatched, and any other was dispatched once and has the
  // result that its task ended with.
  ghost predicate DoneAs(preview: Preview, c: Ctx, s: PlanStep) {
    && s.step as int in c.results
    && var r := c.results[s.step as int];
       if s.executeMode == Some(PreviewOnly) then
         && r.status.SkippedResult? && LevelRuns(c.trace, s.step) == 0
         && r.content == if Decimal(s.step) in preview then preview[Decimal(s.step)].content else 0
       else if ("completed_step_" + Decimal(s.step)) in preview then
         && r.status.Completed? && LevelRuns(c.trace, s.step) == 0
         && r.content == preview["completed_step_" + Decimal(s.step)].content
       else
         && LevelRuns(c.trace, s.step) == 1
         && exists o :: Finished(s, o) in c.trace
                        && if o.Returned? then r == StepResult(Completed, o.content) else r.status.FailedResult?
  }

  lemma SuccessMeans(graph: seq<PlanStep>, preview: Preview, width: nat, h: Spawning, c: Ctx, s: PlanStep)
    requires DistinctSteps(graph) && Sound(graph, preview, width, h, c) && Ids(graph) <= c.results.Keys && s in graph
    requires RunsAdded([], c.trace, Due(preview, graph))
    ensures DoneAs(preview, c, s)
  {
    assert s.step as int in Ids(graph);
    assert ResultFits(preview, s, c.results[s.step as int]);
    forall t | t in graph && t.step == s.step ensures t == s {
      SameStep(graph, s, t);
    }
    assert s.step as int in Due(preview, graph) <==> !Skippable(preview, s);
    if !Skippable(preview, s) {
      assert FromTask(c.trace, s, c.results[s.step as int]);
    }
  }

  lemma Conclude(graph: seq<PlanStep>, preview: Preview, width: nat, h: Spawning, levels: seq<seq<PlanStep>>, end: Ending, c: Ctx)
    requires DistinctSteps(graph) && DagResolver.Layered(graph, levels)
    requires Sound(graph, preview, width, h, c) && Ended(graph, preview, levels, end, c)
    ensures AtMostOnce(c.trace) && (h.stale <==> !DistinctSteps(c.spawned))
    ensures Concluded(graph, preview, levels, end, c, Report(end.fault, |graph| + |c.spawned|, c.revision))
  {
    NumberedIffDistinct(graph, c);
    if end.fault.None? {
      forall s | s in graph ensures DoneAs(preview, c, s) {
        SuccessMeans(graph, preview, width, h, c, s);
      }
    }
  }

  // The steps of all earlier levels, and the skipped ones of this level.
  ghost function ReadyBy(preview: Preview, levels: seq<seq<PlanStep>>, k: nat): set<int>
    requires k < |levels|
  {
    Ids(DagResolver.Flatten(levels[..k])) + (Ids(levels[k]) - Due(preview, levels[k]))
  }

  // A due step of level `k` ended the run.
  ghost predicate BlamedAt(graph: seq<PlanStep>, preview: Preview, levels: seq<seq<PlanStep>>, k: nat, fault: Fault, c: Ctx)
    requires k < |levels|
  {
    Blamed(graph, preview, ReadyBy(preview, levels, k), levels[k], fault, c)
  }

  lemma EndedHere(graph: seq<PlanStep>, preview: Preview, levels: seq<seq<PlanStep>>, k: nat, before: set<int>, fault: Fault, c: Ctx)
    requires k < |levels| && before * Ids(graph) == Ids(DagResolver.Flatten(levels[..k]))
    requires FaultOf(graph, preview, before, levels[k], fault, c)
    requires NoneMalformed(preview, DagResolver.Flatten(levels[..k]))
    requires NoneMalformed(preview, levels[k]) ==> NoneMalformed(preview, DagResolver.Flatten(levels[..k + 1]))
    requires RunsAdded([], c.trace, Due(preview, DagResolver.Flatten(levels[..if fault.BadCarried? then k else k + 1])))
    ensures Ended(graph, preview, levels, Ending(if fault.BadCarried? then k else k + 1, Some(fault)), c)
  {}

  function Report(fault: Option<Fault>, total: nat, revision: nat): Outcome {
    match fault
    case None => Success(total, revision)
    case Some(Gate(g, n, partial)) => ApprovalRequired(g, n, partial)
    case Some(IntegrationNotConnected(n)) => Error(IntegrationError, Some(n), total, revision)
    case Some(StepFailed(n)) => Error(StepFailure, Some(n), total, revision)
    case Some(RecoveryExhausted(n, _)) => Error(RecoveryError, Some(n), total, revision)
    case Some(BadCarried(_)) => Error(InternalError, None, total, revision)
  }

  // The most spawning steps in one level, and at least one for the recovery reasoner.
  function Width(levels: seq<seq<PlanStep>>): (w: nat)
    ensures w >= 1
  {
    if levels == [] then 1
    else
      var rest := Width(levels[..|levels| - 1]);
      var last := SpawnersIn(levels[|levels| - 1]);
      if last > rest then last else rest
  }

  lemma {:induction false} WidthCovers(levels: seq<seq<PlanStep>>, k: nat)
    requires k < |levels|
    ensures SpawnersIn(levels[k]) <= Width(levels)
  {
    if k < |levels| - 1 {
      WidthCovers(levels[..|levels| - 1], k);
    }
  }

  lemma NothingYet(graph: seq<PlanStep>, preview: Preview, w: nat)
    requires w >= 1
    ensures Sound(graph, preview, w, Spawning(false, false, false), FRESH)
  {
    assert FailedIds(graph, map[]) == {};
  }

  lemma DistinctParts(a: seq<PlanStep>, b: seq<PlanStep>)
    requires DistinctSteps(a + b)
    ensures DistinctSteps(a) && DistinctSteps(b) && Ids(a) !! Ids(b)
  {
    var s := a + b;
    forall i, j | 0 <= i < j < |a| ensures a[i].step != a[j].step { assert s[i].step != s[j].step; }
    forall i, j | 0 <= i < j < |b| ensures b[i].step != b[j].step { assert s[|a| + i].step != s[|a| + j].step; }
    forall i, j | 0 <= i < |a| && 0 <= j < |b| ensures a[i].step != b[j].step { assert s[i].step != s[|a| + j].step; }
  }

  lemma {:induction false} LevelsApart(levels: seq<seq<PlanStep>>, k: nat)
    requires k < |levels| && DistinctSteps(DagResolver.Flatten(levels))
    ensures DistinctSteps(levels[k]) && Ids(levels[k]) !! Ids(DagResolver.Flatten(levels[..k]))
  {
    var n := |levels| - 1;
    DistinctParts(DagResolver.Flatten(levels[..n]), levels[n]);
    if k < n {
      LevelsApart(levels[..n], k);
      assert levels[..n][..k] == levels[..k];
    }
  }

  lemma FlattenPrefix(levels: seq<seq<PlanStep>>, k: nat)
    requires k < |levels|
    ensures Ids(DagResolver.Flatten(levels[..k + 1])) == Ids(DagResolver.Flatten(levels[..k])) + Ids(levels[k])
  {
    assert levels[..k + 1][..k] == levels[..k];
    DagResolver.IdsConcat(DagResolver.Flatten(levels[..k]), levels[k]);
  }

  // Before level `k` runs: its steps have no result yet, and their present dependencies do.
  lemma LevelReady(graph: seq<PlanStep>, levels: seq<seq<PlanStep>>, k: nat, known: set<int>)
    requires DistinctSteps(graph) && DagResolver.Layered(graph, levels) && k < |levels|
    requires known * Ids(graph) == Ids(DagResolver.Flatten(levels[..k]))
    ensures DistinctSteps(levels[k])
    ensures forall s :: s in levels[k] ==> s in graph && s.step as int !in known && DepsIn(graph, s, known)
    ensures Ids(DagResolver.Flatten(levels[..k + 1])) == Ids(DagResolver.Flatten(levels[..k])) + Ids(levels[k])
  {
    LevelsApart(levels, k);
    FlattenPrefix(levels, k);
    forall s | s in levels[k] ensures s in graph && s.step as int !in known && DepsIn(graph, s, known) {
      var j :| 0 <= j < |levels[k]| && levels[k][j] == s;
      DagResolver.FlattenHas(levels, k, j);
      DagResolver.LayeredHas(graph, levels, s);
      assert s.step as int in Ids(graph) && s.step as int in Ids(levels[k]);
      assert s.step as int !in known * Ids(graph);
      forall d | d in s.after && d in Ids(graph) ensures d in known {
        var k', j' := DagResolver.DependenciesFirst(graph, levels, k, j, d);
        assert levels[..k][k'][j'].step == d;
        DagResolver.FlattenHas(levels[..k], k', j');
        assert d in Ids(DagResolver.Flatten(levels[..k]));
      }
    }
  }

  lemma EveryStepDone(graph: seq<PlanStep>, levels: seq<seq<PlanStep>>, known: set<int>)
    requires DagResolver.Layered(graph, levels)
    requires known * Ids(graph) == Ids(DagResolver.Flatten(levels[..|levels|]))
    ensures Ids(graph) <= known
  {
    assert levels[..|levels|] == levels;
    forall n | n in Ids(graph) ensures n in known {
      var i :| 0 <= i < |graph| && graph[i].step == n;
      DagResolver.LayeredHas(graph, levels, graph[i]);
      assert n in Ids(DagResolver.Flatten(levels));
    }
  }

  lemma NextToSettle(graph: seq<PlanStep>, steps: seq<PlanStep>, i: nat, before: set<int>, known: set<int>)
    requires DistinctSteps(steps) && i < |steps|
    requires forall s :: s in steps ==> s in graph && s.step as int !in before
    requires known * Ids(graph) == before * Ids(graph) + Ids(steps[..i])
    ensures steps[i] in steps && steps[i] in graph && steps[i].step as int !in known
    ensures Ids(steps[..i + 1]) == Ids(steps[..i]) + {steps[i].step as int}
  {
    var n := steps[i].step as int;
    assert steps[i] in steps;
    assert n in Ids(graph);
    assert n !in before * Ids(graph) + Ids(steps[..i]);
    assert n !in known * Ids(graph);
    assert steps[..i + 1] == steps[..i] + [steps[i]];
    IdsSnoc(steps[..i], steps[i]);
  }

  // The outcomes of the first `i` tasks are the results of their steps.
  ghost predicate OutcomesStored(steps: seq<PlanStep>, tasks: seq<Task>, i: nat, results: Results)
    requires i <= |steps| == |tasks| && forall j :: 0 <= j < |tasks| ==> tasks[j].Done?
  {
    forall j :: 0 <= j < i ==> steps[j].step as int in results && StoredAs(tasks[j].outcome, results[steps[j].step as int])
  }

  lemma StillStored(graph: seq<PlanStep>, steps: seq<PlanStep>, tasks: seq<Task>, i: nat, before: Results, after: Results)
    requires i <= |steps| == |tasks| && forall j :: 0 <= j < |tasks| ==> tasks[j].Done?
    requires forall j :: 0 <= j < |steps| ==> steps[j].step as int in Ids(graph)
    requires OutcomesStored(steps, tasks, i, before) && KeepsPlanned(graph, before, after)
    ensures OutcomesStored(steps, tasks, i, after)
  {}

  lemma SettledMore(graph: seq<PlanStep>, steps: seq<PlanStep>, tasks: seq<Task>, i: nat, before: Results, middle: Results, after: Results)
    requires i < |steps| == |tasks| && forall j :: 0 <= j < |tasks| ==> tasks[j].Done?
    requires forall j :: 0 <= j < |steps| ==> steps[j].step as int in Ids(graph)
    requires KeepsPlanned(graph, before, middle) && KeepsPlanned(graph, middle, after) && OutcomesStored(steps, tasks, i, middle)
    ensures KeepsPlanned(graph, before, after) && OutcomesStored(steps, tasks, i, after)
    ensures steps[i].step as int in after && StoredAs(tasks[i].outcome, after[steps[i].step as int]) ==>
              OutcomesStored(steps, tasks, i + 1, after)
  {
    KeptAgain(graph, before, middle, after);
    StillStored(graph, steps, tasks, i, middle, after);
  }

  lemma SettledArePlanned(graph: seq<PlanStep>, steps: seq<PlanStep>)
    requires forall s :: s in steps ==> s in graph
    ensures forall j :: 0 <= j < |steps| ==> steps[j].step as int in Ids(graph)
  {
    forall j | 0 <= j < |steps| ensures steps[j].step as int in Ids(graph) {
      assert steps[j] in steps;
    }
  }

  lemma StillUnsettled(graph: seq<PlanStep>, steps: seq<PlanStep>, before: Results, after: Results)
    requires SamePlanned(graph, before, after)
    requires forall s :: s in steps ==> s in graph && s.step as int !in before
    ensures forall s :: s in steps ==> s.step as int !in after
  {}

  lemma StartOk(graph: seq<PlanStep>, preview: Preview, before: set<int>, width: nat, h: Spawning, c: Ctx,
                level: seq<PlanStep>, executable: seq<PlanStep>)
    requires DistinctSteps(graph) && width >= 1 && SpawnersIn(level) <= width
    requires Sound(graph, preview, width, h, c)
    requires Filtered(graph, preview, before, level, c.results.Keys, executable)
    requires forall s :: s in level ==> s in graph && DepsIn(graph, s, before)
    ensures Ongoing(graph, preview, c.results.Keys, width, h, c.trace, true, c, ReadyTasks(executable))
  {
    SpawnersOfTasks(executable);
    AllReadyOk(graph, preview, before, c, level, executable);
    ReadyCounted(c.trace, executable);
    History.RemembersStart(graph, preview, c, ReadyTasks(executable));
    History.LastedStart(c.trace, true, ReadyTasks(executable));
  }

  // The same for a recovery.
  lemma AloneOk(graph: seq<PlanStep>, preview: Preview, width: nat, h: Spawning, c: Ctx, reasoner: PlanStep, start: seq<Task>)
    requires DistinctSteps(graph) && width >= 1 && Sound(graph, preview, width, h, c) && reasoner in graph
    requires start == [Ready(reasoner, ByRecovery)]
    ensures Ongoing(graph, preview, c.results.Keys, width, h, c.trace, false, c, start)
  {
    SingleSum(start[0], SpawnerOf);
    SingleSum(start[0], AskingOf);
    History.RemembersStart(graph, preview, c, start);
    History.LastedStart(c.trace, false, start);
  }

  lemma ReadyCounted(trace: seq<TraceEvent>, steps: seq<PlanStep>)
    ensures LevelCounted(trace, true, trace, ReadyTasks(steps))
    ensures DistinctSteps(steps) ==> TasksDistinct(ReadyTasks(steps))
    ensures forall i :: 0 <= i < |ReadyTasks(steps)| ==> !ReadyTasks(steps)[i].Asking?
  {}

  lemma AllReadyOk(graph: seq<PlanStep>, preview: Preview, before: set<int>, c: Ctx, level: seq<PlanStep>, executable: seq<PlanStep>)
    requires Filtered(graph, preview, before, level, c.results.Keys, executable)
    requires forall t :: t in level ==> t in graph && DepsIn(graph, t, before)
    ensures forall i :: 0 <= i < |executable| ==>
              var task := ReadyTasks(executable)[i];
              TaskOk(graph, preview, c.results.Keys, c, task) && Logged(c, task)
  {
    forall i | 0 <= i < |executable|
      ensures TaskOk(graph, preview, c.results.Keys, c, ReadyTasks(executable)[i]) && Logged(c, ReadyTasks(executable)[i])
    {
      var s := executable[i];
      ReadyOk(graph, preview, before, c, level, executable, s);
    }
  }

  lemma ReadyOk(graph: seq<PlanStep>, preview: Preview, before: set<int>, c: Ctx, level: seq<PlanStep>,
                executable: seq<PlanStep>, s: PlanStep)
    requires Filtered(graph, preview, before, level, c.results.Keys, executable) && s in executable
    requires forall t :: t in level ==> t in graph && DepsIn(graph, t, before)
    ensures TaskOk(graph, preview, c.results.Keys, c, Ready(s, ByLevel))
  {}

  lemma AllSettleable(graph: seq<PlanStep>, preview: Preview, base: set<int>, width: nat, h: Spawning, c: Ctx, tasks: seq<Task>)
    requires Gathering(graph, preview, base, width, h, c, tasks) && forall i :: 0 <= i < |tasks| ==> tasks[i].Done?
    ensures forall i :: 0 <= i < |tasks| ==> Settleable(graph, preview, base, c, tasks[i].step, tasks[i])
  {
    forall i | 0 <= i < |tasks| ensures Settleable(graph, preview, base, c, tasks[i].step, tasks[i]) {
      assert TaskOk(graph, preview, base, c, tasks[i]) && Logged(c, tasks[i]);
    }
  }

  lemma GatheredAll(graph: seq<PlanStep>, preview: Preview, base: set<int>, width: nat, h: Spawning, before: Results,
                    trace: seq<TraceEvent>, c: Ctx, tasks: seq<Task>, due: set<int>)
    requires Ongoing(graph, preview, base, width, h, trace, true, c, tasks) && forall i :: 0 <= i < |tasks| ==> tasks[i].Done?
    requires SamePlanned(graph, before, c.results) && c.recoveries == |FailedIds(graph, before)| <= MAX_RECOVERY_ACTIONS
    requires ResultsFit(graph, preview, before) && ResultsLogged(graph, preview, before, trace)
    requires forall n :: n in due <==> HasNumber(tasks, n)
    ensures Sound(graph, preview, width, h, c) && c.results.Keys * Ids(graph) == before.Keys * Ids(graph)
    ensures forall i :: 0 <= i < |tasks| ==> Settleable(graph, preview, base, c, tasks[i].step, tasks[i])
    ensures RunsAdded(trace, c.trace, due) && trace <= c.trace && History.Recoveries(c.trace) == History.Recoveries(trace)
  {
    GatheringEnds(graph, preview, base, width, h, before, trace, c, tasks);
    AllSettleable(graph, preview, base, width, h, c, tasks);
    CountedAtEnd(trace, true, c.trace, tasks, due);
  }

  lemma SingleSum(t: Task, f: Task -> nat)
    ensures Sum([t], f) == f(t)
  {
    assert [t][..0] == [];
  }

  // When all tasks are done the run is as sound as it was before the gathering.
  lemma GatheringEnds(graph: seq<PlanStep>, preview: Preview, base: set<int>, width: nat, h: Spawning,
                      before: Results, trace: seq<TraceEvent>, c: Ctx, tasks: seq<Task>)
    requires Gathering(graph, preview, base, width, h, c, tasks)
    requires forall i :: 0 <= i < |tasks| ==> tasks[i].Done?
    requires SamePlanned(graph, before, c.results) && c.recoveries == |FailedIds(graph, before)| <= MAX_RECOVERY_ACTIONS
    requires ResultsFit(graph, preview, before) && ResultsLogged(graph, preview, before, trace) && trace <= c.trace
    requires History.Remembers(graph, preview, c, tasks)
    ensures Sound(graph, preview, width, h, c)
    ensures c.results.Keys * Ids(graph) == before.Keys * Ids(graph)
  {
    AllDoneAskNothing(tasks);
    SamePlannedFailures(graph, before, c.results);
    SamePlannedFits(graph, preview, before, c.results);
    StillLogged(graph, preview, before, c.results, trace, c.trace);
    History.RemembersEnd(graph, preview, c, tasks);
  }

  lemma SamePlannedFits(graph: seq<PlanStep>, preview: Preview, before: Results, after: Results)
    requires SamePlanned(graph, before, after) && ResultsFit(graph, preview, before)
    ensures ResultsFit(graph, preview, after)
  {}
}
