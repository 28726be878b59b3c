/** Overlapping spawn requests: equal numbers and too many steps, from a valid plan and a fresh run on. */
module SpawnOverlap {
  import opened Plans
  import opened ExecutionModel
  import opened PlanValidator
  import opened Chains
  import DagResolver
  import ExecuteService

  // The task at this place goes on, with this answer.
  datatype Turn = Turn(k: nat, reply: Reply)

  function TurnOf(graph: seq<PlanStep>, preview: Preview, c: Ctx, tasks: seq<Task>, t: Turn): (Ctx, seq<Task>)
    requires t.k < |tasks|
  {
    var (d, next) := Segment(graph, preview, c, tasks[t.k], t.reply);
    (d, tasks[t.k := next])
  }

  function Run(graph: seq<PlanStep>, preview: Preview, c: Ctx, tasks: seq<Task>, turns: seq<Turn>): (Ctx, seq<Task>)
    requires forall t :: t in turns ==> t.k < |tasks|
    decreases |turns|
  {
    if turns == [] then (c, tasks)
    else
      var (d, after) := TurnOf(graph, preview, c, tasks, turns[0]);
      Run(graph, preview, d, after, turns[1..])
  }

  predicate MayAsk(graph: seq<PlanStep>, spawned: seq<PlanStep>, s: PlanStep) {
    SpawnsChildren(s) && CountBy(spawned, s.step) < Limit(s) && |graph| + |spawned| < MAX_PLAN_STEPS
  }

  predicate CanAsk(graph: seq<PlanStep>, c: Ctx, task: Task, reply: Reply) {
    && task.Running? && MayAsk(graph, c.spawned, task.step)
    && reply.ok && reply.requests != [] && reply.requests[0].wellFormed
  }

  lemma AskTurn(graph: seq<PlanStep>, preview: Preview, c: Ctx, tasks: seq<Task>, t: Turn, rest: seq<Turn>)
    returns (d: Ctx, after: seq<Task>)
    requires t.k < |tasks| && CanAsk(graph, c, tasks[t.k], t.reply) && forall u :: u in rest ==> u.k < |tasks|
    ensures d.spawned == c.spawned
    ensures var s, reqs := tasks[t.k].step, t.reply.requests;
            after == tasks[t.k := Asking(s, NewChild(graph, c.spawned, s, reqs[0]), |c.spawned|, reqs[1..], t.reply.content)]
    ensures Run(graph, preview, c, tasks, [t] + rest) == Run(graph, preview, d, after, rest)
  {
    assert ([t] + rest)[1..] == rest;
    var turned := TurnOf(graph, preview, c, tasks, t);
    d, after := turned.0, turned.1;
  }

  lemma GrantTurn(graph: seq<PlanStep>, preview: Preview, c: Ctx, tasks: seq<Task>, t: Turn, rest: seq<Turn>)
    returns (d: Ctx, after: seq<Task>)
    requires t.k < |tasks| && Granted(tasks[t.k], t.reply) && forall u :: u in rest ==> u.k < |tasks|
    ensures d.spawned == c.spawned + [tasks[t.k].child]
    ensures |after| == |tasks| && forall i :: 0 <= i < |tasks| && i != t.k ==> after[i] == tasks[i]
    ensures Run(graph, preview, c, tasks, [t] + rest) == Run(graph, preview, d, after, rest)
  {
    assert ([t] + rest)[1..] == rest;
    var turned := TurnOf(graph, preview, c, tasks, t);
    d, after := turned.0, turned.1;
  }

  // Two spawning steps of a level ask one after the other, and then both are allowed.
  function Overlap(i: nat, j: nat, first: Reply, second: Reply, yes: Reply): seq<Turn> {
    [Turn(i, first)] + ([Turn(j, second)] + ([Turn(i, yes)] + ([Turn(j, yes)] + [])))
  }

  // Whenever two spawning steps of a level are running and each is answered with a request,
  // this may happen. Then both children are built from the same count, get the same number,
  // and are both recorded.
  lemma OverlapDuplicatesNumber(graph: seq<PlanStep>, preview: Preview, c: Ctx, tasks: seq<Task>, i: nat, j: nat,
                                first: Reply, second: Reply, yes: Reply)
    requires i < |tasks| && j < |tasks| && i != j
    requires CanAsk(graph, c, tasks[i], first) && CanAsk(graph, c, tasks[j], second) && yes.ok && yes.allowed
    ensures var end := Run(graph, preview, c, tasks, Overlap(i, j, first, second, yes)).0;
            && |end.spawned| == |c.spawned| + 2 && end.spawned[..|c.spawned|] == c.spawned
            && end.spawned[|c.spawned|].spawnedBy == Some(tasks[i].step.step as int)
            && end.spawned[|c.spawned| + 1].spawnedBy == Some(tasks[j].step.step as int)
            && end.spawned[|c.spawned|].step == end.spawned[|c.spawned| + 1].step == MaxStep(graph) + |c.spawned| + 1
  {
    var d, after := BothAsk(graph, preview, c, tasks, i, j, first, second, yes);
    BothGranted(graph, preview, d, after, i, j, yes);
  }

  lemma BothAsk(graph: seq<PlanStep>, preview: Preview, c: Ctx, tasks: seq<Task>, i: nat, j: nat,
                first: Reply, second: Reply, yes: Reply)
    returns (d: Ctx, after: seq<Task>)
    requires i < |tasks| && j < |tasks| && i != j
    requires CanAsk(graph, c, tasks[i], first) && CanAsk(graph, c, tasks[j], second) && yes.ok && yes.allowed
    ensures d.spawned == c.spawned && |after| == |tasks| && Granted(after[i], yes) && Granted(after[j], yes)
    ensures after[i].child == NewChild(graph, c.spawned, tasks[i].step, first.requests[0])
    ensures after[j].child == NewChild(graph, c.spawned, tasks[j].step, second.requests[0])
    ensures Run(graph, preview, c, tasks, Overlap(i, j, first, second, yes)) ==
            Run(graph, preview, d, after, [Turn(i, yes)] + ([Turn(j, yes)] + []))
  {
    var grants := [Turn(i, yes)] + ([Turn(j, yes)] + []);
    var c1, tasks1 := AskTurn(graph, preview, c, tasks, Turn(i, first), [Turn(j, second)] + grants);
    d, after := AskTurn(graph, preview, c1, tasks1, Turn(j, second), grants);
  }

  lemma BothGranted(graph: seq<PlanStep>, preview: Preview, c: Ctx, tasks: seq<Task>, i: nat, j: nat, yes: Reply)
    requires i < |tasks| && j < |tasks| && i != j && Granted(tasks[i], yes) && Granted(tasks[j], yes)
    ensures Run(graph, preview, c, tasks, [Turn(i, yes)] + ([Turn(j, yes)] + [])).0.spawned ==
            c.spawned + [tasks[i].child] + [tasks[j].child]
  {
    var d, after := GrantTurn(graph, preview, c, tasks, Turn(i, yes), [Turn(j, yes)] + []);
    var e, done := GrantTurn(graph, preview, d, after, Turn(j, yes), []);
  }

  // ---- a valid plan in which it happens -------------------------------------------

  // Steps 1 and 2 are trusted reasoners that may spawn and wait for nothing; each later step
  // waits for the one before it.
  function TwinStep(i: nat): PlanStep {
    PlanStep(i + 1, Reasoner, LlmReasoning, "model", "reason", if i < 2 then [] else [i], [], None, true, Some(Trusted), i < 2, None, None,
             Some("policy"), Some(ReasoningConfig(None)), None)
  }

  function TwinPlan(n: nat): seq<PlanStep> {
    seq(n, i requires 0 <= i < n => TwinStep(i))
  }

  ghost predicate Valid(plan: Plan, schemas: set<string>) {
    && PassesEarlier(plan, schemas) && RuleF(plan.graph)
    && forall i :: 0 <= i < |plan.graph| ==> LaterStepRules(plan.graph[i])
  }

  lemma {:induction false} TwinMax(n: nat)
    ensures MaxStep(TwinPlan(n)) == n
  {
    if n > 0 {
      assert TwinPlan(n)[..n - 1] == TwinPlan(n - 1);
      TwinMax(n - 1);
    }
  }

  lemma TwinStructure(n: nat)
    ensures WellStructured(TwinPlan(n))
  {
    var graph := TwinPlan(n);
    forall i | 0 <= i < n ensures BackwardDeps(graph, graph[i]) {
      if i >= 2 {
        assert graph[i - 1].step in Ids(graph);
      }
    }
  }

  lemma TwinParallel(n: nat)
    ensures ParallelOk(TwinPlan(n))
  {
    var graph := TwinPlan(n);
    forall i | 0 <= i < n ensures |SameDeps(graph, graph[i].after)| <= MAX_PARALLEL_STEPS {
      var few := if i < 2 then {0, 1} else {i};
      forall j | j in SameDeps(graph, graph[i].after) ensures j in few {
        TwinDeps(i, j);
      }
      DagResolver.SubsetCardinality(SameDeps(graph, graph[i].after), few);
    }
  }

  lemma TwinDeps(i: nat, j: nat)
    requires multiset(TwinStep(i).after) == multiset(TwinStep(j).after)
    ensures j in if i < 2 then {0, 1} else {i}
  {
    var a, b := TwinStep(i).after, TwinStep(j).after;
    assert |a| == |multiset(a)| == |multiset(b)| == |b|;
    if i >= 2 {
      assert i in multiset(a);
      assert i in b;
    }
  }

  lemma TwinPlanValid(n: nat, schemas: set<string>)
    requires n <= MAX_STEPS
    ensures Valid(Plan(TwinPlan(n), []), schemas)
  {
    var graph := TwinPlan(n);
    TwinStructure(n);
    TwinParallel(n);
    NoReferences(graph);
  }

  lemma NoReferences(graph: seq<PlanStep>)
    requires forall i :: 0 <= i < |graph| ==> graph[i].contextFrom == []
    ensures ContextBackward(StepByNumber(graph)) && RuleF(graph)
  {
    NumberedSteps(graph);
    var steps := StepByNumber(graph);
    forall k | k in steps ensures RefsBelow(steps, steps[k].contextFrom, k) {
      var s := steps[k];
      assert s in graph;
    }
    assert forall a :: !Reaches(steps, true, [], a);
  }

  // The first level of such a plan is always the two reasoners.
  lemma TwinLevels(n: nat, levels: seq<seq<PlanStep>>)
    requires n >= 2 && DagResolver.Layered(TwinPlan(n), levels)
    ensures levels != [] && Ids(levels[0]) == {1, 2} && |levels[0]| == 2
    ensures forall i :: 0 <= i < 2 ==> levels[0][i] in [TwinStep(0), TwinStep(1)]
  {
    var graph := TwinPlan(n);
    TwinStructure(n);
    TwinFirst(n, levels, 0);
    TwinFirst(n, levels, 1);
    forall j | 0 <= j < |levels[0]| ensures levels[0][j] in [TwinStep(0), TwinStep(1)] {
      OnlyTwins(n, levels, j);
    }
    assert Ids(levels[0]) == {1, 2} by {
      assert TwinStep(0) in levels[0] && TwinStep(1) in levels[0];
    }
    ExecuteService.LevelsApart(levels, 0);
    DistinctCardinality(levels[0]);
  }

  lemma TwinWaits(n: nat, i: nat)
    requires n >= 2 && i < 2 && DistinctSteps(TwinPlan(n))
    ensures var waits := DagResolver.WaitsOf(TwinPlan(n)); i + 1 in waits && waits[i + 1] == []
  {
    var graph := TwinPlan(n);
    assert graph[i].step in Ids(graph);
    DistinctDeps(graph, i);
  }

  lemma TwinFirst(n: nat, levels: seq<seq<PlanStep>>, i: nat)
    requires n >= 2 && DagResolver.Layered(TwinPlan(n), levels) && i < 2 && DistinctSteps(TwinPlan(n))
    ensures levels != [] && TwinStep(i) in levels[0]
  {
    var graph := TwinPlan(n);
    var s := graph[i];
    DagResolver.LayeredHas(graph, levels, s);
    var k, j := DagResolver.InFlatten(levels, s);
    TwinWaits(n, i);
    RankZero(graph, levels, k, j);
  }

  lemma RankZero(graph: seq<PlanStep>, levels: seq<seq<PlanStep>>, k: nat, j: nat)
    requires DagResolver.Layered(graph, levels) && k < |levels| && j < |levels[k]|
    requires var waits := DagResolver.WaitsOf(graph); levels[k][j].step as int in waits && waits[levels[k][j].step as int] == []
    ensures k == 0
  {
    assert DagResolver.OnLevel(graph, levels, k, j);
    NoLongChain(DagResolver.WaitsOf(graph), levels[k][j].step, k + 1);
  }

  lemma NoLongChain(waits: Waits, x: int, m: nat)
    requires LongestChain(waits, x, m) && x in waits && waits[x] == []
    ensures m <= 1
  {
    var c :| ChainTo(waits, c, x) && |c| == m;
    if m > 1 {
      assert Edge(waits, c[m - 2], c[m - 1]);
    }
  }

  lemma OnlyTwins(n: nat, levels: seq<seq<PlanStep>>, j: nat)
    requires n >= 2 && DagResolver.Layered(TwinPlan(n), levels) && levels != [] && j < |levels[0]| && DistinctSteps(TwinPlan(n))
    ensures levels[0][j] in [TwinStep(0), TwinStep(1)]
  {
    var graph := TwinPlan(n);
    var s := levels[0][j];
    DagResolver.FlattenHas(levels, 0, j);
    DagResolver.LayeredHas(graph, levels, s);
    var i :| 0 <= i < n && graph[i] == s;
    if i >= 2 {
      assert graph[i - 1].step in Ids(graph);
      var k', j' := DagResolver.DependenciesFirst(graph, levels, 0, j, i);
    }
  }

  const START := Reply(true, true, 0, [], false, false)
  const ASK := Reply(true, true, 0, [SpawnRequest(true, Analyzer, Api, "tool", "call")], false, false)
  const ALLOW := Reply(true, true, 0, [], true, false)

  function OverlapTurns(): seq<Turn> {
    [Turn(0, START)] + ([Turn(1, START)] + Overlap(0, 1, ASK, ASK, ALLOW))
  }

  lemma StartTurn(graph: seq<PlanStep>, c: Ctx, tasks: seq<Task>, t: Turn, rest: seq<Turn>) returns (d: Ctx, after: seq<Task>)
    requires t.k < |tasks| && tasks[t.k].Ready? && tasks[t.k].step.gateId.None? && forall u :: u in rest ==> u.k < |tasks|
    ensures d.spawned == c.spawned && after == tasks[t.k := Running(tasks[t.k].step)]
    ensures Run(graph, map[], c, tasks, [t] + rest) == Run(graph, map[], d, after, rest)
  {
    assert ([t] + rest)[1..] == rest;
    var turned := TurnOf(graph, map[], c, tasks, t);
    d, after := turned.0, turned.1;
  }

  // Such runs exist for every size: from a fresh context, six segments of the first level of a
  // valid plan record two children with the same number, and with 99 planned steps that makes
  // 101, past the limit of 100.
  lemma OverlapRun(n: nat, levels: seq<seq<PlanStep>>, schemas: set<string>)
    requires 2 <= n <= 99 && DagResolver.Layered(TwinPlan(n), levels)
    ensures Valid(Plan(TwinPlan(n), []), schemas)
    ensures |levels| > 0 && |levels[0]| == 2
    ensures var end := Run(TwinPlan(n), map[], ExecuteService.FRESH, ExecuteService.ReadyTasks(levels[0]), OverlapTurns()).0;
            && |end.spawned| == 2 && end.spawned[0].step == end.spawned[1].step == n + 1
            && !Numbered(TwinPlan(n), end) && (n == 99 ==> Oversized(TwinPlan(n), end))
  {
    var graph := TwinPlan(n);
    TwinPlanValid(n, schemas);
    TwinMax(n);
    TwinLevels(n, levels);
    forall i | 0 <= i < 2 ensures levels[0][i].gateId.None? && MayAsk(graph, [], levels[0][i]) {
      TwinAsks(graph, levels[0][i]);
    }
    BothStart(graph, ExecuteService.FRESH, ExecuteService.ReadyTasks(levels[0]));
  }

  lemma BothStart(graph: seq<PlanStep>, c: Ctx, tasks: seq<Task>)
    requires |tasks| == 2 && forall i :: 0 <= i < 2 ==>
               tasks[i].Ready? && tasks[i].step.gateId.None? && MayAsk(graph, c.spawned, tasks[i].step)
    ensures var end := Run(graph, map[], c, tasks, OverlapTurns()).0;
            && |end.spawned| == |c.spawned| + 2
            && end.spawned[|c.spawned|].step == end.spawned[|c.spawned| + 1].step == MaxStep(graph) + |c.spawned| + 1
  {
    var rest := Overlap(0, 1, ASK, ASK, ALLOW);
    var c1, tasks1 := StartTurn(graph, c, tasks, Turn(0, START), [Turn(1, START)] + rest);
    var c2, tasks2 := StartTurn(graph, c1, tasks1, Turn(1, START), rest);
    OverlapDuplicatesNumber(graph, map[], c2, tasks2, 0, 1, ASK, ASK, ALLOW);
  }

  lemma TwinAsks(graph: seq<PlanStep>, s: PlanStep)
    requires s in [TwinStep(0), TwinStep(1)] && |graph| < MAX_PLAN_STEPS
    ensures s.gateId.None? && MayAsk(graph, [], s)
  {}
}
