/** Structural checks of a planned graph, and the trust-boundary rule on context references. */
module PlanValidator {
  import opened Plans
  import opened Chains
  import DagResolver

  datatype StructureVerdict =
    | WellFormed
    | DuplicateSteps
    | SelfDependency(step: int)
    | ForwardDependency(step: int, dep: int)
    | MissingDependency(step: int, dep: int)

  ghost predicate BackwardDeps(graph: seq<PlanStep>, s: PlanStep) {
    forall d :: d in s.after ==> d < s.step && d in Ids(graph)
  }

  ghost predicate WellStructured(graph: seq<PlanStep>) {
    DistinctSteps(graph) && forall i :: 0 <= i < |graph| ==> BackwardDeps(graph, graph[i])
  }

  method CheckStructure(graph: seq<PlanStep>) returns (v: StructureVerdict)
    ensures v.WellFormed? <==> WellStructured(graph)
    ensures v.DuplicateSteps? <==> !DistinctSteps(graph)
    ensures v.SelfDependency? ==> exists s :: s in graph && s.step == v.step && v.step in s.after
    ensures v.ForwardDependency? ==> exists s :: s in graph && s.step == v.step < v.dep && v.dep in s.after && v.step !in s.after
    ensures v.MissingDependency? ==> exists s :: s in graph && s.step == v.step > v.dep && v.dep in s.after && v.dep !in Ids(graph)
  {
    DistinctCardinality(graph);
    var stepSet := Ids(graph);
    if |graph| != |stepSet| {
      return DuplicateSteps;
    }
    for i := 0 to |graph|
      invariant forall k :: 0 <= k < i ==> BackwardDeps(graph, graph[k])
    {
      var s := graph[i];
      if s.step as int in s.after {
        return SelfDependency(s.step);
      }
      for j := 0 to |s.after|
        invariant forall k :: 0 <= k < j ==> s.after[k] < s.step && s.after[k] in stepSet
      {
        var dep := s.after[j];
        assert dep in s.after;
        assert BackwardDeps(graph, s) ==> dep < s.step && dep in stepSet;
        if dep >= s.step {
          return ForwardDependency(s.step, dep);
        }
        if dep !in stepSet {
          return MissingDependency(s.step, dep);
        }
      }
      assert BackwardDeps(graph, s);
    }
    return WellFormed;
  }

  // Along a chain of a well-structured graph the step numbers grow, starting from at least 1.
  lemma {:induction false} ChainNumbersGrow(graph: seq<PlanStep>, c: seq<int>)
    requires WellStructured(graph) && Chain(DagResolver.WaitsOf(graph), c)
    ensures |c| <= c[|c| - 1]
    ensures |c| >= 2 ==> c[0] < c[|c| - 1]
  {
    var n := |c| - 1;
    StepNumbersPositive(graph, c[n]);
    if n > 0 {
      EdgeGrows(graph, c[n - 1], c[n]);
      ChainNumbersGrow(graph, c[..n]);
    }
  }

  lemma StepNumbersPositive(graph: seq<PlanStep>, x: int)
    requires x in Ids(graph)
    ensures x >= 1
  {}

  lemma EdgeGrows(graph: seq<PlanStep>, d: int, x: int)
    requires WellStructured(graph) && Edge(DagResolver.WaitsOf(graph), d, x)
    ensures d < x
  {
    var k :| 0 <= k < |graph| && graph[k].step == x;
    DistinctDeps(graph, k);
    assert BackwardDeps(graph, graph[k]);
  }

  // The first stage feeds the second: what it accepts can always be layered, early enough.
  lemma WellStructuredResolves(graph: seq<PlanStep>)
    requires WellStructured(graph)
    ensures !HasCycle(DagResolver.WaitsOf(graph))
    ensures forall s, n: nat :: s in graph && LongestChain(DagResolver.WaitsOf(graph), s.step, n) ==> n <= s.step
  {
    var waits := DagResolver.WaitsOf(graph);
    forall c | Chain(waits, c) && |c| >= 2 ensures c[0] != c[|c| - 1] {
      ChainNumbersGrow(graph, c);
    }
    forall s, n: nat | s in graph && LongestChain(waits, s.step, n) ensures n <= s.step {
      var c :| ChainTo(waits, c, s.step) && |c| == n;
      ChainNumbersGrow(graph, c);
    }
  }

  method CheckAndResolve(graph: seq<PlanStep>) returns (v: StructureVerdict, r: DagResolver.ResolveResult)
    requires graph != []
    ensures v.WellFormed? <==> WellStructured(graph)
    ensures v.WellFormed? ==> r.Resolved? && DagResolver.Layered(graph, r.levels)
    ensures v.WellFormed? ==> forall k, j :: 0 <= k < |r.levels| && 0 <= j < |r.levels[k]| ==> k <= r.levels[k][j].step - 1
  {
    v := CheckStructure(graph);
    r := DagResolver.Resolve(graph);
    if v.WellFormed? {
      WellStructuredResolves(graph);
      forall k, j | 0 <= k < |r.levels| && 0 <= j < |r.levels[k]| ensures k <= r.levels[k][j].step - 1 {
        DagResolver.FlattenHas(r.levels, k, j);
        assert r.levels[k][j] in multiset(DagResolver.Flatten(r.levels));
        assert r.levels[k][j] in graph;
        assert DagResolver.OnLevel(graph, r.levels, k, j);
      }
    }
  }

  // ---- context references -------------------------------------------------

  type StepMap = map<int, PlanStep>

  // Step `n` is in the plan and references `m`; a blocked walk does not go on from sanitizers.
  ghost predicate Reads(steps: StepMap, blocked: bool, n: int, m: int) {
    n in steps && m in steps[n].contextFrom && !(blocked && steps[n].kind.Sanitizer?)
  }

  // A walk over context_from.
  ghost predicate Trail(steps: StepMap, blocked: bool, start: seq<int>, p: seq<int>) {
    && p != [] && p[0] in start
    && (forall i, j :: 0 <= i && j == i + 1 && j < |p| ==> Reads(steps, blocked, p[i], p[j]))
  }

  ghost predicate Reaches(steps: StepMap, blocked: bool, start: seq<int>, n: int) {
    exists p :: Trail(steps, blocked, start, p) && p[|p| - 1] == n
  }

  lemma ReachesOn(steps: StepMap, blocked: bool, start: seq<int>, n: int)
    requires Reaches(steps, blocked, start, n)
    ensures forall m :: Reads(steps, blocked, n, m) ==> Reaches(steps, blocked, start, m)
  {
    var p :| Trail(steps, blocked, start, p) && p[|p| - 1] == n;
    forall m | Reads(steps, blocked, n, m) ensures Reaches(steps, blocked, start, m) {
      assert Trail(steps, blocked, start, p + [m]);
      assert (p + [m])[|p + [m]| - 1] == m;
    }
  }

  // Every number a walk can ever meet.
  ghost function Mentioned(steps: StepMap, start: seq<int>): set<int> {
    (set x | x in start) + (set n, x | n in steps && x in steps[n].contextFrom :: x)
  }

  // The state of either worklist search: what it has met is reachable, and nothing
  // reachable in one more step is forgotten.
  ghost predicate Search(steps: StepMap, blocked: bool, start: seq<int>, visited: set<int>, queue: seq<int>) {
    && (forall n {:trigger Reaches(steps, blocked, start, n)} :: n in visited || n in queue ==> Reaches(steps, blocked, start, n))
    && (forall n :: n in visited || n in queue ==> n in Mentioned(steps, start))
    && (forall n :: n in start ==> n in visited || n in queue)
    && (forall n, m {:trigger Reads(steps, blocked, n, m)} :: n in visited && Reads(steps, blocked, n, m) ==> m in visited || m in queue)
  }

  lemma SearchStart(steps: StepMap, blocked: bool, start: seq<int>)
    ensures Search(steps, blocked, start, {}, start)
  {
    forall n | n in start ensures Reaches(steps, blocked, start, n) {
      assert Trail(steps, blocked, start, [n]);
      assert [n][|[n]| - 1] == n;
    }
  }

  lemma SearchStep(steps: StepMap, blocked: bool, start: seq<int>, visited: set<int>, queue: seq<int>)
    requires Search(steps, blocked, start, visited, queue) && queue != []
    ensures queue[0] in visited ==> Search(steps, blocked, start, visited, queue[1..])
    ensures var n := queue[0];
            Search(steps, blocked, start, visited + {n},
                   if n in steps && !(blocked && steps[n].kind.Sanitizer?) then queue[1..] + steps[n].contextFrom else queue[1..])
    ensures Reaches(steps, blocked, start, queue[0]) && queue[0] in Mentioned(steps, start)
  {
    var n := queue[0];
    assert queue == [n] + queue[1..];
    assert n in queue;
    assert Reaches(steps, blocked, start, n);
    ReachesOn(steps, blocked, start, n);
    if n in steps && !(blocked && steps[n].kind.Sanitizer?) {
      assert forall m :: m in steps[n].contextFrom ==> Reads(steps, blocked, n, m);
    }
  }

  lemma {:induction false} SearchComplete(steps: StepMap, blocked: bool, start: seq<int>, visited: set<int>, queue: seq<int>, p: seq<int>)
    requires Search(steps, blocked, start, visited, queue) && |queue| == 0 && Trail(steps, blocked, start, p)
    ensures p[|p| - 1] in visited
  {
    var k := |p| - 1;
    var last := p[k];
    if k > 0 {
      SearchComplete(steps, blocked, start, visited, queue, p[..k]);
      var before := p[k - 1];
      assert Reads(steps, blocked, before, last);
    } else {
      assert last in start;
    }
  }

  lemma SearchDone(steps: StepMap, blocked: bool, start: seq<int>, visited: set<int>, queue: seq<int>)
    requires Search(steps, blocked, start, visited, queue) && |queue| == 0
    ensures forall n :: n in visited <==> Reaches(steps, blocked, start, n)
  {
    forall n | Reaches(steps, blocked, start, n) ensures n in visited {
      var p :| Trail(steps, blocked, start, p) && p[|p| - 1] == n;
      SearchComplete(steps, blocked, start, visited, queue, p);
    }
  }

  // Some sanitizer named directly by the reasoner has the api step upstream.
  ghost predicate CoveredBy(steps: StepMap, ref: int, api: int) {
    ref in steps && steps[ref].kind.Sanitizer? && Reaches(steps, false, steps[ref].contextFrom, api)
  }

  ghost predicate Covered(steps: StepMap, reasoner: PlanStep, api: int) {
    exists k :: 0 <= k < |reasoner.contextFrom| && CoveredBy(steps, reasoner.contextFrom[k], api)
  }

  method HasInterveningSanitizer(api: int, reasoner: PlanStep, steps: StepMap) returns (found: bool)
    ensures found <==> Covered(steps, reasoner, api)
  {
    for k := 0 to |reasoner.contextFrom|
      invariant forall i :: 0 <= i < k ==> !CoveredBy(steps, reasoner.contextFrom[i], api)
    {
      var ref := reasoner.contextFrom[k];
      if ref in steps && steps[ref].kind.Sanitizer? {
        var upstream := ReachesFrom(steps, steps[ref].contextFrom, api);
        if upstream {
          return true;
        }
      }
    }
    return false;
  }

  // The inner worklist, with its shortcut for a direct reference.
  method ReachesFrom(steps: StepMap, start: seq<int>, target: int) returns (found: bool)
    ensures found <==> Reaches(steps, false, start, target)
  {
    SearchStart(steps, false, start);
    if target in start {
      return true;
    }
    var visited: set<int> := {};
    var queue := start;
    while queue != []
      invariant Search(steps, false, start, visited, queue)
      invariant target !in visited
      decreases Mentioned(steps, start) - visited, |queue|
    {
      var dep := queue[0];
      SearchStep(steps, false, start, visited, queue);
      queue := queue[1..];
      if dep !in visited {
        visited := visited + {dep};
        if dep == target {
          return true;
        }
        if dep in steps {
          queue := queue + steps[dep].contextFrom;
        }
      }
    }
    SearchDone(steps, false, start, visited, queue);
    return false;
  }

  // An api step whose result flows to the reasoner along references that no sanitizer interrupts.
  ghost predicate Exposed(steps: StepMap, reasoner: PlanStep, api: int) {
    api in steps && steps[api].kind.Api? && Reaches(steps, true, reasoner.contextFrom, api)
  }

  ghost predicate StepObeysRuleF(steps: StepMap, s: PlanStep) {
    s.kind.LlmReasoning? ==> forall a :: Exposed(steps, s, a) ==> Covered(steps, s, a)
  }

  ghost predicate RuleF(graph: seq<PlanStep>) {
    forall i :: 0 <= i < |graph| ==> StepObeysRuleF(StepByNumber(graph), graph[i])
  }

  method CheckRuleF(graph: seq<PlanStep>) returns (ok: bool, reasoner: int, api: int)
    ensures ok <==> RuleF(graph)
    ensures !ok ==> exists s :: s in graph && s.kind.LlmReasoning? && s.step == reasoner
                                && Exposed(StepByNumber(graph), s, api) && !Covered(StepByNumber(graph), s, api)
  {
    reasoner, api := 0, 0;
    var steps := StepByNumber(graph);
    for i := 0 to |graph|
      invariant forall k :: 0 <= k < i ==> StepObeysRuleF(steps, graph[k])
    {
      var s := graph[i];
      if s.kind.LlmReasoning? {
        var fine, bad := CheckReasoner(steps, s);
        if !fine {
          return false, s.step, bad;
        }
      }
    }
    return true, 0, 0;
  }

  // The outer worklist, for one reasoner.
  method CheckReasoner(steps: StepMap, s: PlanStep) returns (fine: bool, bad: int)
    requires s.kind.LlmReasoning?
    ensures fine <==> StepObeysRuleF(steps, s)
    ensures !fine ==> Exposed(steps, s, bad) && !Covered(steps, s, bad)
  {
    bad := 0;
    var start := s.contextFrom;
    SearchStart(steps, true, start);
    var visited: set<int> := {};
    var queue := start;
    while queue != []
      invariant Search(steps, true, start, visited, queue)
      invariant forall a :: a in visited && a in steps && steps[a].kind.Api? ==> Covered(steps, s, a)
      decreases Mentioned(steps, start) - visited, |queue|
    {
      var ref := queue[0];
      SearchStep(steps, true, start, visited, queue);
      queue := queue[1..];
      if ref !in visited {
        visited := visited + {ref};
        if ref in steps && steps[ref].kind.Api? {
          var covered := HasInterveningSanitizer(ref, s, steps);
          if !covered {
            return false, ref;
          }
        }
        if ref in steps && !steps[ref].kind.Sanitizer? {
          queue := queue + steps[ref].contextFrom;
        }
      }
    }
    SearchDone(steps, true, start, visited, queue);
    return true, 0;
  }

  // ---- what the rule does and does not promise ----------------------------

  // The documented intent: no api result reaches a reasoner without passing a sanitizer.
  ghost predicate Sanitised(steps: StepMap, s: PlanStep) {
    s.kind.LlmReasoning? ==> forall a :: !Exposed(steps, s, a)
  }

  // The earlier rule on context_from: only existing, smaller step numbers.
  ghost predicate ContextBackward(steps: StepMap) {
    forall n :: n in steps ==> n == steps[n].step && RefsBelow(steps, steps[n].contextFrom, n)
  }

  ghost predicate RefsBelow(steps: StepMap, refs: seq<int>, n: int) {
    forall r :: r in refs ==> r < n && r in steps
  }

  lemma {:induction false} TrailStaysBelow(steps: StepMap, blocked: bool, start: seq<int>, p: seq<int>, n: int)
    requires ContextBackward(steps) && RefsBelow(steps, start, n) && Trail(steps, blocked, start, p)
    ensures p[|p| - 1] in steps && 1 <= p[|p| - 1] < n
  {
    var k := |p| - 1;
    var last := p[k];
    if k > 0 {
      var before := p[k - 1];
      TrailStaysBelow(steps, blocked, start, p[..k], n);
      assert Reads(steps, blocked, before, last);
      assert RefsBelow(steps, steps[before].contextFrom, before);
    } else {
      assert last in start;
    }
  }

  // ---- what a plan has passed before Rule F looks at it --------------------

  const MAX_STEPS := 100
  const MAX_PARALLEL_STEPS := 10

  datatype Plan = Plan(graph: seq<PlanStep>, plugins: seq<string>)

  // The rules about one step: dry run, gates, policy references, reasoning configs, spawning.
  predicate StepRules(s: PlanStep, plugins: seq<string>, schemas: set<string>) {
    && s.dryRun
    && (s.role.Booker? ==> s.gateId.Some?)
    && (s.role.Reasoner? && s.kind.LlmReasoning? ==> s.policyRef.Some?)
    && (s.kind.LlmReasoning? ==> s.reasoningConfig.Some?)
    && (s.kind.PolicyCheck? ==> s.policyRef.Some?)
    && (s.spawnedBy.Some? ==> !s.canSpawn)
    && (s.canSpawn && s.kind.Api? ==> s.uses in plugins)
    && (s.kind.LlmReasoning? && s.trustLevel == Some(UntrustedInput) && s.reasoningConfig.Some? ==>
          s.reasoningConfig.value.outputSchemaRef.Some? && s.reasoningConfig.value.outputSchemaRef.value in schemas)
  }

  // The rules about one step that come after Rule F.
  predicate LaterStepRules(s: PlanStep) {
    && (s.kind.Sanitizer? ==> !s.canSpawn && s.trustLevel.None?)
    && (s.kind.LlmReasoning? && s.trustLevel == Some(UntrustedInput) ==> !s.canSpawn)
  }

  // The steps that wait for the same steps, which is how the validator counts parallel ones.
  function SameDeps(graph: seq<PlanStep>, deps: seq<int>): set<int> {
    set j | 0 <= j < |graph| && multiset(graph[j].after) == multiset(deps)
  }

  ghost predicate ParallelOk(graph: seq<PlanStep>) {
    forall i :: 0 <= i < |graph| ==> |SameDeps(graph, graph[i].after)| <= MAX_PARALLEL_STEPS
  }

  ghost predicate PassesEarlier(plan: Plan, schemas: set<string>) {
    && WellStructured(plan.graph) && |plan.graph| <= MAX_STEPS && ParallelOk(plan.graph)
    && (forall i :: 0 <= i < |plan.graph| ==> StepRules(plan.graph[i], plan.plugins, schemas))
    && ContextBackward(StepByNumber(plan.graph))
  }

  // A reasoner with these references, of which exactly `guards` are sanitizers, in a plan
  // that Rule F gets to see.
  ghost predicate Fits(plan: Plan, schemas: set<string>, s: PlanStep, refs: seq<int>, guards: set<int>) {
    && PassesEarlier(plan, schemas)
    && s in plan.graph && s.kind.LlmReasoning? && s.contextFrom == refs
    && GuardsAre(StepByNumber(plan.graph), refs, guards)
  }

  ghost predicate GuardsAre(steps: StepMap, refs: seq<int>, guards: set<int>) {
    forall r :: r in refs ==> r in steps && (r in guards <==> steps[r].kind.Sanitizer?)
  }

  ghost predicate MeetsIntent(steps: StepMap, s: PlanStep) {
    StepObeysRuleF(steps, s) <==> Sanitised(steps, s)
  }

  // The reasoner, its references and step `a` fit into one plan.
  ghost predicate Room(refs: seq<int>, a: int) {
    |DagResolver.SetOf(refs) + {a}| < MAX_STEPS
  }

  // Every reference is a sanitizer, or every step below a referenced sanitizer is one too
  // (as far as the size limit leaves room for that step).
  ghost predicate NoGap(refs: seq<int>, guards: set<int>) {
    || (forall r :: r in refs ==> r in guards)
    || (forall r, a :: r in guards && 1 <= a < r && Room(refs, a) ==> a in guards)
  }

  lemma OnlyGuardsNotExposed(steps: StepMap, s: PlanStep, guards: set<int>, a: int)
    requires GuardsAre(steps, s.contextFrom, guards) && forall r :: r in s.contextFrom ==> r in guards
    ensures !Exposed(steps, s, a)
  {
    forall p | Trail(steps, true, s.contextFrom, p) ensures |p| == 1 && p[0] in steps && steps[p[0]].kind.Sanitizer? {
      var first := p[0];
      assert first in s.contextFrom;
      assert |p| > 1 ==> Reads(steps, true, p[0], p[1]);
    }
  }

  lemma FirstGuardsNotCovering(steps: StepMap, s: PlanStep, guards: set<int>, a: int)
    requires ContextBackward(steps) && GuardsAre(steps, s.contextFrom, guards)
    requires forall g :: g in guards ==> g in s.contextFrom
    requires forall r :: r in guards && 1 <= a < r ==> a in guards
    requires a in steps && steps[a].kind.Api?
    ensures !Covered(steps, s, a)
  {
    forall k | 0 <= k < |s.contextFrom| ensures !CoveredBy(steps, s.contextFrom[k], a) {
      var ref := s.contextFrom[k];
      assert ref in s.contextFrom;
      forall p | ref in guards && Trail(steps, false, steps[ref].contextFrom, p) ensures p[|p| - 1] != a {
        TrailStaysBelow(steps, false, steps[ref].contextFrom, p, ref);
      }
    }
  }

  lemma ExposedHasRoom(graph: seq<PlanStep>, steps: StepMap, s: PlanStep, a: int)
    requires MapsSteps(graph, steps) && |graph| <= MAX_STEPS && ContextBackward(steps)
    requires s.step as int in steps && RefsBelow(steps, s.contextFrom, s.step)
    ensures Exposed(steps, s, a) ==> Room(s.contextFrom, a)
  {
    forall p | Trail(steps, true, s.contextFrom, p) && p[|p| - 1] == a ensures a in steps && a < s.step {
      TrailStaysBelow(steps, true, s.contextFrom, p, s.step);
    }
    if Exposed(steps, s, a) {
      var below := DagResolver.SetOf(s.contextFrom) + {a};
      forall x | x in below ensures x in Ids(graph) && x < s.step {}
      RoomBelow(graph, below, s.step);
    }
  }

  lemma RoomBelow(graph: seq<PlanStep>, below: set<int>, n: int)
    requires n in Ids(graph) && below <= Ids(graph) && forall x :: x in below ==> x < n
    ensures |below| < |graph|
  {
    assert n !in below && below + {n} <= Ids(graph);
    DagResolver.SubsetCardinality(below + {n}, Ids(graph));
    DistinctCardinality(graph);
  }

  lemma NoGapMeetsIntent(graph: seq<PlanStep>, steps: StepMap, s: PlanStep, guards: set<int>)
    requires MapsSteps(graph, steps) && |graph| <= MAX_STEPS && ContextBackward(steps)
    requires s.step as int in steps && RefsBelow(steps, s.contextFrom, s.step) && GuardsAre(steps, s.contextFrom, guards)
    requires (forall g :: g in guards ==> g in s.contextFrom) && NoGap(s.contextFrom, guards)
    ensures MeetsIntent(steps, s)
  {
    forall a ensures !Exposed(steps, s, a) || !Covered(steps, s, a) {
      if forall r :: r in s.contextFrom ==> r in guards {
        OnlyGuardsNotExposed(steps, s, guards, a);
      } else if Exposed(steps, s, a) {
        ExposedHasRoom(graph, steps, s, a);
        FirstGuardsNotCovering(steps, s, guards, a);
      }
    }
  }

  // ---- plans in which the rule and the intent differ ------------------------

  // In these plans step `a` is the only api step; every later sanitizer and policy check reads it.
  function KindOf(x: int, n: int, guards: set<int>, a: int): StepType {
    if x == n then LlmReasoning else if x in guards then Sanitizer else if x == a then Api else PolicyCheck
  }

  function ReadsOf(x: int, n: int, refs: seq<int>, guards: set<int>, a: int): seq<int> {
    if x == n then refs else if a < x then [a] else []
  }

  function Bare(x: StepId, kind: StepType, after: seq<int>, contextFrom: seq<int>): PlanStep {
    var role := match kind case Api => Fetcher case LlmReasoning => Reasoner case PolicyCheck => Watcher case Sanitizer => Guard;
    PlanStep(x, role, kind, "tool", "call", after, contextFrom, None, true, None, false, None, None,
             Some("policy"), Some(ReasoningConfig(None)), None)
  }

  ghost predicate Rising(ns: seq<int>) {
    forall i, j :: 0 <= i < j < |ns| ==> ns[i] < ns[j]
  }

  // The numbers of such a plan, in ascending order.
  ghost predicate Numbering(ns: seq<int>, n: StepId, refs: seq<int>, a: int) {
    && Rising(ns) && (forall i :: 0 <= i < |ns| ==> 1 <= ns[i])
    && (forall x :: x in ns <==> x in refs || x == a || x == n)
    && (forall x :: x in refs ==> 1 <= x < n) && 1 <= a < n
  }

  function Before(ns: seq<int>, i: nat): seq<int>
    requires i < |ns|
  {
    if i == 0 then [] else [ns[i - 1]]
  }

  function PieceAt(ns: seq<int>, i: nat, n: StepId, refs: seq<int>, guards: set<int>, a: int): PlanStep
    requires i < |ns| && ns[i] >= 1
  {
    Bare(ns[i], KindOf(ns[i], n, guards, a), Before(ns, i), ReadsOf(ns[i], n, refs, guards, a))
  }

  // Each step waits for the one before it.
  ghost predicate IsCompletion(graph: seq<PlanStep>, ns: seq<int>, n: StepId, refs: seq<int>, guards: set<int>, a: int) {
    && Numbering(ns, n, refs, a) && |graph| == |ns|
    && forall i :: 0 <= i < |ns| ==> graph[i] == PieceAt(ns, i, n, refs, guards, a)
  }

  ghost predicate AllPieces(steps: StepMap, n: StepId, refs: seq<int>, guards: set<int>, a: int) {
    && (forall x :: x in steps <==> x in refs || x == a || x == n)
    && (forall x :: x in steps ==> steps[x].step == x && steps[x].kind == KindOf(x, n, guards, a)
                                   && steps[x].contextFrom == ReadsOf(x, n, refs, guards, a))
  }

  lemma CompletionIds(graph: seq<PlanStep>, ns: seq<int>, n: StepId, refs: seq<int>, guards: set<int>, a: int)
    requires IsCompletion(graph, ns, n, refs, guards, a)
    ensures DistinctSteps(graph) && forall x :: x in Ids(graph) <==> x in ns
  {
    assert forall i :: 0 <= i < |graph| ==> graph[i].step == ns[i];
    forall x | x in ns ensures x in Ids(graph) {
      var i :| 0 <= i < |ns| && ns[i] == x;
      assert graph[i].step == x;
    }
    forall x | x in Ids(graph) ensures x in ns {
      var i :| 0 <= i < |graph| && graph[i].step == x;
      assert ns[i] == x;
    }
  }

  lemma CompletionStructure(graph: seq<PlanStep>, ns: seq<int>, n: StepId, refs: seq<int>, guards: set<int>, a: int)
    requires IsCompletion(graph, ns, n, refs, guards, a)
    ensures WellStructured(graph)
  {
    CompletionIds(graph, ns, n, refs, guards, a);
    forall i | 0 <= i < |graph| ensures BackwardDeps(graph, graph[i]) {
      if i > 0 {
        var before := ns[i - 1];
        assert before in ns && before < ns[i];
        assert graph[i].after == [before];
      }
    }
  }

  lemma CompletionParallel(graph: seq<PlanStep>, ns: seq<int>, n: StepId, refs: seq<int>, guards: set<int>, a: int)
    requires IsCompletion(graph, ns, n, refs, guards, a)
    ensures ParallelOk(graph)
  {
    forall i | 0 <= i < |graph| ensures |SameDeps(graph, graph[i].after)| <= MAX_PARALLEL_STEPS {
      forall j | j in SameDeps(graph, graph[i].after) ensures j == i {
        SameAfter(ns, i, j);
      }
      DagResolver.SubsetCardinality(SameDeps(graph, graph[i].after), {i});
    }
  }

  // Two steps of the chain wait for the same steps only if they are the same.
  lemma SameAfter(ns: seq<int>, i: nat, j: nat)
    requires i < |ns| && j < |ns| && Rising(ns)
    requires multiset(Before(ns, i)) == multiset(Before(ns, j))
    ensures i == j
  {
    var first, second := Before(ns, i), Before(ns, j);
    assert |first| == |multiset(first)| == |multiset(second)| == |second|;
    if i > 0 {
      var x := ns[i - 1];
      assert x in multiset(first);
      assert x in second;
    }
  }

  lemma CompletionByNumber(graph: seq<PlanStep>, ns: seq<int>, steps: StepMap, n: StepId, refs: seq<int>, guards: set<int>, a: int)
    requires IsCompletion(graph, ns, n, refs, guards, a) && FindsSteps(graph, steps)
    requires forall x :: x in Ids(graph) <==> x in ns
    ensures AllPieces(steps, n, refs, guards, a)
  {
    forall x | x in steps
      ensures steps[x].step == x && steps[x].kind == KindOf(x, n, guards, a) && steps[x].contextFrom == ReadsOf(x, n, refs, guards, a)
    {
      assert x in ns;
      var i :| 0 <= i < |ns| && ns[i] == x;
      assert graph[i] == PieceAt(ns, i, n, refs, guards, a);
    }
  }

  lemma PieceExposed(steps: StepMap, s: PlanStep, n: StepId, refs: seq<int>, guards: set<int>, a: int, q: int)
    requires AllPieces(steps, n, refs, guards, a) && s.contextFrom == refs && 1 <= a < n && a !in guards
    requires q in refs && q !in guards && a <= q < n
    ensures Exposed(steps, s, a)
  {
    var p := if q == a then [a] else [q, a];
    assert a in [a];
    assert Trail(steps, true, refs, p) && p[|p| - 1] == a;
  }

  lemma PieceCovered(steps: StepMap, s: PlanStep, n: StepId, refs: seq<int>, guards: set<int>, a: int, r: int)
    requires AllPieces(steps, n, refs, guards, a) && s.contextFrom == refs && r in refs && r in guards && 1 <= a < r < n
    ensures Covered(steps, s, a)
  {
    var k :| 0 <= k < |refs| && refs[k] == r;
    assert a in [a];
    assert Trail(steps, false, [a], [a]) && [a][|[a]| - 1] == a;
    assert CoveredBy(steps, s.contextFrom[k], a);
  }

  lemma PiecesFit(steps: StepMap, n: StepId, refs: seq<int>, guards: set<int>, a: int)
    requires AllPieces(steps, n, refs, guards, a) && (forall x :: x in refs ==> 1 <= x < n) && 1 <= a < n && a !in guards
    ensures ContextBackward(steps) && GuardsAre(steps, refs, guards)
  {}

  // Step `n` is the only reasoner, and its only exposed api step is covered.
  lemma PiecesObey(steps: StepMap, n: StepId, refs: seq<int>, guards: set<int>, a: int, q: int, r: int)
    requires AllPieces(steps, n, refs, guards, a) && 1 <= a < r < n && a !in guards
    requires q in refs && q !in guards && a <= q < n && r in refs && r in guards
    ensures forall x :: x in steps ==> StepObeysRuleF(steps, steps[x])
    ensures !MeetsIntent(steps, steps[n])
  {
    PieceExposed(steps, steps[n], n, refs, guards, a, q);
    PieceCovered(steps, steps[n], n, refs, guards, a, r);
    assert forall x :: x in steps && steps[x].kind.Api? ==> x == a;
    assert forall x :: x in steps && steps[x].kind.LlmReasoning? ==> x == n;
  }

  lemma CompletionRules(graph: seq<PlanStep>, ns: seq<int>, n: StepId, refs: seq<int>, guards: set<int>, a: int, schemas: set<string>)
    requires IsCompletion(graph, ns, n, refs, guards, a)
    ensures forall i :: 0 <= i < |graph| ==> StepRules(graph[i], [], schemas) && LaterStepRules(graph[i])
  {
    forall i | 0 <= i < |graph| ensures StepRules(graph[i], [], schemas) && LaterStepRules(graph[i]) {
      assert graph[i] == PieceAt(ns, i, n, refs, guards, a);
    }
  }

  lemma CompletionSteps(graph: seq<PlanStep>, ns: seq<int>, n: StepId, refs: seq<int>, guards: set<int>, a: int)
    requires IsCompletion(graph, ns, n, refs, guards, a)
    ensures AllPieces(StepByNumber(graph), n, refs, guards, a)
  {
    CompletionIds(graph, ns, n, refs, guards, a);
    FoundByNumber(graph);
    CompletionByNumber(graph, ns, StepByNumber(graph), n, refs, guards, a);
  }

  lemma PieceInGraph(graph: seq<PlanStep>, steps: StepMap, n: StepId, refs: seq<int>, guards: set<int>, a: int)
    requires MapsSteps(graph, steps) && AllPieces(steps, n, refs, guards, a)
    ensures n as int in steps && steps[n as int] in graph && steps[n as int].kind.LlmReasoning?
            && steps[n as int].contextFrom == refs && steps[n as int].step == n
  {}

  lemma ObeysOverall(graph: seq<PlanStep>, steps: StepMap)
    requires FindsSteps(graph, steps) && forall x :: x in steps ==> StepObeysRuleF(steps, steps[x])
    ensures forall i :: 0 <= i < |graph| ==> StepObeysRuleF(steps, graph[i])
  {}

  // Such a plan passes every check, Rule F included, and is not what the documentation asks for.
  lemma CompletionAccepted(graph: seq<PlanStep>, ns: seq<int>, n: StepId, refs: seq<int>, guards: set<int>, a: int,
                           q: int, r: int, schemas: set<string>)
    requires IsCompletion(graph, ns, n, refs, guards, a) && |ns| <= MAX_STEPS
    requires 1 <= a < r && a !in guards && q in refs && q !in guards && a <= q && r in refs && r in guards
    ensures PassesEarlier(Plan(graph, []), schemas) && RuleF(graph)
    ensures GuardsAre(StepByNumber(graph), refs, guards) && AllPieces(StepByNumber(graph), n, refs, guards, a)
    ensures !MeetsIntent(StepByNumber(graph), StepByNumber(graph)[n as int])
  {
    CompletionRules(graph, ns, n, refs, guards, a, schemas);
    CompletionStructure(graph, ns, n, refs, guards, a);
    CompletionParallel(graph, ns, n, refs, guards, a);
    CompletionSteps(graph, ns, n, refs, guards, a);
    PiecesFit(StepByNumber(graph), n, refs, guards, a);
    PiecesObey(StepByNumber(graph), n, refs, guards, a, q, r);
    FoundByNumber(graph);
    ObeysOverall(graph, StepByNumber(graph));
  }

  // Any finite set of numbers can be listed in ascending order.
  lemma {:induction false} Ascending(nums: set<int>) returns (ns: seq<int>)
    ensures |ns| == |nums| && (forall x :: x in ns <==> x in nums)
    ensures Rising(ns)
    decreases |nums|
  {
    if nums == {} {
      ns := [];
    } else {
      var most := Greatest(nums);
      var rest := Ascending(nums - {most});
      ns := rest + [most];
      forall i | 0 <= i < |rest| ensures rest[i] < most {
        var x := rest[i];
        assert x in rest;
      }
    }
  }

  lemma {:induction false} Greatest(nums: set<int>) returns (most: int)
    requires nums != {}
    ensures most in nums && forall x :: x in nums ==> x <= most
    decreases |nums|
  {
    if !exists x :: x in nums { assert false; }
    var some :| some in nums;
    var rest := nums - {some};
    if rest == {} {
      assert nums == {some};
      most := some;
    } else {
      var other := Greatest(rest);
      assert nums == rest + {some};
      most := if other > some then other else some;
    }
  }

  lemma GapNumbers(n: StepId, refs: seq<int>, a: int) returns (ns: seq<int>)
    requires (forall r :: r in refs ==> 1 <= r < n) && 1 <= a < n && Room(refs, a)
    ensures Numbering(ns, n, refs, a) && |ns| <= MAX_STEPS
  {
    var nums := DagResolver.SetOf(refs) + {a} + {n as int};
    ns := Ascending(nums);
    forall i | 0 <= i < |ns| ensures 1 <= ns[i] {
      var x := ns[i];
      assert x in ns;
      assert x in nums;
    }
  }

  lemma LowerHasRoom(refs: seq<int>, q: int, high: int)
    requires q in refs && Room(refs, high)
    ensures Room(refs, q)
  {
    DagResolver.SubsetCardinality(DagResolver.SetOf(refs) + {q}, DagResolver.SetOf(refs) + {high});
  }

  lemma GapPlan(n: StepId, refs: seq<int>, guards: set<int>, a: int, q: int, r: int, schemas: set<string>)
    returns (plan: Plan, s: PlanStep)
    requires (forall x :: x in refs ==> 1 <= x < n) && Room(refs, a)
    requires 1 <= a < r && a !in guards && q in refs && q !in guards && a <= q && r in refs && r in guards
    ensures Fits(plan, schemas, s, refs, guards) && s.step == n && !MeetsIntent(StepByNumber(plan.graph), s)
  {
    var ns := GapNumbers(n, refs, a);
    var graph := seq(|ns|, i requires 0 <= i < |ns| && ns[i] >= 1 => PieceAt(ns, i, n, refs, guards, a));
    CompletionAccepted(graph, ns, n, refs, guards, a, q, r, schemas);
    NumberedSteps(graph);
    PieceInGraph(graph, StepByNumber(graph), n, refs, guards, a);
    plan, s := Plan(graph, []), StepByNumber(graph)[n as int];
  }

  // Which references make the rule say what its documentation says, whatever the rest of the plan is.
  lemma RuleFMeetsIntentIff(n: StepId, refs: seq<int>, guards: set<int>, schemas: set<string>)
    requires (forall r :: r in refs ==> 1 <= r < n) && (forall g :: g in guards ==> g in refs)
    ensures NoGap(refs, guards) <==>
            forall plan, s :: Fits(plan, schemas, s, refs, guards) && s.step == n ==> MeetsIntent(StepByNumber(plan.graph), s)
  {
    if NoGap(refs, guards) {
      forall plan, s | Fits(plan, schemas, s, refs, guards) ensures MeetsIntent(StepByNumber(plan.graph), s) {
        FitsMeetsIntent(plan, schemas, s, refs, guards);
      }
    } else {
      var q :| q in refs && q !in guards;
      var r, high :| r in guards && 1 <= high < r && Room(refs, high) && high !in guards;
      LowerHasRoom(refs, q, high);
      var plan, s := GapPlan(n, refs, guards, if q < high then q else high, q, r, schemas);
    }
  }

  lemma FitsMeetsIntent(plan: Plan, schemas: set<string>, s: PlanStep, refs: seq<int>, guards: set<int>)
    requires Fits(plan, schemas, s, refs, guards) && NoGap(refs, guards) && forall g :: g in guards ==> g in refs
    ensures MeetsIntent(StepByNumber(plan.graph), s)
  {
    var steps := StepByNumber(plan.graph);
    NumberedSteps(plan.graph);
    var k :| 0 <= k < |plan.graph| && plan.graph[k] == s;
    DistinctDeps(plan.graph, k);
    assert s.step as int in Ids(plan.graph);
    NoGapMeetsIntent(plan.graph, steps, s, guards);
  }

  // The smallest such plan: step 3 reads api step 1 directly and through sanitizer 2. It passes
  // every rule before and after Rule F too.
  lemma RawReferenceExample(schemas: set<string>)
    ensures var graph := [Bare(1, Api, [], []), Bare(2, Sanitizer, [1], [1]), Bare(3, LlmReasoning, [2], [1, 2])];
            && PassesEarlier(Plan(graph, []), schemas) && RuleF(graph)
            && (forall i :: 0 <= i < |graph| ==> LaterStepRules(graph[i]))
            && !Sanitised(StepByNumber(graph), graph[2])
  {
    var graph := [Bare(1, Api, [], []), Bare(2, Sanitizer, [1], [1]), Bare(3, LlmReasoning, [2], [1, 2])];
    ThreeSteps(graph);
    CompletionRules(graph, [1, 2, 3], 3, [1, 2], {2}, 1, schemas);
    CompletionAccepted(graph, [1, 2, 3], 3, [1, 2], {2}, 1, 1, 2, schemas);
    DistinctDeps(graph, 2);
  }

  lemma ThreeSteps(graph: seq<PlanStep>)
    requires graph == [Bare(1, Api, [], []), Bare(2, Sanitizer, [1], [1]), Bare(3, LlmReasoning, [2], [1, 2])]
    ensures IsCompletion(graph, [1, 2, 3], 3, [1, 2], {2}, 1)
  {
    var ns := [1, 2, 3];
    assert Numbering(ns, 3, [1, 2], 1);
    forall i | 0 <= i < |ns| ensures graph[i] == PieceAt(ns, i, 3, [1, 2], {2}, 1) {
      assert i == 0 || i == 1 || i == 2;
      assert Before(ns, 0) == [] && Before(ns, 1) == [1] && Before(ns, 2) == [2];
    }
  }
}
