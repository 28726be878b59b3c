/** The plan graph contract shared by the planner, the policy engine and the executor. */
module Plans {
  datatype Option<+T> = None | Some(value: T)

  datatype StepType = Api | LlmReasoning | PolicyCheck | Sanitizer
  datatype Role = Fetcher | Analyzer | Watcher | Resolver | Booker | Notifier | Reasoner | Guard
  datatype TrustLevel = UntrustedInput | Trusted
  datatype ExecuteMode = PreviewOnly | ExecuteOnly | Both

  // Step numbers start at 1, and a spawn limit lies between 1 and 10.
  type StepId = n: int | 1 <= n witness 1
  type SpawnLimit = n: int | 1 <= n <= 10 witness 1

  datatype ReasoningConfig = ReasoningConfig(outputSchemaRef: Option<string>)

  datatype PlanStep = PlanStep(
    step: StepId,
    role: Role,
    kind: StepType,
    uses: string,
    call: string,
    after: seq<int>,
    contextFrom: seq<int>,
    gateId: Option<string>,
    dryRun: bool,
    trustLevel: Option<TrustLevel>,
    canSpawn: bool,
    maxSpawned: Option<SpawnLimit>,
    spawnedBy: Option<int>,
    policyRef: Option<string>,
    reasoningConfig: Option<ReasoningConfig>,
    executeMode: Option<ExecuteMode>)

  function Ids(graph: seq<PlanStep>): set<int> {
    set i | 0 <= i < |graph| :: graph[i].step
  }

  ghost predicate DistinctSteps(graph: seq<PlanStep>) {
    forall i, j :: 0 <= i < j < |graph| ==> graph[i].step != graph[j].step
  }

  // The number-to-step dictionary; a later step with the same number wins.
  function StepByNumber(graph: seq<PlanStep>): (m: map<int, PlanStep>)
    ensures m.Keys == Ids(graph)
  {
    if graph == [] then map[]
    else
      var last := graph[|graph| - 1];
      var rest := StepByNumber(graph[..|graph| - 1]);
      assert Ids(graph) == Ids(graph[..|graph| - 1]) + {last.step};
      rest[last.step as int := last]
  }

  ghost predicate MapsSteps(graph: seq<PlanStep>, stepMap: map<int, PlanStep>) {
    stepMap.Keys == Ids(graph) && forall n :: n in stepMap ==> stepMap[n] in graph && stepMap[n].step == n
  }

  lemma {:induction false} NumberedSteps(graph: seq<PlanStep>)
    ensures MapsSteps(graph, StepByNumber(graph))
  {
    if graph != [] {
      var n := |graph| - 1;
      NumberedSteps(graph[..n]);
    }
  }

  // The after entries of every step with this number, in graph order.
  function Deps(graph: seq<PlanStep>, id: int): seq<int> {
    if graph == [] then []
    else
      var last := graph[|graph| - 1];
      Deps(graph[..|graph| - 1], id) + (if last.step == id then last.after else [])
  }

  lemma {:induction false} LastWins(graph: seq<PlanStep>, k: nat)
    requires k < |graph| && forall j :: k < j < |graph| ==> graph[j].step != graph[k].step
    ensures graph[k].step as int in StepByNumber(graph) && StepByNumber(graph)[graph[k].step] == graph[k]
  {
    var n := |graph| - 1;
    if k < n {
      LastWins(graph[..n], k);
    }
  }

  lemma {:induction false} DistinctDeps(graph: seq<PlanStep>, k: nat)
    requires DistinctSteps(graph) && k < |graph|
    ensures Deps(graph, graph[k].step) == graph[k].after
    ensures StepByNumber(graph)[graph[k].step] == graph[k]
  {
    LastWins(graph, k);
    var n := |graph| - 1;
    if k < n {
      DistinctDeps(graph[..n], k);
    } else {
      NoDeps(graph[..n], graph[k].step);
    }
  }

  ghost predicate FindsSteps(graph: seq<PlanStep>, stepMap: map<int, PlanStep>) {
    stepMap.Keys == Ids(graph)
    && forall k :: 0 <= k < |graph| ==> graph[k].step as int in stepMap && stepMap[graph[k].step] == graph[k]
  }

  lemma FoundByNumber(graph: seq<PlanStep>)
    requires DistinctSteps(graph)
    ensures FindsSteps(graph, StepByNumber(graph))
  {
    var stepMap := StepByNumber(graph);
    forall k | 0 <= k < |graph| ensures graph[k].step as int in stepMap && stepMap[graph[k].step] == graph[k] {
      LastWins(graph, k);
    }
  }

  lemma {:induction false} NoDeps(graph: seq<PlanStep>, id: int)
    requires id !in Ids(graph)
    ensures Deps(graph, id) == []
  {
    if graph != [] {
      var n := |graph| - 1;
      assert graph[n].step in Ids(graph);
      assert Ids(graph[..n]) <= Ids(graph);
      NoDeps(graph[..n], id);
    }
  }

  lemma DistinctCardinality(graph: seq<PlanStep>)
    ensures |Ids(graph)| <= |graph|
    ensures |Ids(graph)| == |graph| <==> DistinctSteps(graph)
  {
    if graph != [] {
      var n := |graph| - 1;
      var rest := graph[..n];
      DistinctCardinality(rest);
      assert Ids(graph) == Ids(rest) + {graph[n].step as int};
      if graph[n].step as int in Ids(rest) {
        assert Ids(graph) == Ids(rest);
        var i :| 0 <= i < n && rest[i].step == graph[n].step;
        assert graph[i].step == graph[n].step;
      } else if DistinctSteps(rest) {
        forall i, j | 0 <= i < j < |graph| ensures graph[i].step != graph[j].step {
          if j < n { assert rest[i].step != rest[j].step; }
          else { assert rest[i].step in Ids(rest); }
        }
      }
    }
  }
}
