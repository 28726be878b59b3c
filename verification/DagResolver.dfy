/** Level-synchronous topological sort of the plan graph. */
module DagResolver {
  import opened Plans
  import opened Chains

  datatype ResolveResult =
    | EmptyGraph
    | CycleDetected(processed: nat, total: nat)
    | Resolved(levels: seq<seq<PlanStep>>)

  function WaitsOf(graph: seq<PlanStep>): (w: Waits)
    ensures w.Keys == Ids(graph)
  {
    map x | x in Ids(graph) :: Deps(graph, x)
  }

  // How many entries of a dependency list lie in a set, with repetitions.
  function CountIn(s: seq<int>, within: set<int>): nat {
    if s == [] then 0
    else CountIn(s[..|s| - 1], within) + (if s[|s| - 1] in within then 1 else 0)
  }

  function Times(s: seq<int>, v: int): nat {
    if s == [] then 0
    else Times(s[..|s| - 1], v) + (if s[|s| - 1] == v then 1 else 0)
  }

  lemma {:induction false} CountInRemove(s: seq<int>, within: set<int>, d: int)
    requires d in within
    ensures CountIn(s, within - {d}) + Times(s, d) == CountIn(s, within)
  {
    if s != [] {
      CountInRemove(s[..|s| - 1], within, d);
    }
  }

  lemma {:induction false} CountInZero(s: seq<int>, within: set<int>)
    ensures CountIn(s, within) == 0 <==> forall k :: 0 <= k < |s| ==> s[k] !in within
  {
    if s != [] {
      CountInZero(s[..|s| - 1], within);
    }
  }

  lemma {:induction false} TimesZero(s: seq<int>, v: int)
    ensures Times(s, v) == 0 <==> v !in s
  {
    if s != [] {
      var n := |s| - 1;
      assert s == s[..n] + [s[n]];
      TimesZero(s[..n], v);
    }
  }

  lemma Snoc(s: seq<int>, d: int)
    ensures forall within :: CountIn(s + [d], within) == CountIn(s, within) + (if d in within then 1 else 0)
    ensures forall v :: Times(s + [d], v) == Times(s, v) + (if d == v then 1 else 0)
  {
    assert (s + [d])[..|s|] == s;
  }

  // `inDegree` counts the entries of `seen` that are present, and `dependents` is
  // the inverse of `seen` with the same multiplicities.
  ghost predicate Indexed(seen: Waits, inDegree: map<int, int>, dependents: map<int, seq<int>>) {
    && inDegree.Keys == dependents.Keys == seen.Keys
    && (forall x {:trigger inDegree[x]} :: x in seen ==> inDegree[x] == CountIn(seen[x], seen.Keys))
    && (forall d, x {:trigger x in dependents[d]} :: d in seen && x in dependents[d] ==> x in seen)
    && (forall d, x {:trigger Times(dependents[d], x)} {:trigger Times(seen[x], d)} ::
          d in seen && x in seen ==> Times(dependents[d], x) == Times(seen[x], d))
  }

  lemma IndexedSnoc(seen: Waits, inDegree: map<int, int>, dependents: map<int, seq<int>>, x: int, dep: int)
    requires Indexed(seen, inDegree, dependents) && x in seen
    ensures dep in seen ==>
              Indexed(seen[x := seen[x] + [dep]], inDegree[x := inDegree[x] + 1],
                      dependents[dep := dependents[dep] + [x]])
    ensures dep !in seen ==> Indexed(seen[x := seen[x] + [dep]], inDegree, dependents)
  {
    Snoc(seen[x], dep);
    assert seen[x := seen[x] + [dep]].Keys == seen.Keys;
    if dep in seen {
      Snoc(dependents[dep], x);
    }
  }

  function Each<V>(ids: set<int>, v: V): (m: map<int, V>)
    ensures m.Keys == ids && forall x :: x in ids ==> m[x] == v
  {
    map x | x in ids :: v
  }

  // The dependency entries met in the first `i` steps.
  function SeenUpTo(graph: seq<PlanStep>, i: nat): (w: Waits)
    requires i <= |graph|
    ensures w.Keys == Ids(graph)
  {
    map x | x in Ids(graph) :: Deps(graph[..i], x)
  }

  lemma SeenNext(graph: seq<PlanStep>, i: nat)
    requires i < |graph|
    ensures graph[i].step in Ids(graph)
    ensures var seen := SeenUpTo(graph, i);
            SeenUpTo(graph, i + 1) == seen[graph[i].step as int := seen[graph[i].step] + graph[i].after]
  {
    assert graph[i].step in Ids(graph);
    forall x | x in Ids(graph)
      ensures Deps(graph[..i + 1], x) == Deps(graph[..i], x) + (if graph[i].step == x then graph[i].after else [])
    {
      assert graph[..i + 1][..i] == graph[..i];
    }
    assert forall s: seq<int> :: s + [] == s;
  }

  lemma SeenBounds(graph: seq<PlanStep>)
    ensures SeenUpTo(graph, |graph|) == WaitsOf(graph)
    ensures Indexed(SeenUpTo(graph, 0), Each(Ids(graph), 0), Each(Ids(graph), []))
  {
    assert graph[..|graph|] == graph;
    assert graph[..0] == [];
  }

  method BuildIndex(graph: seq<PlanStep>) returns (inDegree: map<int, int>, dependents: map<int, seq<int>>)
    ensures Indexed(WaitsOf(graph), inDegree, dependents)
  {
    inDegree := Each(Ids(graph), 0);
    dependents := Each(Ids(graph), []);
    SeenBounds(graph);
    for i := 0 to |graph|
      invariant Indexed(SeenUpTo(graph, i), inDegree, dependents)
    {
      var s := graph[i];
      SeenNext(graph, i);
      inDegree, dependents := IndexStep(s.step, s.after, SeenUpTo(graph, i), inDegree, dependents);
    }
  }

  // The inner loop over one step's `after` list.
  method IndexStep(x: int, after: seq<int>, ghost seen: Waits, inDegree0: map<int, int>, dependents0: map<int, seq<int>>)
    returns (inDegree: map<int, int>, dependents: map<int, seq<int>>)
    requires x in seen && Indexed(seen, inDegree0, dependents0)
    ensures Indexed(seen[x := seen[x] + after], inDegree, dependents)
  {
    inDegree, dependents := inDegree0, dependents0;
    assert seen[x := seen[x] + after[..0]] == seen by { assert seen[x] + after[..0] == seen[x]; }
    for j := 0 to |after|
      invariant Indexed(seen[x := seen[x] + after[..j]], inDegree, dependents)
    {
      var dep := after[j];
      ghost var met := seen[x := seen[x] + after[..j]];
      IndexedSnoc(met, inDegree, dependents, x, dep);
      assert seen[x] + after[..j + 1] == met[x] + [dep];
      assert seen[x := seen[x] + after[..j + 1]] == met[x := met[x] + [dep]];
      if dep in inDegree {
        inDegree := inDegree[x := inDegree[x] + 1];
        dependents := dependents[dep := dependents[dep] + [x]];
      }
    }
    assert after[..|after|] == after;
  }

  lemma {:induction false} TimesPrefix(s: seq<int>, j: nat, v: int)
    requires j <= |s|
    ensures Times(s[..j], v) <= Times(s, v)
  {
    if j < |s| {
      var n := |s| - 1;
      assert s[..n][..j] == s[..j];
      TimesPrefix(s[..n], j, v);
    } else {
      assert s[..j] == s;
    }
  }

  predicate NoRepeats(s: seq<int>) {
    forall i, j :: 0 <= i < j < |s| ==> s[i] != s[j]
  }

  ghost predicate Counts(waits: Waits, inDegree: map<int, int>, pending: set<int>) {
    inDegree.Keys == waits.Keys && forall x {:trigger inDegree[x]} :: x in waits ==> inDegree[x] == CountIn(waits[x], pending)
  }

  // `queue` lists, once each, the steps outside `closed` that wait for nothing any more.
  ghost predicate Queued(inDegree: map<int, int>, closed: set<int>, queue: seq<int>) {
    && NoRepeats(queue)
    && (forall x {:trigger x in queue} :: x in queue <==> x in inDegree && x !in closed && inDegree[x] == 0)
  }

  // The innermost loop: `sid` is done, so each of its dependents waits for one entry less.
  method Relax(waits: Waits, sid: int, deps: seq<int>, ghost pending: set<int>, ghost closed: set<int>,
               inDegree0: map<int, int>, queue0: seq<int>)
    returns (inDegree: map<int, int>, queue: seq<int>)
    requires sid in pending
    requires forall x :: x in deps ==> x in waits && x !in closed
    requires forall x :: x in waits ==> Times(deps, x) == Times(waits[x], sid)
    requires Counts(waits, inDegree0, pending) && Queued(inDegree0, closed, queue0)
    ensures Counts(waits, inDegree, pending - {sid}) && Queued(inDegree, closed, queue)
    ensures forall x :: x in queue ==> x in queue0 || x in deps
  {
    inDegree, queue := inDegree0, queue0;
    for j := 0 to |deps|
      invariant inDegree.Keys == waits.Keys
      invariant forall x {:trigger inDegree[x]} :: x in waits ==> inDegree[x] == CountIn(waits[x], pending) - Times(deps[..j], x)
      invariant Queued(inDegree, closed, queue)
      invariant forall x :: x in queue ==> x in queue0 || x in deps
    {
      var dep := deps[j];
      assert dep in deps;
      assert deps[..j + 1] == deps[..j] + [dep];
      Snoc(deps[..j], dep);
      TimesPrefix(deps, j + 1, dep);
      CountInRemove(waits[dep], pending, sid);
      assert inDegree[dep] >= 1;
      assert dep !in queue;
      inDegree := inDegree[dep := inDegree[dep] - 1];
      if inDegree[dep] == 0 {
        queue := queue + [dep];
      }
    }
    assert deps[..|deps|] == deps;
    forall x | x in waits ensures inDegree[x] == CountIn(waits[x], pending - {sid}) {
      CountInRemove(waits[x], pending, sid);
    }
  }

  function SetOf(s: seq<int>): set<int> {
    set x | x in s
  }

  ghost predicate FollowsSome(waits: Waits, done: seq<int>, x: int) {
    exists d :: d in done && Edge(waits, d, x)
  }

  ghost predicate Inverse(waits: Waits, dependents: map<int, seq<int>>) {
    && dependents.Keys == waits.Keys
    && (forall d, x {:trigger x in dependents[d]} :: d in waits && x in dependents[d] ==> x in waits)
    && (forall d, x {:trigger Times(dependents[d], x)} {:trigger Times(waits[x], d)} ::
          d in waits && x in waits ==> Times(dependents[d], x) == Times(waits[x], d))
  }

  // No closed step waits for a pending one.
  ghost predicate Settled(waits: Waits, closed: set<int>, pending: set<int>) {
    forall d, x :: Edge(waits, d, x) && x in closed ==> d !in pending
  }

  // The middle loop: the whole level is done.
  method RelaxLevel(waits: Waits, level: seq<int>, dependents: map<int, seq<int>>, ghost closed: set<int>,
                    ghost pending: set<int>, inDegree0: map<int, int>)
    returns (inDegree: map<int, int>, queue: seq<int>)
    requires Inverse(waits, dependents) && NoRepeats(level) && SetOf(level) <= pending <= waits.Keys
    requires Settled(waits, closed, pending)
    requires Counts(waits, inDegree0, pending) && Queued(inDegree0, closed, [])
    ensures Counts(waits, inDegree, pending - SetOf(level)) && Queued(inDegree, closed, queue)
    ensures forall x {:trigger x in queue} :: x in queue ==> FollowsSome(waits, level, x)
  {
    inDegree, queue := inDegree0, [];
    ghost var left := pending;
    for i := 0 to |level|
      invariant left == pending - SetOf(level[..i])
      invariant Counts(waits, inDegree, left) && Queued(inDegree, closed, queue)
      invariant forall x {:trigger x in queue} :: x in queue ==> FollowsSome(waits, level, x)
    {
      var sid := level[i];
      assert sid in SetOf(level);
      forall x | x in dependents[sid] ensures x in waits && x !in closed && FollowsSome(waits, level, x) {
        TimesZero(dependents[sid], x);
        TimesZero(waits[x], sid);
        assert Edge(waits, sid, x);
      }
      inDegree, queue := Relax(waits, sid, dependents[sid], left, closed, inDegree, queue);
      left := left - {sid};
      assert level[..i + 1] == level[..i] + [sid];
    }
    assert level[..|level|] == level;
  }

  function Flatten(levels: seq<seq<PlanStep>>): seq<PlanStep> {
    if levels == [] then [] else Flatten(levels[..|levels| - 1]) + levels[|levels| - 1]
  }

  // What holds each time the queue is taken as the next level.
  ghost predicate Frontier(waits: Waits, rank: map<int, nat>, inDegree: map<int, int>, queue: seq<int>, height: nat) {
    && Ranking(waits, rank)
    && (forall x :: x in rank ==> rank[x] < height)
    && Counts(waits, inDegree, waits.Keys - rank.Keys)
    && Queued(inDegree, rank.Keys, queue)
    && (height > 0 ==> forall x {:trigger FollowsTop(waits, rank, height, x)} :: x in queue ==> FollowsTop(waits, rank, height, x))
  }

  ghost predicate FollowsTop(waits: Waits, rank: map<int, nat>, height: nat, x: int) {
    exists d :: d in rank && rank[d] == height - 1 && Edge(waits, d, x)
  }

  ghost function Ranked(rank: map<int, nat>, level: seq<int>, height: nat): map<int, nat> {
    rank + map x | x in level :: height
  }

  lemma QueueIsReady(waits: Waits, rank: map<int, nat>, inDegree: map<int, int>, queue: seq<int>, height: nat)
    requires Frontier(waits, rank, inDegree, queue, height)
    ensures Settled(waits, rank.Keys + SetOf(queue), waits.Keys - rank.Keys)
    ensures forall d, x :: x in queue && Edge(waits, d, x) ==> d in rank
  {
    forall d, x | Edge(waits, d, x) && x in queue ensures d in rank {
      assert inDegree[x] == 0;
      CountInZero(waits[x], waits.Keys - rank.Keys);
    }
  }

  lemma RankLevel(waits: Waits, rank: map<int, nat>, inDegree: map<int, int>, queue: seq<int>, height: nat)
    requires Frontier(waits, rank, inDegree, queue, height)
    ensures Ranking(waits, Ranked(rank, queue, height))
  {
    var rank' := Ranked(rank, queue, height);
    forall x {:trigger OneBelow(waits, rank', x)} | x in rank' && rank'[x] > 0 ensures OneBelow(waits, rank', x) {
      if x in queue {
        OneBelowNew(waits, rank, queue, height, x);
      } else {
        assert OneBelow(waits, rank, x);
        OneBelowKept(waits, rank, queue, height, x);
      }
    }
    RankedAbove(waits, rank, inDegree, queue, height);
  }

  lemma RankedAbove(waits: Waits, rank: map<int, nat>, inDegree: map<int, int>, queue: seq<int>, height: nat)
    requires Frontier(waits, rank, inDegree, queue, height)
    ensures var rank' := Ranked(rank, queue, height);
            forall d, x :: Edge(waits, d, x) && x in rank' ==> d in rank' && rank'[d] < rank'[x]
  {
    QueueIsReady(waits, rank, inDegree, queue, height);
    var rank' := Ranked(rank, queue, height);
    forall d, x | Edge(waits, d, x) && x in rank' ensures d in rank' && rank'[d] < rank'[x] {
      assert d in rank && d !in queue;
    }
  }

  lemma OneBelowNew(waits: Waits, rank: map<int, nat>, queue: seq<int>, height: nat, x: int)
    requires x in queue && height > 0 && FollowsTop(waits, rank, height, x)
    requires forall d :: d in rank ==> d !in queue
    ensures OneBelow(waits, Ranked(rank, queue, height), x)
  {}

  lemma OneBelowKept(waits: Waits, rank: map<int, nat>, queue: seq<int>, height: nat, x: int)
    requires x in rank && x !in queue && OneBelow(waits, rank, x)
    requires forall d :: d in rank ==> d !in queue
    ensures OneBelow(waits, Ranked(rank, queue, height), x)
  {}

  // Every step of the graph sits exactly once in the levels, and level `k` (from 0)
  // holds the steps whose longest dependency chain has `k + 1` steps.
  ghost predicate Layered(graph: seq<PlanStep>, levels: seq<seq<PlanStep>>) {
    && multiset(Flatten(levels)) == multiset(graph) && DistinctSteps(Flatten(levels))
    && (forall k :: 0 <= k < |levels| ==> levels[k] != [])
    && (forall k, j {:trigger OnLevel(graph, levels, k, j)} :: 0 <= k < |levels| && 0 <= j < |levels[k]| ==>
                                                              OnLevel(graph, levels, k, j))
  }

  ghost predicate OnLevel(graph: seq<PlanStep>, levels: seq<seq<PlanStep>>, k: nat, j: nat)
    requires k < |levels| && j < |levels[k]|
  {
    LongestChain(WaitsOf(graph), levels[k][j].step, k + 1)
  }

  ghost predicate Placed(graph: seq<PlanStep>, levels: seq<seq<PlanStep>>, rank: map<int, nat>) {
    && DistinctSteps(Flatten(levels)) && Ids(Flatten(levels)) == rank.Keys
    && (forall s :: s in Flatten(levels) ==> s in graph)
    && (forall k :: 0 <= k < |levels| ==> levels[k] != [])
    && (forall k, j :: 0 <= k < |levels| && 0 <= j < |levels[k]| ==>
                         levels[k][j].step as int in rank && rank[levels[k][j].step as int] == k)
  }

  lemma PlacedSnoc(graph: seq<PlanStep>, levels: seq<seq<PlanStep>>, rank: map<int, nat>, ids: seq<int>, level: seq<PlanStep>)
    requires Placed(graph, levels, rank) && ids != [] && NoRepeats(ids) && SetOf(ids) !! rank.Keys
    requires |level| == |ids| && forall i :: 0 <= i < |ids| ==> level[i] in graph && level[i].step == ids[i]
    ensures Placed(graph, levels + [level], Ranked(rank, ids, |levels|))
    ensures |Flatten(levels + [level])| == |Flatten(levels)| + |level|
  {
    var levels' := levels + [level];
    var rank' := Ranked(rank, ids, |levels|);
    var flat := Flatten(levels);
    assert levels'[..|levels|] == levels;
    assert Flatten(levels') == flat + level;
    SameIds(level, ids);
    IdsConcat(flat, level);
    DistinctConcat(flat, level);
    assert rank'.Keys == rank.Keys + SetOf(ids);
    forall k, j | 0 <= k < |levels'| && 0 <= j < |levels'[k]|
      ensures levels'[k][j].step as int in rank' && rank'[levels'[k][j].step as int] == k
    {
      RankedAt(rank, ids, |levels|, levels'[k][j].step);
      assert k == |levels| ==> level[j].step as int in Ids(level);
    }
  }

  lemma RankedAt(rank: map<int, nat>, ids: seq<int>, height: nat, x: int)
    requires SetOf(ids) !! rank.Keys
    ensures x in rank.Keys ==> Ranked(rank, ids, height)[x] == rank[x]
    ensures x in SetOf(ids) ==> Ranked(rank, ids, height)[x] == height
  {}

  lemma SameIds(level: seq<PlanStep>, ids: seq<int>)
    requires |level| == |ids| && NoRepeats(ids) && forall i :: 0 <= i < |ids| ==> level[i].step == ids[i]
    ensures Ids(level) == SetOf(ids) && DistinctSteps(level)
  {
    forall x | x in ids ensures x in Ids(level) {
      var i :| 0 <= i < |ids| && ids[i] == x;
      assert level[i].step == x;
    }
    forall x | x in Ids(level) ensures x in ids {
      var i :| 0 <= i < |level| && level[i].step == x;
      assert ids[i] == x;
    }
  }

  lemma DistinctConcat(a: seq<PlanStep>, b: seq<PlanStep>)
    requires DistinctSteps(a) && DistinctSteps(b) && Ids(a) !! Ids(b)
    ensures DistinctSteps(a + b)
  {
    forall i, j | 0 <= i < |a| && 0 <= j < |b| ensures a[i].step != b[j].step {
      assert a[i].step as int in Ids(a) && b[j].step as int in Ids(b);
    }
  }

  lemma IdsConcat(a: seq<PlanStep>, b: seq<PlanStep>)
    ensures Ids(a + b) == Ids(a) + Ids(b)
  {
    forall x | x in Ids(a) + Ids(b) ensures x in Ids(a + b) {
      if x in Ids(a) {
        var i :| 0 <= i < |a| && a[i].step == x;
        assert (a + b)[i].step == x;
      } else {
        var i :| 0 <= i < |b| && b[i].step == x;
        assert (a + b)[|a| + i].step == x;
      }
    }
  }

  method Resolve(graph: seq<PlanStep>) returns (r: ResolveResult)
    ensures r.EmptyGraph? <==> graph == []
    ensures r.CycleDetected? <==> graph != [] && (!DistinctSteps(graph) || HasCycle(WaitsOf(graph)))
    ensures r.CycleDetected? ==> r.processed < r.total == |graph|
    ensures r.Resolved? ==> DistinctSteps(graph) && Layered(graph, r.levels)
  {
    if graph == [] {
      return EmptyGraph;
    }
    var inDegree, dependents := BuildIndex(graph);
    var queue := InitialQueue(graph, inDegree);
    NumberedSteps(graph);
    var levels, processed := LevelByLevel(graph, StepByNumber(graph), dependents, inDegree, queue);
    Verdict(graph, levels);
    if processed != |graph| {
      return CycleDetected(processed, |graph|);
    }
    return Resolved(levels);
  }

  // The outer loop.
  method LevelByLevel(graph: seq<PlanStep>, stepMap: map<int, PlanStep>, dependents: map<int, seq<int>>,
                      inDegree0: map<int, int>, queue0: seq<int>)
    returns (levels: seq<seq<PlanStep>>, processed: nat)
    requires MapsSteps(graph, stepMap) && Inverse(WaitsOf(graph), dependents)
    requires Counts(WaitsOf(graph), inDegree0, Ids(graph)) && Queued(inDegree0, {}, queue0)
    ensures processed == |Flatten(levels)| && Complete(graph, levels)
  {
    var inDegree, queue := inDegree0, queue0;
    levels, processed := [], 0;
    ghost var rank: map<int, nat> := map[];
    FirstFrontier(graph, inDegree, queue);
    while queue != []
      invariant Frontier(WaitsOf(graph), rank, inDegree, queue, |levels|)
      invariant Placed(graph, levels, rank)
      invariant processed == |Flatten(levels)|
      decreases Ids(graph) - rank.Keys
    {
      var level;
      ghost var height := |levels|;
      ghost var ids := queue;
      level, inDegree, queue := NextLevel(graph, stepMap, dependents, levels, inDegree, queue, rank);
      rank := Ranked(rank, ids, height);
      levels := levels + [level];
      processed := processed + |level|;
    }
    assert Finished(graph, levels, rank, inDegree);
  }

  function StepsOf(stepMap: map<int, PlanStep>, ids: seq<int>): (level: seq<PlanStep>)
    requires forall i :: 0 <= i < |ids| ==> ids[i] in stepMap
    ensures |level| == |ids| && forall i :: 0 <= i < |ids| ==> level[i] == stepMap[ids[i]]
  {
    if ids == [] then []
    else
      var n := |ids| - 1;
      StepsOf(stepMap, ids[..n]) + [stepMap[ids[n]]]
  }

  lemma QueuePresent(waits: Waits, rank: map<int, nat>, inDegree: map<int, int>, queue: seq<int>, height: nat)
    requires Frontier(waits, rank, inDegree, queue, height)
    ensures forall i :: 0 <= i < |queue| ==> queue[i] in waits
    ensures NoRepeats(queue) && SetOf(queue) !! rank.Keys
  {
    forall i | 0 <= i < |queue| ensures queue[i] in waits {
      var x := queue[i];
      assert x in queue;
    }
    forall x | x in queue ensures x !in rank {}
  }

  lemma LevelPlaced(graph: seq<PlanStep>, stepMap: map<int, PlanStep>, levels: seq<seq<PlanStep>>, rank: map<int, nat>,
                    inDegree: map<int, int>, ids: seq<int>)
    requires MapsSteps(graph, stepMap) && ids != []
    requires Frontier(WaitsOf(graph), rank, inDegree, ids, |levels|) && Placed(graph, levels, rank)
    ensures forall i :: 0 <= i < |ids| ==> ids[i] in stepMap
    ensures var level := StepsOf(stepMap, ids);
            && Placed(graph, levels + [level], Ranked(rank, ids, |levels|))
            && |Flatten(levels + [level])| == |Flatten(levels)| + |level|
  {
    QueuePresent(WaitsOf(graph), rank, inDegree, ids, |levels|);
    var level := StepsOf(stepMap, ids);
    PlacedSnoc(graph, levels, rank, ids, level);
  }

  lemma FirstFrontier(graph: seq<PlanStep>, inDegree: map<int, int>, queue: seq<int>)
    requires Counts(WaitsOf(graph), inDegree, Ids(graph)) && Queued(inDegree, {}, queue)
    ensures Frontier(WaitsOf(graph), map[], inDegree, queue, 0) && Placed(graph, [], map[])
  {
    var none: map<int, nat> := map[];
    assert Ids(graph) - none.Keys == Ids(graph);
  }

  method NextQueue(waits: Waits, level: seq<int>, dependents: map<int, seq<int>>, ghost rank: map<int, nat>,
                   ghost height: nat, inDegree0: map<int, int>)
    returns (inDegree: map<int, int>, queue: seq<int>)
    requires Inverse(waits, dependents) && Frontier(waits, rank, inDegree0, level, height) && level != []
    ensures Frontier(waits, Ranked(rank, level, height), inDegree, queue, height + 1)
    ensures waits.Keys - Ranked(rank, level, height).Keys < waits.Keys - rank.Keys
  {
    assert level[0] in level;
    RankLevel(waits, rank, inDegree0, level, height);
    QueueIsReady(waits, rank, inDegree0, level, height);
    ghost var pending := waits.Keys - rank.Keys;
    ghost var rank' := Ranked(rank, level, height);
    assert rank'.Keys == rank.Keys + SetOf(level);
    inDegree, queue := RelaxLevel(waits, level, dependents, rank'.Keys, pending, inDegree0);
    assert pending - SetOf(level) == waits.Keys - rank'.Keys;
    NextFrontier(waits, rank', level, queue, height);
  }

  // One round of the outer loop.
  method NextLevel(graph: seq<PlanStep>, stepMap: map<int, PlanStep>, dependents: map<int, seq<int>>, ghost levels: seq<seq<PlanStep>>,
                   inDegree0: map<int, int>, ids: seq<int>, ghost rank: map<int, nat>)
    returns (level: seq<PlanStep>, inDegree: map<int, int>, queue: seq<int>)
    requires Inverse(WaitsOf(graph), dependents) && MapsSteps(graph, stepMap) && ids != []
    requires Frontier(WaitsOf(graph), rank, inDegree0, ids, |levels|) && Placed(graph, levels, rank)
    ensures Frontier(WaitsOf(graph), Ranked(rank, ids, |levels|), inDegree, queue, |levels| + 1)
    ensures Placed(graph, levels + [level], Ranked(rank, ids, |levels|))
    ensures |Flatten(levels + [level])| == |Flatten(levels)| + |level|
    ensures Ids(graph) - Ranked(rank, ids, |levels|).Keys < Ids(graph) - rank.Keys
  {
    LevelPlaced(graph, stepMap, levels, rank, inDegree0, ids);
    level := StepsOf(stepMap, ids);
    inDegree, queue := NextQueue(WaitsOf(graph), ids, dependents, rank, |levels|, inDegree0);
  }

  method InitialQueue(graph: seq<PlanStep>, inDegree: map<int, int>) returns (queue: seq<int>)
    requires inDegree.Keys == Ids(graph)
    ensures Queued(inDegree, {}, queue)
  {
    // The dictionary iterates in the order in which the step numbers first occur.
    queue := [];
    for i := 0 to |graph|
      invariant NoRepeats(queue)
      invariant forall x {:trigger x in queue} :: x in queue <==> x in Ids(graph[..i]) && x in inDegree && inDegree[x] == 0
    {
      var id := graph[i].step as int;
      assert Ids(graph[..i + 1]) == Ids(graph[..i]) + {id};
      assert id in Ids(graph);
      if id !in queue && inDegree[id] == 0 {
        queue := queue + [id];
      }
    }
    assert graph[..|graph|] == graph;
  }

  lemma NextFrontier(waits: Waits, rank: map<int, nat>, level: seq<int>, queue: seq<int>, height: nat)
    requires forall x :: x in level ==> x in rank && rank[x] == height
    requires forall x {:trigger x in queue} :: x in queue ==> FollowsSome(waits, level, x)
    ensures forall x {:trigger FollowsTop(waits, rank, height + 1, x)} :: x in queue ==> FollowsTop(waits, rank, height + 1, x)
  {
    forall x | x in queue ensures FollowsTop(waits, rank, height + 1, x) {
      assert FollowsSome(waits, level, x);
      var d :| d in level && Edge(waits, d, x);
    }
  }

  // The queue has run empty.
  ghost predicate Complete(graph: seq<PlanStep>, levels: seq<seq<PlanStep>>) {
    exists rank, inDegree :: Finished(graph, levels, rank, inDegree)
  }

  ghost predicate Finished(graph: seq<PlanStep>, levels: seq<seq<PlanStep>>, rank: map<int, nat>, inDegree: map<int, int>) {
    Frontier(WaitsOf(graph), rank, inDegree, [], |levels|) && Placed(graph, levels, rank)
  }

  // Then the count of placed steps tells whether a cycle is left.
  lemma Verdict(graph: seq<PlanStep>, levels: seq<seq<PlanStep>>)
    requires Complete(graph, levels)
    ensures |Flatten(levels)| <= |graph|
    ensures |Flatten(levels)| == |graph| ==> DistinctSteps(graph) && !HasCycle(WaitsOf(graph)) && Layered(graph, levels)
    ensures |Flatten(levels)| != |graph| ==> !DistinctSteps(graph) || HasCycle(WaitsOf(graph))
  {
    var rank, inDegree :| Finished(graph, levels, rank, inDegree);
    PlacedCount(graph, Flatten(levels), rank);
    if |Flatten(levels)| == |graph| {
      AllPlaced(graph, levels, rank);
    } else if DistinctSteps(graph) {
      SomeLeft(WaitsOf(graph), rank, inDegree);
    }
  }

  lemma PlacedCount(graph: seq<PlanStep>, flat: seq<PlanStep>, rank: map<int, nat>)
    requires DistinctSteps(flat) && Ids(flat) == rank.Keys <= Ids(graph)
    ensures |flat| <= |graph|
    ensures |flat| == |graph| <==> DistinctSteps(graph) && rank.Keys == Ids(graph)
  {
    DistinctCardinality(graph);
    DistinctCardinality(flat);
    SubsetCardinality(rank.Keys, Ids(graph));
  }

  lemma AllPlaced(graph: seq<PlanStep>, levels: seq<seq<PlanStep>>, rank: map<int, nat>)
    requires Ranking(WaitsOf(graph), rank) && Placed(graph, levels, rank)
    requires DistinctSteps(graph) && rank.Keys == Ids(graph)
    ensures !HasCycle(WaitsOf(graph)) && Layered(graph, levels)
  {
    RankedIsAcyclic(WaitsOf(graph), rank);
    SamePlaces(Flatten(levels), graph);
    forall k, j {:trigger OnLevel(graph, levels, k, j)} | 0 <= k < |levels| && 0 <= j < |levels[k]|
      ensures OnLevel(graph, levels, k, j)
    {
      RankIsLongestChain(WaitsOf(graph), rank, levels[k][j].step);
    }
  }

  lemma SomeLeft(waits: Waits, rank: map<int, nat>, inDegree: map<int, int>)
    requires rank.Keys <= waits.Keys && rank.Keys != waits.Keys
    requires Counts(waits, inDegree, waits.Keys - rank.Keys) && Queued(inDegree, rank.Keys, [])
    ensures HasCycle(waits)
  {
    var blocked := waits.Keys - rank.Keys;
    var x := SomeOutside(rank.Keys, waits.Keys);
    UnrankedIsStuck(waits, rank, inDegree);
    StuckHasCycle(waits, blocked, x);
  }

  lemma SomeOutside(a: set<int>, b: set<int>) returns (x: int)
    requires a <= b && a != b
    ensures x in b && x !in a
  {
    if !exists y :: y in b && y !in a { assert false; }
    x :| x in b && x !in a;
  }

  lemma UnrankedIsStuck(waits: Waits, rank: map<int, nat>, inDegree: map<int, int>)
    requires Counts(waits, inDegree, waits.Keys - rank.Keys) && Queued(inDegree, rank.Keys, [])
    ensures Stuck(waits, waits.Keys - rank.Keys)
  {
    var blocked := waits.Keys - rank.Keys;
    forall x {:trigger WaitsWithin(waits, blocked, x)} | x in blocked ensures WaitsWithin(waits, blocked, x) {
      assert x !in [];
      assert inDegree[x] == CountIn(waits[x], blocked);
      CountInZero(waits[x], blocked);
      var k :| 0 <= k < |waits[x]| && waits[x][k] in blocked;
      assert Edge(waits, waits[x][k], x);
    }
  }

  lemma SubsetCardinality<T>(a: set<T>, b: set<T>)
    requires a <= b
    ensures |a| <= |b|
    ensures |a| == |b| ==> a == b
  {
    assert b == a + (b - a);
  }

  lemma SamePlaces(a: seq<PlanStep>, b: seq<PlanStep>)
    requires DistinctSteps(a) && DistinctSteps(b) && Ids(a) == Ids(b)
    requires forall s :: s in a ==> s in b
    ensures multiset(a) == multiset(b)
  {
    forall s | s in b ensures s in a {
      var j :| 0 <= j < |b| && b[j] == s;
      assert s.step as int in Ids(a);
      var i :| 0 <= i < |a| && a[i].step == s.step;
      assert a[i] in b;
    }
    forall s ensures multiset(a)[s] == multiset(b)[s] {
      OncePerStep(a, s);
      OncePerStep(b, s);
    }
  }

  lemma {:induction false} OncePerStep(a: seq<PlanStep>, s: PlanStep)
    requires DistinctSteps(a)
    ensures multiset(a)[s] == if s in a then 1 else 0
  {
    if a != [] {
      var n := |a| - 1;
      assert a == a[..n] + [a[n]];
      OncePerStep(a[..n], s);
    }
  }

  lemma {:induction false} InFlatten(levels: seq<seq<PlanStep>>, s: PlanStep) returns (k: nat, j: nat)
    requires s in Flatten(levels)
    ensures k < |levels| && j < |levels[k]| && levels[k][j] == s
  {
    var n := |levels| - 1;
    if s in levels[n] {
      k := n;
      j :| 0 <= j < |levels[n]| && levels[n][j] == s;
    } else {
      k, j := InFlatten(levels[..n], s);
    }
  }

  lemma LayeredHas(graph: seq<PlanStep>, levels: seq<seq<PlanStep>>, s: PlanStep)
    requires Layered(graph, levels)
    ensures s in graph <==> s in Flatten(levels)
  {
    assert s in graph <==> s in multiset(graph);
    assert s in Flatten(levels) <==> s in multiset(Flatten(levels));
  }

  lemma LevelUnique(graph: seq<PlanStep>, levels: seq<seq<PlanStep>>, others: seq<seq<PlanStep>>, k: nat, j: nat, k': nat, j': nat)
    requires Layered(graph, levels) && Layered(graph, others) && k < |levels| && j < |levels[k]|
    requires k' < |others| && j' < |others[k']| && levels[k][j] == others[k'][j']
    ensures k == k'
  {
    assert OnLevel(graph, levels, k, j) && OnLevel(graph, others, k', j');
    LongestChainUnique(WaitsOf(graph), levels[k][j].step, k + 1, k' + 1);
  }

  // Two resolutions of a graph agree on the level of every step.
  lemma SameLevel(graph: seq<PlanStep>, levels: seq<seq<PlanStep>>, others: seq<seq<PlanStep>>, k: nat, s: PlanStep)
    requires Layered(graph, levels) && Layered(graph, others) && k < |levels| && s in levels[k]
    ensures k < |others| && s in others[k]
  {
    var j :| 0 <= j < |levels[k]| && levels[k][j] == s;
    FlattenHas(levels, k, j);
    LayeredHas(graph, levels, s);
    LayeredHas(graph, others, s);
    var k', j' := InFlatten(others, s);
    LevelUnique(graph, levels, others, k, j, k', j');
  }

  lemma LongerChain(waits: Waits, d: int, x: int, m: nat, n: nat)
    requires Edge(waits, d, x) && LongestChain(waits, d, m) && LongestChain(waits, x, n)
    ensures m < n
  {
    var c :| ChainTo(waits, c, d) && |c| == m;
    assert ChainTo(waits, c + [x], x);
  }

  // Every dependency that is present was placed in an earlier level.
  lemma DependenciesFirst(graph: seq<PlanStep>, levels: seq<seq<PlanStep>>, k: nat, j: nat, d: int) returns (k': nat, j': nat)
    requires DistinctSteps(graph) && Layered(graph, levels)
    requires k < |levels| && j < |levels[k]| && d in levels[k][j].after && d in Ids(graph)
    ensures k' < k && j' < |levels[k']| && levels[k'][j'].step == d
  {
    var s := levels[k][j];
    FlattenHas(levels, k, j);
    LayeredHas(graph, levels, s);
    var m :| 0 <= m < |graph| && graph[m] == s;
    DistinctDeps(graph, m);
    var i :| 0 <= i < |graph| && graph[i].step == d;
    LayeredHas(graph, levels, graph[i]);
    k', j' := InFlatten(levels, graph[i]);
    assert OnLevel(graph, levels, k, j) && OnLevel(graph, levels, k', j');
    LongerChain(WaitsOf(graph), d, s.step, k' + 1, k + 1);
  }

  lemma {:induction false} FlattenHas(levels: seq<seq<PlanStep>>, k: nat, j: nat)
    requires k < |levels| && j < |levels[k]|
    ensures levels[k][j] in Flatten(levels)
  {
    var n := |levels| - 1;
    if k < n {
      FlattenHas(levels[..n], k, j);
    }
  }
}
