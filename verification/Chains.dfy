/** Dependency chains and cycles of a step graph, stated without any algorithm. */
module Chains {
  // Each present step number with the step numbers it waits for; a dangling entry is no key.
  type Waits = map<int, seq<int>>

  ghost predicate Edge(waits: Waits, d: int, x: int) {
    d in waits && x in waits && d in waits[x]
  }

  // A non-empty walk in which every step waits for the one before it.
  ghost predicate Chain(waits: Waits, c: seq<int>) {
    && c != []
    && (forall i :: 0 <= i < |c| ==> c[i] in waits)
    && (forall i, j :: 0 <= i && j == i + 1 && j < |c| ==> Edge(waits, c[i], c[j]))
  }

  ghost predicate ChainTo(waits: Waits, c: seq<int>, id: int) {
    Chain(waits, c) && c[|c| - 1] == id
  }

  ghost predicate HasCycle(waits: Waits) {
    exists c :: Chain(waits, c) && |c| >= 2 && c[0] == c[|c| - 1]
  }

  ghost predicate LongestChain(waits: Waits, id: int, n: nat) {
    && (exists c :: ChainTo(waits, c, id) && |c| == n)
    && (forall c :: ChainTo(waits, c, id) ==> |c| <= n)
  }

  lemma LongestChainUnique(waits: Waits, id: int, m: nat, n: nat)
    requires LongestChain(waits, id, m) && LongestChain(waits, id, n)
    ensures m == n
  {
    var c :| ChainTo(waits, c, id) && |c| == m;
    var e :| ChainTo(waits, e, id) && |e| == n;
  }

  // A ranking: every present dependency is ranked strictly lower, and a step of
  // positive rank waits for one exactly one rank below.
  ghost predicate Ranking(waits: Waits, rank: map<int, nat>) {
    && rank.Keys <= waits.Keys
    && (forall d, x :: Edge(waits, d, x) && x in rank ==> d in rank && rank[d] < rank[x])
    && (forall x {:trigger OneBelow(waits, rank, x)} :: x in rank && rank[x] > 0 ==> OneBelow(waits, rank, x))
  }

  ghost predicate OneBelow(waits: Waits, rank: map<int, nat>, x: int)
    requires x in rank
  {
    exists d :: Edge(waits, d, x) && d in rank && rank[d] + 1 == rank[x]
  }

  lemma {:induction false} ChainBelowRank(waits: Waits, rank: map<int, nat>, c: seq<int>)
    requires Ranking(waits, rank) && Chain(waits, c) && c[|c| - 1] in rank
    ensures |c| - 1 <= rank[c[|c| - 1]]
    ensures c[0] in rank && (|c| >= 2 ==> rank[c[0]] < rank[c[|c| - 1]])
  {
    var n := |c| - 1;
    if n > 0 {
      assert Edge(waits, c[n - 1], c[n]);
      ChainBelowRank(waits, rank, c[..n]);
    }
  }

  lemma {:induction false} ChainOfRank(waits: Waits, rank: map<int, nat>, id: int) returns (c: seq<int>)
    requires Ranking(waits, rank) && id in rank
    ensures ChainTo(waits, c, id) && |c| == rank[id] + 1
    decreases rank[id]
  {
    if rank[id] == 0 {
      c := [id];
    } else {
      assert OneBelow(waits, rank, id);
      var d :| Edge(waits, d, id) && d in rank && rank[d] + 1 == rank[id];
      var shorter := ChainOfRank(waits, rank, d);
      c := shorter + [id];
    }
  }

  lemma RankIsLongestChain(waits: Waits, rank: map<int, nat>, id: int)
    requires Ranking(waits, rank) && id in rank
    ensures LongestChain(waits, id, rank[id] + 1)
  {
    var witnessed := ChainOfRank(waits, rank, id);
    forall c | ChainTo(waits, c, id) ensures |c| <= rank[id] + 1 {
      ChainBelowRank(waits, rank, c);
    }
  }

  lemma RankedIsAcyclic(waits: Waits, rank: map<int, nat>)
    requires Ranking(waits, rank) && rank.Keys == waits.Keys
    ensures !HasCycle(waits)
  {
    forall c | Chain(waits, c) && |c| >= 2 ensures c[0] != c[|c| - 1] {
      ChainBelowRank(waits, rank, c);
    }
  }

  // A set in which every step waits for another member of the set.
  ghost predicate Stuck(waits: Waits, blocked: set<int>) {
    blocked <= waits.Keys && forall x {:trigger WaitsWithin(waits, blocked, x)} :: x in blocked ==> WaitsWithin(waits, blocked, x)
  }

  ghost predicate WaitsWithin(waits: Waits, blocked: set<int>, x: int) {
    exists d :: d in blocked && Edge(waits, d, x)
  }

  lemma {:induction false} WalkBack(waits: Waits, blocked: set<int>, x: int, n: nat) returns (c: seq<int>)
    requires Stuck(waits, blocked) && x in blocked
    ensures ChainTo(waits, c, x) && |c| == n + 1
    ensures forall i :: 0 <= i < |c| ==> c[i] in blocked
    decreases n
  {
    if n == 0 {
      c := [x];
    } else {
      assert WaitsWithin(waits, blocked, x);
      var d :| d in blocked && Edge(waits, d, x);
      var back := WalkBack(waits, blocked, d, n - 1);
      c := back + [x];
    }
  }

  lemma {:induction false} Pigeonhole(s: seq<int>, holes: set<int>) returns (i: nat, j: nat)
    requires |s| > |holes|
    requires forall k :: 0 <= k < |s| ==> s[k] in holes
    ensures i < j < |s| && s[i] == s[j]
  {
    var n := |s| - 1;
    if k :| 0 <= k < n && s[k] == s[n] {
      i, j := k, n;
    } else {
      i, j := Pigeonhole(s[..n], holes - {s[n]});
    }
  }

  lemma StuckHasCycle(waits: Waits, blocked: set<int>, x: int)
    requires Stuck(waits, blocked) && x in blocked
    ensures HasCycle(waits)
  {
    var c := WalkBack(waits, blocked, x, |blocked|);
    var i, j := Pigeonhole(c, blocked);
    var loop := c[i..j + 1];
    assert Chain(waits, loop) && loop[0] == loop[|loop| - 1];
  }
}
