/** De-duplication of evidence and trimming to a byte budget. */
module Evidence {
  const BUDGET_BYTES := 2048

  // `size` is the length of the item's encoded JSON; `content` stands for everything else.
  datatype Item = Item(key: string, tier: nat, confidence: real, size: nat, content: nat)

  // ---- de-duplication --------------------------------------------------------

  ghost predicate FirstAt(evidence: seq<Item>, key: string, m: int) {
    0 <= m < |evidence| && evidence[m].key == key && forall k :: 0 <= k < m ==> evidence[k].key != key
  }

  // The most confident item with this key, the earliest one on ties.
  ghost predicate BestAt(evidence: seq<Item>, key: string, m: int) {
    && 0 <= m < |evidence| && evidence[m].key == key
    && forall k :: 0 <= k < |evidence| && evidence[k].key == key ==>
                     evidence[k].confidence <= evidence[m].confidence && (k < m ==> evidence[k].confidence < evidence[m].confidence)
  }

  ghost predicate Best(evidence: seq<Item>, item: Item) {
    exists m :: BestAt(evidence, item.key, m) && evidence[m] == item
  }

  ghost predicate SeenBefore(evidence: seq<Item>, a: string, b: string) {
    exists m, n :: FirstAt(evidence, a, m) && FirstAt(evidence, b, n) && m < n
  }

  // One item per key, the best one, in the order in which the keys first occur.
  ghost predicate Deduplicated(evidence: seq<Item>, r: seq<Item>) {
    && (forall i {:trigger Best(evidence, r[i])} :: 0 <= i < |r| ==> Best(evidence, r[i]))
    && (forall k {:trigger HasKey(r, evidence[k].key)} :: 0 <= k < |evidence| ==> HasKey(r, evidence[k].key))
    && (forall i, j :: 0 <= i < j < |r| ==> SeenBefore(evidence, r[i].key, r[j].key))
  }

  ghost predicate HasKey(r: seq<Item>, key: string) {
    exists i :: 0 <= i < |r| && r[i].key == key
  }

  ghost predicate Tracks(evidence: seq<Item>, bestByKey: map<string, Item>, seenOrder: seq<string>) {
    && (forall k :: 0 <= k < |evidence| ==> evidence[k].key in bestByKey)
    && (forall key :: key in bestByKey <==> key in seenOrder)
    && (forall key :: key in bestByKey ==> bestByKey[key].key == key && Best(evidence, bestByKey[key]))
    && (forall i, j :: 0 <= i < j < |seenOrder| ==> SeenBefore(evidence, seenOrder[i], seenOrder[j]))
  }

  method Deduplicate(evidence: seq<Item>) returns (r: seq<Item>)
    ensures Deduplicated(evidence, r)
  {
    var bestByKey: map<string, Item> := map[];
    var seenOrder: seq<string> := [];
    for i := 0 to |evidence|
      invariant Tracks(evidence[..i], bestByKey, seenOrder)
    {
      var item := evidence[i];
      assert evidence[..i + 1] == evidence[..i] + [item];
      if item.key !in bestByKey {
        TracksNew(evidence[..i], item, bestByKey, seenOrder);
        bestByKey := bestByKey[item.key := item];
        seenOrder := seenOrder + [item.key];
      } else if item.confidence > bestByKey[item.key].confidence {
        TracksReplaced(evidence[..i], item, bestByKey, seenOrder);
        bestByKey := bestByKey[item.key := item];
      } else {
        TracksKept(evidence[..i], item, bestByKey, seenOrder);
      }
    }
    assert evidence[..|evidence|] == evidence;
    r := seq(|seenOrder|, i requires 0 <= i < |seenOrder| && seenOrder[i] in bestByKey => bestByKey[seenOrder[i]]);
    assert Deduplicated(evidence, r) by {
      forall k | 0 <= k < |evidence| ensures HasKey(r, evidence[k].key) {
        var i :| 0 <= i < |seenOrder| && seenOrder[i] == evidence[k].key;
        assert r[i].key == evidence[k].key;
      }
    }
  }

  lemma SeenBeforeSnoc(evidence: seq<Item>, item: Item, a: string, b: string)
    requires SeenBefore(evidence, a, b)
    ensures SeenBefore(evidence + [item], a, b)
  {
    var m, n :| FirstAt(evidence, a, m) && FirstAt(evidence, b, n) && m < n;
    assert FirstAt(evidence + [item], a, m) && FirstAt(evidence + [item], b, n);
  }

  lemma BestKept(evidence: seq<Item>, item: Item, b: Item)
    requires Best(evidence, b) && (b.key != item.key || item.confidence <= b.confidence)
    ensures Best(evidence + [item], b)
  {
    var m :| BestAt(evidence, b.key, m) && evidence[m] == b;
    assert BestAt(evidence + [item], b.key, m);
  }

  lemma BestReplaced(evidence: seq<Item>, item: Item)
    requires forall k :: 0 <= k < |evidence| && evidence[k].key == item.key ==> evidence[k].confidence < item.confidence
    ensures Best(evidence + [item], item)
  {
    assert BestAt(evidence + [item], item.key, |evidence|);
  }

  lemma KeySeenFirst(evidence: seq<Item>, item: Item, key: string)
    requires key != item.key && (exists k :: 0 <= k < |evidence| && evidence[k].key == key)
    requires forall k :: 0 <= k < |evidence| ==> evidence[k].key != item.key
    ensures SeenBefore(evidence + [item], key, item.key)
  {
    var m := FirstOccurrence(evidence, key);
    assert FirstAt(evidence + [item], key, m) && FirstAt(evidence + [item], item.key, |evidence|);
  }

  lemma TracksOrder(evidence: seq<Item>, item: Item, bestByKey: map<string, Item>, seenOrder: seq<string>)
    requires Tracks(evidence, bestByKey, seenOrder)
    ensures forall i, j :: 0 <= i < j < |seenOrder| ==> SeenBefore(evidence + [item], seenOrder[i], seenOrder[j])
  {
    forall i, j | 0 <= i < j < |seenOrder| ensures SeenBefore(evidence + [item], seenOrder[i], seenOrder[j]) {
      SeenBeforeSnoc(evidence, item, seenOrder[i], seenOrder[j]);
    }
  }

  lemma TracksNew(evidence: seq<Item>, item: Item, bestByKey: map<string, Item>, seenOrder: seq<string>)
    requires Tracks(evidence, bestByKey, seenOrder) && item.key !in bestByKey
    ensures Tracks(evidence + [item], bestByKey[item.key := item], seenOrder + [item.key])
  {
    TracksOrder(evidence, item, bestByKey, seenOrder);
    BestReplaced(evidence, item);
    forall key | key in bestByKey ensures Best(evidence + [item], bestByKey[key]) {
      BestKept(evidence, item, bestByKey[key]);
    }
    forall i | 0 <= i < |seenOrder| ensures SeenBefore(evidence + [item], seenOrder[i], item.key) {
      assert seenOrder[i] in bestByKey && Best(evidence, bestByKey[seenOrder[i]]);
      KeySeenFirst(evidence, item, seenOrder[i]);
    }
  }

  lemma TracksKept(evidence: seq<Item>, item: Item, bestByKey: map<string, Item>, seenOrder: seq<string>)
    requires Tracks(evidence, bestByKey, seenOrder) && item.key in bestByKey
    requires item.confidence <= bestByKey[item.key].confidence
    ensures Tracks(evidence + [item], bestByKey, seenOrder)
  {
    TracksOrder(evidence, item, bestByKey, seenOrder);
    forall key | key in bestByKey ensures Best(evidence + [item], bestByKey[key]) {
      BestKept(evidence, item, bestByKey[key]);
    }
  }

  lemma BestRaised(evidence: seq<Item>, item: Item, b: Item)
    requires Best(evidence, b) && b.key == item.key && item.confidence > b.confidence
    ensures Best(evidence + [item], item)
  {
    BestReplaced(evidence, item);
  }

  lemma TracksReplaced(evidence: seq<Item>, item: Item, bestByKey: map<string, Item>, seenOrder: seq<string>)
    requires Tracks(evidence, bestByKey, seenOrder) && item.key in bestByKey
    requires item.confidence > bestByKey[item.key].confidence
    ensures Tracks(evidence + [item], bestByKey[item.key := item], seenOrder)
  {
    TracksOrder(evidence, item, bestByKey, seenOrder);
    var raised := bestByKey[item.key := item];
    forall key | key in raised ensures raised[key].key == key && Best(evidence + [item], raised[key]) {
      if key == item.key {
        BestRaised(evidence, item, bestByKey[key]);
      } else {
        BestKept(evidence, item, bestByKey[key]);
      }
    }
  }

  lemma FirstOccurrence(evidence: seq<Item>, key: string) returns (m: nat)
    requires exists k :: 0 <= k < |evidence| && evidence[k].key == key
    ensures FirstAt(evidence, key, m)
  {
    m := 0;
    while evidence[m].key != key
      invariant m < |evidence| && forall k :: 0 <= k < m ==> evidence[k].key != key
      decreases |evidence| - m
    {
      if m + 1 == |evidence| { assert false; }
      m := m + 1;
    }
  }

  // The three clauses leave no freedom: they determine the result.
  lemma DeduplicatedUnique(evidence: seq<Item>, r: seq<Item>, q: seq<Item>)
    requires Deduplicated(evidence, r) && Deduplicated(evidence, q)
    ensures r == q
  {
    SameKeysAhead(evidence, r, q);
    SameKeysAhead(evidence, q, r);
  }

  // Position by position the same key, hence the same item.
  lemma SameKeysAhead(evidence: seq<Item>, r: seq<Item>, q: seq<Item>)
    requires Deduplicated(evidence, r) && Deduplicated(evidence, q)
    ensures |r| <= |q| && forall i :: 0 <= i < |r| ==> r[i] == q[i]
  {
    var i := 0;
    while i < |r|
      invariant i <= |r| && i <= |q|
      invariant forall k :: 0 <= k < i ==> r[k] == q[k]
    {
      SameNext(evidence, r, q, i);
      i := i + 1;
    }
  }

  lemma SeenBeforeStrict(evidence: seq<Item>, a: string, b: string)
    ensures SeenBefore(evidence, a, b) ==> a != b && !SeenBefore(evidence, b, a)
  {}

  lemma BestHasKey(evidence: seq<Item>, r: seq<Item>, item: Item) returns (j: nat)
    requires Deduplicated(evidence, r) && Best(evidence, item)
    ensures j < |r| && r[j].key == item.key
  {
    var m :| BestAt(evidence, item.key, m) && evidence[m] == item;
    assert HasKey(r, evidence[m].key);
    j :| 0 <= j < |r| && r[j].key == evidence[m].key;
  }

  lemma SameNext(evidence: seq<Item>, r: seq<Item>, q: seq<Item>, i: nat)
    requires Deduplicated(evidence, r) && Deduplicated(evidence, q)
    requires i < |r| && i <= |q| && forall k :: 0 <= k < i ==> r[k] == q[k]
    ensures i < |q| && r[i] == q[i]
  {
    assert Best(evidence, r[i]);
    var j := BestHasKey(evidence, q, r[i]);
    NotEarlier(evidence, r, q, i, j);
    assert Best(evidence, q[i]);
    var j' := BestHasKey(evidence, r, q[i]);
    NotEarlier(evidence, q, r, i, j');
    NotCrossed(evidence, r, q, i, j, j');
    BestUnique(evidence, r[i], q[i]);
  }

  lemma NotCrossed(evidence: seq<Item>, r: seq<Item>, q: seq<Item>, i: nat, j: nat, j': nat)
    requires Deduplicated(evidence, r) && Deduplicated(evidence, q)
    requires i <= j' < |r| && i <= j < |q| && q[j].key == r[i].key && r[j'].key == q[i].key
    ensures r[i].key == q[i].key
  {
    InOrder(evidence, q, i, j);
    InOrder(evidence, r, i, j');
    SeenBeforeStrict(evidence, q[i].key, r[i].key);
  }

  lemma InOrder(evidence: seq<Item>, r: seq<Item>, i: nat, j: nat)
    requires Deduplicated(evidence, r) && i <= j < |r|
    ensures i == j || SeenBefore(evidence, r[i].key, r[j].key)
  {}

  lemma NotEarlier(evidence: seq<Item>, r: seq<Item>, q: seq<Item>, i: nat, j: nat)
    requires Deduplicated(evidence, r) && i < |r| && i <= |q| && (forall k :: 0 <= k < i ==> r[k] == q[k])
    requires j < |q| && q[j].key == r[i].key
    ensures j >= i
  {}

  lemma BestUnique(evidence: seq<Item>, a: Item, b: Item)
    requires Best(evidence, a) && Best(evidence, b) && a.key == b.key
    ensures a == b
  {}

  // ---- budget ------------------------------------------------------------------

  type Scores = map<string, real>

  function Score(scores: Scores, item: Item): real {
    if item.key in scores then scores[item.key] else 0.0
  }

  // The sort key: relevance down, tier up, confidence down. With no scores every relevance
  // is equal and the key is (tier, confidence) alone.
  predicate Precedes(scores: Scores, a: Item, b: Item) {
    var ra, rb := Score(scores, a), Score(scores, b);
    ra > rb || (ra == rb && (a.tier < b.tier || (a.tier == b.tier && a.confidence > b.confidence)))
  }

  // What the order means: more relevant first, then the lower tier, then the more confident.
  lemma PrecedesMeans(scores: Scores, a: Item, b: Item)
    ensures var ra := if a.key in scores then scores[a.key] else 0.0;
            var rb := if b.key in scores then scores[b.key] else 0.0;
            && (ra > rb ==> Precedes(scores, a, b))
            && (ra == rb && a.tier < b.tier ==> Precedes(scores, a, b))
            && (ra == rb && a.tier == b.tier && a.confidence > b.confidence ==> Precedes(scores, a, b))
            && (ra == rb && a.tier == b.tier && a.confidence == b.confidence ==> !Precedes(scores, a, b))
    ensures !(Precedes(scores, a, b) && Precedes(scores, b, a))
  {}

  // An item with its position in the input, which a stable sort uses to break ties.
  datatype Placed = Placed(item: Item, at: nat)

  predicate Before(scores: Scores, a: Placed, b: Placed) {
    Precedes(scores, a.item, b.item) || (!Precedes(scores, b.item, a.item) && a.at < b.at)
  }

  // Where neither item precedes the other, the input order decides.
  lemma TiesKeepOrder(scores: Scores, a: Placed, b: Placed)
    requires !Precedes(scores, a.item, b.item) && !Precedes(scores, b.item, a.item)
    ensures Before(scores, a, b) <==> a.at < b.at
  {}

  function Tag(evidence: seq<Item>): (t: seq<Placed>)
    ensures |t| == |evidence| && forall i :: 0 <= i < |t| ==> t[i] == Placed(evidence[i], i)
  {
    seq(|evidence|, i requires 0 <= i < |evidence| => Placed(evidence[i], i))
  }

  function Items(t: seq<Placed>): (s: seq<Item>)
    ensures |s| == |t| && forall i :: 0 <= i < |s| ==> s[i] == t[i].item
  {
    seq(|t|, i requires 0 <= i < |t| => t[i].item)
  }

  ghost predicate SortedBy(scores: Scores, t: seq<Placed>) {
    forall i, j :: 0 <= i < j < |t| ==> Before(scores, t[i], t[j])
  }

  ghost predicate StablySorted(scores: Scores, evidence: seq<Item>, t: seq<Placed>) {
    SortedBy(scores, t) && multiset(t) == multiset(Tag(evidence))
  }

  function Insert(scores: Scores, t: seq<Placed>, x: Placed): seq<Placed> {
    if t == [] || Before(scores, t[|t| - 1], x) then t + [x]
    else Insert(scores, t[..|t| - 1], x) + [t[|t| - 1]]
  }

  function Sort(scores: Scores, t: seq<Placed>): seq<Placed> {
    if t == [] then [] else Insert(scores, Sort(scores, t[..|t| - 1]), t[|t| - 1])
  }

  lemma {:induction false} InsertKeeps(scores: Scores, t: seq<Placed>, x: Placed)
    ensures multiset(Insert(scores, t, x)) == multiset(t) + multiset{x}
  {
    if t != [] && !Before(scores, t[|t| - 1], x) {
      var n := |t| - 1;
      assert t == t[..n] + [t[n]];
      InsertKeeps(scores, t[..n], x);
    }
  }

  lemma {:induction false} SortKeeps(scores: Scores, t: seq<Placed>)
    ensures multiset(Sort(scores, t)) == multiset(t)
  {
    if t != [] {
      var n := |t| - 1;
      assert t == t[..n] + [t[n]];
      SortKeeps(scores, t[..n]);
      InsertKeeps(scores, Sort(scores, t[..n]), t[n]);
    }
  }

  ghost predicate Fresh(t: seq<Placed>, x: Placed) {
    forall i :: 0 <= i < |t| ==> t[i].at != x.at
  }

  lemma BeforeTotal(scores: Scores, a: Placed, b: Placed, c: Placed)
    ensures a.at != b.at ==> Before(scores, a, b) || Before(scores, b, a)
    ensures Before(scores, a, b) && Before(scores, b, c) ==> Before(scores, a, c)
  {}

  lemma BeforeAsymmetric(scores: Scores, a: Placed, b: Placed)
    ensures !(Before(scores, a, b) && Before(scores, b, a))
  {}

  lemma {:induction false} InsertSorted(scores: Scores, t: seq<Placed>, x: Placed)
    requires SortedBy(scores, t) && Fresh(t, x)
    ensures SortedBy(scores, Insert(scores, t, x))
  {
    var n := |t| - 1;
    if t == [] {
    } else if Before(scores, t[n], x) {
      forall i | 0 <= i <= n ensures Before(scores, t[i], x) {
        BeforeTotal(scores, t[i], t[n], x);
      }
    } else {
      InsertSorted(scores, t[..n], x);
      InsertKeeps(scores, t[..n], x);
      var s := Insert(scores, t[..n], x);
      BeforeTotal(scores, t[n], x, x);
      forall i | 0 <= i < |s| ensures Before(scores, s[i], t[n]) {
        assert s[i] in multiset(s);
        if s[i] != x {
          assert s[i] in t[..n];
          var k :| 0 <= k < n && t[k] == s[i];
        }
      }
    }
  }

  lemma {:induction false} SortSorted(scores: Scores, t: seq<Placed>)
    requires forall i, j :: 0 <= i < j < |t| ==> t[i].at != t[j].at
    ensures SortedBy(scores, Sort(scores, t))
  {
    if t != [] {
      var n := |t| - 1;
      SortSorted(scores, t[..n]);
      SortKeeps(scores, t[..n]);
      var s := Sort(scores, t[..n]);
      forall i | 0 <= i < |s| ensures s[i].at != t[n].at {
        assert s[i] in multiset(s);
        assert s[i] in t[..n];
        var k :| 0 <= k < n && t[k] == s[i];
      }
      InsertSorted(scores, s, t[n]);
    }
  }

  function Bytes(s: seq<Item>): nat {
    if s == [] then 0 else Bytes(s[..|s| - 1]) + s[|s| - 1].size
  }

  // The longest prefix whose exact byte count stays within the budget.
  ghost predicate LongestFitting(s: seq<Item>, r: seq<Item>) {
    && r <= s && Bytes(r) <= BUDGET_BYTES
    && forall m :: |r| < m <= |s| ==> Bytes(s[..m]) > BUDGET_BYTES
  }

  lemma {:induction false} BytesAdd(a: seq<Item>, b: seq<Item>)
    ensures Bytes(a + b) == Bytes(a) + Bytes(b)
    ensures forall item :: b == [item] ==> Bytes(b) == item.size
  {
    if b == [] {
      assert a + b == a;
    } else {
      var n := |b| - 1;
      assert (a + b)[..|a + b| - 1] == a + b[..n];
      BytesAdd(a, b[..n]);
    }
  }

  lemma {:induction false} BytesGrow(s: seq<Item>, k: nat, m: nat)
    requires k <= m <= |s|
    ensures Bytes(s[..k]) <= Bytes(s[..m])
  {
    if k < m {
      assert s[..m][..m - 1] == s[..m - 1];
      BytesGrow(s, k, m - 1);
    }
  }

  method EnforceBudget(evidence: seq<Item>, scores: Scores) returns (trimmed: seq<Item>, totalBytes: nat, ghost sorted: seq<Placed>)
    ensures StablySorted(scores, evidence, sorted)
    ensures LongestFitting(Items(sorted), trimmed)
    ensures totalBytes == Bytes(trimmed) <= 2048
  {
    var order := Sort(scores, Tag(evidence));
    sorted := order;
    SortKeeps(scores, Tag(evidence));
    SortSorted(scores, Tag(evidence));
    var items := Items(order);
    trimmed, totalBytes := [], 0;
    for i := 0 to |items|
      invariant trimmed == items[..i]
      invariant totalBytes == Bytes(trimmed) <= BUDGET_BYTES
    {
      assert items[..i + 1][..i] == items[..i];
      if totalBytes + items[i].size > BUDGET_BYTES {
        forall m | i < m <= |items| ensures Bytes(items[..m]) > BUDGET_BYTES {
          BytesGrow(items, i + 1, m);
        }
        break;
      }
      trimmed := trimmed + [items[i]];
      totalBytes := totalBytes + items[i].size;
    }
  }

  lemma SameLength(s: seq<Placed>, t: seq<Placed>)
    requires multiset(s) == multiset(t)
    ensures |s| == |t|
  {
    assert |s| == |multiset(s)| == |multiset(t)| == |t|;
  }

  lemma DropLast(s: seq<Placed>)
    requires s != []
    ensures s == s[..|s| - 1] + [s[|s| - 1]]
    ensures multiset(s[..|s| - 1]) == multiset(s) - multiset{s[|s| - 1]}
  {}

  // Stable sorting leaves no freedom either, so the trimmed list is determined.
  lemma {:induction false} StableSortUnique(scores: Scores, s: seq<Placed>, t: seq<Placed>)
    requires SortedBy(scores, s) && SortedBy(scores, t) && multiset(s) == multiset(t)
    ensures s == t
  {
    SameLength(s, t);
    if s != [] {
      var n := |s| - 1;
      LastIsSame(scores, s, t);
      DropLast(s);
      DropLast(t);
      StableSortUnique(scores, s[..n], t[..n]);
    }
  }

  lemma LastIsSame(scores: Scores, s: seq<Placed>, t: seq<Placed>)
    requires SortedBy(scores, s) && SortedBy(scores, t) && multiset(s) == multiset(t)
    requires |s| == |t| > 0
    ensures s[|s| - 1] == t[|t| - 1]
  {
    var n := |s| - 1;
    assert s[n] in multiset(t) && t[n] in multiset(s);
    var i :| 0 <= i < |t| && t[i] == s[n];
    var j :| 0 <= j < |s| && s[j] == t[n];
    assert i < n ==> Before(scores, t[i], t[n]);
    assert j < n ==> Before(scores, s[j], s[n]);
    BeforeAsymmetric(scores, s[n], t[n]);
  }
}
