/** Filtered, cursor-paginated queries over the audit table, and whole traversals of it. */
module AuditQuery {
  import opened Plans

  // Event ids order by time; the table holds one row per id.
  datatype Row = Row(planId: Option<string>, userId: Option<string>, traceId: Option<string>, eventType: string, createdAt: real)
  type Table = map<nat, Row>

  datatype Params = Params(planId: Option<string>, userId: Option<string>, traceId: Option<string>, eventType: Option<string>,
                           startTime: Option<real>, endTime: Option<real>, limit: nat)

  datatype Page = Page(events: seq<nat>, nextCursor: Option<nat>, total: nat)

  // The WHERE conditions without the cursor; a NULL column never equals a filter value.
  predicate Matches(q: Params, r: Row) {
    && (q.planId.Some? ==> r.planId == q.planId)
    && (q.userId.Some? ==> r.userId == q.userId)
    && (q.traceId.Some? ==> r.traceId == q.traceId)
    && (q.eventType.Some? ==> r.eventType == q.eventType.value)
    && (q.startTime.Some? ==> r.createdAt >= q.startTime.value)
    && (q.endTime.Some? ==> r.createdAt <= q.endTime.value)
  }

  predicate After(cursor: Option<nat>, id: nat) {
    cursor.Some? ==> id > cursor.value
  }

  function Hits(t: Table, q: Params, cursor: Option<nat>): set<nat> {
    set id | id in t && Matches(q, t[id]) && After(cursor, id)
  }

  ghost predicate Ascending(s: seq<nat>) {
    forall i, j :: 0 <= i < j < |s| ==> s[i] < s[j]
  }

  // ORDER BY event_id LIMIT n over a set of ids.
  function FirstOf(ids: set<nat>, n: nat): (s: seq<nat>)
    ensures |s| == if |ids| < n then |ids| else n
    ensures forall id :: id in s ==> id in ids
    decreases n
  {
    if n == 0 || ids == {} then []
    else
      var least := Least(ids);
      [least] + FirstOf(ids - {least}, n - 1)
  }

  ghost predicate IsLeast(ids: set<nat>, least: nat) {
    least in ids && forall id :: id in ids ==> least <= id
  }

  function Least(ids: set<nat>): (least: nat)
    requires ids != {}
    ensures least in ids && forall id :: id in ids ==> least <= id
  {
    LeastExists(ids);
    var least :| least in ids && forall id :: id in ids ==> least <= id;
    least
  }

  lemma LeastExists(ids: set<nat>)
    requires ids != {}
    ensures exists least :: least in ids && forall id :: id in ids ==> least <= id
  {
    var least := FindLeast(ids);
    assert IsLeast(ids, least);
  }

  lemma {:induction false} FindLeast(ids: set<nat>) returns (least: nat)
    requires ids != {}
    ensures IsLeast(ids, least)
  {
    if !exists y :: y in ids { assert false; }
    var some :| some in ids;
    var rest := ids - {some};
    if rest == {} {
      assert ids == {some};
      least := some;
    } else {
      var below := FindLeast(rest);
      assert ids == rest + {some};
      least := if below < some then below else some;
    }
  }

  lemma {:induction false} FirstOfSorted(ids: set<nat>, n: nat)
    ensures Ascending(FirstOf(ids, n))
    ensures forall id, out :: id in FirstOf(ids, n) && out in ids && out !in FirstOf(ids, n) ==> id < out
    decreases n
  {
    if n > 0 && ids != {} {
      var least := Least(ids);
      FirstOfSorted(ids - {least}, n - 1);
      var rest := FirstOf(ids - {least}, n - 1);
      forall id | id in rest ensures least < id { assert id in ids - {least}; }
      var all := [least] + rest;
      assert FirstOf(ids, n) == all;
      forall i, j | 0 <= i < j < |all| ensures all[i] < all[j] {
        if i == 0 { assert rest[j - 1] in rest; } else { assert rest[i - 1] < rest[j - 1]; }
      }
    }
  }

  function QueryEvents(t: Table, q: Params, cursor: Option<nat>): (p: Page) {
    var events := FirstOf(Hits(t, q, cursor), q.limit);
    Page(events, if events != [] && |events| == q.limit then Some(events[|events| - 1]) else None, |Hits(t, q, None)|)
  }

  // What each filter asks for: a row is hit exactly if it meets every filter that is given and
  // lies after the cursor; the total counts the matching rows wherever the cursor is.
  lemma QueryMeans(t: Table, q: Params, cursor: Option<nat>)
    ensures forall id :: id in Hits(t, q, cursor) <==>
              && id in t
              && (q.planId.None? || t[id].planId == Some(q.planId.value))
              && (q.userId.None? || t[id].userId == Some(q.userId.value))
              && (q.traceId.None? || t[id].traceId == Some(q.traceId.value))
              && (q.eventType.None? || t[id].eventType == q.eventType.value)
              && (q.startTime.None? || q.startTime.value <= t[id].createdAt)
              && (q.endTime.None? || t[id].createdAt <= q.endTime.value)
              && (cursor.None? || cursor.value < id)
    ensures QueryEvents(t, q, cursor).total == |set id | id in t && id in Hits(t, q, None)|
    ensures |QueryEvents(t, q, cursor).events| <= q.limit
  {
    assert (set id | id in t && id in Hits(t, q, None)) == Hits(t, q, None);
  }

  // ---- traversals ------------------------------------------------------------

  // Pages are read one after the other, each from the table as it is at that moment; the
  // cursor handed out with the last page read so far.
  function Cursor(tables: seq<Table>, q: Params): Option<nat> {
    if tables == [] then None
    else QueryEvents(tables[|tables| - 1], q, Cursor(tables[..|tables| - 1], q)).nextCursor
  }

  function Returned(tables: seq<Table>, q: Params): seq<nat> {
    if tables == [] then []
    else
      var n := |tables| - 1;
      Returned(tables[..n], q) + QueryEvents(tables[n], q, Cursor(tables[..n], q)).events
  }

  // A caller reads on only while it is given a cursor.
  predicate Followed(tables: seq<Table>, q: Params) {
    if |tables| <= 1 then true
    else Cursor(tables[..|tables| - 1], q).Some? && Followed(tables[..|tables| - 1], q)
  }

  ghost predicate MatchedThroughout(tables: seq<Table>, q: Params, id: nat) {
    forall i :: 0 <= i < |tables| ==> id in tables[i] && Matches(q, tables[i][id])
  }

  lemma PageExact(t: Table, q: Params, cursor: Option<nat>)
    requires q.limit >= 1
    ensures var p := QueryEvents(t, q, cursor);
            && Ascending(p.events)
            && (forall id :: id in p.events ==> id in Hits(t, q, cursor))
            && (forall id :: id in Hits(t, q, cursor) && (p.nextCursor.Some? ==> id <= p.nextCursor.value) ==> id in p.events)
            && (p.nextCursor.Some? ==> p.nextCursor.value in p.events && After(cursor, p.nextCursor.value) && |p.events| == q.limit
                                       && forall id :: id in p.events ==> id <= p.nextCursor.value)
  {
    var hits := Hits(t, q, cursor);
    var events := FirstOf(hits, q.limit);
    FirstOfSorted(hits, q.limit);
    if events == [] || |events| < q.limit {
      AllTaken(hits, q.limit);
    } else {
      var last := events[|events| - 1];
      assert last in events;
      forall id | id in events ensures id <= last { var i :| 0 <= i < |events| && events[i] == id; }
    }
  }

  lemma {:induction false} AllTaken(ids: set<nat>, n: nat)
    requires |ids| < n
    ensures forall id :: id in ids ==> id in FirstOf(ids, n)
    decreases n
  {
    if ids != {} {
      AllTaken(ids - {Least(ids)}, n - 1);
    }
  }

  // Over a whole traversal of a table that changes between pages, ids come strictly
  // ascending, so none comes twice.
  lemma {:induction false} TraversalAscends(tables: seq<Table>, q: Params)
    requires q.limit >= 1 && tables != [] && Followed(tables, q)
    ensures Ascending(Returned(tables, q))
    ensures Cursor(tables, q).Some? ==> forall id :: id in Returned(tables, q) ==> id <= Cursor(tables, q).value
  {
    var n := |tables| - 1;
    var cursor := Cursor(tables[..n], q);
    PageExact(tables[n], q, cursor);
    if n > 0 {
      TraversalAscends(tables[..n], q);
      AscendingConcat(Returned(tables[..n], q), QueryEvents(tables[n], q, cursor).events, cursor.value);
    } else {
      assert Returned(tables, q) == QueryEvents(tables[0], q, None).events;
    }
  }

  // A row that matched at every page read so far and lies at or below the cursor has been returned.
  lemma {:induction false} TraversalMissesNothing(tables: seq<Table>, q: Params, id: nat)
    requires q.limit >= 1 && tables != [] && Followed(tables, q)
    requires MatchedThroughout(tables, q, id)
    requires Cursor(tables, q).Some? ==> id <= Cursor(tables, q).value
    ensures id in Returned(tables, q)
  {
    var n := |tables| - 1;
    var cursor := Cursor(tables[..n], q);
    PageExact(tables[n], q, cursor);
    if After(cursor, id) {
      assert id in Hits(tables[n], q, cursor);
    } else {
      assert MatchedThroughout(tables[..n], q, id);
      TraversalMissesNothing(tables[..n], q, id);
    }
  }

  lemma AscendingConcat(a: seq<nat>, b: seq<nat>, mid: nat)
    requires Ascending(a) && Ascending(b)
    requires (forall x :: x in a ==> x <= mid) && (forall x :: x in b ==> x > mid)
    ensures Ascending(a + b)
  {
    forall i, j | 0 <= i < j < |a + b| ensures (a + b)[i] < (a + b)[j] {
      if i < |a| <= j { assert a[i] in a && b[j - |a|] in b; }
    }
  }

  // A finished traversal has returned every row that was there and matched throughout, once.
  lemma FinishedTraversalComplete(tables: seq<Table>, q: Params, id: nat)
    requires q.limit >= 1 && tables != [] && Followed(tables, q) && Cursor(tables, q).None?
    requires MatchedThroughout(tables, q, id)
    ensures exists i :: 0 <= i < |Returned(tables, q)| && Returned(tables, q)[i] == id
                        && forall j :: 0 <= j < |Returned(tables, q)| && j != i ==> Returned(tables, q)[j] != id
  {
    TraversalAscends(tables, q);
    TraversalMissesNothing(tables, q, id);
  }

  lemma {:induction false} ReturnedHits(tables: seq<Table>, q: Params, t: Table)
    requires q.limit >= 1 && forall i :: 0 <= i < |tables| ==> tables[i] == t
    requires Followed(tables, q)
    ensures forall id :: id in Returned(tables, q) ==> id in Hits(t, q, None)
    ensures tables != [] ==> |Returned(tables, q)| >= (|tables| - 1) * q.limit
    ensures Cursor(tables, q).Some? ==> |Returned(tables, q)| >= |tables| * q.limit
  {
    if tables != [] {
      var n := |tables| - 1;
      ReturnedHits(tables[..n], q, t);
      PageExact(t, q, Cursor(tables[..n], q));
      assert (n + 1) * q.limit == n * q.limit + q.limit;
    }
  }

  function Below(ids: set<nat>, id: nat): set<nat> {
    set h | h in ids && h < id
  }

  lemma {:induction false} FirstOfIff(ids: set<nat>, n: nat, id: nat)
    ensures id in FirstOf(ids, n) <==> id in ids && |Below(ids, id)| < n
    decreases n
  {
    if n > 0 && ids != {} {
      var least := Least(ids);
      if id == least {
        assert Below(ids, id) == {};
      } else {
        FirstOfIff(ids - {least}, n - 1, id);
        if id in ids {
          assert Below(ids, id) == Below(ids - {least}, id) + {least};
        }
      }
    }
  }

  // At page `i` the row matches, lies above that page's cursor, and has fewer than a page of
  // such rows below it.
  ghost predicate FitsPage(tables: seq<Table>, q: Params, i: nat, id: nat)
    requires i < |tables|
  {
    var hits := Hits(tables[i], q, Cursor(tables[..i], q));
    id in hits && |Below(hits, id)| < q.limit
  }

  ghost predicate FitsSome(tables: seq<Table>, q: Params, id: nat) {
    exists i :: 0 <= i < |tables| && FitsPage(tables, q, i, id)
  }

  lemma FitsSnoc(tables: seq<Table>, q: Params, n: nat, id: nat)
    requires |tables| == n + 1
    ensures FitsSome(tables, q, id) <==> FitsSome(tables[..n], q, id) || FitsPage(tables, q, n, id)
  {
    forall i | 0 <= i < n ensures FitsPage(tables, q, i, id) <==> FitsPage(tables[..n], q, i, id) {
      assert tables[..n][..i] == tables[..i];
    }
    if FitsSome(tables[..n], q, id) {
      var i :| 0 <= i < n && FitsPage(tables[..n], q, i, id);
      assert FitsPage(tables, q, i, id);
    }
  }

  // Exactly which rows a traversal of a changing table returns, rows that appear late included.
  lemma {:induction false} ReturnedIff(tables: seq<Table>, q: Params, id: nat)
    ensures id in Returned(tables, q) <==> FitsSome(tables, q, id)
  {
    if tables != [] {
      var n := |tables| - 1;
      ReturnedIff(tables[..n], q, id);
      FirstOfIff(Hits(tables[n], q, Cursor(tables[..n], q)), q.limit, id);
      FitsSnoc(tables, q, n, id);
    }
  }

  // On a table that does not change, a finished traversal returns exactly the matching ids in
  // order, as many as the reported total, in no more pages than that total allows.
  lemma StaticTraversalExact(tables: seq<Table>, q: Params, t: Table)
    requires q.limit >= 1 && tables != [] && (forall i :: 0 <= i < |tables| ==> tables[i] == t)
    requires Followed(tables, q) && Cursor(tables, q).None?
    ensures var ids := Returned(tables, q);
            && Ascending(ids) && (forall id :: id in ids <==> id in Hits(t, q, None))
            && |ids| == QueryEvents(t, q, None).total
            && (|tables| - 1) * q.limit <= |ids|
  {
    var ids := Returned(tables, q);
    TraversalAscends(tables, q);
    ReturnedHits(tables, q, t);
    forall id | id in Hits(t, q, None) ensures id in ids {
      FinishedTraversalComplete(tables, q, id);
    }
    AscendingSize(ids, Hits(t, q, None));
  }

  lemma {:induction false} AscendingSize(s: seq<nat>, ids: set<nat>)
    requires Ascending(s) && forall id :: id in s <==> id in ids
    ensures |s| == |ids|
  {
    if s == [] {
      assert ids == {};
    } else {
      var n := |s| - 1;
      assert s == s[..n] + [s[n]];
      AscendingSize(s[..n], ids - {s[n]});
    }
  }
}
