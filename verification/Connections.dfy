/** User-provider connections: the table, the per-user cache, and the operations that keep them in step. */
module Connections {
  import opened Plans

  // The separators that normalisation strips (underscore, hyphen, white space), and
  // lower-casing, over ASCII.
  predicate Separator(c: char) {
    c == '_' || c == '-' || 9 <= c as int <= 13 || 28 <= c as int <= 32
  }

  function Lower(c: char): char {
    if 'A' <= c <= 'Z' then (c as int + 32) as char else c
  }

  function Normalize(name: string): (r: string) {
    if name == "" then ""
    else (if Separator(name[0]) then "" else [Lower(name[0])]) + Normalize(name[1..])
  }

  lemma LowerStays(c: char)
    ensures Lower(Lower(c)) == Lower(c) && (Separator(Lower(c)) <==> Separator(c))
  {}

  lemma {:induction false} NormalizeIdempotent(name: string)
    ensures Normalize(Normalize(name)) == Normalize(name)
  {
    if name != "" {
      NormalizeIdempotent(name[1..]);
      LowerStays(name[0]);
      var rest := Normalize(name[1..]);
      if Separator(name[0]) {
        assert Normalize(name) == [] + rest == rest;
      } else {
        var n := [Lower(name[0])] + rest;
        assert n[0] == Lower(name[0]) && n[1..] == rest;
      }
    }
  }

  // Normalising goes character by character: separators vanish, letters become lower case, and
  // everything else stays.
  lemma {:induction false} NormalizeConcat(a: string, b: string)
    ensures Normalize(a + b) == Normalize(a) + Normalize(b)
  {
    if a == "" {
      assert a + b == b;
    } else {
      NormalizeConcat(a[1..], b);
      assert (a + b)[1..] == a[1..] + b;
    }
  }

  lemma NormalizeChar(c: char)
    ensures c in ['_', '-', ' ', '\t', '\n', '\r'] || c as int in [11, 12, 28, 29, 30, 31] ==> Normalize([c]) == ""
    ensures 'A' <= c <= 'Z' ==> Normalize([c]) == [(c as int - 'A' as int + 'a' as int) as char]
    ensures c > ' ' && c != '_' && c != '-' && !('A' <= c <= 'Z') ==> Normalize([c]) == [c]
  {
    assert [c][1..] == "";
  }

  type Table = map<(string, string), bool>

  // The cache is absent when no Redis client was configured.
  datatype State = State(db: Table, cache: map<string, set<string>>)

  function Connected(db: Table, user: string): set<string> {
    set k | k in db && k.0 == user && db[k] :: k.1
  }

  ghost predicate Agree(s: State) {
    forall u :: u in s.cache ==> s.cache[u] == Connected(s.db, u)
  }

  // The remote names that survive normalisation.
  function Active(remote: seq<string>): set<string> {
    (set r | r in remote :: Normalize(r)) - {""}
  }

  function Synced(db: Table, user: string, active: set<string>): Table {
    map k | k in db.Keys + (set p | p in active :: (user, p)) :: if k.0 == user then k.1 in active else db[k]
  }

  // What the two loops of a sync do to the table.
  function Upserted(db: Table, user: string, active: set<string>): Table {
    map k | k in db.Keys + (set p | p in active :: (user, p)) :: if k.0 == user && k.1 in active then true else db[k]
  }

  function Deactivated(db: Table, user: string, gone: set<string>): Table {
    map k | k in db :: if k.0 == user && k.1 in gone then false else db[k]
  }

  // How a sync went: the remote list never came, it was worked through, or a table call raised
  // after these names had been stored and these providers marked inactive.
  datatype Remote = Unreachable | Listed(names: seq<string>) | CutShort(names: seq<string>, gone: set<string>)

  // One public operation.
  datatype Op =
    | Callback(user: string, provider: string, connected: bool)
    | Disconnect(user: string, provider: string)
    | MarkConnected(user: string, provider: string)
    | Sync(user: string, remote: Remote)
    | Warm(user: string, remote: Remote)
    | Expire(user: string)

  function Upsert(s: State, user: string, provider: string, connected: bool): State {
    State(s.db[(user, provider) := connected], s.cache - {user})
  }

  // A sync that raises has not come to invalidating the cache.
  function SyncAll(s: State, user: string, remote: Remote): State {
    match remote
    case Unreachable => s
    case Listed(names) => State(Synced(s.db, user, Active(names)), s.cache - {user})
    case CutShort(names, gone) => State(Deactivated(Upserted(s.db, user, Active(names)), user, gone), s.cache)
  }

  function Apply(s: State, op: Op): State {
    match op
    case Callback(u, p, c) => Upsert(s, u, p, c)
    case Disconnect(u, p) => Upsert(s, u, p, false)
    case MarkConnected(u, p) => Upsert(s, u, p, true)
    case Sync(u, remote) => SyncAll(s, u, remote)
    case Warm(u, remote) =>
      var t := SyncAll(s, u, remote);
      t.(cache := t.cache[u := Connected(t.db, u)])
    case Expire(u) => s.(cache := s.cache - {u})
  }

  // The second loop marks connected providers inactive that the remote side does not list.
  ghost predicate Sensible(s: State, op: Op) {
    (op.Sync? || op.Warm?) && op.remote.CutShort? ==>
      op.remote.gone <= Connected(s.db, op.user) && op.remote.gone !! Active(op.remote.names)
  }

  predicate UncachedCheck(s: State, user: string, provider: string) {
    Normalize(provider) in Connected(s.db, user)
  }

  predicate CachedCheck(s: State, user: string, provider: string) {
    if user in s.cache then Normalize(provider) in s.cache[user] else UncachedCheck(s, user, provider)
  }

  lemma UpsertedMore(db: Table, user: string, active: set<string>, name: string)
    ensures Upserted(db, user, active + {name}) == Upserted(db, user, active)[(user, name) := true]
  {
    var more, one := Upserted(db, user, active + {name}), Upserted(db, user, active)[(user, name) := true];
    assert name in active + {name};
    assert more.Keys == one.Keys;
  }

  // The providers a completed sync marks inactive.
  function Leaving(db: Table, user: string, active: set<string>): set<string> {
    Connected(db, user) - active
  }

  lemma SyncedInTwoLoops(db: Table, user: string, active: set<string>)
    ensures Deactivated(Upserted(db, user, active), user, Leaving(Upserted(db, user, active), user, active)) == Synced(db, user, active)
  {
    var up := Upserted(db, user, active);
    forall k | k in up && k.0 == user && k.1 !in active && up[k] ensures k.1 in Leaving(up, user, active) {
      assert k == (user, k.1);
    }
  }

  lemma LeavingBefore(db: Table, user: string, active: set<string>)
    ensures Leaving(Upserted(db, user, active), user, active) == Leaving(db, user, active)
  {
    var up := Upserted(db, user, active);
    forall p | p in Leaving(db, user, active) ensures p in Connected(up, user) {
      assert (user, p) in up && up[(user, p)];
    }
    forall p | p in Leaving(up, user, active) ensures p in Connected(db, user) {
      assert (user, p) in db && db[(user, p)];
    }
  }

  // The remote side lists this provider, under any spelling of its name.
  ghost predicate Lists(remote: seq<string>, p: string) {
    p != "" && exists i :: 0 <= i < |remote| && Normalize(remote[i]) == p
  }

  // After a whole sync the user's rows are true exactly for the listed providers, and no other row has changed.
  ghost predicate SyncedRows(before: Table, user: string, remote: seq<string>, after: Table) {
    && (forall k :: k in after <==> k in before || (k.0 == user && Lists(remote, k.1)))
    && (forall k :: k in after ==> after[k] == if k.0 == user then Lists(remote, k.1) else before[k])
  }

  // After one that raised, rows have changed only in that direction.
  ghost predicate PartlySynced(before: Table, user: string, remote: seq<string>, after: Table) {
    && (forall k :: k in before ==> k in after)
    && (forall k :: k in after && !(k in before && after[k] == before[k]) ==>
          k.0 == user && (after[k] <==> Lists(remote, k.1)))
  }

  lemma ActiveIsListed(remote: seq<string>)
    ensures forall p :: p in Active(remote) <==> Lists(remote, p)
  {
    forall p | Lists(remote, p) ensures p in Active(remote) {
      var i :| 0 <= i < |remote| && Normalize(remote[i]) == p;
      assert remote[i] in remote;
    }
  }

  lemma SyncedIsRows(db: Table, user: string, remote: seq<string>)
    ensures SyncedRows(db, user, remote, Synced(db, user, Active(remote)))
  {
    ActiveIsListed(remote);
    var after := Synced(db, user, Active(remote));
    forall k | k in db || (k.0 == user && Lists(remote, k.1)) ensures k in after {
      assert k == (k.0, k.1);
    }
  }

  lemma CutIsPartly(db: Table, user: string, remote: seq<string>, names: seq<string>, gone: set<string>)
    requires names <= remote && (gone != {} ==> names == remote) && gone !! Active(names)
    ensures PartlySynced(db, user, remote, Deactivated(Upserted(db, user, Active(names)), user, gone))
  {
    ActiveIsListed(names);
    forall p | Lists(names, p) ensures Lists(remote, p) {
      var i :| 0 <= i < |names| && Normalize(names[i]) == p;
      assert remote[i] == names[i];
    }
  }

  function Spent(budget: Option<nat>): Option<nat> {
    if budget.Some? && budget.value > 0 then Some(budget.value - 1) else budget
  }

  class IntegrationManager {
    var db: Table
    var cache: map<string, set<string>>

    constructor ()
      ensures Now() == State(map[], map[])
    {
      db, cache := map[], map[];
    }

    function Now(): State
      reads this
    {
      State(db, cache)
    }

    method UpsertConnection(user: string, provider: string, connected: bool)
      modifies this`db
      ensures db == old(db)[(user, provider) := connected]
    {
      db := db[(user, provider) := connected];
    }

    method HandleCallback(user: string, provider: string, connected: bool)
      modifies this
      ensures db == old(db)[(user, provider) := connected] && cache == old(cache) - {user}
      ensures Now() == Apply(old(Now()), Callback(user, provider, connected))
    {
      UpsertConnection(user, provider, connected);
      cache := cache - {user};
    }

    // The remote revocation is best effort and leaves no trace here.
    method DisconnectProvider(user: string, provider: string)
      modifies this
      ensures db == old(db)[(user, provider) := false] && cache == old(cache) - {user}
      ensures Now() == Apply(old(Now()), Disconnect(user, provider))
    {
      UpsertConnection(user, provider, false);
      cache := cache - {user};
    }

    method MarkConnected(user: string, provider: string)
      modifies this
      ensures db == old(db)[(user, provider) := true] && cache == old(cache) - {user}
      ensures Now() == Apply(old(Now()), Op.MarkConnected(user, provider))
    {
      UpsertConnection(user, provider, true);
      cache := cache - {user};
    }

    // `budget` is the number of table calls that succeed before one raises; none raises without it.
    method SyncConnections(user: string, remote: seq<string>, budget: Option<nat>) returns (completed: bool, ghost answer: Remote)
      modifies this
      ensures Now() == Apply(old(Now()), Sync(user, answer)) && Sensible(old(Now()), Sync(user, answer))
      ensures completed ==> cache == old(cache) - {user} && SyncedRows(old(db), user, remote, db)
      ensures !completed ==> cache == old(cache) && PartlySynced(old(db), user, remote, db)
      ensures completed <==> answer == Listed(remote)
      ensures !completed ==> answer.CutShort? && answer.names <= remote && (answer.gone != {} ==> answer.names == remote)
      ensures budget.None? ==> completed
    {
      var active, stored, left := StoreListed(user, remote, budget);
      assert Deactivated(db, user, {}) == db;
      if stored < |remote| {
        CutIsPartly(old(db), user, remote, remote[..stored], {});
        return false, CutShort(remote[..stored], {});
      }
      assert remote[..|remote|] == remote;
      if left == Some(0) {
        CutIsPartly(old(db), user, remote, remote, {});
        return false, CutShort(remote, {});
      }
      LeavingBefore(old(db), user, active);
      ghost var gone;
      completed, gone := MarkInactive(user, active, Spent(left));
      if !completed {
        CutIsPartly(old(db), user, remote, remote, gone);
        return false, CutShort(remote, gone);
      }
      SyncedInTwoLoops(old(db), user, active);
      SyncedIsRows(old(db), user, remote);
      cache := cache - {user};
      return true, Listed(remote);
    }

    // The first loop of the sync. It ends early when a table call raises.
    method StoreListed(user: string, remote: seq<string>, budget: Option<nat>)
      returns (active: set<string>, stored: nat, left: Option<nat>)
      modifies this`db
      ensures stored <= |remote| && db == Upserted(old(db), user, Active(remote[..stored]))
      ensures stored == |remote| ==> active == Active(remote)
      ensures budget.None? ==> stored == |remote| && left.None?
    {
      active, stored, left := {}, 0, budget;
      assert Upserted(db, user, {}) == db;
      while stored < |remote|
        invariant stored <= |remote| && active == Active(remote[..stored])
        invariant db == Upserted(old(db), user, active)
        invariant budget.None? ==> left.None?
      {
        var name := Normalize(remote[stored]);
        assert remote[..stored + 1] == remote[..stored] + [remote[stored]];
        if name != "" {
          if left == Some(0) {
            return;
          }
          UpsertedMore(old(db), user, active, name);
          active := active + {name};
          UpsertConnection(user, name, true);
          left := Spent(left);
        }
        stored := stored + 1;
      }
      assert remote[..|remote|] == remote;
    }

    // The second loop of the sync: connected providers the remote side no longer lists.
    method MarkInactive(user: string, active: set<string>, budget: Option<nat>) returns (completed: bool, ghost gone: set<string>)
      modifies this`db
      ensures db == Deactivated(old(db), user, gone) && gone <= Leaving(old(db), user, active)
      ensures completed ==> gone == Leaving(old(db), user, active)
      ensures budget.None? ==> completed
    {
      var waiting := set k | k in db && k.0 == user && db[k] && k.1 !in active :: k.1;
      assert waiting == Leaving(db, user, active);
      var left := budget;
      gone := {};
      ghost var all := waiting;
      while waiting != {}
        invariant waiting + gone == all && waiting !! gone
        invariant db == Deactivated(old(db), user, gone)
        invariant budget.None? ==> left.None?
        decreases waiting
      {
        if left == Some(0) {
          return false, gone;
        }
        var p :| p in waiting;
        assert (user, p) in db;
        UpsertConnection(user, p, false);
        left := Spent(left);
        waiting, gone := waiting - {p}, gone + {p};
      }
      return true, gone;
    }

    method WarmConnectionCache(user: string, remote: Option<seq<string>>, budget: Option<nat>) returns (ghost answer: Remote)
      modifies this
      ensures Now() == Apply(old(Now()), Warm(user, answer)) && Sensible(old(Now()), Warm(user, answer))
      ensures user in cache && (forall p :: p in cache[user] <==> (user, p) in db && db[(user, p)])
      ensures cache - {user} == old(cache) - {user}
      ensures remote.None? ==> db == old(db)
      ensures remote.Some? ==> SyncedRows(old(db), user, remote.value, db) || PartlySynced(old(db), user, remote.value, db)
      ensures remote.Some? && budget.None? ==> SyncedRows(old(db), user, remote.value, db)
      ensures remote.None? <==> answer.Unreachable?
      ensures remote.Some? && budget.None? ==> answer == Listed(remote.value)
    {
      answer := Unreachable;
      if remote.Some? {
        var completed;
        completed, answer := SyncConnections(user, remote.value, budget);
      }
      var providers := ReadConnected(user);
      cache := cache[user := providers];
    }

    method ReadConnected(user: string) returns (providers: set<string>)
      ensures providers == Connected(db, user) && forall p :: p in providers <==> (user, p) in db && db[(user, p)]
    {
      providers := set k | k in db && k.0 == user && db[k] :: k.1;
    }

    method IsUserConnected(user: string, provider: string) returns (r: bool)
      ensures r <==> (user, Normalize(provider)) in db && db[(user, Normalize(provider))]
      ensures r <==> UncachedCheck(Now(), user, provider)
    {
      var key := (user, Normalize(provider));
      r := key in db && db[key];
      assert r ==> key.1 in Connected(db, user);
    }

    method IsUserConnectedCached(user: string, provider: string) returns (r: bool)
      ensures user in cache ==> (r <==> Normalize(provider) in cache[user])
      ensures user !in cache ==> (r <==> (user, Normalize(provider)) in db && db[(user, Normalize(provider))])
      ensures r <==> CachedCheck(Now(), user, provider)
    {
      if user in cache {
        return Normalize(provider) in cache[user];
      }
      r := IsUserConnected(user, provider);
    }
  }

  function ApplyAll(ops: seq<Op>): State {
    if ops == [] then State(map[], map[]) else Apply(ApplyAll(ops[..|ops| - 1]), ops[|ops| - 1])
  }

  lemma OtherUsersKept(s: State, op: Op, v: string)
    requires op.user != v
    ensures Connected(Apply(s, op).db, v) == Connected(s.db, v)
  {
    var after := Apply(s, op).db;
    forall p ensures (v, p) in after && after[(v, p)] <==> (v, p) in s.db && s.db[(v, p)] {}
    forall p | p in Connected(after, v) ensures p in Connected(s.db, v) { assert (v, p) in s.db && s.db[(v, p)]; }
    forall p | p in Connected(s.db, v) ensures p in Connected(after, v) { assert (v, p) in after && after[(v, p)]; }
  }

  // The one operation that may break agreement is a sync that raises half-way beside a cache
  // entry. It does so unless it had not changed anything yet.
  ghost predicate Quiet(s: State, op: Op) {
    op.Sync? && op.remote.CutShort? ==>
      op.user !in s.cache || (Active(op.remote.names) <= Connected(s.db, op.user) && op.remote.gone == {})
  }

  lemma CutConnected(db: Table, user: string, active: set<string>, gone: set<string>)
    ensures Connected(Deactivated(Upserted(db, user, active), user, gone), user) == (Connected(db, user) + active) - gone
  {
    var after := Deactivated(Upserted(db, user, active), user, gone);
    forall p | p in (Connected(db, user) + active) - gone ensures p in Connected(after, user) {
      assert (user, p) in after && after[(user, p)];
    }
    forall p | p in Connected(after, user) ensures p in (Connected(db, user) + active) - gone {
      assert (user, p) in after && after[(user, p)];
    }
  }

  // Any other operation keeps agreement, and this one keeps it exactly when it is quiet.
  lemma AgreementNextIff(s: State, op: Op)
    requires Agree(s) && Sensible(s, op)
    ensures Agree(Apply(s, op)) <==> Quiet(s, op)
  {
    var after := Apply(s, op);
    forall v | v in after.cache && v != op.user ensures after.cache[v] == Connected(after.db, v) {
      OtherUsersKept(s, op, v);
    }
    if op.Sync? && op.remote.CutShort? {
      CutConnected(s.db, op.user, Active(op.remote.names), op.remote.gone);
    }
  }

  ghost predicate AllSensible(ops: seq<Op>) {
    ops == [] || (AllSensible(ops[..|ops| - 1]) && Sensible(ApplyAll(ops[..|ops| - 1]), ops[|ops| - 1]))
  }

  ghost predicate AllQuiet(ops: seq<Op>) {
    ops == [] || (AllQuiet(ops[..|ops| - 1]) && Quiet(ApplyAll(ops[..|ops| - 1]), ops[|ops| - 1]))
  }

  // After all the operations and after every shorter sequence of them.
  ghost predicate AgreeThroughout(ops: seq<Op>) {
    Agree(ApplyAll(ops)) && (ops == [] || AgreeThroughout(ops[..|ops| - 1]))
  }

  lemma {:induction false} AgreementAlways(ops: seq<Op>)
    requires AllSensible(ops)
    ensures AgreeThroughout(ops) <==> AllQuiet(ops)
  {
    if ops != [] {
      var n := |ops| - 1;
      AgreementAlways(ops[..n]);
      if AgreeThroughout(ops[..n]) {
        AgreesNow(ops[..n]);
        AgreementNextIff(ApplyAll(ops[..n]), ops[n]);
      }
    }
  }

  lemma AgreesNow(ops: seq<Op>)
    requires AgreeThroughout(ops)
    ensures Agree(ApplyAll(ops))
  {}

  // Once the cache entry has expired both checks read the table, whatever was cached.
  lemma ExpiryHeals(s: State, user: string, provider: string)
    ensures var after := Apply(s, Expire(user));
            && after.db == s.db && after.cache - {user} == s.cache - {user}
            && (CachedCheck(after, user, provider) <==> UncachedCheck(s, user, provider))
  {}

  // After a sync the connected providers are exactly the usable remote names.
  lemma SyncIsExact(s: State, user: string, remote: seq<string>)
    ensures Connected(Apply(s, Sync(user, Listed(remote))).db, user) == Active(remote)
  {
    var active := Active(remote);
    var after := Synced(s.db, user, active);
    forall p | p in active ensures p in Connected(after, user) {
      assert (user, p) in after && after[(user, p)];
    }
  }

  // Over every such sequence of operations the two checks give the same answer.
  lemma ChecksAgree(ops: seq<Op>, user: string, provider: string)
    requires AllSensible(ops) && AllQuiet(ops)
    ensures CachedCheck(ApplyAll(ops), user, provider) <==> UncachedCheck(ApplyAll(ops), user, provider)
  {
    AgreementAlways(ops);
  }

  // Operations that overlap can break it. A warm-up that read the table before another operation
  // and writes the cache after it leaves agreement exactly when the user's connections are the same.
  lemma OverlappedWarmIff(s: State, user: string, op: Op)
    requires Agree(s) && Sensible(s, op) && Quiet(s, op)
    ensures var snapshot := Connected(s.db, user);
            var after := Apply(s, op);
            Agree(after.(cache := after.cache[user := snapshot])) <==> Connected(after.db, user) == snapshot
  {
    AgreementNextIff(s, op);
    var after := Apply(s, op);
    var late := after.(cache := after.cache[user := Connected(s.db, user)]);
    assert user in late.cache && late.cache[user] == Connected(s.db, user);
    forall v | v in late.cache && v != user ensures late.cache[v] == Connected(late.db, v) {
      assert v in after.cache;
    }
  }

  // For instance: a warm-up that read the table before a disconnect and
  // writes the cache after it leaves a stale entry.
  lemma OverlappedWarmIsStale(s: State, user: string, provider: string)
    requires provider in Connected(s.db, user)
    ensures var snapshot := Connected(s.db, user);
            var after := Apply(s, Disconnect(user, provider));
            !Agree(after.(cache := after.cache[user := snapshot]))
  {
    var snapshot := Connected(s.db, user);
    var after := Apply(s, Disconnect(user, provider));
    var stale := after.(cache := after.cache[user := snapshot]);
    assert provider !in Connected(after.db, user);
    assert user in stale.cache && stale.cache[user] != Connected(stale.db, user);
  }

  lemma UpsertConnected(s: State, user: string, provider: string, connected: bool)
    ensures Connected(Upsert(s, user, provider, connected).db, user) ==
            if connected then Connected(s.db, user) + {provider} else Connected(s.db, user) - {provider}
  {
    var after := Upsert(s, user, provider, connected).db;
    forall p | p in Connected(s.db, user) && p != provider ensures p in Connected(after, user) {
      assert (user, p) in after && after[(user, p)];
    }
    if connected { assert (user, provider) in after && after[(user, provider)]; }
  }

  // The write side stores the name as given, the read side asks for its normal form: marking
  // a provider connected is visible to the check exactly when the name is already normal, or
  // its normal form was connected before.
  lemma MarkVisibleIff(s: State, user: string, provider: string)
    ensures UncachedCheck(Apply(s, MarkConnected(user, provider)), user, provider) <==>
            Normalize(provider) == provider || UncachedCheck(s, user, provider)
  {
    UpsertConnected(s, user, provider, true);
  }

  // Likewise a disconnect leaves the check answering yes exactly when the name is not normal
  // and its normal form was connected.
  lemma DisconnectIneffectiveIff(s: State, user: string, provider: string)
    ensures UncachedCheck(Apply(s, Disconnect(user, provider)), user, provider) <==>
            Normalize(provider) != provider && UncachedCheck(s, user, provider)
  {
    UpsertConnected(s, user, provider, false);
  }

  // A sync repairs it: only normal names stay connected.
  lemma SyncedNamesAreNormal(s: State, user: string, remote: seq<string>)
    ensures forall p :: p in Connected(Apply(s, Sync(user, Listed(remote))).db, user) ==> Normalize(p) == p
  {
    SyncIsExact(s, user, remote);
    forall p | p in Active(remote) ensures Normalize(p) == p {
      var r :| r in remote && Normalize(r) == p;
      NormalizeIdempotent(r);
    }
  }
}
