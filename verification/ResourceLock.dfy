/** The lease lock over SET NX EX, GET and DEL, for any number of tasks in any number of processes. */
module ResourceLock {
  import opened Plans

  const LOCK_TTL: real := 30.0
  const POLL_INTERVAL: real := 0.5

  // A fresh random value per acquisition, prefixed by the adapter that made it.
  datatype Owner = Owner(adapter: nat, nonce: nat)
  datatype Entry = Entry(value: Owner, expiry: real)

  type Store = map<string, Entry>

  predicate Live(store: Store, key: string, now: real) {
    key in store && now < store[key].expiry
  }

  function SetNx(store: Store, key: string, value: Owner, now: real): (Store, bool) {
    if Live(store, key, now) then (store, false) else (store[key := Entry(value, now + LOCK_TTL)], true)
  }

  function Get(store: Store, key: string, now: real): Option<Owner> {
    if Live(store, key, now) then Some(store[key].value) else None
  }

  class Redis {
    var store: Store

    constructor ()
      ensures store == map[]
    {
      store := map[];
    }

    method Set(key: string, value: Owner, now: real) returns (ok: bool)
      modifies this
      ensures ok <==> !(key in old(store) && now < old(store)[key].expiry)
      ensures store == if ok then old(store)[key := Entry(value, now + 30.0)] else old(store)
    {
      ok := !(key in store && now < store[key].expiry);
      if ok {
        store := store[key := Entry(value, now + LOCK_TTL)];
      }
    }

    method Delete(key: string)
      modifies this
      ensures store == old(store) - {key}
    {
      store := store - {key};
    }
  }

  // One adapter per process; its dictionary of held locks is shared by that process's tasks.
  class ResourceLockAdapter {
    const redis: Redis
    const id: nat
    var heldLocks: map<string, Owner>

    constructor (redis: Redis, id: nat)
      ensures this.redis == redis && this.id == id && heldLocks == map[]
    {
      this.redis, this.id := redis, id;
      heldLocks := map[];
    }

    // One round of the polling loop.
    method TryAcquire(key: string, value: Owner, now: real) returns (ok: bool)
      modifies this, redis
      ensures ok <==> !(key in old(redis.store) && now < old(redis.store)[key].expiry)
      ensures redis.store == if ok then old(redis.store)[key := Entry(value, now + LOCK_TTL)] else old(redis.store)
      ensures heldLocks == if ok then old(heldLocks)[key := value] else old(heldLocks)
    {
      ok := redis.Set(key, value, now);
      if ok {
        heldLocks := heldLocks[key := value];
      }
    }

    // The polling loop. Round `i` happens at `clock(i)`; while it sleeps, other tasks change the
    // store and, within this process, the dictionary as they like. `replies` are the answers to SET NX.
    method Acquire(key: string, value: Owner, timeout: nat, clock: nat -> real) returns (acquired: bool, ghost replies: seq<bool>)
      modifies this, redis
      ensures |replies| <= 2 * timeout && forall i :: 0 <= i < |replies| - 1 ==> !replies[i]
      ensures acquired ==> |replies| >= 1 && replies[|replies| - 1]
                           && key in redis.store && redis.store[key] == Entry(value, clock(|replies| - 1) + LOCK_TTL)
                           && key in heldLocks && heldLocks[key] == value
      ensures !acquired ==> |replies| == 2 * timeout && forall i :: 0 <= i < |replies| ==> !replies[i]
    {
      var elapsed, round := 0.0, 0;
      replies := [];
      while elapsed < timeout as real
        invariant round == |replies| <= 2 * timeout && elapsed == round as real * POLL_INTERVAL
        invariant forall i :: 0 <= i < |replies| ==> !replies[i]
        decreases 2 * timeout - round
      {
        var ok := TryAcquire(key, value, clock(round));
        replies := replies + [ok];
        if ok {
          return true, replies;
        }
        redis.store := *;
        heldLocks := *;
        elapsed, round := elapsed + POLL_INTERVAL, round + 1;
      }
      return false, replies;
    }

    // The part of release before its first await.
    method PopHeld(key: string) returns (value: Option<Owner>)
      modifies this
      ensures value == if key in old(heldLocks) then Some(old(heldLocks)[key]) else None
      ensures heldLocks == old(heldLocks) - {key}
    {
      value := if key in heldLocks then Some(heldLocks[key]) else None;
      heldLocks := heldLocks - {key};
    }

    // The whole of release when nothing runs in between.
    method Release(key: string, now: real)
      modifies this, redis
      ensures heldLocks == old(heldLocks) - {key}
      ensures redis.store == if key in old(heldLocks) && key in old(redis.store) && now < old(redis.store)[key].expiry
                                && old(redis.store)[key].value == old(heldLocks)[key]
                             then old(redis.store) - {key} else old(redis.store)
    {
      var value := PopHeld(key);
      if value.Some? && key in redis.store && now < redis.store[key].expiry && redis.store[key].value == value.value {
        redis.Delete(key);
      }
    }
  }

  // ---- every interleaving -------------------------------------------------

  datatype Phase =
    | Waiting(key: string, owner: Owner)                // polling SET NX
    | Holding(key: string, owner: Owner, since: real)   // SET succeeded
    | Popped(key: string, owner: Owner, since: real)    // release: value taken from the dictionary
    | Matched(key: string, owner: Owner, since: real)   // release: GET returned our value, DEL still to come

  type Held = map<(nat, string), Owner>

  // `foreign` counts the DELs that removed a live value of somebody else.
  datatype System = System(now: real, store: Store, held: Held, tasks: map<nat, Phase>, used: set<Owner>, foreign: nat)

  datatype Event =
    | Tick(to: real)
    | Begin(task: nat, key: string, owner: Owner)
    | TrySet(task: nat)
    | GiveUp(task: nat)
    | Pop(task: nat)
    | DoGet(task: nat)
    | DoDel(task: nat)

  predicate HasLock(p: Phase) {
    !p.Waiting?
  }

  // The assumption on the environment: nobody still holding or releasing lets its lease run out.
  ghost predicate Timely(sys: System, to: real) {
    forall t :: t in sys.tasks && HasLock(sys.tasks[t]) ==> to < sys.tasks[t].since + LOCK_TTL
  }

  predicate Enabled(sys: System, e: Event) {
    match e
    case Tick(to) => sys.now <= to
    case Begin(t, _, owner) => t !in sys.tasks && owner !in sys.used
    case TrySet(t) => t in sys.tasks && sys.tasks[t].Waiting?
    case GiveUp(t) => t in sys.tasks && sys.tasks[t].Waiting?
    case Pop(t) => t in sys.tasks && sys.tasks[t].Holding?
    case DoGet(t) => t in sys.tasks && sys.tasks[t].Popped?
    case DoDel(t) => t in sys.tasks && sys.tasks[t].Matched?
  }

  function Next(sys: System, e: Event): System
    requires Enabled(sys, e)
  {
    match e
    case Tick(to) => sys.(now := to)
    case Begin(t, key, owner) => sys.(tasks := sys.tasks[t := Waiting(key, owner)], used := sys.used + {owner})
    case TrySet(t) =>
      var p := sys.tasks[t];
      var (store, ok) := SetNx(sys.store, p.key, p.owner, sys.now);
      if ok then
        sys.(store := store, held := sys.held[(p.owner.adapter, p.key) := p.owner],
             tasks := sys.tasks[t := Holding(p.key, p.owner, sys.now)])
      else sys
    case GiveUp(t) => sys.(tasks := sys.tasks - {t})
    case Pop(t) =>
      var p := sys.tasks[t];
      var slot := (p.owner.adapter, p.key);
      if slot in sys.held then
        sys.(held := sys.held - {slot}, tasks := sys.tasks[t := Popped(p.key, sys.held[slot], p.since)])
      else sys.(tasks := sys.tasks - {t})
    case DoGet(t) =>
      var p := sys.tasks[t];
      if Get(sys.store, p.key, sys.now) == Some(p.owner) then sys.(tasks := sys.tasks[t := Matched(p.key, p.owner, p.since)])
      else sys.(tasks := sys.tasks - {t})
    case DoDel(t) =>
      var p := sys.tasks[t];
      var current := Get(sys.store, p.key, sys.now);
      sys.(store := sys.store - {p.key}, tasks := sys.tasks - {t},
           foreign := sys.foreign + (if current.Some? && current.value != p.owner then 1 else 0))
  }

  const INIT := System(0.0, map[], map[], map[], {}, 0)

  // A run; `timely` asks that every clock step respect the assumption.
  ghost function Play(timely: bool, events: seq<Event>): Option<System> {
    if events == [] then Some(INIT)
    else
      var n := |events| - 1;
      var before := Play(timely, events[..n]);
      if before.Some? && Enabled(before.value, events[n])
         && (timely && events[n].Tick? ==> Timely(before.value, events[n].to))
      then Some(Next(before.value, events[n])) else None
  }

  ghost predicate MutualExclusion(sys: System) {
    forall t, u :: t in sys.tasks && u in sys.tasks && t != u && HasLock(sys.tasks[t]) && HasLock(sys.tasks[u])
                   ==> sys.tasks[t].key != sys.tasks[u].key
  }

  // Whoever has the lock is the one the store names, with the lease still running.
  ghost predicate OwnsEntry(sys: System, p: Phase)
    requires HasLock(p)
  {
    && p.key in sys.store && sys.store[p.key] == Entry(p.owner, p.since + LOCK_TTL)
    && sys.now < p.since + LOCK_TTL
    && (p.Holding? ==> (p.owner.adapter, p.key) in sys.held && sys.held[(p.owner.adapter, p.key)] == p.owner)
  }

  ghost predicate Inv(sys: System) {
    && (forall t :: t in sys.tasks ==> sys.tasks[t].owner in sys.used)
    && (forall t, u :: t in sys.tasks && u in sys.tasks && t != u ==> sys.tasks[t].owner != sys.tasks[u].owner)
    && (forall t :: t in sys.tasks && HasLock(sys.tasks[t]) ==> OwnsEntry(sys, sys.tasks[t]))
    && sys.foreign == 0
  }

  lemma InvNext(sys: System, e: Event)
    requires Inv(sys) && Enabled(sys, e) && (e.Tick? ==> Timely(sys, e.to))
    ensures Inv(Next(sys, e))
  {
    var after := Next(sys, e);
    if !e.Tick? && e.task in sys.tasks && HasLock(sys.tasks[e.task]) {
      assert OwnsEntry(sys, sys.tasks[e.task]);
    }
    forall t | t in after.tasks && HasLock(after.tasks[t]) ensures OwnsEntry(after, after.tasks[t]) {
      if t in sys.tasks && HasLock(sys.tasks[t]) {
        assert OwnsEntry(sys, sys.tasks[t]);
      }
    }
  }

  lemma InvExcludes(sys: System)
    requires Inv(sys)
    ensures MutualExclusion(sys)
  {
    forall t, u | t in sys.tasks && u in sys.tasks && t != u && HasLock(sys.tasks[t]) && HasLock(sys.tasks[u])
      ensures sys.tasks[t].key != sys.tasks[u].key
    {
      assert OwnsEntry(sys, sys.tasks[t]) && OwnsEntry(sys, sys.tasks[u]);
    }
  }

  lemma {:induction false} TimelyInv(events: seq<Event>)
    requires Play(true, events).Some?
    ensures Inv(Play(true, events).value)
  {
    if events != [] {
      var n := |events| - 1;
      TimelyInv(events[..n]);
      InvNext(Play(true, events[..n]).value, events[n]);
    }
  }

  lemma TimelyRunsAreSafe(events: seq<Event>)
    requires Play(true, events).Some?
    ensures MutualExclusion(Play(true, events).value) && Play(true, events).value.foreign == 0
  {
    TimelyInv(events);
    InvExcludes(Play(true, events).value);
  }

  // Under the assumption a release is never skipped: the popped value is the holder's own,
  // GET confirms it, and DEL frees the holder's own entry.
  lemma TimelyReleaseIsOwn(events: seq<Event>, t: nat)
    requires Play(true, events).Some? && t in Play(true, events).value.tasks
    ensures var sys := Play(true, events).value;
            var p := sys.tasks[t];
            && (p.Holding? ==> Next(sys, Pop(t)).tasks == sys.tasks[t := Popped(p.key, p.owner, p.since)]
                               && Next(sys, Pop(t)).held == sys.held - {(p.owner.adapter, p.key)})
            && (p.Popped? ==> Next(sys, DoGet(t)).tasks == sys.tasks[t := Matched(p.key, p.owner, p.since)])
            && (p.Matched? ==> Live(sys.store, p.key, sys.now) && sys.store[p.key].value == p.owner
                               && Next(sys, DoDel(t)).store == sys.store - {p.key})
  {
    TimelyInv(events);
    var sys := Play(true, events).value;
    if HasLock(sys.tasks[t]) {
      assert OwnsEntry(sys, sys.tasks[t]);
    }
  }

  // In any state at all, a task that waits takes the lock exactly if no live value is stored,
  // and otherwise changes nothing; one that gives up leaves everything else as it is.
  lemma WaitersAreHarmless(sys: System, t: nat)
    requires t in sys.tasks && sys.tasks[t].Waiting?
    ensures var p := sys.tasks[t];
            var after := Next(sys, TrySet(t));
            if p.key in sys.store && sys.now < sys.store[p.key].expiry then after == sys
            else after.tasks[t] == Holding(p.key, p.owner, sys.now)
                 && after.store == sys.store[p.key := Entry(p.owner, sys.now + LOCK_TTL)]
                 && after.held == sys.held[(p.owner.adapter, p.key) := p.owner]
    ensures Next(sys, GiveUp(t)) == sys.(tasks := sys.tasks - {t})
  {}

  // Another task asks for the same key once the clock has reached `to`.
  function AskAt(sys: System, to: real, u: nat, key: string, owner: Owner): System
    requires sys.now <= to && u !in sys.tasks && owner !in sys.used
  {
    var asked := Next(Next(sys, Tick(to)), Begin(u, key, owner));
    Next(asked, TrySet(u))
  }

  // The lease is the exact boundary. From any state of a timely run, for any task that has a
  // lock and any other that asks for it: exclusion survives if and only if the lease has not run
  // out, and a release that has already compared the value then deletes the other's lock.
  lemma LeaseBoundaryExact(events: seq<Event>, t: nat, u: nat, owner: Owner, to: real)
    requires Play(true, events).Some? && t in Play(true, events).value.tasks && HasLock(Play(true, events).value.tasks[t])
    requires Play(true, events).value.now <= to && u !in Play(true, events).value.tasks
    requires owner !in Play(true, events).value.used
    ensures var sys := Play(true, events).value;
            var p := sys.tasks[t];
            var after := AskAt(sys, to, u, p.key, owner);
            && (MutualExclusion(after) <==> to < p.since + LOCK_TTL)
            && (p.Matched? ==> (Next(after, DoDel(t)).foreign > 0 <==> to >= p.since + LOCK_TTL))
  {
    TimelyInv(events);
    var sys := Play(true, events).value;
    var p := sys.tasks[t];
    var after := AskAt(sys, to, u, p.key, owner);
    InvExcludes(sys);
    assert OwnsEntry(sys, p);
    assert after.tasks[t] == p;
    assert HasLock(after.tasks[u]) <==> to >= p.since + LOCK_TTL;
    assert p.owner != owner;
    forall v | v in after.tasks && v != u ensures v in sys.tasks && after.tasks[v] == sys.tasks[v] {}
  }

  // A release that compares the value only then goes on if and only if the lease has not run out,
  // whether or not somebody else has asked for the key by then.
  lemma LateComparisonStops(events: seq<Event>, t: nat, u: nat, owner: Owner, to: real)
    requires Play(true, events).Some? && t in Play(true, events).value.tasks && Play(true, events).value.tasks[t].Popped?
    requires Play(true, events).value.now <= to && u !in Play(true, events).value.tasks
    requires owner !in Play(true, events).value.used
    ensures var sys := Play(true, events).value;
            var p := sys.tasks[t];
            var after := AskAt(sys, to, u, p.key, owner);
            && (t in Next(after, DoGet(t)).tasks <==> to < p.since + LOCK_TTL)
            && (t in Next(Next(sys, Tick(to)), DoGet(t)).tasks <==> to < p.since + LOCK_TTL)
  {
    TimelyInv(events);
    var sys := Play(true, events).value;
    assert OwnsEntry(sys, sys.tasks[t]);
    assert AskAt(sys, to, u, sys.tasks[t].key, owner).tasks[t] == sys.tasks[t];
  }

  lemma PlaySnoc(timely: bool, events: seq<Event>, e: Event)
    requires Play(timely, events).Some? && Enabled(Play(timely, events).value, e)
    requires timely && e.Tick? ==> Timely(Play(timely, events).value, e.to)
    ensures Play(timely, events + [e]) == Some(Next(Play(timely, events).value, e))
  {
    assert (events + [e])[..|events|] == events;
  }

  lemma PlayPair(events: seq<Event>, e: Event, f: Event)
    requires Play(false, events).Some? && Enabled(Play(false, events).value, e)
    requires Enabled(Next(Play(false, events).value, e), f)
    ensures Play(false, events + [e, f]) == Some(Next(Next(Play(false, events).value, e), f))
  {
    PlaySnoc(false, events, e);
    PlaySnoc(false, events + [e], f);
    assert events + [e] + [f] == events + [e, f];
  }

  // Without the assumption both halves fail: a holder that sleeps between GET and DEL
  // past its lease overlaps with the next holder and then deletes that holder's lock.
  lemma LateReleaseBreaksLock() returns (overlap: seq<Event>, theft: seq<Event>)
    ensures Play(false, overlap).Some? && !MutualExclusion(Play(false, overlap).value)
    ensures Play(false, theft).Some? && Play(false, theft).value.foreign == 1
  {
    var a, b := Owner(0, 0), Owner(1, 1);
    var events := [];
    PlayPair(events, Begin(0, "k", a), TrySet(0));
    events := events + [Begin(0, "k", a), TrySet(0)];
    PlayPair(events, Pop(0), DoGet(0));
    events := events + [Pop(0), DoGet(0)];
    PlayPair(events, Tick(30.0), Begin(1, "k", b));
    events := events + [Tick(30.0), Begin(1, "k", b)];
    PlaySnoc(false, events, TrySet(1));
    overlap := events + [TrySet(1)];
    var sys := Play(false, overlap).value;
    assert 0 in sys.tasks && 1 in sys.tasks && sys.tasks[0].key == sys.tasks[1].key == "k";
    PlaySnoc(false, overlap, DoDel(0));
    theft := overlap + [DoDel(0)];
  }
}
