/** Approval tokens: issue, idempotent re-approval, and single use under concurrent validation. */
module ApprovalTokens {
  import opened Plans

  // A signed token is a record that only the issuer can make; `exp` is in whole seconds.
  datatype Token = Token(id: nat, plan: string, gate: string, iat: int, exp: int)

  function Issue(id: nat, plan: string, gate: string, now: real, ttl: nat): Token {
    Token(id, plan, gate, now.Floor, (now + ttl as real).Floor)
  }

  // Processing must happen before the expiration time, section 4.1.4 of RFC 7519.
  predicate Unexpired(t: Token, now: real) {
    now < t.exp as real
  }

  datatype Gate = Gate(token: Token, expiry: real)
  type Gates = map<(string, string), Gate>
  type Consumed = map<nat, real>

  predicate GateLive(gates: Gates, key: (string, string), now: real) {
    key in gates && now < gates[key].expiry
  }

  predicate IsConsumed(consumed: Consumed, id: nat, now: real) {
    id in consumed && now < consumed[id]
  }

  // SET EX of a gate record, and SET NX EX of a consumed marker.
  function WithGate(gates: Gates, token: Token, ttl: nat, now: real): Gates {
    gates[(token.plan, token.gate) := Gate(token, now + ttl as real)]
  }

  function WithMarker(consumed: Consumed, id: nat, ttl: nat, now: real): (Consumed, bool) {
    if IsConsumed(consumed, id, now) then (consumed, false) else (consumed[id := now + ttl as real], true)
  }

  datatype Verdict = Accepted | Expired | Invalid | PlanMismatch | GateMismatch | AlreadyUsed

  // The checks before the first await of validate_token.
  function Screen(issued: set<Token>, t: Token, plan: string, gate: Option<string>, now: real): Verdict {
    if t !in issued then Invalid
    else if !Unexpired(t, now) then Expired
    else if t.plan != plan then PlanMismatch
    else if gate.Some? && t.gate != gate.value then GateMismatch
    else Accepted
  }

  // Issued, not expired, for this plan, and for this gate if one is asked for.
  ghost predicate PassesFor(issued: set<Token>, t: Token, plan: string, gate: Option<string>, now: real) {
    t in issued && now < t.exp as real && t.plan == plan && (gate.Some? ==> t.gate == gate.value)
  }

  class GateStore {
    var gates: Gates
    var consumed: Consumed

    constructor ()
      ensures gates == map[] && consumed == map[]
    {
      gates, consumed := map[], map[];
    }

    method StoreGate(plan: string, gate: string, token: Token, ttl: nat, now: real)
      requires token.plan == plan && token.gate == gate
      modifies this
      ensures gates == old(gates)[(plan, gate) := Gate(token, now + ttl as real)] && consumed == old(consumed)
    {
      gates := gates[(plan, gate) := Gate(token, now + ttl as real)];
    }

    method MarkConsumed(id: nat, ttl: nat, now: real) returns (first: bool)
      modifies this
      ensures first <==> !(id in old(consumed) && now < old(consumed)[id])
      ensures consumed == if first then old(consumed)[id := now + ttl as real] else old(consumed)
      ensures gates == old(gates)
    {
      first := !(id in consumed && now < consumed[id]);
      if first {
        consumed := consumed[id := now + ttl as real];
      }
    }
  }

  class ApprovalService {
    const store: GateStore
    const ttl: nat
    var issued: set<Token>

    constructor (store: GateStore, ttl: nat)
      ensures this.store == store && this.ttl == ttl && issued == {}
    {
      this.store, this.ttl := store, ttl;
      issued := {};
    }

    // approve with nothing in between: a live gate record gives back its own token.
    // Without scopes it is an error.
    method Approve(id: nat, plan: string, gate: string, scopes: seq<string>, now: real) returns (token: Option<Token>)
      modifies this, store
      ensures token.None? <==> scopes == []
      ensures token.None? || ((plan, gate) in old(store.gates) && now < old(store.gates)[(plan, gate)].expiry) ==>
                issued == old(issued) && store.gates == old(store.gates)
      ensures token.Some? && (plan, gate) in old(store.gates) && now < old(store.gates)[(plan, gate)].expiry ==>
                token.value == old(store.gates)[(plan, gate)].token
      ensures token.Some? && !((plan, gate) in old(store.gates) && now < old(store.gates)[(plan, gate)].expiry) ==>
                && token.value == Token(id, plan, gate, now.Floor, now.Floor + ttl)
                && issued == old(issued) + {token.value}
                && store.gates == old(store.gates)[(plan, gate) := Gate(token.value, now + ttl as real)]
      ensures store.consumed == old(store.consumed)
    {
      if scopes == [] {
        return None;
      }
      if (plan, gate) in store.gates && now < store.gates[(plan, gate)].expiry {
        return Some(store.gates[(plan, gate)].token);
      }
      var signed := Token(id, plan, gate, now.Floor, (now + ttl as real).Floor);
      issued := issued + {signed};
      store.StoreGate(plan, gate, signed, ttl, now);
      return Some(signed);
    }

    // validate_token with nothing in between.
    method ValidateToken(t: Token, plan: string, gate: Option<string>, now: real) returns (v: Verdict)
      modifies store
      ensures v.Invalid? <==> t !in issued
      ensures v.Expired? <==> t in issued && t.exp as real <= now
      ensures v.PlanMismatch? <==> t in issued && now < t.exp as real && t.plan != plan
      ensures v.GateMismatch? <==> t in issued && now < t.exp as real && t.plan == plan && gate.Some? && t.gate != gate.value
      ensures v.AlreadyUsed? <==> PassesFor(issued, t, plan, gate, now) && t.id in old(store.consumed) && now < old(store.consumed)[t.id]
      ensures v.Accepted? <==> PassesFor(issued, t, plan, gate, now) && !(t.id in old(store.consumed) && now < old(store.consumed)[t.id])
      ensures store.consumed == if v.Accepted? then old(store.consumed)[t.id := now + ttl as real] else old(store.consumed)
      ensures store.gates == old(store.gates)
    {
      v := Screen(issued, t, plan, gate, now);
      if v != Accepted {
        return;
      }
      if t.id in store.consumed && now < store.consumed[t.id] {
        return AlreadyUsed;
      }
      var first := store.MarkConsumed(t.id, ttl, now);
      return if first then Accepted else AlreadyUsed;
    }
  }

  // ---- every interleaving -------------------------------------------------

  datatype Call =
    | Looked(plan: string, gate: string, seen: set<nat>)                              // approve: no live gate record was found
    | Signed(token: Token)                                                            // approve: signed, store_gate still to come
    | Screened(token: Token, plan: string, gateId: Option<string>, verifiedAt: real)  // validate: is_consumed still to come
    | Unused(token: Token, plan: string, gateId: Option<string>, verifiedAt: real)    // validate: mark_consumed still to come

  // An accepted validation: of which token, for which plan and gate, and when.
  datatype Use = Use(token: Token, plan: string, gateId: Option<string>, verifiedAt: real, markedAt: real)

  // `stored` is history: the tokens that were ever written to a gate record. An approval
  // remembers what was stored when it looked.
  datatype System = System(now: real, gates: Gates, consumed: Consumed, issued: set<Token>, nextId: nat,
                           stored: set<nat>, calls: map<nat, Call>, uses: seq<Use>)

  datatype Event =
    | Tick(to: real)
    | BeginApprove(call: nat, plan: string, gate: string)
    | Sign(call: nat)
    | StoreGate(call: nat)
    | StoreFails(call: nat)
    | BeginValidate(call: nat, token: Token, plan: string, gateId: Option<string>)
    | CheckConsumed(call: nat)
    | Mark(call: nat)

  predicate Enabled(sys: System, e: Event) {
    match e
    case Tick(to) => sys.now <= to
    case BeginApprove(c, _, _) => c !in sys.calls
    case Sign(c) => c in sys.calls && sys.calls[c].Looked?
    case StoreGate(c) => c in sys.calls && sys.calls[c].Signed?
    case StoreFails(c) => c in sys.calls && sys.calls[c].Signed?
    case BeginValidate(c, _, _, _) => c !in sys.calls
    case CheckConsumed(c) => c in sys.calls && sys.calls[c].Screened?
    case Mark(c) => c in sys.calls && sys.calls[c].Unused?
  }

  function Next(ttl: nat, sys: System, e: Event): System
    requires Enabled(sys, e)
  {
    match e
    case Tick(to) => sys.(now := to)
    case BeginApprove(c, plan, gate) =>
      if GateLive(sys.gates, (plan, gate), sys.now) then sys else sys.(calls := sys.calls[c := Looked(plan, gate, sys.stored)])
    case Sign(c) =>
      var t := Issue(sys.nextId, sys.calls[c].plan, sys.calls[c].gate, sys.now, ttl);
      sys.(issued := sys.issued + {t}, nextId := sys.nextId + 1, calls := sys.calls[c := Signed(t)])
    case StoreGate(c) =>
      var t := sys.calls[c].token;
      sys.(gates := WithGate(sys.gates, t, ttl, sys.now), stored := sys.stored + {t.id}, calls := sys.calls - {c})
    case StoreFails(c) => sys.(calls := sys.calls - {c})
    case BeginValidate(c, t, plan, gate) =>
      if Screen(sys.issued, t, plan, gate, sys.now).Accepted? then sys.(calls := sys.calls[c := Screened(t, plan, gate, sys.now)]) else sys
    case CheckConsumed(c) =>
      var k := sys.calls[c];
      if IsConsumed(sys.consumed, k.token.id, sys.now) then sys.(calls := sys.calls - {c})
      else sys.(calls := sys.calls[c := Unused(k.token, k.plan, k.gateId, k.verifiedAt)])
    case Mark(c) =>
      var k := sys.calls[c];
      var (consumed, first) := WithMarker(sys.consumed, k.token.id, ttl, sys.now);
      sys.(consumed := consumed, calls := sys.calls - {c},
           uses := sys.uses + (if first then [Use(k.token, k.plan, k.gateId, k.verifiedAt, sys.now)] else []))
  }

  const INIT := System(0.0, map[], map[], {}, 0, {}, map[], [])

  // `prompt` asks that a validation which passed the expiry check marks the token before it expires.
  function Play(ttl: nat, prompt: bool, events: seq<Event>): Option<System> {
    if events == [] then Some(INIT)
    else
      var n := |events| - 1;
      var before := Play(ttl, prompt, events[..n]);
      if before.Some? && Enabled(before.value, events[n])
         && (prompt && events[n].Mark? ==> Unexpired(before.value.calls[events[n].call].token, before.value.now))
      then Some(Next(ttl, before.value, events[n])) else None
  }

  ghost predicate TokensSound(ttl: nat, sys: System) {
    && (forall t :: t in sys.issued ==> t.id < sys.nextId && t.exp == t.iat + ttl && t.iat as real <= sys.now)
    && (forall t, u :: t in sys.issued && u in sys.issued && t.id == u.id ==> t == u)
    && (forall c :: c in sys.calls && (sys.calls[c].Screened? || sys.calls[c].Unused?) ==>
          PassesFor(sys.issued, sys.calls[c].token, sys.calls[c].plan, sys.calls[c].gateId, sys.calls[c].verifiedAt))
  }

  // Every use is of an issued token for the plan and gate that were asked for. It left a marker
  // that lasts at least until the token has expired; a later use found that marker gone.
  ghost predicate UsesSound(ttl: nat, sys: System) {
    && (forall i :: 0 <= i < |sys.uses| ==>
          var s := sys.uses[i];
          && PassesFor(sys.issued, s.token, s.plan, s.gateId, s.verifiedAt)
          && s.token.exp as real <= s.markedAt + ttl as real
          && s.token.id in sys.consumed && s.markedAt + ttl as real <= sys.consumed[s.token.id])
    && (forall i, j :: 0 <= i < j < |sys.uses| && sys.uses[i].token.id == sys.uses[j].token.id ==>
          sys.uses[i].markedAt + ttl as real <= sys.uses[j].markedAt)
  }

  // Every marker was left by some use.
  ghost predicate MarkersFromUses(ttl: nat, sys: System) {
    forall id {:trigger LeftByUse(ttl, sys, id)} :: id in sys.consumed ==> LeftByUse(ttl, sys, id)
  }

  ghost predicate LeftByUse(ttl: nat, sys: System, id: nat)
    requires id in sys.consumed
  {
    exists k :: 0 <= k < |sys.uses| && sys.uses[k].token.id == id && sys.consumed[id] == sys.uses[k].markedAt + ttl as real
  }

  lemma MarkersNext(ttl: nat, sys: System, e: Event)
    requires MarkersFromUses(ttl, sys) && Enabled(sys, e)
    ensures MarkersFromUses(ttl, Next(ttl, sys, e))
  {
    var after := Next(ttl, sys, e);
    forall id {:trigger LeftByUse(ttl, after, id)} | id in after.consumed ensures LeftByUse(ttl, after, id) {
      if id in sys.consumed && after.consumed[id] == sys.consumed[id] {
        assert LeftByUse(ttl, sys, id);
        var k :| 0 <= k < |sys.uses| && sys.uses[k].token.id == id && sys.consumed[id] == sys.uses[k].markedAt + ttl as real;
        assert after.uses[k] == sys.uses[k];
      } else {
        var k := |sys.uses|;
        assert after.uses[k].token.id == id;
      }
    }
  }

  // An approval goes on exactly if the gate has no live record, and remembers what is stored by then.
  lemma LookedIff(ttl: nat, sys: System, c: nat, plan: string, gate: string)
    requires c !in sys.calls
    ensures var after := Next(ttl, sys, BeginApprove(c, plan, gate));
            if (plan, gate) in sys.gates && sys.now < sys.gates[(plan, gate)].expiry then after == sys
            else after.calls == sys.calls[c := Looked(plan, gate, sys.stored)]
  {}

  // Signing issues one token, new and for the approved plan and gate, that lasts `ttl` seconds.
  lemma SignIssues(ttl: nat, sys: System, c: nat)
    requires Enabled(sys, Sign(c))
    ensures var after := Next(ttl, sys, Sign(c));
            && after.calls[c].Signed? && after.issued == sys.issued + {after.calls[c].token}
            && after.calls[c].token == Token(sys.nextId, sys.calls[c].plan, sys.calls[c].gate, sys.now.Floor, sys.now.Floor + ttl)
  {}

  // A validation passes its first checks exactly for an issued, unexpired token of that plan and gate.
  lemma ScreenedIff(ttl: nat, sys: System, c: nat, t: Token, plan: string, gateId: Option<string>)
    requires c !in sys.calls
    ensures var after := Next(ttl, sys, BeginValidate(c, t, plan, gateId));
            if PassesFor(sys.issued, t, plan, gateId, sys.now)
            then after.calls == sys.calls[c := Screened(t, plan, gateId, sys.now)] else after == sys
  {}

  lemma TokensSoundNext(ttl: nat, sys: System, e: Event)
    requires TokensSound(ttl, sys) && Enabled(sys, e)
    ensures TokensSound(ttl, Next(ttl, sys, e))
  {}

  lemma UsesSoundNext(ttl: nat, sys: System, e: Event)
    requires TokensSound(ttl, sys) && UsesSound(ttl, sys) && Enabled(sys, e)
    ensures UsesSound(ttl, Next(ttl, sys, e))
  {
    var after := Next(ttl, sys, e);
    if e.Mark? && |after.uses| > |sys.uses| {
      var k := sys.calls[e.call];
      assert k.token in sys.issued;
      forall i | 0 <= i < |sys.uses| && sys.uses[i].token.id == k.token.id
        ensures sys.uses[i].markedAt + ttl as real <= sys.now
      {
        assert !IsConsumed(sys.consumed, k.token.id, sys.now);
      }
    }
  }

  lemma {:induction false} Always(ttl: nat, prompt: bool, events: seq<Event>)
    requires Play(ttl, prompt, events).Some?
    ensures var sys := Play(ttl, prompt, events).value;
            && TokensSound(ttl, sys) && UsesSound(ttl, sys) && MarkersFromUses(ttl, sys)
            && (prompt ==> forall i :: 0 <= i < |sys.uses| ==> Unexpired(sys.uses[i].token, sys.uses[i].markedAt))
  {
    if events != [] {
      var n := |events| - 1;
      Always(ttl, prompt, events[..n]);
      TokensSoundNext(ttl, Play(ttl, prompt, events[..n]).value, events[n]);
      UsesSoundNext(ttl, Play(ttl, prompt, events[..n]).value, events[n]);
      MarkersNext(ttl, Play(ttl, prompt, events[..n]).value, events[n]);
    }
  }

  // With no assumption on timing: a second use of a token can only come from a validation
  // that passed the expiry check in time and then stalled past the token's expiry and past
  // the first use's marker.
  lemma SecondUseHasStalled(ttl: nat, events: seq<Event>, i: nat, j: nat)
    requires Play(ttl, false, events).Some? && i < j < |Play(ttl, false, events).value.uses|
    requires Play(ttl, false, events).value.uses[i].token.id == Play(ttl, false, events).value.uses[j].token.id
    ensures var first, second := Play(ttl, false, events).value.uses[i], Play(ttl, false, events).value.uses[j];
            first.token == second.token
            && second.verifiedAt < first.token.exp as real <= first.markedAt + ttl as real <= second.markedAt
  {
    Always(ttl, false, events);
  }

  // If every validation marks the token before it expires, no token is ever used twice.
  lemma SingleUse(ttl: nat, events: seq<Event>)
    requires Play(ttl, true, events).Some?
    ensures var uses := Play(ttl, true, events).value.uses;
            forall i, j :: 0 <= i < j < |uses| ==> uses[i].token.id != uses[j].token.id
  {
    Always(ttl, true, events);
  }

  ghost predicate MarkersGone(ttl: nat, sys: System, id: nat) {
    forall k :: 0 <= k < |sys.uses| && sys.uses[k].token.id == id ==> sys.uses[k].markedAt + ttl as real <= sys.now
  }

  lemma MarkAccepted(ttl: nat, sys: System, c: nat)
    requires UsesSound(ttl, sys) && MarkersFromUses(ttl, sys) && Enabled(sys, Mark(c))
    ensures |Next(ttl, sys, Mark(c)).uses| > |sys.uses| <==> MarkersGone(ttl, sys, sys.calls[c].token.id)
  {
    var id := sys.calls[c].token.id;
    if id in sys.consumed {
      assert LeftByUse(ttl, sys, id);
      var k :| 0 <= k < |sys.uses| && sys.uses[k].token.id == id && sys.consumed[id] == sys.uses[k].markedAt + ttl as real;
    }
  }

  // In every run, a validation that has got as far as its marker succeeds exactly when the
  // markers of all earlier uses of its token have gone.
  lemma MarkAcceptedIff(ttl: nat, events: seq<Event>, c: nat)
    requires Play(ttl, false, events).Some? && Enabled(Play(ttl, false, events).value, Mark(c))
    ensures var sys := Play(ttl, false, events).value;
            |Next(ttl, sys, Mark(c)).uses| > |sys.uses| <==>
            forall k :: 0 <= k < |sys.uses| && sys.uses[k].token.id == sys.calls[c].token.id ==>
                          sys.uses[k].markedAt + ttl as real <= sys.now
  {
    Always(ttl, false, events);
    MarkAccepted(ttl, Play(ttl, false, events).value, c);
  }

  // In every run, a validation is turned away at its first look exactly when some use of the
  // token has left a marker that is still there; otherwise it goes on as it is.
  lemma TurnedAwayIff(ttl: nat, events: seq<Event>, c: nat)
    requires Play(ttl, false, events).Some? && Enabled(Play(ttl, false, events).value, CheckConsumed(c))
    ensures var sys := Play(ttl, false, events).value;
            var after := Next(ttl, sys, CheckConsumed(c));
            var k := sys.calls[c];
            && after.uses == sys.uses && after.consumed == sys.consumed
            && (c !in after.calls <==> !MarkersGone(ttl, sys, k.token.id))
            && (c in after.calls ==> after.calls[c] == Unused(k.token, k.plan, k.gateId, k.verifiedAt))
  {
    Always(ttl, false, events);
    var sys := Play(ttl, false, events).value;
    var id := sys.calls[c].token.id;
    if id in sys.consumed {
      assert LeftByUse(ttl, sys, id);
      var k :| 0 <= k < |sys.uses| && sys.uses[k].token.id == id && sys.consumed[id] == sys.uses[k].markedAt + ttl as real;
    }
  }

  // In every run, each accepted validation is of a token issued for the plan and the gate that
  // were asked for, and not expired when it was checked.
  lemma UsedAsAsked(ttl: nat, events: seq<Event>, i: nat)
    requires Play(ttl, false, events).Some? && i < |Play(ttl, false, events).value.uses|
    ensures var sys := Play(ttl, false, events).value;
            var u := sys.uses[i];
            && u.token in sys.issued && u.token.plan == u.plan && (u.gateId.Some? ==> u.token.gate == u.gateId.value)
            && u.verifiedAt < u.token.exp as real == u.token.iat as real + ttl as real
  {
    Always(ttl, false, events);
  }

  ghost predicate Reused(uses: seq<Use>) {
    exists i, j :: 0 <= i < j < |uses| && uses[i].token.id == uses[j].token.id
  }

  ghost predicate UsedBefore(uses: seq<Use>, id: nat) {
    exists k :: 0 <= k < |uses| && uses[k].token.id == id
  }

  lemma ReusedSnoc(uses: seq<Use>, u: Use)
    ensures Reused(uses + [u]) <==> Reused(uses) || UsedBefore(uses, u.token.id)
  {
    var all := uses + [u];
    if Reused(uses) {
      var i, j :| 0 <= i < j < |uses| && uses[i].token.id == uses[j].token.id;
      assert all[i] == uses[i] && all[j] == uses[j];
    }
    if UsedBefore(uses, u.token.id) {
      var k :| 0 <= k < |uses| && uses[k].token.id == u.token.id;
      assert all[k] == uses[k] && all[|uses|] == u;
    }
    if Reused(all) {
      var i, j :| 0 <= i < j < |all| && all[i].token.id == all[j].token.id;
      assert all[i] == uses[i];
      if j < |uses| { assert all[j] == uses[j]; }
    }
  }

  // This step marks a token that was used before and whose markers have all gone.
  ghost predicate Stalls(ttl: nat, sys: System, e: Event) {
    && e.Mark? && Enabled(sys, e)
    && UsedBefore(sys.uses, sys.calls[e.call].token.id) && MarkersGone(ttl, sys, sys.calls[e.call].token.id)
  }

  lemma ReusedNext(ttl: nat, sys: System, e: Event)
    requires UsesSound(ttl, sys) && MarkersFromUses(ttl, sys) && Enabled(sys, e)
    ensures Reused(Next(ttl, sys, e).uses) <==> Reused(sys.uses) || Stalls(ttl, sys, e)
  {
    assert sys.uses + [] == sys.uses;
    if e.Mark? {
      MarkAccepted(ttl, sys, e.call);
      var k := sys.calls[e.call];
      ReusedSnoc(sys.uses, Use(k.token, k.plan, k.gateId, k.verifiedAt, sys.now));
    }
  }

  ghost predicate StallsAt(ttl: nat, events: seq<Event>, m: nat) {
    && m < |events| && Play(ttl, false, events[..m]).Some?
    && Stalls(ttl, Play(ttl, false, events[..m]).value, events[m])
  }

  lemma ReusedLast(ttl: nat, events: seq<Event>, n: nat)
    requires Play(ttl, false, events).Some? && |events| == n + 1
    ensures Play(ttl, false, events[..n]).Some?
    ensures Reused(Play(ttl, false, events).value.uses) <==>
            Reused(Play(ttl, false, events[..n]).value.uses) || StallsAt(ttl, events, n)
  {
    Always(ttl, false, events[..n]);
    ReusedNext(ttl, Play(ttl, false, events[..n]).value, events[n]);
  }

  ghost predicate StallsSomewhere(ttl: nat, events: seq<Event>) {
    exists m: nat :: StallsAt(ttl, events, m)
  }

  lemma StallsSnoc(ttl: nat, events: seq<Event>, n: nat)
    requires |events| == n + 1
    ensures StallsSomewhere(ttl, events) <==> StallsSomewhere(ttl, events[..n]) || StallsAt(ttl, events, n)
  {
    forall m: nat | m < n ensures StallsAt(ttl, events, m) <==> StallsAt(ttl, events[..n], m) {
      assert events[..n][..m] == events[..m];
    }
    if StallsSomewhere(ttl, events[..n]) {
      var m: nat :| StallsAt(ttl, events[..n], m);
      assert StallsAt(ttl, events, m);
    }
  }

  // Exactly: a run uses some token twice if and only if somewhere in it a validation marks a
  // used token after all its markers have gone.
  lemma {:induction false} ReusedIff(ttl: nat, events: seq<Event>)
    requires Play(ttl, false, events).Some?
    ensures Reused(Play(ttl, false, events).value.uses) <==> StallsSomewhere(ttl, events)
  {
    if events != [] {
      var n := |events| - 1;
      ReusedLast(ttl, events, n);
      ReusedIff(ttl, events[..n]);
      StallsSnoc(ttl, events, n);
    }
  }

  lemma PlaySnoc(ttl: nat, events: seq<Event>, e: Event)
    requires Play(ttl, false, events).Some? && Enabled(Play(ttl, false, events).value, e)
    ensures Play(ttl, false, events + [e]) == Some(Next(ttl, Play(ttl, false, events).value, e))
  {
    assert (events + [e])[..|events|] == events;
  }

  lemma PlayPair(ttl: nat, events: seq<Event>, e: Event, f: Event)
    requires Play(ttl, false, events).Some? && Enabled(Play(ttl, false, events).value, e)
    requires Enabled(Next(ttl, Play(ttl, false, events).value, e), f)
    ensures Play(ttl, false, events + [e, f]) == Some(Next(ttl, Next(ttl, Play(ttl, false, events).value, e), f))
  {
    PlaySnoc(ttl, events, e);
    PlaySnoc(ttl, events + [e], f);
    assert events + [e] + [f] == events + [e, f];
  }

  // Such a run exists: one validation sleeps between its two store calls across the expiry.
  lemma StalledValidationReuses() returns (events: seq<Event>)
    ensures Play(900, false, events).Some? && |Play(900, false, events).value.uses| == 2
    ensures Play(900, false, events).value.uses[0].token == Play(900, false, events).value.uses[1].token
  {
    var t := Issue(0, "p", "g", 0.0, 900);
    events := [];
    PlayPair(900, events, BeginApprove(0, "p", "g"), Sign(0));
    events := events + [BeginApprove(0, "p", "g"), Sign(0)];
    PlayPair(900, events, BeginValidate(1, t, "p", None), CheckConsumed(1));
    events := events + [BeginValidate(1, t, "p", None), CheckConsumed(1)];
    PlayPair(900, events, BeginValidate(2, t, "p", None), CheckConsumed(2));
    events := events + [BeginValidate(2, t, "p", None), CheckConsumed(2)];
    PlayPair(900, events, Mark(1), Tick(900.0));
    events := events + [Mark(1), Tick(900.0)];
    PlaySnoc(900, events, Mark(2));
    events := events + [Mark(2)];
  }

  // ---- one unexpired token per gate --------------------------------------------

  predicate SameGate(t: Token, u: Token) {
    t.plan == u.plan && t.gate == u.gate
  }

  // Two different tokens of one gate are unexpired.
  ghost predicate TwoLive(sys: System) {
    exists t, u :: t in sys.issued && u in sys.issued && t != u && SameGate(t, u)
                   && Unexpired(t, sys.now) && Unexpired(u, sys.now)
  }

  // A gate record outlives every token that was stored in it.
  ghost predicate RecordsSound(ttl: nat, sys: System) {
    && (forall key :: key in sys.gates ==> sys.gates[key].expiry <= sys.now + ttl as real)
    && (forall id :: id in sys.stored ==> id < sys.nextId)
    && (forall t :: t in sys.issued && t.id in sys.stored ==>
          (t.plan, t.gate) in sys.gates && t.exp as real <= sys.gates[(t.plan, t.gate)].expiry)
    && (forall c :: c in sys.calls && sys.calls[c].Signed? ==> sys.calls[c].token in sys.issued)
  }

  ghost predicate LooksSound(sys: System) {
    forall c :: c in sys.calls && sys.calls[c].Looked? ==> SeenExpired(sys, sys.calls[c])
  }

  // An approval that found no live record knows that all tokens stored by then have expired.
  ghost predicate GatesSound(ttl: nat, sys: System) {
    RecordsSound(ttl, sys) && LooksSound(sys)
  }

  ghost predicate SeenExpired(sys: System, k: Call)
    requires k.Looked?
  {
    && (forall id :: id in k.seen ==> id < sys.nextId)
    && (forall t :: t in sys.issued && OfGate(t, k) && t.id in k.seen ==> !Unexpired(t, sys.now))
  }

  predicate OfGate(t: Token, k: Call)
    requires k.Looked?
  {
    t.plan == k.plan && t.gate == k.gate
  }

  lemma GatesSoundNext(ttl: nat, sys: System, e: Event)
    requires TokensSound(ttl, sys) && GatesSound(ttl, sys) && Enabled(sys, e)
    ensures GatesSound(ttl, Next(ttl, sys, e))
  {
    var after := Next(ttl, sys, e);
    RecordsNext(ttl, sys, e);
    forall c | c in after.calls && after.calls[c].Looked? ensures SeenExpired(after, after.calls[c]) {
      SeenNext(ttl, sys, e, c);
    }
  }

  lemma SeenNext(ttl: nat, sys: System, e: Event, c: nat)
    requires RecordsSound(ttl, sys) && LooksSound(sys) && Enabled(sys, e)
    requires c in Next(ttl, sys, e).calls && Next(ttl, sys, e).calls[c].Looked?
    ensures SeenExpired(Next(ttl, sys, e), Next(ttl, sys, e).calls[c])
  {
    if c in sys.calls && sys.calls[c] == Next(ttl, sys, e).calls[c] {
      assert SeenExpired(sys, sys.calls[c]);
    }
  }

  lemma RecordsNext(ttl: nat, sys: System, e: Event)
    requires TokensSound(ttl, sys) && RecordsSound(ttl, sys) && Enabled(sys, e)
    ensures RecordsSound(ttl, Next(ttl, sys, e))
  {}

  lemma {:induction false} GatesAlways(ttl: nat, events: seq<Event>)
    requires Play(ttl, false, events).Some?
    ensures TokensSound(ttl, Play(ttl, false, events).value) && GatesSound(ttl, Play(ttl, false, events).value)
  {
    if events != [] {
      var n := |events| - 1;
      GatesAlways(ttl, events[..n]);
      TokensSoundNext(ttl, Play(ttl, false, events[..n]).value, events[n]);
      GatesSoundNext(ttl, Play(ttl, false, events[..n]).value, events[n]);
    }
  }

  // This gate has an unexpired token.
  ghost predicate GateTaken(sys: System, k: Call)
    requires k.Looked?
  {
    exists u :: u in sys.issued && OfGate(u, k) && Unexpired(u, sys.now)
  }

  // It has one that was not stored when this approval looked.
  ghost predicate GateMissed(sys: System, k: Call)
    requires k.Looked?
  {
    exists u :: u in sys.issued && OfGate(u, k) && Unexpired(u, sys.now) && u.id !in k.seen
  }

  // This step signs a token beside one that its approval could not see.
  ghost predicate SignsBeside(ttl: nat, sys: System, e: Event) {
    e.Sign? && Enabled(sys, e) && ttl > 0 && GateMissed(sys, sys.calls[e.call])
  }

  // In every run, an approval signs a token beside an unexpired one of its gate exactly when that
  // one had not been stored at the moment the approval looked.
  lemma SignBesideIff(ttl: nat, events: seq<Event>, c: nat)
    requires Play(ttl, false, events).Some? && Enabled(Play(ttl, false, events).value, Sign(c))
    ensures var sys := Play(ttl, false, events).value;
            GateTaken(sys, sys.calls[c]) <==> GateMissed(sys, sys.calls[c])
    ensures var sys := Play(ttl, false, events).value;
            ttl > 0 && GateTaken(sys, sys.calls[c]) ==> TwoLive(Next(ttl, sys, Sign(c)))
  {
    GatesAlways(ttl, events);
    var sys := Play(ttl, false, events).value;
    assert SeenExpired(sys, sys.calls[c]);
    if ttl > 0 && GateTaken(sys, sys.calls[c]) {
      TwoLiveNext(ttl, sys, Sign(c));
    }
  }

  lemma TwoLiveNext(ttl: nat, sys: System, e: Event)
    requires TokensSound(ttl, sys) && GatesSound(ttl, sys) && Enabled(sys, e)
    ensures SignsBeside(ttl, sys, e) ==> TwoLive(Next(ttl, sys, e))
    ensures TwoLive(Next(ttl, sys, e)) ==> TwoLive(sys) || SignsBeside(ttl, sys, e)
  {
    var after := Next(ttl, sys, e);
    if e.Sign? {
      var k := sys.calls[e.call];
      assert SeenExpired(sys, k);
      var t := Issue(sys.nextId, k.plan, k.gate, sys.now, ttl);
      if SignsBeside(ttl, sys, e) {
        var u :| u in sys.issued && OfGate(u, k) && Unexpired(u, sys.now) && u.id !in k.seen;
        assert t in after.issued && u in after.issued && SameGate(t, u);
      }
    }
    if TwoLive(after) {
      var t, u :| t in after.issued && u in after.issued && t != u && SameGate(t, u)
                  && Unexpired(t, after.now) && Unexpired(u, after.now);
      if !(t in sys.issued && u in sys.issued) {
        var other := if t in sys.issued then t else u;
        assert OfGate(other, sys.calls[e.call]);
      }
    }
  }

  ghost predicate TwoLiveAt(ttl: nat, events: seq<Event>, m: nat) {
    m <= |events| && Play(ttl, false, events[..m]).Some? && TwoLive(Play(ttl, false, events[..m]).value)
  }

  ghost predicate SignsBesideAt(ttl: nat, events: seq<Event>, m: nat) {
    m < |events| && Play(ttl, false, events[..m]).Some? && SignsBeside(ttl, Play(ttl, false, events[..m]).value, events[m])
  }

  lemma {:induction false} PlayPrefix(ttl: nat, events: seq<Event>, m: nat)
    requires Play(ttl, false, events).Some? && m <= |events|
    ensures Play(ttl, false, events[..m]).Some?
  {
    if m < |events| {
      PlayPrefix(ttl, events[..|events| - 1], m);
      assert events[..|events| - 1][..m] == events[..m];
    } else {
      assert events[..m] == events;
    }
  }

  lemma StepTwoLive(ttl: nat, events: seq<Event>, m: nat)
    requires Play(ttl, false, events).Some? && m < |events|
    ensures SignsBesideAt(ttl, events, m) ==> TwoLiveAt(ttl, events, m + 1)
    ensures TwoLiveAt(ttl, events, m + 1) ==> TwoLiveAt(ttl, events, m) || SignsBesideAt(ttl, events, m)
  {
    PlayPrefix(ttl, events, m);
    PlayPrefix(ttl, events, m + 1);
    GatesAlways(ttl, events[..m]);
    assert events[..m + 1][..m] == events[..m];
    TwoLiveNext(ttl, Play(ttl, false, events[..m]).value, events[m]);
  }

  lemma {:induction false} FirstTwoLive(ttl: nat, events: seq<Event>, m: nat) returns (k: nat)
    requires Play(ttl, false, events).Some? && TwoLiveAt(ttl, events, m)
    ensures SignsBesideAt(ttl, events, k)
  {
    assert m != 0;
    StepTwoLive(ttl, events, m - 1);
    if SignsBesideAt(ttl, events, m - 1) {
      return m - 1;
    }
    k := FirstTwoLive(ttl, events, m - 1);
  }

  // Exactly: at some point of a run a gate has two unexpired tokens if and only if somewhere in
  // it an approval signs a token beside one that was not yet stored when it looked.
  lemma TwoLiveIff(ttl: nat, events: seq<Event>)
    requires Play(ttl, false, events).Some?
    ensures (exists m: nat :: TwoLiveAt(ttl, events, m)) <==> exists m: nat :: SignsBesideAt(ttl, events, m)
  {
    if m: nat :| TwoLiveAt(ttl, events, m) {
      var k := FirstTwoLive(ttl, events, m);
      assert SignsBesideAt(ttl, events, k);
    }
    if m: nat :| SignsBesideAt(ttl, events, m) {
      StepTwoLive(ttl, events, m);
      assert TwoLiveAt(ttl, events, m + 1);
    }
  }

  predicate Approving(k: Call, plan: string, gate: string) {
    match k
    case Looked(p, g, _) => p == plan && g == gate
    case Signed(t) => t.plan == plan && t.gate == gate
    case _ => false
  }

  // No approval of a gate starts while another one of it is under way, and every token is stored.
  ghost predicate Alone(sys: System, e: Event) {
    && !e.StoreFails?
    && (e.BeginApprove? ==> forall c :: c in sys.calls ==> !Approving(sys.calls[c], e.plan, e.gate))
  }

  ghost predicate AloneAt(ttl: nat, events: seq<Event>, m: nat) {
    m < |events| && Play(ttl, false, events[..m]).Some? && Alone(Play(ttl, false, events[..m]).value, events[m])
  }

  // An unexpired token is stored or about to be.
  ghost predicate KeptSafe(sys: System) {
    forall t :: t in sys.issued && Unexpired(t, sys.now) ==> t.id in sys.stored || InFlight(sys, t)
  }

  ghost predicate Apart(sys: System) {
    forall c, d :: c in sys.calls && d in sys.calls && c != d && sys.calls[c].Looked? ==>
                     !Approving(sys.calls[d], sys.calls[c].plan, sys.calls[c].gate)
  }

  // An approval that has looked has no rival: neither another approval nor an unexpired token.
  ghost predicate Unrivalled(sys: System) {
    && KeptSafe(sys) && Apart(sys)
    && forall c :: c in sys.calls && sys.calls[c].Looked? ==> !GateTaken(sys, sys.calls[c])
  }

  ghost predicate InFlight(sys: System, t: Token) {
    exists c :: c in sys.calls && sys.calls[c] == Signed(t)
  }

  lemma InFlightNext(ttl: nat, sys: System, e: Event, t: Token)
    requires TokensSound(ttl, sys) && Enabled(sys, e) && !e.StoreFails?
    requires t.id in sys.stored || InFlight(sys, t)
    ensures var after := Next(ttl, sys, e); t.id in after.stored || InFlight(after, t)
  {
    if t.id !in sys.stored {
      var c :| c in sys.calls && sys.calls[c] == Signed(t);
      var after := Next(ttl, sys, e);
      if !(e.StoreGate? && e.call == c) {
        assert c in after.calls && after.calls[c] == Signed(t);
      }
    }
  }

  lemma LookFindsNothing(ttl: nat, sys: System, plan: string, gate: string)
    requires TokensSound(ttl, sys) && GatesSound(ttl, sys) && Unrivalled(sys) && !GateLive(sys.gates, (plan, gate), sys.now)
    requires forall c :: c in sys.calls ==> !Approving(sys.calls[c], plan, gate)
    ensures !GateTaken(sys, Looked(plan, gate, sys.stored))
  {
    forall t | t in sys.issued && t.plan == plan && t.gate == gate && Unexpired(t, sys.now) ensures t.id in sys.stored {
      assert !InFlight(sys, t);
    }
  }

  lemma KeptSafeNext(ttl: nat, sys: System, e: Event)
    requires TokensSound(ttl, sys) && KeptSafe(sys) && Enabled(sys, e) && !e.StoreFails?
    ensures KeptSafe(Next(ttl, sys, e))
  {
    var after := Next(ttl, sys, e);
    forall t | t in after.issued && Unexpired(t, after.now) ensures t.id in after.stored || InFlight(after, t) {
      if t in sys.issued {
        InFlightNext(ttl, sys, e, t);
      } else {
        assert after.calls[e.call] == Signed(t);
      }
    }
  }

  lemma ApartNext(ttl: nat, sys: System, e: Event)
    requires Apart(sys) && Enabled(sys, e) && Alone(sys, e)
    ensures Apart(Next(ttl, sys, e))
  {}

  lemma UnrivalledNext(ttl: nat, sys: System, e: Event)
    requires TokensSound(ttl, sys) && GatesSound(ttl, sys) && Unrivalled(sys) && Enabled(sys, e) && Alone(sys, e)
    ensures Unrivalled(Next(ttl, sys, e))
  {
    var after := Next(ttl, sys, e);
    KeptSafeNext(ttl, sys, e);
    ApartNext(ttl, sys, e);
    forall c | c in after.calls && after.calls[c].Looked? ensures !GateTaken(after, after.calls[c]) {
      if c in sys.calls && sys.calls[c] == after.calls[c] {
        StillFree(ttl, sys, e, c);
      } else {
        LookFindsNothing(ttl, sys, e.plan, e.gate);
      }
    }
  }

  lemma StillFree(ttl: nat, sys: System, e: Event, c: nat)
    requires Unrivalled(sys) && Enabled(sys, e) && c in sys.calls && sys.calls[c].Looked?
    requires c in Next(ttl, sys, e).calls && Next(ttl, sys, e).calls[c] == sys.calls[c]
    ensures !GateTaken(Next(ttl, sys, e), sys.calls[c])
  {
    assert !GateTaken(sys, sys.calls[c]);
    if e.Sign? {
      assert e.call != c;
    }
  }

  lemma {:induction false} UnrivalledAlways(ttl: nat, events: seq<Event>)
    requires Play(ttl, false, events).Some? && forall m: nat :: m < |events| ==> AloneAt(ttl, events, m)
    ensures Unrivalled(Play(ttl, false, events).value)
  {
    if events != [] {
      var n := |events| - 1;
      forall m: nat | m < n ensures AloneAt(ttl, events[..n], m) {
        assert AloneAt(ttl, events, m) && events[..n][..m] == events[..m];
      }
      UnrivalledAlways(ttl, events[..n]);
      GatesAlways(ttl, events[..n]);
      assert AloneAt(ttl, events, n);
      UnrivalledNext(ttl, Play(ttl, false, events[..n]).value, events[n]);
    }
  }

  // If approvals of the same gate do not overlap and every token gets stored, no gate ever
  // has two unexpired tokens.
  lemma OneLiveTokenPerGate(ttl: nat, events: seq<Event>)
    requires Play(ttl, false, events).Some? && forall m: nat :: m < |events| ==> AloneAt(ttl, events, m)
    ensures !exists m: nat :: TwoLiveAt(ttl, events, m)
  {
    TwoLiveIff(ttl, events);
    forall m: nat ensures !SignsBesideAt(ttl, events, m) {
      if m < |events| {
        PlayPrefix(ttl, events, m);
        forall j: nat | j < m ensures AloneAt(ttl, events[..m], j) {
          assert AloneAt(ttl, events, j) && events[..m][..j] == events[..j];
        }
        UnrivalledAlways(ttl, events[..m]);
      }
    }
  }

  // Such a run exists: two approvals look, and then both sign.
  lemma OverlappingApprovalsIssueTwo() returns (events: seq<Event>)
    ensures Play(900, false, events).Some? && TwoLive(Play(900, false, events).value)
  {
    events := [];
    PlayPair(900, events, BeginApprove(0, "p", "g"), BeginApprove(1, "p", "g"));
    events := events + [BeginApprove(0, "p", "g"), BeginApprove(1, "p", "g")];
    PlayPair(900, events, Sign(0), Sign(1));
    events := events + [Sign(0), Sign(1)];
    assert Issue(0, "p", "g", 0.0, 900) in Play(900, false, events).value.issued;
    assert Issue(1, "p", "g", 0.0, 900) in Play(900, false, events).value.issued;
  }
}
