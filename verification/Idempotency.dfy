/** The three-state idempotency record around a Booker call, for one key. */
module Idempotency {
  import opened Plans

  const RECORD_TTL: real := 86400.0
  const CLAIM_TIMEOUT: real := 300.0

  // Only whether a stored result is the empty object matters to the caller.
  datatype Json = Json(empty: bool, content: nat)

  datatype Status = InFlight | Succeeded | Failed | Unknown

  // The hash of one key; a field is missing until some write sets it.
  datatype Record = Record(state: Status, executionId: Option<string>, claimedAt: Option<real>, result: Option<Json>, expiry: real)

  datatype Reply = Proceed | Cached(result: Json) | Conflict

  predicate Live(r: Option<Record>, now: real) {
    r.Some? && now < r.value.expiry
  }

  function SetInFlight(base: Option<Record>, execution: string, now: real): Record {
    Record(InFlight, Some(execution), Some(now), if base.Some? then base.value.result else None, now + RECORD_TTL)
  }

  // check_and_claim as one step; `r` is what the key held.
  function CheckAndClaim(r: Option<Record>, execution: string, now: real): (Option<Record>, Reply) {
    if !Live(r, now) then (Some(SetInFlight(None, execution, now)), Proceed)
    else match r.value.state
      case Succeeded => (r, Cached(if r.value.result.Some? then r.value.result.value else Json(true, 0)))
      case InFlight =>
        var claimed := if r.value.claimedAt.Some? then r.value.claimedAt.value else 0.0;
        if now - claimed < CLAIM_TIMEOUT then (r, Conflict) else (Some(SetInFlight(r, execution, now)), Proceed)
      case Failed => (Some(SetInFlight(None, execution, now)), Proceed)
      case Unknown => (Some(SetInFlight(r, execution, now)), Proceed)
  }

  function MarkSucceeded(r: Option<Record>, result: Json, now: real): Record {
    var base := if Live(r, now) then r.value else Record(Succeeded, None, None, None, 0.0);
    base.(state := Succeeded, result := Some(result), expiry := now + RECORD_TTL)
  }

  function MarkFailed(r: Option<Record>, now: real): Record {
    var base := if Live(r, now) then r.value else Record(Failed, None, None, None, 0.0);
    base.(state := Failed, expiry := now + RECORD_TTL)
  }

  // The Booker goes on to call the tool unless it got a conflict or a non-empty stored result.
  predicate GoesOn(reply: Reply) {
    reply.Proceed? || (reply.Cached? && reply.result.empty)
  }

  // A fresh key, an expired one, a failed or unknown one, or a claim at least five minutes old
  // is claimed for this execution and for a day; a success answers with its result, and a
  // younger claim is a conflict. Only a failed record loses an older result.
  ghost predicate Claims(before: Option<Record>, execution: string, now: real, after: Option<Record>, reply: Reply) {
    if before.None? || before.value.expiry <= now then
      reply.Proceed? && after == Some(Record(InFlight, Some(execution), Some(now), None, now + 86400.0))
    else
      var b := before.value;
      if b.state.Succeeded? then
        after == before && reply == Cached(if b.result.Some? then b.result.value else Json(true, 0))
      else if b.state.InFlight? && now - (if b.claimedAt.Some? then b.claimedAt.value else 0.0) < 300.0 then
        after == before && reply.Conflict?
      else
        && reply.Proceed?
        && after == Some(Record(InFlight, Some(execution), Some(now), if b.state.Failed? then None else b.result, now + 86400.0))
  }

  class IdempotencyAdapter {
    var hashes: map<string, Record>

    constructor ()
      ensures hashes == map[]
    {
      hashes := map[];
    }

    function At(key: string): Option<Record>
      reads this
    {
      if key in hashes then Some(hashes[key]) else None
    }

    method Claim(key: string, execution: string, now: real) returns (reply: Reply)
      modifies this
      ensures (At(key), reply) == CheckAndClaim(old(At(key)), execution, now)
      ensures Claims(old(At(key)), execution, now, At(key), reply)
      ensures hashes - {key} == old(hashes) - {key}
    {
      if key !in hashes || hashes[key].expiry <= now {
        hashes := hashes[key := Record(InFlight, Some(execution), Some(now), None, now + RECORD_TTL)];
        return Proceed;
      }
      var record := hashes[key];
      match record.state {
        case Succeeded =>
          return Cached(if record.result.Some? then record.result.value else Json(true, 0));
        case InFlight =>
          var claimed := if record.claimedAt.Some? then record.claimedAt.value else 0.0;
          if now - claimed < CLAIM_TIMEOUT {
            return Conflict;
          }
        case Failed =>
          record := record.(result := None);
        case Unknown =>
      }
      hashes := hashes[key := Record(InFlight, Some(execution), Some(now), record.result, now + RECORD_TTL)];
      return Proceed;
    }

    method Succeed(key: string, result: Json, now: real)
      modifies this
      ensures At(key) == Some(MarkSucceeded(old(At(key)), result, now))
      ensures At(key).value.state.Succeeded? && At(key).value.result == Some(result) && At(key).value.expiry == now + 86400.0
      ensures hashes - {key} == old(hashes) - {key}
    {
      var base := if key in hashes && now < hashes[key].expiry then hashes[key] else Record(Succeeded, None, None, None, 0.0);
      hashes := hashes[key := base.(state := Succeeded, result := Some(result), expiry := now + RECORD_TTL)];
    }

    method Fail(key: string, now: real)
      modifies this
      ensures At(key) == Some(MarkFailed(old(At(key)), now))
      ensures At(key).value.state.Failed? && At(key).value.expiry == now + 86400.0
      ensures hashes - {key} == old(hashes) - {key}
    {
      var base := if key in hashes && now < hashes[key].expiry then hashes[key] else Record(Failed, None, None, None, 0.0);
      hashes := hashes[key := base.(state := Failed, expiry := now + RECORD_TTL)];
    }
  }

  // ---- every interleaving of executions of the same Booker step -----------

  datatype Run =
    | Executing(claimedAt: real)                 // waiting for the lock or for the tool
    | Returned(claimedAt: real, result: Json)    // the tool call succeeded, not yet recorded
    | Erred(claimedAt: real)                     // an exception after the claim, not yet recorded

  // A successful tool call, with its claim and the moment it was recorded.
  datatype Commit = Commit(result: Json, claimedAt: real, markedAt: real)

  datatype System = System(now: real, record: Option<Record>, runs: map<nat, Run>, commits: seq<Commit>)

  datatype Event =
    | Tick(to: real)
    | Check(run: nat, execution: string)
    | LockTimeout(run: nat)             // leaves the record as it is
    | ToolOk(run: nat, result: Json)
    | ToolError(run: nat)
    | RecordOk(run: nat)
    | RecordOkFails(run: nat)           // mark_succeeded raises; the effect has happened
    | RecordError(run: nat)

  predicate Enabled(sys: System, e: Event) {
    match e
    case Tick(to) => sys.now <= to
    case Check(t, _) => t !in sys.runs
    case LockTimeout(t) => t in sys.runs && sys.runs[t].Executing?
    case ToolOk(t, _) => t in sys.runs && sys.runs[t].Executing?
    case ToolError(t) => t in sys.runs && sys.runs[t].Executing?
    case RecordOk(t) => t in sys.runs && sys.runs[t].Returned?
    case RecordOkFails(t) => t in sys.runs && sys.runs[t].Returned?
    case RecordError(t) => t in sys.runs && sys.runs[t].Erred?
  }

  function Next(sys: System, e: Event): System
    requires Enabled(sys, e)
  {
    match e
    case Tick(to) => sys.(now := to)
    case Check(t, execution) =>
      var (record, reply) := CheckAndClaim(sys.record, execution, sys.now);
      sys.(record := record, runs := if GoesOn(reply) then sys.runs[t := Executing(sys.now)] else sys.runs)
    case LockTimeout(t) => sys.(runs := sys.runs - {t})
    case ToolOk(t, result) => sys.(runs := sys.runs[t := Returned(sys.runs[t].claimedAt, result)])
    case ToolError(t) => sys.(runs := sys.runs[t := Erred(sys.runs[t].claimedAt)])
    case RecordOk(t) =>
      var r := sys.runs[t];
      sys.(record := Some(MarkSucceeded(sys.record, r.result, sys.now)), runs := sys.runs - {t},
           commits := sys.commits + [Commit(r.result, r.claimedAt, sys.now)])
    case RecordOkFails(t) => sys.(runs := sys.runs[t := Erred(sys.runs[t].claimedAt)])
    case RecordError(t) => sys.(record := Some(MarkFailed(sys.record, sys.now)), runs := sys.runs - {t})
  }

  // No execution outlives its claim, and no tool returns the empty object.
  ghost predicate WellBehaved(sys: System, e: Event) {
    && (e.Tick? ==> forall t :: t in sys.runs ==> e.to < sys.runs[t].claimedAt + CLAIM_TIMEOUT)
    && (e.ToolOk? ==> !e.result.empty)
  }

  const INIT := System(0.0, None, map[], [])

  ghost function Play(assumed: bool, events: seq<Event>): Option<System> {
    if events == [] then Some(INIT)
    else
      var n := |events| - 1;
      var before := Play(assumed, events[..n]);
      if before.Some? && Enabled(before.value, events[n]) && (assumed ==> WellBehaved(before.value, events[n]))
      then Some(Next(before.value, events[n])) else None
  }

  // The claim behind each run is the one on record, and it is the only run.
  ghost predicate Claimed(sys: System) {
    && (forall t, u :: t in sys.runs && u in sys.runs ==> t == u)
    && (forall t :: t in sys.runs ==>
          && sys.record.Some? && sys.record.value.state.InFlight?
          && sys.record.value.claimedAt == Some(sys.runs[t].claimedAt)
          && sys.record.value.expiry == sys.runs[t].claimedAt + RECORD_TTL
          && sys.runs[t].claimedAt <= sys.now < sys.runs[t].claimedAt + CLAIM_TIMEOUT
          && (sys.runs[t].Returned? ==> !sys.runs[t].result.empty))
  }

  ghost predicate Spaced(commits: seq<Commit>) {
    forall i, j :: 0 <= i < j < |commits| ==> commits[i].markedAt + RECORD_TTL <= commits[j].claimedAt
  }

  // While the last success is on record, it is what the record says and nothing runs.
  ghost predicate Remembered(sys: System) {
    forall i :: 0 <= i < |sys.commits| ==>
      var c := sys.commits[i];
      && !c.result.empty && c.claimedAt <= c.markedAt <= sys.now
      && (forall t :: t in sys.runs ==> c.markedAt + RECORD_TTL <= sys.runs[t].claimedAt)
      && (sys.now < c.markedAt + RECORD_TTL ==>
            && sys.runs == map[] && sys.record.Some? && sys.record.value.state.Succeeded?
            && sys.record.value.result == Some(c.result) && sys.record.value.expiry == c.markedAt + RECORD_TTL)
  }

  ghost predicate Recorded(sys: System) {
    sys.record.Some? && sys.record.value.state.Succeeded? ==>
      sys.record.value.result.Some? && !sys.record.value.result.value.empty
  }

  ghost predicate Inv(sys: System) {
    Recorded(sys) && Claimed(sys) && Spaced(sys.commits) && Remembered(sys)
  }

  lemma InvNext(sys: System, e: Event)
    requires Inv(sys) && Enabled(sys, e) && WellBehaved(sys, e)
    ensures Inv(Next(sys, e))
  {
    if e.Check? {
      CheckKeepsInv(sys, e);
    }
  }

  lemma CheckKeepsInv(sys: System, e: Event)
    requires Inv(sys) && Enabled(sys, e) && e.Check?
    ensures Inv(Next(sys, e))
  {
    var (record, reply) := CheckAndClaim(sys.record, e.execution, sys.now);
    if GoesOn(reply) {
      assert reply.Proceed?;
      assert forall t :: t !in sys.runs;
      forall i | 0 <= i < |sys.commits| ensures sys.commits[i].markedAt + RECORD_TTL <= sys.now {
        assert sys.commits[i].claimedAt <= sys.now;
      }
    }
  }

  lemma {:induction false} InvAlways(events: seq<Event>)
    requires Play(true, events).Some?
    ensures Inv(Play(true, events).value)
  {
    if events != [] {
      var n := |events| - 1;
      InvAlways(events[..n]);
      InvNext(Play(true, events[..n]).value, events[n]);
    }
  }

  // At most one execution is under way, and two recorded successes are at least a record
  // lifetime apart: the later claim comes after the earlier record has expired.
  lemma AtMostOncePerLifetime(events: seq<Event>)
    requires Play(true, events).Some?
    ensures var sys := Play(true, events).value;
            && (forall t, u :: t in sys.runs && u in sys.runs ==> t == u)
            && Spaced(sys.commits)
            && (forall t, i :: t in sys.runs && 0 <= i < |sys.commits| ==>
                                 sys.commits[i].markedAt + RECORD_TTL <= sys.runs[t].claimedAt)
  {
    InvAlways(events);
  }

  // Until the record expires, every check answers with the stored result and changes nothing.
  lemma LaterChecksReplay(events: seq<Event>, i: nat, t: nat, execution: string)
    requires Play(true, events).Some? && i < |Play(true, events).value.commits|
    requires Play(true, events).value.now < Play(true, events).value.commits[i].markedAt + RECORD_TTL
    ensures var sys := Play(true, events).value;
            && CheckAndClaim(sys.record, execution, sys.now) == (sys.record, Cached(sys.commits[i].result))
            && (t !in sys.runs ==> Next(sys, Check(t, execution)) == sys)
  {
    InvAlways(events);
    var sys := Play(true, events).value;
    assert !sys.commits[i].result.empty;
  }

  // With no assumption at all: whoever is turned away leaves the record and the runs alone.
  lemma LosersChangeNothing(sys: System, t: nat, execution: string)
    requires t !in sys.runs && !GoesOn(CheckAndClaim(sys.record, execution, sys.now).1)
    ensures Next(sys, Check(t, execution)) == sys
  {}

  // A stored success stops the next execution exactly when its result is not the empty object.
  lemma SuccessStopsUnlessEmpty(result: Json, r: Option<Record>, execution: string, marked: real, now: real)
    requires marked <= now < marked + RECORD_TTL
    ensures GoesOn(CheckAndClaim(Some(MarkSucceeded(r, result, marked)), execution, now).1) <==> result.empty
  {}

  // The claim's timeout is the exact boundary: from any state of a well-behaved run, a check
  // that comes while an execution is under way starts a second one if and only if the first
  // one's claim has timed out by then.
  lemma ClaimBoundaryExact(events: seq<Event>, t: nat, u: nat, execution: string, to: real)
    requires Play(true, events).Some? && t in Play(true, events).value.runs
    requires u !in Play(true, events).value.runs && Play(true, events).value.now <= to
    ensures var sys := Play(true, events).value;
            u in Next(Next(sys, Tick(to)), Check(u, execution)).runs <==> to >= sys.runs[t].claimedAt + CLAIM_TIMEOUT
  {
    InvAlways(events);
  }

  // From any state of a well-behaved run, the next check after a tool call that returned stays
  // out if and only if the success got recorded; if recording it raised, the call is repeated.
  lemma UnrecordedSuccessRepeats(events: seq<Event>, t: nat, u: nat, execution: string)
    requires Play(true, events).Some? && t in Play(true, events).value.runs && Play(true, events).value.runs[t].Returned?
    requires u !in Play(true, events).value.runs
    ensures var sys := Play(true, events).value;
            && u in Next(Next(Next(sys, RecordOkFails(t)), RecordError(t)), Check(u, execution)).runs
            && u !in Next(Next(sys, RecordOk(t)), Check(u, execution)).runs
  {
    InvAlways(events);
  }

  // A caller that gives up waiting for the resource lock leaves its claim behind: from any state of
  // a well-behaved run, the key stays blocked for everybody until that claim has timed out.
  lemma AbandonedClaimBlocks(events: seq<Event>, t: nat, u: nat, execution: string, till: real)
    requires Play(true, events).Some? && t in Play(true, events).value.runs && Play(true, events).value.runs[t].Executing?
    requires Play(true, events).value.now <= till && u !in Play(true, events).value.runs
    ensures var sys := Play(true, events).value;
            var later := Next(Next(sys, LockTimeout(t)), Tick(till));
            && later.record == sys.record && t !in later.runs
            && (u in Next(later, Check(u, execution)).runs <==> till >= sys.runs[t].claimedAt + CLAIM_TIMEOUT)
  {
    InvAlways(events);
  }

  lemma PlaySnoc(assumed: bool, events: seq<Event>, e: Event)
    requires Play(assumed, events).Some? && Enabled(Play(assumed, events).value, e)
    requires assumed ==> WellBehaved(Play(assumed, events).value, e)
    ensures Play(assumed, events + [e]) == Some(Next(Play(assumed, events).value, e))
  {
    assert (events + [e])[..|events|] == events;
  }

  lemma PlayPair(events: seq<Event>, e: Event, f: Event)
    requires Play(false, events).Some? && Enabled(Play(false, events).value, e)
    requires Enabled(Next(Play(false, events).value, e), f)
    ensures Play(false, events + [e, f]) == Some(Next(Next(Play(false, events).value, e), f))
  {
    PlaySnoc(false, events, e);
    PlaySnoc(false, events + [e], f);
    assert events + [e] + [f] == events + [e, f];
  }

  // Both assumptions are needed. An empty result is stored but not honoured ...
  lemma EmptyResultRepeats() returns (events: seq<Event>)
    ensures Play(false, events).Some? && |Play(false, events).value.commits| == 2
    ensures !Spaced(Play(false, events).value.commits)
  {
    var none := Json(true, 0);
    events := [];
    PlayPair(events, Check(0, "a"), ToolOk(0, none));
    events := events + [Check(0, "a"), ToolOk(0, none)];
    PlayPair(events, RecordOk(0), Check(1, "b"));
    events := events + [RecordOk(0), Check(1, "b")];
    PlayPair(events, ToolOk(1, none), RecordOk(1));
    events := events + [ToolOk(1, none), RecordOk(1)];
    var commits := Play(false, events).value.commits;
    assert commits[1].claimedAt < commits[0].markedAt + RECORD_TTL;
  }

  // ... and an execution slower than its claim is repeated by whoever takes the claim over.
  lemma OutlivedClaimRepeats() returns (events: seq<Event>)
    ensures Play(false, events).Some? && |Play(false, events).value.commits| == 2
    ensures !Spaced(Play(false, events).value.commits)
  {
    var some := Json(false, 1);
    events := [];
    PlayPair(events, Check(0, "a"), Tick(300.0));
    events := events + [Check(0, "a"), Tick(300.0)];
    PlayPair(events, Check(1, "b"), ToolOk(0, some));
    events := events + [Check(1, "b"), ToolOk(0, some)];
    PlayPair(events, ToolOk(1, some), RecordOk(0));
    events := events + [ToolOk(1, some), RecordOk(0)];
    PlaySnoc(false, events, RecordOk(1));
    events := events + [RecordOk(1)];
    var commits := Play(false, events).value.commits;
    assert commits[1].claimedAt < commits[0].markedAt + RECORD_TTL;
  }
}
