/** The per-model circuit breaker: its two locked sections, overlapping calls, and the
    history it implements when calls do not overlap. */
module CircuitBreaker {
  import opened Plans

  datatype Mode = Closed | Open | HalfOpen

  datatype Config = Config(failureThreshold: nat, timeout: real, successThreshold: nat)

  datatype State = State(mode: Mode, failures: nat, successes: nat, lastFailure: Option<real>)

  const FRESH := State(Closed, 0, 0, None)

  predicate TimeoutElapsed(cfg: Config, s: State, now: real) {
    s.lastFailure.Some? && now - s.lastFailure.value >= cfg.timeout
  }

  // The locked section before the call: the new state, and the mode the call runs in unless refused.
  function Begin(cfg: Config, s: State, now: real): (State, Option<Mode>) {
    if s.mode.Open? then
      if TimeoutElapsed(cfg, s, now) then (s.(mode := HalfOpen, successes := 0), Some(HalfOpen)) else (s, None)
    else (s, Some(s.mode))
  }

  function OnFailure(cfg: Config, s: State, now: real): State {
    var t := s.(lastFailure := Some(now));
    if s.mode.HalfOpen? then t.(mode := Open, failures := cfg.failureThreshold)
    else
      var u := t.(failures := t.failures + 1);
      if u.failures >= cfg.failureThreshold then u.(mode := Open) else u
  }

  function OnSuccess(cfg: Config, s: State, atCall: Mode): State {
    if atCall.HalfOpen? || s.mode.HalfOpen? then
      if s.successes + 1 >= cfg.successThreshold then s.(mode := Closed, failures := 0, successes := 0)
      else s.(successes := s.successes + 1)
    else s.(failures := 0)
  }

  class Breaker {
    const cfg: Config
    var mode: Mode
    var failureCount: nat
    var successCount: nat
    var lastFailureTime: Option<real>

    constructor (cfg: Config)
      ensures this.cfg == cfg && Now() == FRESH
    {
      this.cfg := cfg;
      mode, failureCount, successCount, lastFailureTime := Closed, 0, 0, None;
    }

    function Now(): State
      reads this
    {
      State(mode, failureCount, successCount, lastFailureTime)
    }

    method BeginCall(now: real) returns (admitted: Option<Mode>)
      modifies this
      ensures (Now(), admitted) == Begin(cfg, old(Now()), now)
      ensures admitted.None? <==> old(mode).Open? && (lastFailureTime.None? || now - lastFailureTime.value < cfg.timeout)
      ensures admitted.Some? ==> admitted.value == mode == if old(mode).Open? then HalfOpen else old(mode)
      ensures admitted.None? ==> mode.Open?
      ensures successCount == if old(mode).Open? && admitted.Some? then 0 else old(successCount)
      ensures failureCount == old(failureCount) && lastFailureTime == old(lastFailureTime)
    {
      if mode.Open? {
        if lastFailureTime.Some? && now - lastFailureTime.value >= cfg.timeout {
          mode := HalfOpen;
          successCount := 0;
        } else {
          return None;
        }
      }
      admitted := Some(mode);
    }

    method EndFailed(now: real)
      modifies this
      ensures Now() == OnFailure(cfg, old(Now()), now)
      ensures lastFailureTime == Some(now) && successCount == old(successCount)
      ensures failureCount == if old(mode).HalfOpen? then cfg.failureThreshold else old(failureCount) + 1
      ensures mode == if old(mode).HalfOpen? || old(failureCount) + 1 >= cfg.failureThreshold then Open else old(mode)
    {
      lastFailureTime := Some(now);
      if mode.HalfOpen? {
        mode := Open;
        failureCount := cfg.failureThreshold;
      } else {
        failureCount := failureCount + 1;
        if failureCount >= cfg.failureThreshold {
          mode := Open;
        }
      }
    }

    method EndSucceeded(atCall: Mode)
      modifies this
      ensures Now() == OnSuccess(cfg, old(Now()), atCall)
      ensures lastFailureTime == old(lastFailureTime)
      ensures atCall.HalfOpen? || old(mode).HalfOpen? ==>
                if old(successCount) + 1 >= cfg.successThreshold then mode.Closed? && failureCount == 0 && successCount == 0
                else mode == old(mode) && failureCount == old(failureCount) && successCount == old(successCount) + 1
      ensures !atCall.HalfOpen? && !old(mode).HalfOpen? ==>
                mode == old(mode) && failureCount == 0 && successCount == old(successCount)
    {
      if atCall.HalfOpen? || mode.HalfOpen? {
        successCount := successCount + 1;
        if successCount >= cfg.successThreshold {
          mode := Closed;
          failureCount := 0;
          successCount := 0;
        }
      } else {
        failureCount := 0;
      }
    }
  }

  // ---- any number of overlapping calls -----------------------------------

  datatype Event = Start(id: nat, at: real) | Fail(id: nat, at: real) | Succeed(id: nat, at: real)

  // What a step did to the success count: restarted it, added to it, or completed it.
  datatype Mark = Restarted | Counted | ClosedNow | Untouched

  datatype System = System(breaker: State, inFlight: map<nat, Mode>, now: real, marks: seq<Mark>)

  predicate Enabled(sys: System, e: Event) {
    sys.now <= e.at && (e.Start? <==> e.id !in sys.inFlight)
  }

  function MarkOf(cfg: Config, sys: System, e: Event): Mark
    requires Enabled(sys, e)
  {
    match e
    case Start(_, at) => if sys.breaker.mode.Open? && TimeoutElapsed(cfg, sys.breaker, at) then Restarted else Untouched
    case Fail(_, _) => Untouched
    case Succeed(id, _) =>
      if sys.inFlight[id].HalfOpen? || sys.breaker.mode.HalfOpen? then
        if sys.breaker.successes + 1 >= cfg.successThreshold then ClosedNow else Counted
      else Untouched
  }

  function Next(cfg: Config, sys: System, e: Event): System
    requires Enabled(sys, e)
  {
    var marks := sys.marks + [MarkOf(cfg, sys, e)];
    match e
    case Start(id, at) =>
      var (b, admitted) := Begin(cfg, sys.breaker, at);
      System(b, if admitted.Some? then sys.inFlight[id := admitted.value] else sys.inFlight, at, marks)
    case Fail(id, at) => System(OnFailure(cfg, sys.breaker, at), sys.inFlight - {id}, at, marks)
    case Succeed(id, at) => System(OnSuccess(cfg, sys.breaker, sys.inFlight[id]), sys.inFlight - {id}, at, marks)
  }

  // The system after a run of enabled events, from a fresh breaker at time zero.
  function Play(cfg: Config, events: seq<Event>): Option<System> {
    if events == [] then Some(System(FRESH, map[], 0.0, []))
    else
      var n := |events| - 1;
      var before := Play(cfg, events[..n]);
      if before.Some? && Enabled(before.value, events[n]) then Some(Next(cfg, before.value, events[n])) else None
  }

  function LastFail(events: seq<Event>): Option<real> {
    if events == [] then None
    else
      var e := events[|events| - 1];
      if e.Fail? then Some(e.at) else LastFail(events[..|events| - 1])
  }

  // Counted successes since the count was last restarted or completed.
  function CountedSince(marks: seq<Mark>): nat {
    if marks == [] then 0
    else
      var before := CountedSince(marks[..|marks| - 1]);
      match marks[|marks| - 1]
      case Restarted => 0
      case ClosedNow => 0
      case Counted => before + 1
      case Untouched => before
  }

  ghost predicate Usable(cfg: Config) {
    cfg.failureThreshold >= 1 && cfg.successThreshold >= 1
  }

  ghost predicate StateSafe(cfg: Config, s: State, lastFail: Option<real>, counted: nat) {
    && (s.mode.Closed? ==> s.failures < cfg.failureThreshold)
    && s.successes == counted < cfg.successThreshold
    && s.lastFailure == lastFail
    && (!s.mode.Closed? ==> lastFail.Some?)
  }

  // Each close came with exactly the threshold of successes since the last restart.
  ghost predicate ClosesEarned(cfg: Config, marks: seq<Mark>) {
    forall i :: 0 <= i < |marks| && marks[i].ClosedNow? ==> CountedSince(marks[..i]) + 1 == cfg.successThreshold
  }

  ghost predicate Safe(cfg: Config, events: seq<Event>, sys: System) {
    && StateSafe(cfg, sys.breaker, LastFail(events), CountedSince(sys.marks))
    && |sys.marks| == |events|
    && ClosesEarned(cfg, sys.marks)
  }

  lemma CountedSnoc(marks: seq<Mark>, m: Mark)
    ensures CountedSince(marks + [m]) == match m
                                         case Restarted => 0
                                         case ClosedNow => 0
                                         case Counted => CountedSince(marks) + 1
                                         case Untouched => CountedSince(marks)
  {
    assert (marks + [m])[..|marks|] == marks;
  }

  lemma StateSafeNext(cfg: Config, sys: System, e: Event, lastFail: Option<real>)
    requires Usable(cfg) && Enabled(sys, e)
    requires StateSafe(cfg, sys.breaker, lastFail, CountedSince(sys.marks))
    ensures StateSafe(cfg, Next(cfg, sys, e).breaker, if e.Fail? then Some(e.at) else lastFail,
                      CountedSince(Next(cfg, sys, e).marks))
    ensures MarkOf(cfg, sys, e).ClosedNow? ==> CountedSince(sys.marks) + 1 == cfg.successThreshold
  {
    CountedSnoc(sys.marks, MarkOf(cfg, sys, e));
  }

  lemma ClosesEarnedSnoc(cfg: Config, marks: seq<Mark>, m: Mark)
    requires ClosesEarned(cfg, marks) && (m.ClosedNow? ==> CountedSince(marks) + 1 == cfg.successThreshold)
    ensures ClosesEarned(cfg, marks + [m])
  {
    forall i | 0 <= i < |marks + [m]| && (marks + [m])[i].ClosedNow?
      ensures CountedSince((marks + [m])[..i]) + 1 == cfg.successThreshold
    {
      assert (marks + [m])[..i] == marks[..i];
      assert marks[..|marks|] == marks;
    }
  }

  lemma {:induction false} OverlappingCallsSafe(cfg: Config, events: seq<Event>)
    requires Usable(cfg) && Play(cfg, events).Some?
    ensures Safe(cfg, events, Play(cfg, events).value)
  {
    if events != [] {
      var n := |events| - 1;
      var before := Play(cfg, events[..n]).value;
      OverlappingCallsSafe(cfg, events[..n]);
      StateSafeNext(cfg, before, events[n], LastFail(events[..n]));
      ClosesEarnedSnoc(cfg, before.marks, MarkOf(cfg, before, events[n]));
    }
  }

  // A call is turned away exactly when the circuit is open and the last failed call
  // of the whole run ended less than the timeout ago.
  lemma AdmissionExact(cfg: Config, events: seq<Event>, id: nat, at: real)
    requires Usable(cfg) && Play(cfg, events).Some? && Enabled(Play(cfg, events).value, Start(id, at))
    ensures var sys := Play(cfg, events).value;
            id !in Next(cfg, sys, Start(id, at)).inFlight <==>
            sys.breaker.mode.Open? && LastFail(events).Some? && at - LastFail(events).value < cfg.timeout
  {
    OverlappingCallsSafe(cfg, events);
  }

  // While the circuit is open, the success of an older call closes it exactly when that call ran
  // half-open and is the last success needed.
  lemma OpenClosesIff(cfg: Config, sys: System, id: nat, at: real)
    requires Enabled(sys, Succeed(id, at)) && sys.breaker.mode.Open?
    ensures Next(cfg, sys, Succeed(id, at)).breaker.mode.Closed? <==>
            sys.inFlight[id].HalfOpen? && sys.breaker.successes + 1 >= cfg.successThreshold
  {}

  lemma PlaySnoc(cfg: Config, events: seq<Event>, e: Event)
    requires Play(cfg, events).Some? && Enabled(Play(cfg, events).value, e)
    ensures Play(cfg, events + [e]) == Some(Next(cfg, Play(cfg, events).value, e))
  {
    assert (events + [e])[..|events|] == events;
  }

  // Such a run exists: the circuit closes straight from open, with no new probe.
  lemma OpenCanCloseDirectly() returns (cfg: Config, events: seq<Event>, e: Event)
    ensures Usable(cfg) && Play(cfg, events).Some? && Enabled(Play(cfg, events).value, e)
    ensures Play(cfg, events).value.breaker.mode.Open?
    ensures Next(cfg, Play(cfg, events).value, e).breaker.mode.Closed?
  {
    cfg := Config(1, 60.0, 1);
    events := [];
    var steps := [Start(0, 0.0), Fail(0, 0.0), Start(1, 60.0), Start(2, 60.0), Fail(1, 60.0)];
    PlaySnoc(cfg, events, steps[0]);
    events := events + [steps[0]];
    PlaySnoc(cfg, events, steps[1]);
    events := events + [steps[1]];
    PlaySnoc(cfg, events, steps[2]);
    events := events + [steps[2]];
    PlaySnoc(cfg, events, steps[3]);
    events := events + [steps[3]];
    PlaySnoc(cfg, events, steps[4]);
    events := events + [steps[4]];
    e := Succeed(2, 60.0);
  }

  // ---- one call at a time --------------------------------------------------

  // A call attempted at `at`; if admitted it ends at `until`, with or without an exception.
  datatype Attempt = Attempt(ok: bool, at: real, until: real)

  function Try(cfg: Config, s: State, a: Attempt): State {
    var (t, admitted) := Begin(cfg, s, a.at);
    if admitted.None? then t
    else if a.ok then OnSuccess(cfg, t, admitted.value)
    else OnFailure(cfg, t, a.until)
  }

  function TryAll(cfg: Config, attempts: seq<Attempt>): State {
    if attempts == [] then FRESH
    else Try(cfg, TryAll(cfg, attempts[..|attempts| - 1]), attempts[|attempts| - 1])
  }

  // The results of the admitted calls, in order.
  function Outcomes(cfg: Config, attempts: seq<Attempt>): seq<bool> {
    if attempts == [] then []
    else
      var n := |attempts| - 1;
      Outcomes(cfg, attempts[..n]) +
      (if Begin(cfg, TryAll(cfg, attempts[..n]), attempts[n].at).1.Some? then [attempts[n].ok] else [])
  }

  function TrailingRun(o: seq<bool>, b: bool): nat {
    if o == [] || o[|o| - 1] != b then 0 else 1 + TrailingRun(o[..|o| - 1], b)
  }

  // The specification looks at outcomes only: enough failures in a row trip it, and
  // enough successes in a row restore it.
  predicate Tripped(cfg: Config, o: seq<bool>) {
    if o == [] then false
    else if o[|o| - 1] then Tripped(cfg, o[..|o| - 1]) && TrailingRun(o, true) < cfg.successThreshold
    else Tripped(cfg, o[..|o| - 1]) || TrailingRun(o, false) >= cfg.failureThreshold
  }

  // What the state says about the outcomes so far.
  ghost predicate Matches(cfg: Config, s: State, o: seq<bool>) {
    && (s.mode.Closed? <==> !Tripped(cfg, o))
    && (s.mode.Closed? ==> s.failures == TrailingRun(o, false) && s.successes == 0)
    && (s.mode.Open? <==> Tripped(cfg, o) && !o[|o| - 1])
    && (s.mode.HalfOpen? ==> s.successes == TrailingRun(o, true))
  }

  lemma OutcomeSnoc(cfg: Config, o: seq<bool>, ok: bool)
    ensures forall b :: TrailingRun(o + [ok], b) == if ok == b then 1 + TrailingRun(o, b) else 0
    ensures Tripped(cfg, o + [ok]) == if ok then Tripped(cfg, o) && 1 + TrailingRun(o, true) < cfg.successThreshold
                                      else Tripped(cfg, o) || 1 + TrailingRun(o, false) >= cfg.failureThreshold
  {
    assert (o + [ok])[..|o|] == o;
  }

  lemma AttemptMatches(cfg: Config, s: State, o: seq<bool>, a: Attempt)
    requires Usable(cfg) && Matches(cfg, s, o)
    ensures Matches(cfg, Try(cfg, s, a), if Begin(cfg, s, a.at).1.Some? then o + [a.ok] else o)
  {
    OutcomeSnoc(cfg, o, a.ok);
  }

  lemma {:induction false} SequentialRefinesHistory(cfg: Config, attempts: seq<Attempt>)
    requires Usable(cfg)
    ensures Matches(cfg, TryAll(cfg, attempts), Outcomes(cfg, attempts))
  {
    if attempts != [] {
      var n := |attempts| - 1;
      SequentialRefinesHistory(cfg, attempts[..n]);
      var o := Outcomes(cfg, attempts[..n]);
      assert o + [] == o;
      AttemptMatches(cfg, TryAll(cfg, attempts[..n]), o, attempts[n]);
    }
  }

  ghost predicate AllAre(o: seq<bool>, from: int, to: int, b: bool) {
    0 <= from <= to <= |o| && forall i :: from <= i < to ==> o[i] == b
  }

  lemma {:induction false} TrailingRunWindow(o: seq<bool>, b: bool, k: nat)
    requires k <= |o|
    ensures TrailingRun(o, b) >= k <==> AllAre(o, |o| - k, |o|, b)
  {
    if k > 0 {
      var n := |o| - 1;
      if o[n] == b {
        TrailingRunWindow(o[..n], b, k - 1);
        if AllAre(o[..n], n - (k - 1), n, b) {
          forall i | |o| - k <= i < |o| ensures o[i] == b { if i < n { assert o[..n][i] == b; } }
        }
      }
    }
  }

  ghost predicate RestoredAt(cfg: Config, o: seq<bool>, j: int) {
    AllAre(o, j - cfg.successThreshold, j, true)
  }

  // Some window of failures tripped it, and no window of successes has followed.
  ghost predicate TrippedAt(cfg: Config, o: seq<bool>, i: int) {
    && AllAre(o, i - cfg.failureThreshold, i, false)
    && (forall j :: i + cfg.successThreshold <= j <= |o| ==> !RestoredAt(cfg, o, j))
  }

  lemma WindowPrefix(o: seq<bool>, from: int, to: int, b: bool)
    requires o != [] && to < |o|
    ensures AllAre(o, from, to, b) <==> AllAre(o[..|o| - 1], from, to, b)
  {
    if 0 <= from <= to {
      assert forall i :: from <= i < to ==> o[..|o| - 1][i] == o[i];
    }
  }

  lemma TrippedAtExtends(cfg: Config, o: seq<bool>, i: int)
    requires o != [] && TrippedAt(cfg, o[..|o| - 1], i)
    requires !RestoredAt(cfg, o, |o|)
    ensures TrippedAt(cfg, o, i)
  {
    var shorter := o[..|o| - 1];
    WindowPrefix(o, i - cfg.failureThreshold, i, false);
    forall j | i + cfg.successThreshold <= j <= |o| ensures !RestoredAt(cfg, o, j) {
      if j < |o| {
        assert !RestoredAt(cfg, shorter, j);
        WindowPrefix(o, j - cfg.successThreshold, j, true);
      }
    }
  }

  lemma TrippedAtRestricts(cfg: Config, o: seq<bool>, i: int)
    requires TrippedAt(cfg, o, i) && i < |o|
    ensures TrippedAt(cfg, o[..|o| - 1], i)
  {
    var shorter := o[..|o| - 1];
    WindowPrefix(o, i - cfg.failureThreshold, i, false);
    forall j | i + cfg.successThreshold <= j <= |shorter| ensures !RestoredAt(cfg, shorter, j) {
      assert !RestoredAt(cfg, o, j);
      WindowPrefix(o, j - cfg.successThreshold, j, true);
    }
  }

  lemma LastFalseNoWindow(cfg: Config, o: seq<bool>, i: int)
    requires Usable(cfg) && TrippedAt(cfg, o, i)
    ensures !RestoredAt(cfg, o, |o|)
  {
    // A window of successes that ends last would otherwise contain the failure at i - 1.
    assert !o[i - 1];
  }

  lemma {:induction false} TrippedIsWindow(cfg: Config, o: seq<bool>)
    requires Usable(cfg)
    ensures Tripped(cfg, o) <==> exists i :: TrippedAt(cfg, o, i)
  {
    if o == [] {
      assert forall i :: !TrippedAt(cfg, o, i);
    } else {
      var f, s, n := cfg.failureThreshold, cfg.successThreshold, |o| - 1;
      TrippedIsWindow(cfg, o[..n]);
      if s <= |o| { TrailingRunWindow(o, true, s); } else { RunWithin(o, true); }
      if f <= |o| { TrailingRunWindow(o, false, f); } else { RunWithin(o, false); }
      if Tripped(cfg, o) {
        if Tripped(cfg, o[..n]) {
          var i :| TrippedAt(cfg, o[..n], i);
          assert !RestoredAt(cfg, o, |o|);
          TrippedAtExtends(cfg, o, i);
        } else {
          assert TrippedAt(cfg, o, |o|);
        }
      }
      if i :| TrippedAt(cfg, o, i) {
        LastFalseNoWindow(cfg, o, i);
        if i < |o| {
          TrippedAtRestricts(cfg, o, i);
        } else {
          assert !o[i - 1];
        }
      }
    }
  }

  lemma {:induction false} RunWithin(o: seq<bool>, b: bool)
    ensures TrailingRun(o, b) <= |o|
  {
    if o != [] {
      RunWithin(o[..|o| - 1], b);
    }
  }
}
