/** Gate replay: the caller approves each reported gate, carries results over, and resubmits. */
module GateReplay {
  import opened Plans
  import opened ExecutionModel
  import opened ExecuteService
  import DagResolver

  function GateIds(graph: seq<PlanStep>): set<string> {
    set s | s in graph && s.gateId.Some? :: s.gateId.value
  }

  // One submission: what it was given, whether it started, where it ended, what it left, what it said.
  datatype Round = Round(preview: Preview, started: bool, levels: seq<seq<PlanStep>>, end: Ending, last: Ctx, outcome: Outcome)

  ghost predicate RoundOk(graph: seq<PlanStep>, r: Round) {
    && TraceOk(graph, r.preview, r.last.trace) && AtMostOnce(r.last.trace)
    && (r.started ==> Concluded(graph, r.preview, r.levels, r.end, r.last, r.outcome))
    && (!r.started ==> r.outcome.Error?)
  }

  // The result of step `n` is among these and the caller carries results like it.
  predicate Kept(keeps: StepResult -> bool, partial: Results, n: int) {
    n in partial && keeps(partial[n])
  }

  // A planned step whose carried key is not also a gate id.
  ghost predicate Carriable(graph: seq<PlanStep>, n: int) {
    n in Ids(graph) && n >= 1 && CarriedKey(n) !in GateIds(graph)
  }

  // Step `n` had a result when this round stopped, and the caller carries it.
  ghost predicate Reported(graph: seq<PlanStep>, keeps: StepResult -> bool, r: Round, n: int) {
    r.outcome.ApprovalRequired? && Kept(keeps, r.outcome.partial, n) && Carriable(graph, n)
  }

  // Every step that some round reported is carried in this preview state.
  ghost predicate AllCarried(graph: seq<PlanStep>, keeps: StepResult -> bool, history: seq<Round>, preview: Preview) {
    forall i, n :: 0 <= i < |history| && Reported(graph, keeps, history[i], n) ==> CarriedKey(n) in preview
  }

  // No round's level loop dispatches a step that an earlier round reported.
  ghost predicate NoRepeats(graph: seq<PlanStep>, keeps: StepResult -> bool, history: seq<Round>) {
    forall i, j, n :: 0 <= i < j < |history| && Reported(graph, keeps, history[i], n) ==> LevelRuns(history[j].last.trace, n) == 0
  }

  lemma TracePrefix(graph: seq<PlanStep>, preview: Preview, trace: seq<TraceEvent>, m: nat)
    requires TraceOk(graph, preview, trace) && m <= |trace|
    ensures TraceOk(graph, preview, trace[..m])
  {
    forall i | 0 <= i < m ensures Tied(trace[..m], i) {
      assert Tied(trace, i);
    }
  }

  lemma {:induction false} CarriedNotRun(graph: seq<PlanStep>, preview: Preview, trace: seq<TraceEvent>, n: StepId)
    requires TraceOk(graph, preview, trace) && CarriedKey(n) in preview
    ensures LevelRuns(trace, n) == 0
  {
    if trace != [] {
      var m := |trace| - 1;
      assert EventOk(graph, preview, trace[m]);
      TracePrefix(graph, preview, trace, m);
      CarriedNotRun(graph, preview, trace[..m], n);
    }
  }

  lemma NoRepeatsSnoc(graph: seq<PlanStep>, keeps: StepResult -> bool, history: seq<Round>, r: Round)
    requires NoRepeats(graph, keeps, history) && AllCarried(graph, keeps, history, r.preview)
    requires TraceOk(graph, r.preview, r.last.trace)
    ensures NoRepeats(graph, keeps, history + [r])
  {
    forall i, n | 0 <= i < |history| && Reported(graph, keeps, history[i], n) ensures LevelRuns(r.last.trace, n) == 0 {
      CarriedNotRun(graph, r.preview, r.last.trace, n);
    }
  }

  ghost predicate KeepsApprovals(graph: seq<PlanStep>, before: Preview, after: Preview) {
    forall g :: g in GateIds(graph) && Approved(before, g) ==> Approved(after, g)
  }

  ghost predicate ApprovedSince(graph: seq<PlanStep>, first: Preview, preview: Preview, reported: set<string>) {
    && reported <= GateIds(graph) && KeepsApprovals(graph, first, preview)
    && forall g :: g in reported ==> Approved(preview, g) && !Approved(first, g)
  }

  lemma ApprovedNext(graph: seq<PlanStep>, first: Preview, preview: Preview, reported: set<string>, g: string, next: Preview)
    requires ApprovedSince(graph, first, preview, reported) && g in GateIds(graph) && !Approved(preview, g)
    requires KeepsApprovals(graph, preview, next) && Approved(next, g)
    ensures g !in reported && ApprovedSince(graph, first, next, reported + {g})
  {}

  // A round that reports a gate stopped for a fault of its last level.
  lemma Stopped(graph: seq<PlanStep>, r: Round)
    requires RoundOk(graph, r) && r.outcome.ApprovalRequired?
    ensures r.started && 0 < r.end.reached <= |r.levels|
    ensures r.end.fault == Some(Gate(r.outcome.gateId, r.outcome.step, r.outcome.partial))
    ensures BlamedAt(graph, r.preview, r.levels, r.end.reached - 1, r.end.fault.value, r.last)
  {}

  // What a reported gate says about the plan and about the results that come with it.
  lemma GateFacts(graph: seq<PlanStep>, preview: Preview, levels: seq<seq<PlanStep>>, k: nat, fault: Fault, c: Ctx)
    requires k < |levels| && fault.Gate? && BlamedAt(graph, preview, levels, k, fault, c)
    requires DagResolver.Layered(graph, levels)
    ensures fault.gateId in GateIds(graph) && !Approved(preview, fault.gateId)
    ensures fault.partial.Keys * Ids(graph) == ReadyBy(preview, levels, k)
  {
    var s, f :| BlamedOn(graph, preview, ReadyBy(preview, levels, k), levels[k], fault, c, s, f);
    InLevels(graph, levels, k, s);
  }

  // The gate that stops a round belongs to the plan and was not approved in that round.
  lemma ReportedIsNew(graph: seq<PlanStep>, r: Round)
    requires RoundOk(graph, r) && r.outcome.ApprovalRequired?
    ensures r.outcome.gateId in GateIds(graph) && !Approved(r.preview, r.outcome.gateId)
  {
    Stopped(graph, r);
    GateFacts(graph, r.preview, r.levels, r.end.reached - 1, r.end.fault.value, r.last);
  }

  lemma InLevels(graph: seq<PlanStep>, levels: seq<seq<PlanStep>>, k: nat, s: PlanStep)
    requires DagResolver.Layered(graph, levels) && k < |levels| && s in levels[k]
    ensures s in graph
  {
    var j :| 0 <= j < |levels[k]| && levels[k][j] == s;
    DagResolver.FlattenHas(levels, k, j);
    DagResolver.LayeredHas(graph, levels, s);
  }

  // What holds between rounds: the reported gates are the plan's, were not approved at first and
  // are now, and every round stopped at one of them.
  ghost predicate Resubmitted(graph: seq<PlanStep>, first: Preview, keeps: StepResult -> bool, preview: Preview,
                              reported: set<string>, history: seq<Round>) {
    && ApprovedSince(graph, first, preview, reported) && |history| == |reported|
    && (forall i :: 0 <= i < |history| ==> RoundOk(graph, history[i]) && history[i].outcome.ApprovalRequired?)
    && AllCarried(graph, keeps, history, preview) && NoRepeats(graph, keeps, history)
  }

  // `next` has the new approval, what was there before, and the carried keys.
  lemma ResubmittedNext(graph: seq<PlanStep>, first: Preview, keeps: StepResult -> bool, preview: Preview,
                        reported: set<string>, history: seq<Round>, r: Round, next: Preview)
    requires Resubmitted(graph, first, keeps, preview, reported, history)
    requires r.preview == preview && RoundOk(graph, r) && r.outcome.ApprovalRequired?
    requires Approved(next, r.outcome.gateId) && KeepsApprovals(graph, preview, next) && preview.Keys <= next.Keys
    requires KeptKeys(keeps, r.outcome.partial) - GateIds(graph) <= next.Keys
    ensures r.outcome.gateId in GateIds(graph) - reported
    ensures Resubmitted(graph, first, keeps, next, reported + {r.outcome.gateId}, history + [r])
  {
    ReportedIsNew(graph, r);
    ApprovedNext(graph, first, preview, reported, r.outcome.gateId, next);
    NoRepeatsSnoc(graph, keeps, history, r);
    AllCarriedNext(graph, keeps, history, r, next);
  }

  lemma AllCarriedNext(graph: seq<PlanStep>, keeps: StepResult -> bool, history: seq<Round>, r: Round, next: Preview)
    requires AllCarried(graph, keeps, history, r.preview) && r.outcome.ApprovalRequired?
    requires r.preview.Keys <= next.Keys && KeptKeys(keeps, r.outcome.partial) - GateIds(graph) <= next.Keys
    ensures AllCarried(graph, keeps, history + [r], next)
  {
    forall n | Reported(graph, keeps, r, n) ensures CarriedKey(n) in next {
      assert CarriedKey(n) in KeptKeys(keeps, r.outcome.partial);
    }
  }

  // The caller approves each reported gate and resubmits with the results it keeps; the
  // repository's own caller keeps the completed ones. Every round that stops reports a new gate
  // of the plan, so the rounds are bounded; no step whose result was kept is dispatched again in
  // any later round; and what is dispatched again is known exactly.
  method Replay(graph: seq<PlanStep>, first: Preview, keeps: StepResult -> bool)
    returns (outcome: Outcome, rounds: nat, ghost reported: set<string>, ghost history: seq<Round>)
    ensures !outcome.ApprovalRequired?
    ensures rounds == |reported| <= |GateIds(graph)|
    ensures forall g :: g in reported ==> g in GateIds(graph) && !Approved(first, g)
    ensures |history| == rounds + 1 && history[rounds].outcome == outcome
    ensures forall i :: 0 <= i < rounds ==> history[i].outcome.ApprovalRequired?
    ensures forall i :: 0 <= i < |history| ==> RoundOk(graph, history[i])
    ensures NoRepeats(graph, keeps, history)
    ensures forall i :: 0 <= i < rounds ==> RepeatsExplained(graph, keeps, history[i], history[i + 1])
  {
    var preview := first;
    rounds, reported, history := 0, {}, [];
    while true
      invariant Resubmitted(graph, first, keeps, preview, reported, history) && rounds == |reported|
      decreases GateIds(graph) - reported
    {
      ghost var round;
      outcome, round := Submit(graph, preview);
      if !outcome.ApprovalRequired? {
        DagResolver.SubsetCardinality<string>(reported, GateIds(graph));
        NoRepeatsSnoc(graph, keeps, history, round);
        history := history + [round];
        AllRepeatsExplained(graph, keeps, history);
        return;
      }
      var added: Preview := *;
      var content: nat := *;
      var next := Resubmit(graph, preview, outcome.gateId, Carry(keeps, outcome.partial) + added, content);
      ResubmittedNext(graph, first, keeps, preview, reported, history, round, next);
      preview := next;
      rounds, reported, history := rounds + 1, reported + {outcome.gateId}, history + [round];
    }
  }

  // One run of a fresh service.
  method Submit(graph: seq<PlanStep>, preview: Preview) returns (outcome: Outcome, ghost round: Round)
    ensures round.preview == preview && round.outcome == outcome && RoundOk(graph, round)
  {
    var service := new ExecuteService(graph, preview);
    var tokenValid: bool, expired: bool := *, *;
    ghost var levels, end;
    outcome, levels, end := service.ExecutePlan(tokenValid, expired);
    round := Round(preview, CanStart(graph, tokenValid, expired), levels, end, service.Now(), outcome);
  }

  function KeptKeys(keeps: StepResult -> bool, partial: Results): set<string> {
    set n | n in partial && n >= 1 && keeps(partial[n]) :: CarriedKey(n)
  }

  // A key for every kept result, with some value.
  function Carry(keeps: StepResult -> bool, partial: Results): (carried: Preview)
    ensures carried.Keys == KeptKeys(keeps, partial)
  {
    map key | key in KeptKeys(keeps, partial) :: Value(true, true, 0)
  }

  // The preview state of the next round: carried values, which do not reuse a gate id, and the new approval.
  function Resubmit(graph: seq<PlanStep>, preview: Preview, gateId: string, carried: Preview, content: nat): (next: Preview)
    ensures Approved(next, gateId)
    ensures KeepsApprovals(graph, preview, next)
    ensures preview.Keys + (carried.Keys - GateIds(graph)) <= next.Keys
  {
    (preview + (carried - GateIds(graph)))[gateId := Value(true, true, content)]
  }

  // ---- what runs again -----------------------------------------------------------

  // Gate ids do not look like the keys of previews and carried results.
  ghost predicate PlainGates(graph: seq<PlanStep>) {
    forall s :: s in graph ==> CarriedKey(s.step) !in GateIds(graph) && Decimal(s.step) !in GateIds(graph)
  }

  // The next submission has the kept results of this round, as values that can be stored, and
  // otherwise, gate ids apart, what this round had.
  ghost predicate Resumes(graph: seq<PlanStep>, keeps: StepResult -> bool, a: Round, next: Preview) {
    && PlainGates(graph) && a.outcome.ApprovalRequired?
    && next.Keys - GateIds(graph) == a.preview.Keys + KeptKeys(keeps, a.outcome.partial) - GateIds(graph)
    && forall key :: key in next.Keys - GateIds(graph) ==>
         if key in KeptKeys(keeps, a.outcome.partial) then next[key].storable else key in a.preview && next[key] == a.preview[key]
  }

  // Adding nothing but the kept results resumes.
  lemma PlainResubmitResumes(graph: seq<PlanStep>, keeps: StepResult -> bool, r: Round, content: nat)
    requires RoundOk(graph, r) && r.outcome.ApprovalRequired? && PlainGates(graph)
    ensures Resumes(graph, keeps, r, Resubmit(graph, r.preview, r.outcome.gateId, Carry(keeps, r.outcome.partial), content))
  {
    ReportedIsNew(graph, r);
  }

  // Dispatched by the level loops of both rounds.
  ghost predicate Redone(a: Round, b: Round, n: int) {
    LevelRuns(a.last.trace, n) > 0 && LevelRuns(b.last.trace, n) > 0
  }

  // The levels this round dispatched, and the last of them.
  function UpTo(r: Round): seq<PlanStep> {
    DagResolver.Flatten(if r.end.reached <= |r.levels| then r.levels[..r.end.reached] else [])
  }

  function LastLevel(r: Round): seq<PlanStep> {
    if 0 < r.end.reached <= |r.levels| then r.levels[r.end.reached - 1] else []
  }

  // The caller keeps every planned result this round reported.
  ghost predicate AllKept(graph: seq<PlanStep>, keeps: StepResult -> bool, r: Round) {
    r.outcome.ApprovalRequired? && forall n :: n in r.outcome.partial && n in Ids(graph) ==> Kept(keeps, r.outcome.partial, n)
  }

  // Both rounds dispatch exactly the due steps of the first whose result was not kept, as far
  // as the second gets. If every planned result was kept the second gets at least as far, and
  // these are exactly the due steps of the level at which the first stopped.
  ghost predicate RepeatsExplained(graph: seq<PlanStep>, keeps: StepResult -> bool, a: Round, b: Round) {
    b.started && Resumes(graph, keeps, a, b.preview) ==>
      && (forall n :: Redone(a, b, n) <==>
            n in Due(a.preview, UpTo(a)) && !Kept(keeps, a.outcome.partial, n) && n in Ids(UpTo(b)))
      && (AllKept(graph, keeps, a) ==>
            && a.end.reached <= b.end.reached
            && forall n :: Redone(a, b, n) <==> n in Due(a.preview, LastLevel(a)))
  }

  lemma KeptKeyIff(keeps: StepResult -> bool, partial: Results, n: StepId)
    ensures CarriedKey(n) in KeptKeys(keeps, partial) <==> Kept(keeps, partial, n)
  {
    if CarriedKey(n) in KeptKeys(keeps, partial) {
      var m: int :| m in partial && m >= 1 && keeps(partial[m]) && CarriedKey(m) == CarriedKey(n);
      var length := |"completed_step_"|;
      assert CarriedKey(m)[length..] == Decimal(m) && CarriedKey(n)[length..] == Decimal(n);
      DecimalParses(m);
      DecimalParses(n);
    }
  }

  // The next round skips a step exactly if this one did or its result was kept.
  lemma SkipNext(graph: seq<PlanStep>, keeps: StepResult -> bool, a: Round, next: Preview, s: PlanStep)
    requires Resumes(graph, keeps, a, next) && s in graph
    ensures Skippable(next, s) <==> Skippable(a.preview, s) || Kept(keeps, a.outcome.partial, s.step)
  {
    KeptKeyIff(keeps, a.outcome.partial, s.step);
    var key := CarriedKey(s.step);
    assert key in next.Keys - GateIds(graph) <==> key in next;
    assert key in a.preview.Keys + KeptKeys(keeps, a.outcome.partial) - GateIds(graph) <==>
           key in a.preview || key in KeptKeys(keeps, a.outcome.partial);
  }

  lemma StorableNext(graph: seq<PlanStep>, keeps: StepResult -> bool, a: Round, next: Preview, s: PlanStep)
    requires Resumes(graph, keeps, a, next) && s in graph && !Malformed(a.preview, s)
    ensures !Malformed(next, s)
  {
    var key := if s.executeMode == Some(PreviewOnly) then Decimal(s.step) else CarriedKey(s.step);
    if key in next {
      assert key in next.Keys - GateIds(graph);
    }
  }

  // ---- two rounds on the same levels ----

  lemma InPrefix(levels: seq<seq<PlanStep>>, m: nat, s: PlanStep) returns (k: nat)
    requires m <= |levels| && s in DagResolver.Flatten(levels[..m])
    ensures k < m && s in levels[k]
  {
    var j;
    k, j := DagResolver.InFlatten(levels[..m], s);
  }

  lemma HasPrefix(levels: seq<seq<PlanStep>>, m: nat, k: nat, s: PlanStep)
    requires k < m <= |levels| && s in levels[k]
    ensures s in DagResolver.Flatten(levels[..m])
  {
    var j :| 0 <= j < |levels[k]| && levels[k][j] == s;
    assert levels[..m][k][j] == s;
    DagResolver.FlattenHas(levels[..m], k, j);
  }

  lemma SamePrefix(graph: seq<PlanStep>, levels: seq<seq<PlanStep>>, others: seq<seq<PlanStep>>, m: nat, n: nat, s: PlanStep)
    requires DagResolver.Layered(graph, levels) && DagResolver.Layered(graph, others)
    requires m <= |levels| && m <= n <= |others| && s in DagResolver.Flatten(levels[..m])
    ensures s in DagResolver.Flatten(others[..n])
  {
    var k := InPrefix(levels, m, s);
    DagResolver.SameLevel(graph, levels, others, k, s);
    HasPrefix(others, n, k, s);
  }

  lemma UpToInGraph(graph: seq<PlanStep>, r: Round, s: PlanStep)
    requires RoundOk(graph, r) && r.started && s in UpTo(r)
    ensures s in graph
  {
    var k := InPrefix(r.levels, r.end.reached, s);
    InLevels(graph, r.levels, k, s);
  }

  lemma DueHas(preview: Preview, steps: seq<PlanStep>, n: int) returns (s: PlanStep)
    requires n in Due(preview, steps)
    ensures s in steps && !Skippable(preview, s) && s.step == n
  {
    s :| s in steps && !Skippable(preview, s) && s.step as int == n;
  }

  // Which steps both rounds dispatch.
  lemma RedoneIff(graph: seq<PlanStep>, keeps: StepResult -> bool, a: Round, b: Round, n: int)
    requires RoundOk(graph, a) && RoundOk(graph, b) && b.started && Resumes(graph, keeps, a, b.preview)
    ensures Redone(a, b, n) <==> n in Due(a.preview, UpTo(a)) && !Kept(keeps, a.outcome.partial, n) && n in Ids(UpTo(b))
  {
    assert Redone(a, b, n) <==> n in Due(a.preview, UpTo(a)) && n in Due(b.preview, UpTo(b));
    if n in Due(a.preview, UpTo(a)) && n in Ids(UpTo(b)) {
      var s := DueHas(a.preview, UpTo(a), n);
      var i :| 0 <= i < |UpTo(b)| && UpTo(b)[i].step == n;
      var t := UpTo(b)[i];
      UpToInGraph(graph, a, s);
      UpToInGraph(graph, b, t);
      SameStep(graph, s, t);
      SkipNext(graph, keeps, a, b.preview, s);
      if n in Due(b.preview, UpTo(b)) {
        var u := DueHas(b.preview, UpTo(b), n);
        UpToInGraph(graph, b, u);
        SameStep(graph, s, u);
      }
    }
    DueWithin(b.preview, UpTo(b));
  }

  // Every planned step of the levels before the stop was kept.
  lemma EarlierKept(graph: seq<PlanStep>, keeps: StepResult -> bool, a: Round, n: int)
    requires RoundOk(graph, a) && AllKept(graph, keeps, a) && n in Ids(graph)
    ensures 0 < a.end.reached <= |a.levels|
    ensures Kept(keeps, a.outcome.partial, n) <==> n in ReadyBy(a.preview, a.levels, a.end.reached - 1)
  {
    Stopped(graph, a);
    GateFacts(graph, a.preview, a.levels, a.end.reached - 1, a.end.fault.value, a.last);
    assert n in a.outcome.partial <==> n in a.outcome.partial.Keys * Ids(graph);
  }

  lemma StepInIds(steps: seq<PlanStep>, s: PlanStep)
    requires s in steps
    ensures s.step as int in Ids(steps)
  {}

  // A step of an earlier level is skipped by the next round.
  lemma EarlierSkipped(graph: seq<PlanStep>, keeps: StepResult -> bool, a: Round, b: Round, k: nat, s: PlanStep)
    requires RoundOk(graph, a) && RoundOk(graph, b) && b.started && Resumes(graph, keeps, a, b.preview) && AllKept(graph, keeps, a)
    requires k + 1 < a.end.reached && k < |b.levels| && s in b.levels[k]
    ensures Skippable(b.preview, s)
  {
    var last := a.end.reached - 1;
    DagResolver.SameLevel(graph, b.levels, a.levels, k, s);
    InLevels(graph, a.levels, k, s);
    HasPrefix(a.levels, last, k, s);
    StepInIds(DagResolver.Flatten(a.levels[..last]), s);
    StepInIds(graph, s);
    EarlierKept(graph, keeps, a, s.step);
    SkipNext(graph, keeps, a, b.preview, s);
  }

  lemma NoneMalformedAgain(graph: seq<PlanStep>, keeps: StepResult -> bool, a: Round, b: Round, k: nat)
    requires RoundOk(graph, a) && RoundOk(graph, b) && b.started && Resumes(graph, keeps, a, b.preview)
    requires k < a.end.reached && k < |b.levels|
    ensures NoneMalformed(b.preview, b.levels[k])
  {
    forall s | s in b.levels[k] ensures !Malformed(b.preview, s) {
      DagResolver.SameLevel(graph, b.levels, a.levels, k, s);
      InLevels(graph, a.levels, k, s);
      HasPrefix(a.levels, a.end.reached, k, s);
      StorableNext(graph, keeps, a, b.preview, s);
    }
  }

  // With all planned results kept nothing stops the next round before that level.
  lemma GetsAsFar(graph: seq<PlanStep>, keeps: StepResult -> bool, a: Round, b: Round)
    requires RoundOk(graph, a) && RoundOk(graph, b) && b.started && Resumes(graph, keeps, a, b.preview) && AllKept(graph, keeps, a)
    ensures a.end.reached <= b.end.reached
  {
    var m := b.end.reached;
    if m < a.end.reached {
      var s := a.levels[a.end.reached - 1][0];
      DagResolver.SameLevel(graph, a.levels, b.levels, a.end.reached - 1, s);
      if b.end.fault.value.BadCarried? {
        NoneMalformedAgain(graph, keeps, a, b, m);
      } else {
        BlamedIsDue(graph, b.preview, b.levels, m - 1, b.end.fault.value, b.last);
        forall t | t in b.levels[m - 1] ensures Skippable(b.preview, t) {
          EarlierSkipped(graph, keeps, a, b, m - 1, t);
        }
      }
    }
  }

  lemma BlamedIsDue(graph: seq<PlanStep>, preview: Preview, levels: seq<seq<PlanStep>>, k: nat, fault: Fault, c: Ctx)
    requires k < |levels| && BlamedAt(graph, preview, levels, k, fault, c)
    ensures exists s :: s in levels[k] && !Skippable(preview, s)
  {
    var s, f :| BlamedOn(graph, preview, ReadyBy(preview, levels, k), levels[k], fault, c, s, f);
  }

  // The due steps so far whose results were not kept are those of the last level.
  lemma NotKeptIff(graph: seq<PlanStep>, keeps: StepResult -> bool, a: Round, k: nat, n: int)
    requires RoundOk(graph, a) && AllKept(graph, keeps, a) && k + 1 == a.end.reached
    ensures n in Due(a.preview, UpTo(a)) && !Kept(keeps, a.outcome.partial, n) <==> n in Due(a.preview, a.levels[k])
  {
    DueNext(a.preview, a.levels, k);
    LevelsApart(a.levels, k);
    DueWithin(a.preview, a.levels[k]);
    DueWithin(a.preview, DagResolver.Flatten(a.levels[..k]));
    if n in Due(a.preview, UpTo(a)) {
      var s := DueHas(a.preview, UpTo(a), n);
      UpToInGraph(graph, a, s);
      StepInIds(graph, s);
      EarlierKept(graph, keeps, a, n);
    }
  }

  lemma StillReached(graph: seq<PlanStep>, a: Round, b: Round, n: int)
    requires RoundOk(graph, a) && RoundOk(graph, b) && a.started && b.started && a.end.reached <= b.end.reached
    requires n in Due(a.preview, UpTo(a))
    ensures n in Ids(UpTo(b))
  {
    var s := DueHas(a.preview, UpTo(a), n);
    SamePrefix(graph, a.levels, b.levels, a.end.reached, b.end.reached, s);
    StepInIds(UpTo(b), s);
  }

  lemma RedoneAtStop(graph: seq<PlanStep>, keeps: StepResult -> bool, a: Round, b: Round, n: int)
    requires RoundOk(graph, a) && RoundOk(graph, b) && b.started && Resumes(graph, keeps, a, b.preview) && AllKept(graph, keeps, a)
    ensures Redone(a, b, n) <==> n in Due(a.preview, LastLevel(a))
  {
    Stopped(graph, a);
    RedoneIff(graph, keeps, a, b, n);
    NotKeptIff(graph, keeps, a, a.end.reached - 1, n);
    GetsAsFar(graph, keeps, a, b);
    if n in Due(a.preview, UpTo(a)) {
      StillReached(graph, a, b, n);
    }
  }

  // Exactly what a resumed round dispatches again.
  lemma StoppedLevelRunsAgain(graph: seq<PlanStep>, keeps: StepResult -> bool, a: Round, b: Round)
    requires RoundOk(graph, a) && RoundOk(graph, b)
    ensures RepeatsExplained(graph, keeps, a, b)
  {
    if b.started && Resumes(graph, keeps, a, b.preview) {
      forall n ensures Redone(a, b, n) <==>
                       n in Due(a.preview, UpTo(a)) && !Kept(keeps, a.outcome.partial, n) && n in Ids(UpTo(b))
      {
        RedoneIff(graph, keeps, a, b, n);
      }
      if AllKept(graph, keeps, a) {
        GetsAsFar(graph, keeps, a, b);
        forall n ensures Redone(a, b, n) <==> n in Due(a.preview, LastLevel(a)) {
          RedoneAtStop(graph, keeps, a, b, n);
        }
      }
    }
  }

  lemma AllRepeatsExplained(graph: seq<PlanStep>, keeps: StepResult -> bool, history: seq<Round>)
    requires forall i :: 0 <= i < |history| ==> RoundOk(graph, history[i])
    ensures forall i :: 0 <= i < |history| - 1 ==> RepeatsExplained(graph, keeps, history[i], history[i + 1])
  {
    forall i | 0 <= i < |history| - 1 ensures RepeatsExplained(graph, keeps, history[i], history[i + 1]) {
      StoppedLevelRunsAgain(graph, keeps, history[i], history[i + 1]);
    }
  }
}
