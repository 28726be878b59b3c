/** What the history of a run tells: why each task ended as it did, and which children were executed. */
module ExecutionHistory {
  import opened Plans
  import opened ExecutionModel

  // ---- what the history says ---------------------------------------------------

  // The policy engine allowed a spawn request.
  predicate Grants(e: TraceEvent) {
    e.Answered? && e.call.SpawnCall? && e.reply.ok && e.reply.allowed
  }

  // It did so without asking for approval, and the child has no gate of its own.
  predicate Clears(e: TraceEvent) {
    Grants(e) && !e.reply.requiresApproval && e.call.child.gateId.None?
  }

  // The children granted to `s` between these points of the history.
  function Kids(trace: seq<TraceEvent>, from: nat, until: nat, s: PlanStep): seq<PlanStep>
    requires until <= |trace|
    decreases until
  {
    if until <= from then []
    else
      Kids(trace, from, until - 1, s) +
      (if Grants(trace[until - 1]) && trace[until - 1].step == s then [trace[until - 1].call.child] else [])
  }

  // All children granted so far.
  function Children(trace: seq<TraceEvent>, until: nat): seq<PlanStep>
    requires until <= |trace|
  {
    if until == 0 then []
    else Children(trace, until - 1) + (if Grants(trace[until - 1]) then [trace[until - 1].call.child] else [])
  }

  // The own call of `s` succeeded at `j`, before `to`.
  ghost predicate Called(trace: seq<TraceEvent>, j: nat, until: nat, s: PlanStep) {
    j < until <= |trace| && trace[j].Answered? && trace[j].step == s && trace[j].call.OwnCall? && trace[j].reply.ok
  }

  // The child is what the request asks for, under its parent.
  ghost predicate FromRequest(req: SpawnRequest, parent: PlanStep, child: PlanStep) {
    && req.wellFormed
    && child.role == req.role && child.kind == req.kind && child.uses == req.uses && child.call == req.call
    && child.after == [parent.step as int] && child.spawnedBy == Some(parent.step as int) && !child.canSpawn
    && child.gateId == if req.role == Booker then Some("gate-spawn-" + Decimal(child.step)) else None
  }

  // A trusted reasoner that may spawn.
  ghost predicate MaySpawn(s: PlanStep) {
    s.kind.LlmReasoning? && s.trustLevel == Some(Trusted) && s.canSpawn
  }

  // A spawning step still has a request to put, the one after those that were granted.
  ghost predicate Wants(trace: seq<TraceEvent>, j: nat, until: nat, s: PlanStep) {
    MaySpawn(s) && Called(trace, j, until, s) && |Kids(trace, j, until, s)| < |trace[j].reply.requests|
  }

  function NextWanted(trace: seq<TraceEvent>, j: nat, until: nat, s: PlanStep): SpawnRequest
    requires Wants(trace, j, until, s)
  {
    trace[j].reply.requests[|Kids(trace, j, until, s)|]
  }

  ghost predicate AsksFor(trace: seq<TraceEvent>, j: nat, until: nat, s: PlanStep, child: PlanStep) {
    Wants(trace, j, until, s) && FromRequest(NextWanted(trace, j, until, s), s, child)
  }

  // The parent has all the children it may have, or the plan is full.
  ghost predicate NoRoom(graph: seq<PlanStep>, trace: seq<TraceEvent>, until: nat, s: PlanStep)
    requires until <= |trace|
  {
    || CountBy(Children(trace, until), s.step) >= (if s.maxSpawned.Some? then s.maxSpawned.value else 3)
    || |graph| + |Children(trace, until)| >= 100
  }

  ghost predicate Refused(graph: seq<PlanStep>, trace: seq<TraceEvent>, j: nat, until: nat, s: PlanStep) {
    Wants(trace, j, until, s) && NoRoom(graph, trace, until, s)
  }

  ghost predicate BadRequest(graph: seq<PlanStep>, trace: seq<TraceEvent>, j: nat, until: nat, s: PlanStep) {
    Wants(trace, j, until, s) && !NoRoom(graph, trace, until, s) && !NextWanted(trace, j, until, s).wellFormed
  }

  // The call returned this content, and a spawning step has had all its requests granted.
  ghost predicate Yields(trace: seq<TraceEvent>, j: nat, until: nat, s: PlanStep, content: nat) {
    && Called(trace, j, until, s) && trace[j].reply.content == content
    && (MaySpawn(s) ==> |Kids(trace, j, until, s)| == |trace[j].reply.requests|)
  }

  ghost predicate FailedCall(e: TraceEvent, s: PlanStep, connected: bool) {
    e.Answered? && e.step == s && !e.reply.ok && e.reply.connected == connected
  }

  ghost predicate Denied(e: TraceEvent, s: PlanStep) {
    e.Answered? && e.step == s && e.call.SpawnCall? && e.reply.ok && !e.reply.allowed
  }

  ghost predicate Shut(preview: Preview, s: PlanStep) {
    s.gateId.Some? && s.gateId.value != "" && !(s.gateId.value in preview && preview[s.gateId.value].truthy)
  }

  ghost predicate StoppedBy(preview: Preview, e: TraceEvent, s: PlanStep, f: Failure) {
    && e.Dispatched? && e.step == s && !e.origin.BySpawn? && Shut(preview, s)
    && f.GateRequired? && s.gateId == Some(f.gateId) && f.step == s.step && f.partial.Keys == e.seen
  }

  // The result is what some child's call returned.
  ghost predicate FromChild(trace: seq<TraceEvent>, n: int, r: StepResult) {
    exists g: nat, child: PlanStep :: child.step == n && ChildAnswer(trace, g, child, r.content) && r.status.Completed?
  }

  // Every result of a spawned step is what some child's call returned.
  ghost predicate ChildResults(graph: seq<PlanStep>, trace: seq<TraceEvent>, results: Results) {
    forall n :: n in results && n > MaxStep(graph) ==> FromChild(trace, n, results[n])
  }

  lemma ChildResultsKept(graph: seq<PlanStep>, trace: seq<TraceEvent>, later: seq<TraceEvent>, results: Results)
    requires ChildResults(graph, trace, results) && trace <= later
    ensures ChildResults(graph, later, results)
  {
    forall n | n in results && n > MaxStep(graph) ensures FromChild(later, n, results[n]) {
      var g: nat, child: PlanStep :| child.step == n && ChildAnswer(trace, g, child, results[n].content);
      assert ChildAnswer(later, g, child, results[n].content);
    }
  }

  // Every event has its reason earlier in the history: a child is dispatched only after a grant
  // that asked for no approval; a child is asked for as the next request of the parent's own
  // call; and a task ends for the reason it gives.
  ghost predicate Grounded(graph: seq<PlanStep>, preview: Preview, trace: seq<TraceEvent>, i: nat)
    requires i < |trace|
  {
    match trace[i]
    case Dispatched(s, origin, _) => origin.BySpawn? ==> exists j: nat :: ClearedAt(trace, j, i, s)
    case Executed(_, _) => true
    case Answered(s, call, _) => call.SpawnCall? ==> exists j: nat :: AsksFor(trace, j, i, s, call.child)
    case Finished(s, Returned(content)) => exists j: nat :: Yields(trace, j, i, s, content)
    case Finished(s, Raised(f)) => Blames(graph, preview, trace, i, s, f)
  }

  ghost predicate ClearedAt(trace: seq<TraceEvent>, j: nat, until: nat, child: PlanStep) {
    j < until <= |trace| && Clears(trace[j]) && trace[j].call.child == child
  }

  ghost predicate Blames(graph: seq<PlanStep>, preview: Preview, trace: seq<TraceEvent>, i: nat, s: PlanStep, f: Failure)
    requires i < |trace|
  {
    match f
    case GateRequired(_, _, partial) => i > 0 && StoppedBy(preview, trace[i - 1], s, f) && ChildResults(graph, trace, partial)
    case NotConnected => i > 0 && FailedCall(trace[i - 1], s, false)
    case SpawnDenied => (i > 0 && Denied(trace[i - 1], s)) || exists j: nat :: Refused(graph, trace, j, i, s)
    case OtherError => (i > 0 && FailedCall(trace[i - 1], s, true)) || exists j: nat :: BadRequest(graph, trace, j, i, s)
  }

  ghost predicate AllGrounded(graph: seq<PlanStep>, preview: Preview, trace: seq<TraceEvent>) {
    forall i: nat {:trigger Grounded(graph, preview, trace, i)} :: i < |trace| ==> Grounded(graph, preview, trace, i)
  }

  ghost predicate FailsAt(trace: seq<TraceEvent>, i: nat, s: PlanStep) {
    i < |trace| && trace[i].Finished? && trace[i].step == s && trace[i].outcome.Raised?
  }

  // And what must follow follows at once: a failed call and a denied request end the task; a
  // dispatched step is executed unless its gate is shut, and then the task ends.
  ghost predicate Heeded(preview: Preview, trace: seq<TraceEvent>, i: nat)
    requires i < |trace|
  {
    match trace[i]
    case Dispatched(s, origin, _) =>
      if Shut(preview, s) then !origin.BySpawn? ==> FailsAt(trace, i + 1, s)
      else i + 1 < |trace| && trace[i + 1] == Executed(s, origin)
    case Answered(s, call, reply) =>
      (!reply.ok || (call.SpawnCall? && !reply.allowed) ==> FailsAt(trace, i + 1, s))
    case _ => true
  }

  ghost predicate AllHeeded(preview: Preview, trace: seq<TraceEvent>) {
    forall i: nat {:trigger Heeded(preview, trace, i)} :: i < |trace| ==> Heeded(preview, trace, i)
  }

  // ---- what stands behind an unfinished task -------------------------------------

  // The call that the task is working off, with `pending` requests put and `rest` still to come.
  ghost predicate Serving(trace: seq<TraceEvent>, j: nat, s: PlanStep, rest: seq<SpawnRequest>, content: nat, pending: nat) {
    && MaySpawn(s) && Called(trace, j, |trace|, s) && trace[j].reply.content == content
    && |Kids(trace, j, |trace|, s)| + pending + |rest| == |trace[j].reply.requests|
    && rest == trace[j].reply.requests[|trace[j].reply.requests| - |rest|..]
  }

  ghost predicate ServesAll(trace: seq<TraceEvent>, s: PlanStep, rest: seq<SpawnRequest>, content: nat) {
    exists j: nat :: Serving(trace, j, s, rest, content, 0)
  }

  ghost predicate ServesAsking(trace: seq<TraceEvent>, j: nat, s: PlanStep, child: PlanStep, rest: seq<SpawnRequest>, content: nat) {
    Serving(trace, j, s, rest, content, 1) && AsksFor(trace, j, |trace|, s, child)
  }

  // The grant of this child said whether it may run.
  ghost predicate GrantedAt(trace: seq<TraceEvent>, g: nat, child: PlanStep, gated: bool) {
    && g < |trace| && Grants(trace[g]) && trace[g].call.child == child
    && (gated <==> !Clears(trace[g]))
  }

  ghost predicate ChildAnswer(trace: seq<TraceEvent>, g: nat, child: PlanStep, content: nat) {
    && g < |trace| && trace[g].Answered? && trace[g].call == ChildCall(child) && trace[g].reply.ok
    && trace[g].reply.content == content
  }

  ghost predicate Backed(trace: seq<TraceEvent>, task: Task) {
    match task
    case Asking(s, child, _, rest, content) => exists j: nat :: ServesAsking(trace, j, s, child, rest, content)
    case Recorded(s, child, gated, rest, content) =>
      ServesAll(trace, s, rest, content) && exists g: nat :: GrantedAt(trace, g, child, gated)
    case ChildRunning(s, _, rest, content) => ServesAll(trace, s, rest, content)
    case ChildReturned(s, child, childContent, rest, content) =>
      ServesAll(trace, s, rest, content) && exists g: nat :: ChildAnswer(trace, g, child, childContent)
    case Finishing(s, content) => exists j: nat :: Yields(trace, j, |trace|, s, content)
    case _ => true
  }

  // ---- the history grows ---------------------------------------------------------

  lemma {:induction false} KidsSame(trace: seq<TraceEvent>, later: seq<TraceEvent>, from: nat, until: nat, s: PlanStep)
    requires until <= |trace| && trace <= later
    ensures Kids(later, from, until, s) == Kids(trace, from, until, s)
    decreases until
  {
    if until > from {
      KidsSame(trace, later, from, until - 1, s);
      assert later[until - 1] == trace[until - 1];
    }
  }

  lemma {:induction false} ChildrenSame(trace: seq<TraceEvent>, later: seq<TraceEvent>, until: nat)
    requires until <= |trace| && trace <= later
    ensures Children(later, until) == Children(trace, until)
  {
    if until > 0 {
      ChildrenSame(trace, later, until - 1);
      assert later[until - 1] == trace[until - 1];
    }
  }

  lemma KidsSnoc(trace: seq<TraceEvent>, e: TraceEvent, from: nat, s: PlanStep)
    requires from <= |trace|
    ensures Kids(trace + [e], from, |trace| + 1, s) ==
            Kids(trace, from, |trace|, s) + (if Grants(e) && e.step == s then [e.call.child] else [])
  {
    KidsSame(trace, trace + [e], from, |trace|, s);
  }

  lemma ChildrenSnoc(trace: seq<TraceEvent>, e: TraceEvent)
    ensures Children(trace + [e], |trace| + 1) == Children(trace, |trace|) + (if Grants(e) then [e.call.child] else [])
  {
    ChildrenSame(trace, trace + [e], |trace|);
  }

  lemma WantsSame(graph: seq<PlanStep>, trace: seq<TraceEvent>, later: seq<TraceEvent>, j: nat, until: nat, s: PlanStep)
    requires until <= |trace| && trace <= later
    ensures Called(later, j, until, s) <==> Called(trace, j, until, s)
    ensures Wants(later, j, until, s) <==> Wants(trace, j, until, s)
    ensures Wants(trace, j, until, s) ==> NextWanted(later, j, until, s) == NextWanted(trace, j, until, s)
    ensures NoRoom(graph, later, until, s) <==> NoRoom(graph, trace, until, s)
    ensures forall content :: Yields(later, j, until, s, content) <==> Yields(trace, j, until, s, content)
  {
    KidsSame(trace, later, j, until, s);
    ChildrenSame(trace, later, until);
    if j < until {
      assert later[j] == trace[j];
    }
  }

  lemma GroundedKept(graph: seq<PlanStep>, preview: Preview, trace: seq<TraceEvent>, later: seq<TraceEvent>, i: nat)
    requires i < |trace| && trace <= later && Grounded(graph, preview, trace, i)
    ensures Grounded(graph, preview, later, i)
  {
    assert later[i] == trace[i];
    assert i > 0 ==> later[i - 1] == trace[i - 1];
    match trace[i]
    case Dispatched(s, origin, _) =>
      if origin.BySpawn? {
        var j: nat :| ClearedAt(trace, j, i, s);
        assert ClearedAt(later, j, i, s);
      }
    case Executed(_, _) =>
    case Answered(s, call, _) =>
      if call.SpawnCall? {
        var j: nat :| AsksFor(trace, j, i, s, call.child);
        WantsSame(graph, trace, later, j, i, s);
        assert AsksFor(later, j, i, s, call.child);
      }
    case Finished(s, Returned(content)) =>
      var j: nat :| Yields(trace, j, i, s, content);
      WantsSame(graph, trace, later, j, i, s);
      assert Yields(later, j, i, s, content);
    case Finished(s, Raised(f)) =>
      BlamesKept(graph, preview, trace, later, i, s, f);
  }

  lemma BlamesKept(graph: seq<PlanStep>, preview: Preview, trace: seq<TraceEvent>, later: seq<TraceEvent>, i: nat,
                   s: PlanStep, f: Failure)
    requires i < |trace| && trace <= later && Blames(graph, preview, trace, i, s, f)
    ensures Blames(graph, preview, later, i, s, f)
  {
    assert i > 0 ==> later[i - 1] == trace[i - 1];
    if f.GateRequired? {
      ChildResultsKept(graph, trace, later, f.partial);
    }
    if j: nat :| Refused(graph, trace, j, i, s) {
      WantsSame(graph, trace, later, j, i, s);
      assert Refused(graph, later, j, i, s);
    }
    if j: nat :| BadRequest(graph, trace, j, i, s) {
      WantsSame(graph, trace, later, j, i, s);
      assert BadRequest(graph, later, j, i, s);
    }
  }

  lemma GroundedSnoc(graph: seq<PlanStep>, preview: Preview, trace: seq<TraceEvent>, e: TraceEvent)
    requires AllGrounded(graph, preview, trace) && Grounded(graph, preview, trace + [e], |trace|)
    ensures AllGrounded(graph, preview, trace + [e])
  {
    forall i: nat | i < |trace| ensures Grounded(graph, preview, trace + [e], i) {
      GroundedKept(graph, preview, trace, trace + [e], i);
    }
  }

  // ---- one segment ---------------------------------------------------------------

  lemma ServingSnoc(trace: seq<TraceEvent>, e: TraceEvent, s: PlanStep, rest: seq<SpawnRequest>, content: nat)
    requires ServesAll(trace, s, rest, content) && !Grants(e)
    ensures ServesAll(trace + [e], s, rest, content)
  {
    var j: nat :| Serving(trace, j, s, rest, content, 0);
    KidsSnoc(trace, e, j, s);
    assert Serving(trace + [e], j, s, rest, content, 0);
  }

  lemma NewChildFromRequest(graph: seq<PlanStep>, spawned: seq<PlanStep>, s: PlanStep, req: SpawnRequest)
    requires req.wellFormed
    ensures FromRequest(req, s, NewChild(graph, spawned, s, req))
  {}

  // The stretch from one request to the next await: the next one is put, or there is a reason not to.
  lemma NextRequestBacked(graph: seq<PlanStep>, preview: Preview, c: Ctx, s: PlanStep, reqs: seq<SpawnRequest>, content: nat)
    requires ServesAll(c.trace, s, reqs, content) && c.spawned == Children(c.trace, |c.trace|)
    ensures var t := NextRequest(graph, c.spawned, s, reqs, content);
            && t.step == s && Backed(c.trace, t)
            && (t.Done? ==> t.outcome.Raised? && Grounded(graph, preview, c.trace + [Finished(s, t.outcome)], |c.trace|))
  {
    var j: nat :| Serving(c.trace, j, s, reqs, content, 0);
    var t := NextRequest(graph, c.spawned, s, reqs, content);
    if reqs == [] {
      assert Yields(c.trace, j, |c.trace|, s, content);
    } else {
      assert NextWanted(c.trace, j, |c.trace|, s) == reqs[0];
      if t.Asking? {
        NewChildFromRequest(graph, c.spawned, s, reqs[0]);
        assert ServesAsking(c.trace, j, s, t.child, reqs[1..], content);
      } else {
        NotPut(graph, preview, c, s, t.outcome.failure, j);
      }
    }
  }

  lemma NotPut(graph: seq<PlanStep>, preview: Preview, c: Ctx, s: PlanStep, f: Failure, j: nat)
    requires (Refused(graph, c.trace, j, |c.trace|, s) && f.SpawnDenied?) || (BadRequest(graph, c.trace, j, |c.trace|, s) && f.OtherError?)
    ensures Grounded(graph, preview, c.trace + [Finished(s, Raised(f))], |c.trace|)
  {
    var later := c.trace + [Finished(s, Raised(f))];
    WantsSame(graph, c.trace, later, j, |c.trace|, s);
    assert f.SpawnDenied? ==> Refused(graph, later, j, |c.trace|, s);
    assert f.OtherError? ==> BadRequest(graph, later, j, |c.trace|, s);
  }

  lemma HeededAppend(preview: Preview, trace: seq<TraceEvent>, block: seq<TraceEvent>)
    requires AllHeeded(preview, trace) && AllHeeded(preview, block)
    ensures AllHeeded(preview, trace + block)
  {
    var all := trace + block;
    forall i: nat | i < |all| ensures Heeded(preview, all, i) {
      if i < |trace| {
        assert Heeded(preview, trace, i);
      } else {
        assert Heeded(preview, block, i - |trace|);
        assert i + 1 < |all| ==> all[i + 1] == block[i + 1 - |trace|];
      }
    }
  }

  // Whatever was answered here was answered to this step's task.
  ghost predicate Own(s: PlanStep, block: seq<TraceEvent>) {
    forall i :: 0 <= i < |block| && block[i].Answered? ==> block[i].step == s
  }

  // What holds of the history and the steps spawned so far.
  ghost predicate Historic(graph: seq<PlanStep>, preview: Preview, c: Ctx) {
    AllGrounded(graph, preview, c.trace) && c.spawned == Children(c.trace, |c.trace|)
  }

  lemma HistoricLog(graph: seq<PlanStep>, preview: Preview, c: Ctx, e: TraceEvent)
    requires Historic(graph, preview, c) && !Grants(e) && Grounded(graph, preview, c.trace + [e], |c.trace|)
    ensures Historic(graph, preview, Log(c, e))
  {
    GroundedSnoc(graph, preview, c.trace, e);
    ChildrenSnoc(c.trace, e);
  }

  ghost predicate Allowed(graph: seq<PlanStep>, preview: Preview, c: Ctx, task: Task) {
    Historic(graph, preview, c) && Backed(c.trace, task)
  }

  lemma ReadyHistory(graph: seq<PlanStep>, preview: Preview, c: Ctx, task: Task, reply: Reply, d: Ctx, next: Task)
    returns (block: seq<TraceEvent>)
    requires (d, next) == Segment(graph, preview, c, task, reply) && Allowed(graph, preview, c, task)
    requires task.Ready? && !task.origin.BySpawn? && ChildResults(graph, c.trace, c.results)
    ensures Allowed(graph, preview, d, next) && d.trace == c.trace + block && AllHeeded(preview, block) && Own(task.step, block)
  {
    var s := task.step;
    var e := Dispatched(s, task.origin, c.results.Keys);
    HistoricLog(graph, preview, c, e);
    var last := if GateOpen(preview, s) then Executed(s, task.origin) else Finished(s, next.outcome);
    ChildResultsKept(graph, c.trace, c.trace + [e] + [last], c.results);
    HistoricLog(graph, preview, Log(c, e), last);
    block := [e, last];
    assert c.trace + [e] + [last] == c.trace + block;
  }

  lemma RunningHistory(graph: seq<PlanStep>, preview: Preview, c: Ctx, task: Task, reply: Reply, d: Ctx, next: Task)
    returns (block: seq<TraceEvent>)
    requires (d, next) == Segment(graph, preview, c, task, reply) && Allowed(graph, preview, c, task) && task.Running?
    ensures Allowed(graph, preview, d, next) && d.trace == c.trace + block && AllHeeded(preview, block) && Own(task.step, block)
  {
    var s := task.step;
    var e := Answered(s, OwnCall, reply);
    var h := Log(c, e);
    HistoricLog(graph, preview, c, e);
    KidsSnoc(c.trace, e, |c.trace|, s);
    if reply.ok && SpawnsChildren(s) {
      assert Serving(h.trace, |c.trace|, s, reply.requests, reply.content, 0);
      NextRequestBacked(graph, preview, h, s, reply.requests, reply.content);
    } else if reply.ok {
      assert Yields(h.trace, |c.trace|, |h.trace|, s, reply.content);
    }
    block := [e];
    if next.Done? {
      HistoricLog(graph, preview, h, Finished(s, next.outcome));
      block := [e, Finished(s, next.outcome)];
      assert c.trace + [e] + [block[1]] == c.trace + block;
    }
  }

  lemma AnswerGrounded(graph: seq<PlanStep>, preview: Preview, c: Ctx, s: PlanStep, child: PlanStep, reply: Reply, j: nat)
    requires AsksFor(c.trace, j, |c.trace|, s, child)
    ensures Grounded(graph, preview, c.trace + [Answered(s, SpawnCall(child), reply)], |c.trace|)
  {
    var later := c.trace + [Answered(s, SpawnCall(child), reply)];
    WantsSame(graph, c.trace, later, j, |c.trace|, s);
    assert AsksFor(later, j, |c.trace|, s, child);
  }

  lemma GrantBacked(trace: seq<TraceEvent>, e: TraceEvent, s: PlanStep, child: PlanStep, rest: seq<SpawnRequest>, content: nat, j: nat)
    requires Serving(trace, j, s, rest, content, 1) && Grants(e) && e.step == s && e.call == SpawnCall(child)
    ensures Backed(trace + [e], Recorded(s, child, e.reply.requiresApproval || child.gateId.Some?, rest, content))
  {
    var later := trace + [e];
    KidsSnoc(trace, e, j, s);
    assert Serving(later, j, s, rest, content, 0);
    assert GrantedAt(later, |trace|, child, e.reply.requiresApproval || child.gateId.Some?);
  }

  lemma DeniedHistory(graph: seq<PlanStep>, preview: Preview, c: Ctx, s: PlanStep, child: PlanStep, reply: Reply, f: Failure)
    returns (block: seq<TraceEvent>)
    requires Historic(graph, preview, c) && Grounded(graph, preview, c.trace + [Answered(s, SpawnCall(child), reply)], |c.trace|)
    requires if !reply.ok then f == ToolError(reply) else !reply.allowed && f.SpawnDenied?
    ensures block == [Answered(s, SpawnCall(child), reply), Finished(s, Raised(f))] && AllHeeded(preview, block)
    ensures Historic(graph, preview, Log(Log(c, block[0]), block[1])) && c.trace + [block[0]] + [block[1]] == c.trace + block
  {
    var e := Answered(s, SpawnCall(child), reply);
    HistoricLog(graph, preview, c, e);
    HistoricLog(graph, preview, Log(c, e), Finished(s, Raised(f)));
    block := [e, Finished(s, Raised(f))];
    assert c.trace + [e] + [block[1]] == c.trace + block;
  }

  lemma GrantHistory(graph: seq<PlanStep>, preview: Preview, c: Ctx, s: PlanStep, child: PlanStep, reply: Reply,
                     rest: seq<SpawnRequest>, content: nat, j: nat)
    requires Historic(graph, preview, c) && ServesAsking(c.trace, j, s, child, rest, content) && reply.ok && reply.allowed
    ensures var e := Answered(s, SpawnCall(child), reply);
            Allowed(graph, preview, Attest(Log(c, e), child),
                    Recorded(s, child, reply.requiresApproval || child.gateId.Some?, rest, content))
  {
    var e := Answered(s, SpawnCall(child), reply);
    AnswerGrounded(graph, preview, c, s, child, reply, j);
    GroundedSnoc(graph, preview, c.trace, e);
    ChildrenSnoc(c.trace, e);
    GrantBacked(c.trace, e, s, child, rest, content, j);
  }

  // What the answer to a spawn request does.
  ghost predicate Decides(c: Ctx, s: PlanStep, child: PlanStep, rest: seq<SpawnRequest>, content: nat, reply: Reply, d: Ctx, next: Task) {
    var h := Log(c, Answered(s, SpawnCall(child), reply));
    if reply.ok && reply.allowed then
      d == Attest(h, child) && next == Recorded(s, child, reply.requiresApproval || child.gateId.Some?, rest, content)
    else
      && next.Done? && next.step == s && next.outcome.Raised? && d == Log(h, Finished(s, next.outcome))
      && next.outcome.failure == if reply.ok then SpawnDenied else ToolError(reply)
  }

  lemma DecisionHistory(graph: seq<PlanStep>, preview: Preview, c: Ctx, s: PlanStep, child: PlanStep, rest: seq<SpawnRequest>,
                        content: nat, reply: Reply, d: Ctx, next: Task)
    returns (block: seq<TraceEvent>)
    requires Historic(graph, preview, c) && Decides(c, s, child, rest, content, reply, d, next)
    requires exists j: nat :: ServesAsking(c.trace, j, s, child, rest, content)
    ensures Allowed(graph, preview, d, next) && d.trace == c.trace + block && AllHeeded(preview, block) && Own(s, block)
  {
    var j: nat :| ServesAsking(c.trace, j, s, child, rest, content);
    if reply.ok && reply.allowed {
      GrantHistory(graph, preview, c, s, child, reply, rest, content, j);
      block := [Answered(s, SpawnCall(child), reply)];
    } else {
      AnswerGrounded(graph, preview, c, s, child, reply, j);
      block := DeniedHistory(graph, preview, c, s, child, reply, next.outcome.failure);
    }
  }

  lemma AskingHistory(graph: seq<PlanStep>, preview: Preview, c: Ctx, task: Task, reply: Reply, d: Ctx, next: Task)
    returns (block: seq<TraceEvent>)
    requires (d, next) == Segment(graph, preview, c, task, reply) && Allowed(graph, preview, c, task) && task.Asking?
    ensures Allowed(graph, preview, d, next) && d.trace == c.trace + block && AllHeeded(preview, block) && Own(task.step, block)
  {
    block := DecisionHistory(graph, preview, c, task.step, task.child, task.rest, task.content, reply, d, next);
  }

  lemma RecordedHistory(graph: seq<PlanStep>, preview: Preview, c: Ctx, task: Task, reply: Reply, d: Ctx, next: Task)
    returns (block: seq<TraceEvent>)
    requires (d, next) == Segment(graph, preview, c, task, reply) && Allowed(graph, preview, c, task) && task.Recorded?
    ensures Allowed(graph, preview, d, next) && d.trace == c.trace + block && AllHeeded(preview, block) && Own(task.step, block)
  {
    if task.gated {
      block := RequestHistory(graph, preview, c, task, d, next, c);
    } else {
      var e, x := Dispatched(task.child, BySpawn, c.results.Keys), Executed(task.child, BySpawn);
      ChildStarts(graph, preview, c, task, e, x);
      block := [e, x];
      assert c.trace + [e] + [x] == c.trace + block;
    }
  }

  lemma ChildStarts(graph: seq<PlanStep>, preview: Preview, c: Ctx, task: Task, e: TraceEvent, x: TraceEvent)
    requires Allowed(graph, preview, c, task) && task.Recorded? && !task.gated
    requires e == Dispatched(task.child, BySpawn, c.results.Keys) && x == Executed(task.child, BySpawn)
    ensures Historic(graph, preview, Log(Log(c, e), x)) && task.child.gateId.None?
    ensures ServesAll(c.trace + [e] + [x], task.step, task.rest, task.content)
  {
    var g: nat :| GrantedAt(c.trace, g, task.child, false);
    assert ClearedAt(c.trace + [e], g, |c.trace|, task.child);
    HistoricLog(graph, preview, c, e);
    ServingSnoc(c.trace, e, task.step, task.rest, task.content);
    HistoricLog(graph, preview, Log(c, e), x);
    ServingSnoc(c.trace + [e], x, task.step, task.rest, task.content);
  }

  // A segment that starts at the next request, in the context `h`.
  lemma RequestHistory(graph: seq<PlanStep>, preview: Preview, c: Ctx, task: Task, d: Ctx, next: Task, h: Ctx)
    returns (block: seq<TraceEvent>)
    requires Historic(graph, preview, h) && h.trace == c.trace && (task.Recorded? || task.ChildReturned?)
    requires ServesAll(h.trace, task.step, task.rest, task.content)
    requires next == NextRequest(graph, h.spawned, task.step, task.rest, task.content)
    requires d == if next.Done? then Log(h, Finished(next.step, next.outcome)) else h
    ensures Allowed(graph, preview, d, next) && d.trace == c.trace + block && AllHeeded(preview, block) && Own(task.step, block)
  {
    NextRequestBacked(graph, preview, h, task.step, task.rest, task.content);
    block := [];
    if next.Done? {
      HistoricLog(graph, preview, h, Finished(next.step, next.outcome));
      block := [Finished(next.step, next.outcome)];
    }
  }

  lemma ChildHistory(graph: seq<PlanStep>, preview: Preview, c: Ctx, task: Task, reply: Reply, d: Ctx, next: Task)
    returns (block: seq<TraceEvent>)
    requires (d, next) == Segment(graph, preview, c, task, reply) && Allowed(graph, preview, c, task) && task.ChildRunning?
    ensures Allowed(graph, preview, d, next) && d.trace == c.trace + block && AllHeeded(preview, block) && Own(task.step, block)
  {
    var s := task.step;
    var e := Answered(s, ChildCall(task.child), reply);
    HistoricLog(graph, preview, c, e);
    block := [e];
    if next.Done? {
      HistoricLog(graph, preview, Log(c, e), Finished(s, next.outcome));
      block := [e, Finished(s, next.outcome)];
      assert c.trace + [e] + [block[1]] == c.trace + block;
    } else {
      ServingSnoc(c.trace, e, s, task.rest, task.content);
      assert ChildAnswer(d.trace, |c.trace|, task.child, reply.content);
    }
  }

  lemma FinishingHistory(graph: seq<PlanStep>, preview: Preview, c: Ctx, task: Task, reply: Reply, d: Ctx, next: Task)
    returns (block: seq<TraceEvent>)
    requires (d, next) == Segment(graph, preview, c, task, reply) && Allowed(graph, preview, c, task) && task.Finishing?
    ensures Allowed(graph, preview, d, next) && d.trace == c.trace + block && AllHeeded(preview, block) && Own(task.step, block)
  {
    var e := Finished(task.step, Returned(task.content));
    var j: nat :| Yields(c.trace, j, |c.trace|, task.step, task.content);
    WantsSame(graph, c.trace, c.trace + [e], j, |c.trace|, task.step);
    HistoricLog(graph, preview, c, e);
    block := [e];
  }

  lemma SegmentHistory(graph: seq<PlanStep>, preview: Preview, c: Ctx, task: Task, reply: Reply, d: Ctx, next: Task)
    returns (block: seq<TraceEvent>)
    requires (d, next) == Segment(graph, preview, c, task, reply) && Allowed(graph, preview, c, task)
    requires (task.Ready? ==> !task.origin.BySpawn?) && ChildResults(graph, c.trace, c.results)
    ensures Allowed(graph, preview, d, next) && d.trace == c.trace + block && AllHeeded(preview, block) && Own(task.step, block)
  {
    match task {
      case Ready(_, _) => block := ReadyHistory(graph, preview, c, task, reply, d, next);
      case Running(_) => block := RunningHistory(graph, preview, c, task, reply, d, next);
      case Asking(_, _, _, _, _) => block := AskingHistory(graph, preview, c, task, reply, d, next);
      case Recorded(_, _, _, _, _) => block := RecordedHistory(graph, preview, c, task, reply, d, next);
      case ChildRunning(_, _, _, _) => block := ChildHistory(graph, preview, c, task, reply, d, next);
      case ChildReturned(_, _, _, _, _) =>
        block := RequestHistory(graph, preview, c, task, d, next, Stretch(graph, preview, c, task, reply).0);
      case Finishing(_, _) => block := FinishingHistory(graph, preview, c, task, reply, d, next);
      case Done(_, _) => block := [];
    }
  }

  // ---- a level's tasks together --------------------------------------------------

  lemma {:induction false} KidsOthers(trace: seq<TraceEvent>, block: seq<TraceEvent>, from: nat, s: PlanStep, t: PlanStep)
    requires Own(s, block) && s != t && from <= |trace|
    ensures Kids(trace + block, from, |trace| + |block|, t) == Kids(trace, from, |trace|, t)
  {
    if block == [] {
      assert trace + block == trace;
    } else {
      var n := |block| - 1;
      KidsOthers(trace, block[..n], from, s, t);
      assert trace + block == (trace + block[..n]) + [block[n]];
      KidsSnoc(trace + block[..n], block[n], from, t);
    }
  }

  lemma CallsKept(trace: seq<TraceEvent>, block: seq<TraceEvent>, j: nat, s: PlanStep, t: PlanStep)
    requires Own(s, block) && s != t && Called(trace, j, |trace|, t)
    ensures Called(trace + block, j, |trace + block|, t) && (trace + block)[j] == trace[j]
    ensures Kids(trace + block, j, |trace + block|, t) == Kids(trace, j, |trace|, t)
  {
    KidsOthers(trace, block, j, s, t);
  }

  lemma BackedKept(trace: seq<TraceEvent>, block: seq<TraceEvent>, s: PlanStep, other: Task)
    requires Own(s, block) && other.step != s && Backed(trace, other)
    ensures Backed(trace + block, other)
  {
    var later := trace + block;
    match other
    case Asking(t, child, _, rest, content) =>
      var j: nat :| ServesAsking(trace, j, t, child, rest, content);
      CallsKept(trace, block, j, s, t);
      assert ServesAsking(later, j, t, child, rest, content);
    case Finishing(t, content) =>
      var j: nat :| Yields(trace, j, |trace|, t, content);
      CallsKept(trace, block, j, s, t);
      assert Yields(later, j, |later|, t, content);
    case Recorded(t, child, gated, rest, content) =>
      ServesKept(trace, block, s, t, rest, content);
      var g: nat :| GrantedAt(trace, g, child, gated);
      assert GrantedAt(later, g, child, gated);
    case ChildRunning(t, _, rest, content) => ServesKept(trace, block, s, t, rest, content);
    case ChildReturned(t, child, childContent, rest, content) =>
      ServesKept(trace, block, s, t, rest, content);
      var g: nat :| ChildAnswer(trace, g, child, childContent);
      assert ChildAnswer(later, g, child, childContent);
    case _ =>
  }

  lemma ServesKept(trace: seq<TraceEvent>, block: seq<TraceEvent>, s: PlanStep, t: PlanStep, rest: seq<SpawnRequest>, content: nat)
    requires Own(s, block) && t != s && ServesAll(trace, t, rest, content)
    ensures ServesAll(trace + block, t, rest, content)
  {
    var j: nat :| Serving(trace, j, t, rest, content, 0);
    CallsKept(trace, block, j, s, t);
    assert Serving(trace + block, j, t, rest, content, 0);
  }

  // A child that may run was dispatched after its grant, or its parent is about to do so.
  ghost predicate Ran(trace: seq<TraceEvent>, i: nat, child: PlanStep) {
    exists j :: i < j < |trace| && trace[j].Dispatched? && trace[j].origin.BySpawn? && trace[j].step == child
  }

  predicate Pending(tasks: seq<Task>, child: PlanStep) {
    exists t :: 0 <= t < |tasks| && tasks[t].Recorded? && tasks[t].child == child && !tasks[t].gated
  }

  ghost predicate Followed(trace: seq<TraceEvent>, tasks: seq<Task>, i: nat) {
    i < |trace| && Clears(trace[i]) ==> Ran(trace, i, trace[i].call.child) || Pending(tasks, trace[i].call.child)
  }

  // A child's answer was stored, or its parent is about to do so.
  predicate Bringing(tasks: seq<Task>, child: PlanStep) {
    exists t :: 0 <= t < |tasks| && tasks[t].ChildReturned? && tasks[t].child == child
  }

  ghost predicate Stored(c: Ctx, tasks: seq<Task>, i: nat) {
    i < |c.trace| && c.trace[i].Answered? && c.trace[i].call.ChildCall? && c.trace[i].reply.ok ==>
      c.trace[i].call.child.step as int in c.results || Bringing(tasks, c.trace[i].call.child)
  }

  // The history of a gathering, and of a run between gatherings when there are no tasks.
  ghost predicate Remembers(graph: seq<PlanStep>, preview: Preview, c: Ctx, tasks: seq<Task>) {
    && Historic(graph, preview, c) && AllHeeded(preview, c.trace)
    && (forall i :: 0 <= i < |tasks| ==> Backed(c.trace, tasks[i]))
    && (forall i: nat {:trigger Followed(c.trace, tasks, i)} :: Followed(c.trace, tasks, i))
    && (forall i: nat {:trigger Stored(c, tasks, i)} :: Stored(c, tasks, i))
    && ChildResults(graph, c.trace, c.results)
  }

  lemma NewFollowed(graph: seq<PlanStep>, preview: Preview, c: Ctx, task: Task, reply: Reply, d: Ctx, next: Task, i: nat)
    requires (d, next) == Segment(graph, preview, c, task, reply) && |c.trace| <= i < |d.trace|
    ensures Clears(d.trace[i]) ==> next.Recorded? && next.child == d.trace[i].call.child && !next.gated
  {}

  lemma ChildDispatched(graph: seq<PlanStep>, preview: Preview, c: Ctx, task: Task, reply: Reply, d: Ctx, next: Task)
    requires (d, next) == Segment(graph, preview, c, task, reply) && task.Recorded? && !task.gated
    ensures |d.trace| > |c.trace| && d.trace[|c.trace|] == Dispatched(task.child, BySpawn, c.results.Keys)
  {}

  lemma FollowedNext(graph: seq<PlanStep>, preview: Preview, c: Ctx, tasks: seq<Task>, k: nat, reply: Reply, d: Ctx, next: Task, i: nat)
    requires k < |tasks| && (d, next) == Segment(graph, preview, c, tasks[k], reply) && c.trace <= d.trace
    requires Followed(c.trace, tasks, i)
    ensures Followed(d.trace, tasks[k := next], i)
  {
    if |c.trace| <= i < |d.trace| && Clears(d.trace[i]) {
      NewFollowed(graph, preview, c, tasks[k], reply, d, next, i);
      assert tasks[k := next][k] == next;
    } else if i < |c.trace| && Clears(c.trace[i]) {
      if tasks[k].Recorded? && !tasks[k].gated {
        ChildDispatched(graph, preview, c, tasks[k], reply, d, next);
      }
      StillFollowed(c.trace, d.trace, tasks, k, next, i);
    }
  }

  lemma StillFollowed(trace: seq<TraceEvent>, later: seq<TraceEvent>, tasks: seq<Task>, k: nat, next: Task, i: nat)
    requires k < |tasks| && trace <= later && i < |trace| && Clears(trace[i]) && Followed(trace, tasks, i)
    requires tasks[k].Recorded? && !tasks[k].gated ==>
               |later| > |trace| && later[|trace|].Dispatched? && later[|trace|].origin.BySpawn? && later[|trace|].step == tasks[k].child
    ensures Followed(later, tasks[k := next], i)
  {
    var after, child := tasks[k := next], trace[i].call.child;
    assert later[i] == trace[i];
    if Ran(trace, i, child) {
      var j :| i < j < |trace| && trace[j].Dispatched? && trace[j].origin.BySpawn? && trace[j].step == child;
      assert later[j] == trace[j];
    } else {
      var t :| 0 <= t < |tasks| && tasks[t].Recorded? && tasks[t].child == child && !tasks[t].gated;
      if t != k {
        assert after[t] == tasks[t];
      }
    }
  }

  lemma StoredNext(graph: seq<PlanStep>, preview: Preview, c: Ctx, tasks: seq<Task>, k: nat, reply: Reply, d: Ctx, next: Task,
                   block: seq<TraceEvent>, i: nat)
    requires k < |tasks| && (d, next) == Segment(graph, preview, c, tasks[k], reply) && d.trace == c.trace + block
    requires Stored(c, tasks, i)
    ensures Stored(d, tasks[k := next], i)
  {
    var after := tasks[k := next];
    if i < |d.trace| && d.trace[i].Answered? && d.trace[i].call.ChildCall? && d.trace[i].reply.ok {
      var child := d.trace[i].call.child;
      if i >= |c.trace| {
        assert after[k].ChildReturned? && after[k].child == child;
      } else if child.step as int !in c.results {
        var t :| 0 <= t < |tasks| && tasks[t].ChildReturned? && tasks[t].child == child;
        if t != k {
          assert after[t] == tasks[t];
        }
      }
    }
  }

  lemma ChildResultsNext(graph: seq<PlanStep>, preview: Preview, c: Ctx, task: Task, reply: Reply, d: Ctx, next: Task,
                         block: seq<TraceEvent>, n: int)
    requires (d, next) == Segment(graph, preview, c, task, reply) && d.trace == c.trace + block && Backed(c.trace, task)
    requires n in d.results && (n in c.results ==> FromChild(c.trace, n, c.results[n]))
    ensures FromChild(d.trace, n, d.results[n])
  {
    if n in c.results && d.results[n] == c.results[n] {
      var g: nat, child: PlanStep :| child.step == n && ChildAnswer(c.trace, g, child, c.results[n].content);
      assert ChildAnswer(d.trace, g, child, d.results[n].content);
    } else {
      var g: nat :| ChildAnswer(c.trace, g, task.child, task.childContent);
      assert ChildAnswer(d.trace, g, task.child, d.results[n].content);
    }
  }

  // Whatever task goes on and whatever it is answered, the history stays explained.
  lemma RemembersNext(graph: seq<PlanStep>, preview: Preview, c: Ctx, tasks: seq<Task>, k: nat, reply: Reply, d: Ctx, next: Task)
    requires k < |tasks| && Remembers(graph, preview, c, tasks) && TasksDistinct(tasks)
    requires (d, next) == Segment(graph, preview, c, tasks[k], reply) && (tasks[k].Ready? ==> !tasks[k].origin.BySpawn?)
    ensures Remembers(graph, preview, d, tasks[k := next])
  {
    var after := tasks[k := next];
    var block := SegmentHistory(graph, preview, c, tasks[k], reply, d, next);
    HeededAppend(preview, c.trace, block);
    forall i | 0 <= i < |tasks| && i != k ensures Backed(d.trace, tasks[i]) {
      BackedKept(c.trace, block, tasks[k].step, tasks[i]);
    }
    forall i: nat {:trigger Followed(d.trace, after, i)} ensures Followed(d.trace, after, i) {
      FollowedNext(graph, preview, c, tasks, k, reply, d, next, i);
    }
    forall i: nat {:trigger Stored(d, after, i)} ensures Stored(d, after, i) {
      StoredNext(graph, preview, c, tasks, k, reply, d, next, block, i);
    }
    forall n | n in d.results && n > MaxStep(graph) ensures FromChild(d.trace, n, d.results[n]) {
      ChildResultsNext(graph, preview, c, tasks[k], reply, d, next, block, n);
    }
  }

  // ---- where a gathering began and ended -----------------------------------------

  // How many tasks recoveries have started.
  function Recoveries(trace: seq<TraceEvent>): nat {
    if trace == [] then 0
    else
      var e := trace[|trace| - 1];
      Recoveries(trace[..|trace| - 1]) + (if e.Dispatched? && e.origin.ByRecovery? then 1 else 0)
  }

  ghost predicate BeganIn(trace: seq<TraceEvent>, from: nat, s: PlanStep, origin: Origin) {
    exists i :: from <= i < |trace| && trace[i].Dispatched? && trace[i].step == s && trace[i].origin == origin
  }

  ghost predicate EndedIn(trace: seq<TraceEvent>, from: nat, s: PlanStep, outcome: TaskOutcome) {
    exists i :: from <= i < |trace| && trace[i] == Finished(s, outcome)
  }

  function BegunOf(t: Task): nat {
    if t.Ready? then 0 else 1
  }

  // Since `before`, exactly the tasks that are not ready any more have begun, and the ones that are done ended.
  ghost predicate Lasted(before: seq<TraceEvent>, byLevel: bool, trace: seq<TraceEvent>, tasks: seq<Task>) {
    && before <= trace
    && (forall i :: 0 <= i < |tasks| && tasks[i].Ready? ==> tasks[i].origin == if byLevel then ByLevel else ByRecovery)
    && Recoveries(trace) == Recoveries(before) + (if byLevel then 0 else Sum(tasks, BegunOf))
    && (forall i :: 0 <= i < |tasks| ==> LastedOne(before, byLevel, trace, tasks[i]))
  }

  ghost predicate LastedOne(before: seq<TraceEvent>, byLevel: bool, trace: seq<TraceEvent>, task: Task) {
    && (!task.Ready? ==> BeganIn(trace, |before|, task.step, if byLevel then ByLevel else ByRecovery))
    && (task.Done? ==> EndedIn(trace, |before|, task.step, task.outcome))
  }

  lemma RecoveriesSnoc(trace: seq<TraceEvent>, e: TraceEvent)
    ensures Recoveries(trace + [e]) == Recoveries(trace) + (if e.Dispatched? && e.origin.ByRecovery? then 1 else 0)
  {
    assert (trace + [e])[..|trace|] == trace;
  }

  predicate Recovers(task: Task) {
    task.Ready? && task.origin.ByRecovery?
  }

  lemma PairRecoveries(c: Ctx, s: PlanStep, origin: Origin)
    ensures var d := Log(c, Dispatched(s, origin, c.results.Keys));
            && Recoveries(d.trace) == Recoveries(c.trace) + (if origin.ByRecovery? then 1 else 0)
            && Recoveries(Log(d, Executed(s, origin)).trace) == Recoveries(d.trace)
  {
    var e := Dispatched(s, origin, c.results.Keys);
    RecoveriesSnoc(c.trace, e);
    RecoveriesSnoc(c.trace + [e], Executed(s, origin));
  }

  lemma StretchRecoveries(graph: seq<PlanStep>, preview: Preview, c: Ctx, task: Task, reply: Reply)
    ensures Recoveries(Stretch(graph, preview, c, task, reply).0.trace) == Recoveries(c.trace) + (if Recovers(task) then 1 else 0)
  {
    if task.Ready? {
      PairRecoveries(c, task.step, task.origin);
    } else if task.Recorded? {
      PairRecoveries(c, task.child, BySpawn);
    }
  }

  lemma SegmentRecoveries(graph: seq<PlanStep>, preview: Preview, c: Ctx, task: Task, reply: Reply, d: Ctx, next: Task)
    requires (d, next) == Segment(graph, preview, c, task, reply)
    ensures Recoveries(d.trace) == Recoveries(c.trace) + (if Recovers(task) then 1 else 0)
  {
    if Awaits(task) {
      RecoveriesSnoc(c.trace, Answered(task.step, CallOf(task), reply));
    }
    StretchRecoveries(graph, preview, Heard(c, task, reply), task, reply);
    if next.Done? {
      RecoveriesSnoc(Stretch(graph, preview, Heard(c, task, reply), task, reply).0.trace, Finished(next.step, next.outcome));
    }
  }

  lemma SegmentEnds(graph: seq<PlanStep>, preview: Preview, c: Ctx, task: Task, reply: Reply, d: Ctx, next: Task)
    requires (d, next) == Segment(graph, preview, c, task, reply) && !task.Done? && c.trace <= d.trace
    ensures !next.Ready? && next.step == task.step
    ensures task.Ready? ==> BeganIn(d.trace, |c.trace|, task.step, task.origin)
    ensures next.Done? ==> EndedIn(d.trace, |c.trace|, next.step, next.outcome)
  {
    if task.Ready? {
      assert d.trace[|c.trace|] == Dispatched(task.step, task.origin, c.results.Keys);
    }
    if next.Done? {
      assert d.trace[|d.trace| - 1] == Finished(next.step, next.outcome);
    }
  }

  lemma LastedOneKept(before: seq<TraceEvent>, byLevel: bool, trace: seq<TraceEvent>, later: seq<TraceEvent>, task: Task)
    requires LastedOne(before, byLevel, trace, task) && trace <= later
    ensures LastedOne(before, byLevel, later, task)
  {
    if !task.Ready? {
      var i :| |before| <= i < |trace| && trace[i].Dispatched? && trace[i].step == task.step
               && trace[i].origin == if byLevel then ByLevel else ByRecovery;
      assert later[i] == trace[i];
    }
    if task.Done? {
      var i :| |before| <= i < |trace| && trace[i] == Finished(task.step, task.outcome);
      assert later[i] == trace[i];
    }
  }

  lemma LastedNext(before: seq<TraceEvent>, byLevel: bool, graph: seq<PlanStep>, preview: Preview, c: Ctx, tasks: seq<Task>, k: nat,
                   reply: Reply, d: Ctx, next: Task)
    requires k < |tasks| && !tasks[k].Done? && Lasted(before, byLevel, c.trace, tasks) && c.trace <= d.trace
    requires (d, next) == Segment(graph, preview, c, tasks[k], reply)
    ensures Lasted(before, byLevel, d.trace, tasks[k := next])
  {
    SegmentRecoveries(graph, preview, c, tasks[k], reply, d, next);
    SegmentEnds(graph, preview, c, tasks[k], reply, d, next);
    LastedUpdate(before, byLevel, c.trace, d.trace, tasks, k, next);
  }

  lemma LastedUpdate(before: seq<TraceEvent>, byLevel: bool, trace: seq<TraceEvent>, later: seq<TraceEvent>, tasks: seq<Task>,
                     k: nat, next: Task)
    requires k < |tasks| && Lasted(before, byLevel, trace, tasks) && trace <= later
    requires Recoveries(later) == Recoveries(trace) + (if Recovers(tasks[k]) then 1 else 0)
    requires !next.Ready? && next.step == tasks[k].step
    requires tasks[k].Ready? ==> BeganIn(later, |trace|, tasks[k].step, tasks[k].origin)
    requires next.Done? ==> EndedIn(later, |trace|, next.step, next.outcome)
    ensures Lasted(before, byLevel, later, tasks[k := next])
  {
    SumUpdate(tasks, BegunOf, k, next);
    forall i | 0 <= i < |tasks| && i != k ensures LastedOne(before, byLevel, later, tasks[i]) {
      LastedOneKept(before, byLevel, trace, later, tasks[i]);
    }
    LastedTurn(before, byLevel, trace, later, tasks[k], next);
  }

  lemma LastedTurn(before: seq<TraceEvent>, byLevel: bool, trace: seq<TraceEvent>, later: seq<TraceEvent>, task: Task, next: Task)
    requires LastedOne(before, byLevel, trace, task) && before <= trace <= later && !next.Ready? && next.step == task.step
    requires task.Ready? ==> task.origin == (if byLevel then ByLevel else ByRecovery) && BeganIn(later, |trace|, task.step, task.origin)
    requires next.Done? ==> EndedIn(later, |trace|, next.step, next.outcome)
    ensures LastedOne(before, byLevel, later, next)
  {
    if !task.Ready? {
      var i :| |before| <= i < |trace| && trace[i].Dispatched? && trace[i].step == task.step
               && trace[i].origin == if byLevel then ByLevel else ByRecovery;
      assert later[i] == trace[i];
    }
  }

  // ---- between gatherings --------------------------------------------------------

  // New tasks need nothing from the history.
  lemma RemembersStart(graph: seq<PlanStep>, preview: Preview, c: Ctx, tasks: seq<Task>)
    requires Remembers(graph, preview, c, []) && forall i :: 0 <= i < |tasks| ==> tasks[i].Ready?
    ensures Remembers(graph, preview, c, tasks)
  {
    forall i: nat {:trigger Followed(c.trace, tasks, i)} ensures Followed(c.trace, tasks, i) {
      assert Followed(c.trace, [], i);
    }
    forall i: nat {:trigger Stored(c, tasks, i)} ensures Stored(c, tasks, i) {
      assert Stored(c, [], i);
    }
  }

  // Once all are done nothing is pending.
  lemma RemembersEnd(graph: seq<PlanStep>, preview: Preview, c: Ctx, tasks: seq<Task>)
    requires Remembers(graph, preview, c, tasks) && forall i :: 0 <= i < |tasks| ==> tasks[i].Done?
    ensures Remembers(graph, preview, c, [])
  {
    forall i: nat {:trigger Followed(c.trace, [], i)} ensures Followed(c.trace, [], i) {
      assert Followed(c.trace, tasks, i);
    }
    forall i: nat {:trigger Stored(c, [], i)} ensures Stored(c, [], i) {
      assert Stored(c, tasks, i);
    }
  }

  // The result of a planned step changes nothing here.
  lemma RemembersRecorded(graph: seq<PlanStep>, preview: Preview, c: Ctx, s: PlanStep, r: StepResult, recoveries: nat)
    requires Remembers(graph, preview, c, []) && s in graph
    ensures Remembers(graph, preview, c.(results := c.results[s.step as int := r], recoveries := recoveries), [])
  {
    var d := c.(results := c.results[s.step as int := r], recoveries := recoveries);
    forall i: nat {:trigger Stored(d, [], i)} ensures Stored(d, [], i) {
      assert Stored(c, [], i);
    }
    forall n | n in d.results && n > MaxStep(graph) ensures FromChild(d.trace, n, d.results[n]) {
      assert FromChild(c.trace, n, c.results[n]);
    }
  }

  lemma {:induction false} NoneBegun(tasks: seq<Task>)
    requires forall i :: 0 <= i < |tasks| ==> tasks[i].Ready?
    ensures Sum(tasks, BegunOf) == 0
  {
    if tasks != [] {
      NoneBegun(tasks[..|tasks| - 1]);
    }
  }

  lemma LastedStart(trace: seq<TraceEvent>, byLevel: bool, tasks: seq<Task>)
    requires forall i :: 0 <= i < |tasks| ==> tasks[i].Ready? && tasks[i].origin == if byLevel then ByLevel else ByRecovery
    ensures Lasted(trace, byLevel, trace, tasks)
  {
    NoneBegun(tasks);
  }
}
