/** The decision whether a step may spawn children at run time. */
module SpawnPolicy {
  import opened Plans

  const MAX_STEPS_PER_SPAWN := 10
  const MAX_TOTAL_PLAN_STEPS := 100

  datatype Action = RequireApproval | Block

  datatype TrustRule = TrustRule(verdict: string, action: Action, roles: seq<string>, enabled: bool)

  datatype Rule = Rule(policyId: string, allowedTools: seq<string>, allowedRoles: seq<string>, maxSpawned: nat,
                       requireApproval: bool, forbiddenActions: seq<string>, trustRules: seq<TrustRule>)

  // A proposed step as the dictionary the engine receives; a missing text field reads as "".
  datatype Proposal = Proposal(role: string, uses: string, call: string, canSpawn: bool)

  datatype Request = Request(proposed: seq<Proposal>, currentCount: nat, plugins: seq<string>, policyRef: Option<string>,
                             verdicts: seq<(int, string)>, degraded: bool)

  datatype Violation =
    | OverPolicyCount | OverSpawnCount | OverPlanCount
    | Recursive(at: nat) | RoleDenied(at: nat) | ToolDenied(at: nat) | NotAPlugin(at: nat) | CallForbidden(at: nat)
    | TrustNote(step: Option<int>)

  datatype Decision = Decision(allowed: bool, requiresApproval: bool, matched: bool, violations: seq<Violation>)

  type Policies = map<string, Rule>

  function LearnedId(p: Proposal): string {
    "learned:" + p.role + ":" + p.uses
  }

  predicate HasLearned(policies: Policies, p: Proposal) {
    p.role != "" && p.uses != "" && LearnedId(p) in policies
  }

  // ---- what the decision should be ----------------------------------------

  predicate StepWithin(rule: Rule, plugins: seq<string>, p: Proposal) {
    && !p.canSpawn
    && (rule.allowedRoles == [] || p.role in rule.allowedRoles)
    && ("*" in rule.allowedTools || p.uses in rule.allowedTools)
    && (plugins == [] || p.uses in plugins)
    && p.call !in rule.forbiddenActions
  }

  predicate CountsWithin(rule: Rule, req: Request) {
    && |req.proposed| <= rule.maxSpawned
    && |req.proposed| <= MAX_STEPS_PER_SPAWN
    && req.currentCount + |req.proposed| <= MAX_TOTAL_PLAN_STEPS
  }

  predicate WithinPolicy(rule: Rule, req: Request) {
    CountsWithin(rule, req) && forall i :: 0 <= i < |req.proposed| ==> StepWithin(rule, req.plugins, req.proposed[i])
  }

  predicate HasBooker(proposed: seq<Proposal>) {
    exists i :: 0 <= i < |proposed| && proposed[i].role == "Booker"
  }

  predicate RuleFires(t: TrustRule, role: string, verdict: string) {
    t.enabled && (t.roles == [] || role in t.roles) && verdict == t.verdict
  }

  predicate Fires(rules: seq<TrustRule>, action: Action, role: string, verdicts: seq<(int, string)>) {
    exists i, j :: 0 <= i < |rules| && 0 <= j < |verdicts| && rules[i].action == action && RuleFires(rules[i], role, verdicts[j].1)
  }

  predicate Injected(verdicts: seq<(int, string)>) {
    exists j :: 0 <= j < |verdicts| && verdicts[j].1 == "injection"
  }

  // ---- trust verdicts --------------------------------------------------------

  // Approval is needed for an injection, a degraded scanner or a matching rule.
  predicate TrustEscalates(role: string, verdicts: seq<(int, string)>, degraded: bool, rules: seq<TrustRule>) {
    Injected(verdicts) || degraded || Fires(rules, RequireApproval, role, verdicts)
  }

  // A block rule denies, and so does needed approval without a gate.
  predicate TrustAllows(role: string, hasGate: bool, verdicts: seq<(int, string)>, degraded: bool, rules: seq<TrustRule>) {
    !Fires(rules, Block, role, verdicts) && (TrustEscalates(role, verdicts, degraded, rules) ==> hasGate)
  }

  predicate OnlyTrustNotes(violations: seq<Violation>) {
    forall v :: v in violations ==> v.TrustNote?
  }

  method EvaluateTrustVerdicts(role: string, hasGate: bool, verdicts: seq<(int, string)>, degraded: bool, rules: seq<TrustRule>)
    returns (allowed: bool, requiresApproval: bool, violations: seq<Violation>)
    ensures allowed <==> TrustAllows(role, hasGate, verdicts, degraded, rules)
    ensures requiresApproval <==> !Fires(rules, Block, role, verdicts) && TrustEscalates(role, verdicts, degraded, rules)
    ensures !Fires(rules, Block, role, verdicts) ==> (requiresApproval <==> violations != [])
    ensures OnlyTrustNotes(violations)
    ensures !allowed && !requiresApproval <==>
            exists i, j :: 0 <= i < |rules| && 0 <= j < |verdicts| && rules[i].action.Block? && rules[i].enabled
                           && (rules[i].roles == [] || role in rules[i].roles) && verdicts[j].1 == rules[i].verdict
    ensures allowed || requiresApproval ==>
              (requiresApproval <==>
               || degraded || (exists j :: 0 <= j < |verdicts| && verdicts[j].1 == "injection")
               || exists i, j :: 0 <= i < |rules| && 0 <= j < |verdicts| && rules[i].action.RequireApproval? && rules[i].enabled
                                 && (rules[i].roles == [] || role in rules[i].roles) && verdicts[j].1 == rules[i].verdict)
    ensures requiresApproval ==> (allowed <==> hasGate)
  {
    violations := NotesOn(verdicts, "injection");
    if degraded {
      violations := violations + [TrustNote(None)];
    }
    for i := 0 to |rules|
      invariant !Fires(rules[..i], Block, role, verdicts) && OnlyTrustNotes(violations)
      invariant violations != [] <==> Injected(verdicts) || degraded || Fires(rules[..i], RequireApproval, role, verdicts)
    {
      var t := rules[i];
      FiresSnoc(rules, i, role, verdicts);
      if t.enabled && (t.roles == [] || role in t.roles) {
        var notes := NotesOn(verdicts, t.verdict);
        if t.action.RequireApproval? {
          violations := violations + notes;
        } else if notes != [] {
          FiresPrefix(rules, i + 1, Block, role, verdicts);
          return false, false, violations;
        }
      }
    }
    assert rules[..|rules|] == rules;
    requiresApproval := violations != [];
    allowed := !requiresApproval || hasGate;
  }

  predicate Listed(verdicts: seq<(int, string)>, verdict: string) {
    exists j :: 0 <= j < |verdicts| && verdicts[j].1 == verdict
  }

  // The loops over the ancestors: one note for each that carries this verdict.
  method NotesOn(verdicts: seq<(int, string)>, verdict: string) returns (notes: seq<Violation>)
    ensures notes != [] <==> Listed(verdicts, verdict)
    ensures OnlyTrustNotes(notes)
    ensures forall n :: TrustNote(Some(n)) in notes <==> (n, verdict) in verdicts
  {
    notes := [];
    for j := 0 to |verdicts|
      invariant notes != [] <==> exists k :: 0 <= k < j && verdicts[k].1 == verdict
      invariant OnlyTrustNotes(notes)
      invariant forall n :: TrustNote(Some(n)) in notes <==> (n, verdict) in verdicts[..j]
    {
      assert verdicts[..j + 1] == verdicts[..j] + [verdicts[j]];
      if verdicts[j].1 == verdict {
        notes := notes + [TrustNote(Some(verdicts[j].0))];
      }
    }
    assert verdicts[..|verdicts|] == verdicts;
  }

  lemma FiresSnoc(rules: seq<TrustRule>, i: nat, role: string, verdicts: seq<(int, string)>)
    requires i < |rules|
    ensures forall a :: Fires(rules[..i + 1], a, role, verdicts) <==>
              Fires(rules[..i], a, role, verdicts)
              || (rules[i].action == a && rules[i].enabled && (rules[i].roles == [] || role in rules[i].roles)
                  && Listed(verdicts, rules[i].verdict))
  {
    forall a
      ensures Fires(rules[..i + 1], a, role, verdicts) <==>
                Fires(rules[..i], a, role, verdicts)
                || (rules[i].action == a && rules[i].enabled && (rules[i].roles == [] || role in rules[i].roles)
                    && Listed(verdicts, rules[i].verdict))
    {
      if Fires(rules[..i], a, role, verdicts) {
        var k, j :| 0 <= k < i && 0 <= j < |verdicts| && rules[..i][k].action == a && RuleFires(rules[..i][k], role, verdicts[j].1);
        assert rules[..i + 1][k] == rules[k];
      }
      if Fires(rules[..i + 1], a, role, verdicts) {
        var k, j :| 0 <= k < i + 1 && 0 <= j < |verdicts|
                    && rules[..i + 1][k].action == a && RuleFires(rules[..i + 1][k], role, verdicts[j].1);
        if k < i { assert rules[..i][k] == rules[k]; }
      }
      if rules[i].action == a && rules[i].enabled && (rules[i].roles == [] || role in rules[i].roles)
         && Listed(verdicts, rules[i].verdict)
      {
        var j :| 0 <= j < |verdicts| && verdicts[j].1 == rules[i].verdict;
        assert rules[..i + 1][i] == rules[i];
      }
    }
  }

  lemma FiresPrefix(rules: seq<TrustRule>, i: nat, a: Action, role: string, verdicts: seq<(int, string)>)
    requires i <= |rules| && Fires(rules[..i], a, role, verdicts)
    ensures Fires(rules, a, role, verdicts)
  {
    var k, j :| 0 <= k < i && 0 <= j < |verdicts| && rules[..i][k].action == a && RuleFires(rules[..i][k], role, verdicts[j].1);
    assert rules[k] == rules[..i][k];
  }

  // ---- the spawn decision ----------------------------------------------------

  // Explicit reference first, then the first proposed step with a learned policy.
  function ResolveRule(policies: Policies, req: Request): Option<Rule> {
    if req.policyRef.Some? && req.policyRef.value != "" && req.policyRef.value in policies then Some(policies[req.policyRef.value])
    else Learned(policies, req.proposed)
  }

  function Learned(policies: Policies, proposed: seq<Proposal>): Option<Rule> {
    if proposed == [] then None
    else if HasLearned(policies, proposed[0]) then Some(policies[LearnedId(proposed[0])])
    else Learned(policies, proposed[1..])
  }

  method ResolveLearnedPolicy(policies: Policies, proposed: seq<Proposal>) returns (rule: Option<Rule>)
    ensures rule == Learned(policies, proposed)
    ensures rule.None? <==> forall i :: 0 <= i < |proposed| ==> !HasLearned(policies, proposed[i])
    ensures rule.Some? ==> exists i :: 0 <= i < |proposed| && HasLearned(policies, proposed[i])
                                       && rule.value == policies[LearnedId(proposed[i])]
                                       && forall k :: 0 <= k < i ==> !HasLearned(policies, proposed[k])
  {
    for i := 0 to |proposed|
      invariant forall k :: 0 <= k < i ==> !HasLearned(policies, proposed[k])
      invariant Learned(policies, proposed) == Learned(policies, proposed[i..])
    {
      var p := proposed[i];
      if p.role != "" && p.uses != "" {
        var id := "learned:" + p.role + ":" + p.uses;
        if id in policies {
          return Some(policies[id]);
        }
      }
      assert proposed[i..][1..] == proposed[i + 1..];
    }
    return None;
  }

  // The trust check runs only when there is something to check; it is given neither the
  // proposed role nor a gate.
  predicate TrustBlocks(rule: Rule, req: Request) {
    Fires(rule.trustRules, Block, "", req.verdicts)
  }

  lemma ResolvedSo(policies: Policies, req: Request, rule: Option<Rule>)
    requires rule == Learned(policies, req.proposed)
    requires rule.None? <==> forall i :: 0 <= i < |req.proposed| ==> !HasLearned(policies, req.proposed[i])
    requires rule.Some? ==> exists i :: 0 <= i < |req.proposed| && HasLearned(policies, req.proposed[i])
                                        && rule.value == policies[LearnedId(req.proposed[i])]
                                        && forall k :: 0 <= k < i ==> !HasLearned(policies, req.proposed[k])
    ensures Resolves(policies, req, ResolveRule(policies, req))
  {
    forall k | 0 <= k < |req.proposed| ensures LearnedAt(policies, req.proposed, k).Some? <==> HasLearned(policies, req.proposed[k]) {}
    if rule.Some? {
      var i :| 0 <= i < |req.proposed| && HasLearned(policies, req.proposed[i])
               && rule.value == policies[LearnedId(req.proposed[i])] && forall k :: 0 <= k < i ==> !HasLearned(policies, req.proposed[k]);
      assert LearnedAt(policies, req.proposed, i) == rule;
    }
  }

  // The decision's two flags.
  ghost predicate Allows(policies: Policies, req: Request) {
    var found := ResolveRule(policies, req);
    found.Some? ==> WithinPolicy(found.value, req) && TrustAllows("", false, req.verdicts, req.degraded, found.value.trustRules)
  }

  ghost predicate AsksApproval(policies: Policies, req: Request) {
    var found := ResolveRule(policies, req);
    found.Some? ==> found.value.requireApproval || HasBooker(req.proposed)
  }

  method EvaluateSpawn(policies: Policies, req: Request) returns (r: Decision)
    ensures r.allowed <==> Allows(policies, req)
    ensures r.allowed ==> (r.requiresApproval <==> AsksApproval(policies, req))
    ensures r.matched <==> ResolveRule(policies, req).Some?
    ensures r.allowed ==> r.violations == []
    ensures r.matched ==> (OnlyTrustNotes(r.violations) <==> WithinPolicy(ResolveRule(policies, req).value, req))
    ensures !r.allowed ==> (r.requiresApproval <==> OnlyTrustNotes(r.violations) && !TrustBlocks(ResolveRule(policies, req).value, req))
    ensures Resolves(policies, req, ResolveRule(policies, req))
    ensures !r.matched ==> r == Decision(true, true, false, [])
    ensures r.matched && !OnlyTrustNotes(r.violations) ==>
              !r.allowed && !r.requiresApproval && Exactly(ResolveRule(policies, req).value, req, |req.proposed|, r.violations)
  {
    var found: Option<Rule> := None;
    if req.policyRef.Some? && req.policyRef.value != "" && req.policyRef.value in policies {
      found := Some(policies[req.policyRef.value]);
    }
    if found.None? {
      found := ResolveLearnedPolicy(policies, req.proposed);
      ResolvedSo(policies, req, found);
    }
    if found.None? {
      return Decision(true, true, false, []);
    }
    var rule := found.value;
    var violations, requiresApproval := CheckProposals(rule, req);
    if violations != [] {
      assert violations[0] in violations;
      return Decision(false, false, true, violations);
    }
    if req.verdicts != [] || req.degraded {
      var allowed, approval, notes := EvaluateTrustVerdicts("", false, req.verdicts, req.degraded, rule.trustRules);
      if !allowed {
        return Decision(false, approval, true, notes);
      }
      if approval {
        requiresApproval := true;
      }
    }
    return Decision(true, requiresApproval, true, []);
  }

  // The violations of the counts and of the first `n` steps are listed, each with its step.
  ghost predicate Exactly(rule: Rule, req: Request, n: nat, violations: seq<Violation>)
    requires n <= |req.proposed|
  {
    && (OverPolicyCount in violations <==> |req.proposed| > rule.maxSpawned)
    && (OverSpawnCount in violations <==> |req.proposed| > 10)
    && (OverPlanCount in violations <==> req.currentCount + |req.proposed| > 100)
    && StepsListed(rule, req, n, violations)
  }

  ghost predicate StepsListed(rule: Rule, req: Request, n: nat, violations: seq<Violation>)
    requires n <= |req.proposed|
  {
    forall k: nat {:trigger ListedAt(rule, req, n, violations, k)} :: ListedAt(rule, req, n, violations, k)
  }

  ghost predicate ListedAt(rule: Rule, req: Request, n: nat, violations: seq<Violation>, k: nat)
    requires n <= |req.proposed|
  {
    && (Recursive(k) in violations <==> k < n && req.proposed[k].canSpawn)
    && (RoleDenied(k) in violations <==> k < n && rule.allowedRoles != [] && req.proposed[k].role !in rule.allowedRoles)
    && (ToolDenied(k) in violations <==> k < n && "*" !in rule.allowedTools && req.proposed[k].uses !in rule.allowedTools)
    && (NotAPlugin(k) in violations <==> k < n && req.plugins != [] && req.proposed[k].uses !in req.plugins)
    && (CallForbidden(k) in violations <==> k < n && req.proposed[k].call in rule.forbiddenActions)
  }

  // What is listed for one step.
  ghost predicate StepExact(rule: Rule, plugins: seq<string>, p: Proposal, i: nat, violations: seq<Violation>) {
    && (forall v :: v in violations ==> v in [Recursive(i), RoleDenied(i), ToolDenied(i), NotAPlugin(i), CallForbidden(i)])
    && (Recursive(i) in violations <==> p.canSpawn)
    && (RoleDenied(i) in violations <==> rule.allowedRoles != [] && p.role !in rule.allowedRoles)
    && (ToolDenied(i) in violations <==> "*" !in rule.allowedTools && p.uses !in rule.allowedTools)
    && (NotAPlugin(i) in violations <==> plugins != [] && p.uses !in plugins)
    && (CallForbidden(i) in violations <==> p.call in rule.forbiddenActions)
  }

  lemma ExactlyNext(rule: Rule, req: Request, n: nat, violations: seq<Violation>, more: seq<Violation>)
    requires n < |req.proposed| && Exactly(rule, req, n, violations) && StepExact(rule, req.plugins, req.proposed[n], n, more)
    ensures Exactly(rule, req, n + 1, violations + more)
  {
    assert forall v: Violation :: v.OverPolicyCount? || v.OverSpawnCount? || v.OverPlanCount? ==> v !in more;
    StepsListedNext(rule, req, n, violations, more);
  }

  lemma StepsListedNext(rule: Rule, req: Request, n: nat, violations: seq<Violation>, more: seq<Violation>)
    requires n < |req.proposed| && StepsListed(rule, req, n, violations) && StepExact(rule, req.plugins, req.proposed[n], n, more)
    ensures StepsListed(rule, req, n + 1, violations + more)
  {
    forall k: nat {:trigger ListedAt(rule, req, n + 1, violations + more, k)} ensures ListedAt(rule, req, n + 1, violations + more, k) {
      ListedAtNext(rule, req, n, violations, more, k);
    }
  }

  lemma ListedAtNext(rule: Rule, req: Request, n: nat, violations: seq<Violation>, more: seq<Violation>, k: nat)
    requires n < |req.proposed| && ListedAt(rule, req, n, violations, k) && StepExact(rule, req.plugins, req.proposed[n], n, more)
    ensures ListedAt(rule, req, n + 1, violations + more, k)
  {
    forall v ensures v in violations + more <==> v in violations || v in more {}
  }

  // The explicit policy if it exists, else the learned policy of the first proposed step with a
  // role and a tool that has one.
  ghost predicate Resolves(policies: Policies, req: Request, found: Option<Rule>) {
    if req.policyRef.Some? && req.policyRef.value != "" && req.policyRef.value in policies then found == Some(policies[req.policyRef.value])
    else if found.None? then forall i :: 0 <= i < |req.proposed| ==> LearnedAt(policies, req.proposed, i).None?
    else exists i :: 0 <= i < |req.proposed| && found == LearnedAt(policies, req.proposed, i)
                     && forall k :: 0 <= k < i ==> LearnedAt(policies, req.proposed, k).None?
  }

  ghost function LearnedAt(policies: Policies, proposed: seq<Proposal>, i: nat): Option<Rule>
    requires i < |proposed|
  {
    var id := "learned:" + proposed[i].role + ":" + proposed[i].uses;
    if proposed[i].role != "" && proposed[i].uses != "" && id in policies then Some(policies[id]) else None
  }

  // The count checks and the loop over the proposed steps.
  method CheckProposals(rule: Rule, req: Request) returns (violations: seq<Violation>, requiresApproval: bool)
    ensures Exactly(rule, req, |req.proposed|, violations)
    ensures violations == [] <==> WithinPolicy(rule, req)
    ensures forall v :: v in violations ==> !v.TrustNote?
    ensures requiresApproval <==> rule.requireApproval || HasBooker(req.proposed)
  {
    violations := CheckCounts(rule, req);
    requiresApproval := rule.requireApproval;
    for i := 0 to |req.proposed|
      invariant Exactly(rule, req, i, violations)
      invariant violations == [] <==> CountsWithin(rule, req) && forall k :: 0 <= k < i ==> StepWithin(rule, req.plugins, req.proposed[k])
      invariant forall v :: v in violations ==> !v.TrustNote?
      invariant requiresApproval <==> rule.requireApproval || exists k :: 0 <= k < i && req.proposed[k].role == "Booker"
    {
      var more := CheckStep(rule, req.plugins, req.proposed[i], i);
      ExactlyNext(rule, req, i, violations, more);
      violations := violations + more;
      if req.proposed[i].role == "Booker" {
        requiresApproval := true;
      }
    }
  }

  method CheckCounts(rule: Rule, req: Request) returns (violations: seq<Violation>)
    ensures violations == [] <==> CountsWithin(rule, req)
    ensures forall v :: v in violations ==> !v.TrustNote?
    ensures forall v :: v in violations ==> v.OverPolicyCount? || v.OverSpawnCount? || v.OverPlanCount?
    ensures OverPolicyCount in violations <==> |req.proposed| > rule.maxSpawned
    ensures OverSpawnCount in violations <==> |req.proposed| > MAX_STEPS_PER_SPAWN
    ensures OverPlanCount in violations <==> req.currentCount + |req.proposed| > MAX_TOTAL_PLAN_STEPS
  {
    violations := [];
    if |req.proposed| > rule.maxSpawned {
      violations := violations + [OverPolicyCount];
    }
    if |req.proposed| > MAX_STEPS_PER_SPAWN {
      violations := violations + [OverSpawnCount];
    }
    if req.currentCount + |req.proposed| > MAX_TOTAL_PLAN_STEPS {
      violations := violations + [OverPlanCount];
    }
  }

  method CheckStep(rule: Rule, plugins: seq<string>, p: Proposal, i: nat) returns (violations: seq<Violation>)
    ensures violations == [] <==> StepWithin(rule, plugins, p)
    ensures forall v :: v in violations ==> !v.TrustNote?
    ensures StepExact(rule, plugins, p, i, violations)
  {
    violations := [];
    if p.canSpawn {
      violations := violations + [Recursive(i)];
    }
    if rule.allowedRoles != [] && p.role !in rule.allowedRoles {
      violations := violations + [RoleDenied(i)];
    }
    if "*" !in rule.allowedTools && p.uses !in rule.allowedTools {
      violations := violations + [ToolDenied(i)];
    }
    if plugins != [] && p.uses !in plugins {
      violations := violations + [NotAPlugin(i)];
    }
    if p.call in rule.forbiddenActions {
      violations := violations + [CallForbidden(i)];
    }
  }

  // ---- consequences ----------------------------------------------------------

  // Allowed outright means a rule matched and every limit, role, tool, plugin and call
  // restriction holds, with no Booker and nothing suspicious upstream.
  lemma AllowedOutrightIsSound(policies: Policies, req: Request)
    requires Allows(policies, req) && !AsksApproval(policies, req)
    ensures ResolveRule(policies, req).Some?
    ensures var rule := ResolveRule(policies, req).value;
            && |req.proposed| <= rule.maxSpawned && |req.proposed| <= 10 && req.currentCount + |req.proposed| <= 100
            && (forall p :: p in req.proposed ==> StepWithin(rule, req.plugins, p) && p.role != "Booker")
            && (forall v :: v in req.verdicts ==> v.1 != "injection") && !req.degraded
            && (forall v, t :: v in req.verdicts && t in rule.trustRules && t.enabled && t.roles == [] ==> v.1 != t.verdict)
  {
    var rule := ResolveRule(policies, req).value;
    forall p | p in req.proposed ensures StepWithin(rule, req.plugins, p) && p.role != "Booker" {
      var i :| 0 <= i < |req.proposed| && req.proposed[i] == p;
    }
    forall v, t | v in req.verdicts && t in rule.trustRules && t.enabled && t.roles == [] ensures v.1 != t.verdict {
      var j :| 0 <= j < |req.verdicts| && req.verdicts[j] == v;
      var i :| 0 <= i < |rule.trustRules| && rule.trustRules[i] == t;
      FiresWitness(rule.trustRules, i, "", req.verdicts, j);
    }
  }

  lemma FiresWitness(rules: seq<TrustRule>, i: nat, role: string, verdicts: seq<(int, string)>, j: nat)
    requires i < |rules| && j < |verdicts|
    ensures RuleFires(rules[i], role, verdicts[j].1) ==> Fires(rules, rules[i].action, role, verdicts)
  {}

  lemma FiresMonotone(rules: seq<TrustRule>, a: Action, role: string, few: seq<(int, string)>, many: seq<(int, string)>)
    requires forall v :: v in few ==> v in many
    ensures Fires(rules, a, role, few) ==> Fires(rules, a, role, many)
  {
    if Fires(rules, a, role, few) {
      var i, j :| 0 <= i < |rules| && 0 <= j < |few| && rules[i].action == a && RuleFires(rules[i], role, few[j].1);
      assert few[j] in many;
      var k :| 0 <= k < |many| && many[k] == few[j];
    }
  }

  // For any role, with or without a gate: more ancestor verdicts or a degraded scanner never
  // turn a denial into an allowance, and never remove the need for approval.
  lemma TrustAntitone(role: string, hasGate: bool, rules: seq<TrustRule>, few: seq<(int, string)>, many: seq<(int, string)>,
                      degraded: bool, worse: bool)
    requires (forall v :: v in few ==> v in many) && (degraded ==> worse)
    ensures TrustAllows(role, hasGate, many, worse, rules) ==> TrustAllows(role, hasGate, few, degraded, rules)
    ensures TrustEscalates(role, few, degraded, rules) ==> TrustEscalates(role, many, worse, rules)
  {
    FiresMonotone(rules, Block, role, few, many);
    FiresMonotone(rules, RequireApproval, role, few, many);
    if Injected(few) {
      var j :| 0 <= j < |few| && few[j].1 == "injection";
      assert few[j] in many;
    }
  }

  // Hence the same for the spawn decision, which passes no role and no gate.
  lemma Antitone(policies: Policies, req: Request, verdicts: seq<(int, string)>, degraded: bool)
    requires forall v :: v in req.verdicts ==> v in verdicts
    requires req.degraded ==> degraded
    ensures Allows(policies, req.(verdicts := verdicts, degraded := degraded)) ==> Allows(policies, req)
    ensures AsksApproval(policies, req.(verdicts := verdicts, degraded := degraded)) <==> AsksApproval(policies, req)
  {
    if ResolveRule(policies, req).Some? {
      var rules := ResolveRule(policies, req).value.trustRules;
      TrustAntitone("", false, rules, req.verdicts, verdicts, req.degraded, degraded);
    }
  }

  // The executor already counts the new step when it asks (total + 1), and the engine adds the
  // proposed steps once more: where a policy matches, a plan stops growing at 99 steps, not 100.
  lemma ExecutorCountsTwice(policies: Policies, p: Proposal, total: nat, plugins: seq<string>, policyRef: Option<string>)
    requires ResolveRule(policies, Request([p], total + 1, plugins, policyRef, [], false)).Some?
    ensures var req := Request([p], total + 1, plugins, policyRef, [], false);
            var rule := ResolveRule(policies, req).value;
            Allows(policies, req) <==> total + 1 <= 99 && rule.maxSpawned >= 1 && StepWithin(rule, plugins, p)
  {
    var req := Request([p], total + 1, plugins, policyRef, [], false);
    assert req.proposed[0] == p;
  }

  // The executor collects verdicts while it runs a plan and hands none of them over, so the
  // trust check never fires for its requests. An allowed request would be denied with them
  // exactly if a policy matches and its trust check then blocks or asks for approval.
  lemma ExecutorHidesVerdicts(policies: Policies, p: Proposal, total: nat, plugins: seq<string>, policyRef: Option<string>,
                              verdicts: seq<(int, string)>, degraded: bool)
    requires Allows(policies, Request([p], total + 1, plugins, policyRef, [], false))
    ensures var req := Request([p], total + 1, plugins, policyRef, verdicts, degraded);
            var found := ResolveRule(policies, req);
            !Allows(policies, req) <==>
            && found.Some?
            && (Injected(verdicts) || degraded || Fires(found.value.trustRules, Block, "", verdicts)
                || Fires(found.value.trustRules, RequireApproval, "", verdicts))
  {
    var bare := Request([p], total + 1, plugins, policyRef, [], false);
    var req := bare.(verdicts := verdicts, degraded := degraded);
    assert ResolveRule(policies, req) == ResolveRule(policies, bare);
  }

  function LearnedRule(role: string, tool: string): Rule {
    Rule("learned:" + role + ":" + tool, [tool], [role], 3, false, [], [])
  }

  // The promise of learning is that spawns with the same role and tool are approved from then
  // on. Where no explicit policy takes precedence this holds exactly under these conditions.
  lemma LearnedStepsApprovedIff(policies: Policies, role: string, tool: string, req: Request)
    requires role != "" && tool != "" && req.proposed != []
    requires forall p :: p in req.proposed ==> p.role == role && p.uses == tool
    requires req.policyRef.None? || req.policyRef.value == ""
             || req.policyRef.value !in policies + map["learned:" + role + ":" + tool := LearnedRule(role, tool)]
    ensures var learned := policies + map["learned:" + role + ":" + tool := LearnedRule(role, tool)];
            Allows(learned, req) && !AsksApproval(learned, req) <==>
            && role != "Booker" && (forall p :: p in req.proposed ==> !p.canSpawn)
            && |req.proposed| <= 3 && req.currentCount + |req.proposed| <= 100
            && (req.plugins == [] || tool in req.plugins)
            && !Injected(req.verdicts) && !req.degraded
  {
    var rule := LearnedRule(role, tool);
    var learned := policies + map["learned:" + role + ":" + tool := rule];
    var first := req.proposed[0];
    assert first in req.proposed;
    assert ResolveRule(learned, req) == Some(rule);
    assert forall p :: p in req.proposed ==>
                         (StepWithin(rule, req.plugins, p) <==> !p.canSpawn && (req.plugins == [] || tool in req.plugins));
    assert StepWithin(rule, req.plugins, first) <==> !first.canSpawn && (req.plugins == [] || tool in req.plugins);
    assert HasBooker(req.proposed) <==> role == "Booker";
  }
}
