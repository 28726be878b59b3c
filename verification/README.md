# Aexor runtime: verified model

Aexor runs plans. A plan is a graph of numbered steps; a validator accepts it, a resolver sorts
it into levels, and an executor runs the levels, with human gates, steps spawned at run time and
a bounded recovery. Around the executor sit small protocols over shared stores. This project
models those parts in Dafny and proves what they keep over every input, every run and every
interleaving of their tasks.

`dafny verify dfyconfig.toml` checks the whole project.

## How it is built

| module | what it models |
|---|---|
| `Plans`, `Chains` | the plan graph; dependency chains and cycles, defined without any algorithm |
| `DagResolver` | level-synchronous topological sort with cycle detection |
| `PlanValidator` | the structural checks and the trust-boundary rule (Rule F) with its two worklist searches |
| `ExecutionModel`, `ExecuteService` | one run: tasks cut into segments at their awaits, any interleaving of a level, the level loop, recovery |
| `ExecutionHistory` | what the history of a run tells: the reason behind every task end, child and result |
| `SpawnOverlap`, `GateReplay` | what overlapping spawn requests do to a run; runs resubmitted after each gate |
| `SpawnPolicy` | the decision whether a step may spawn |
| `ResourceLock`, `Idempotency`, `ApprovalTokens`, `CircuitBreaker`, `AuditBuffer` | shared-store protocols as transition systems with a clock or calls in flight |
| `Connections`, `AuditQuery`, `Evidence` | cache against table, cursor pagination, evidence trimming |

Each protocol has three layers. Pure functions give the effect of one atomic step (one store
command, one locked section, or the stretch of a coroutine between two awaits). Classes carry
out those steps on fields, and each method is proved equal to its function. A run is any
sequence of enabled steps (`Play`), and the properties are proved for every run by an invariant.
The executor is the exception: its whole control flow is a class, and the properties are
contracts of `ExecutePlan` and `Replay` over a ghost history of dispatches, executions, answers of
the environment and task ends. The history is explained in its own words: which answer each task
end, each spawned step and each stored result goes back to, without the functions that the
executor's methods are proved equal to.

Times are real numbers. Every reply of the environment (tools, models, policy engine, database,
the order in which tasks run) is arbitrary.

## What the proofs found

- Two steps with the same number always make `resolve` raise its cycle error, whether or not
  there is a cycle, so the condition is stated that way (`DagResolver.Resolve`).
- Rule F accepts a reasoner that reads an api step directly as long as a sanitizer it also
  references reads that api step; its comment asks for a sanitizer in between.
  `PlanValidator.RuleFMeetsIntentIff` gives the exact reference lists for which the rule and the
  comment agree in every plan that reaches Rule F, and `PlanValidator.RawReferenceExample` the
  smallest plan, valid by every other rule, where they differ.
- Two spawned steps of a run have the same number if and only if some spawn request was allowed
  although another child had been recorded since it was made; the plan passes 100 steps if and
  only if some request was allowed while it already had 100. Both are kept up to date over every
  interleaving and are part of what `ExecutePlan` promises (`ExecuteService.Sound`). The second
  needs the first, and the first needs two requests with the policy engine at once, which cannot
  happen when no level has two spawning reasoners; an overlap in which the later request is denied
  does no harm. `SpawnOverlap.OverlapRun` gives, for every size from 2 to 99, a plan valid by every
  rule and six segments of a fresh run after which two children share a number; at 99 steps the
  plan then has 101.
- The executor counts a new step before it asks and the policy engine counts it again, so a plan
  whose spawns match a policy stops at 99 steps (`SpawnPolicy.ExecutorCountsTwice`).
- Inside `evaluate_spawn` a trust escalation is always a denial, never a request for approval,
  because no gate is handed to the trust check (`SpawnPolicy.EvaluateSpawn`).
- The executor records sanitizer verdicts while it runs a plan but hands none of them to the
  policy engine when it asks for a spawn, so the trust check never fires for its requests.
  `SpawnPolicy.ExecutorHidesVerdicts` says which allowed requests would be denied with them.
- A token can be used twice when a validation stalls between its expiry check and its marker
  until the markers of all earlier uses have gone. `ApprovalTokens.ReusedIff` shows that a run
  uses a token twice if and only if this happens in it.
- Approving a gate again is meant to return its token. A gate has two unexpired tokens at some
  point of a run if and only if some approval signs one beside a token that was not yet stored
  when that approval looked (`ApprovalTokens.TwoLiveIff`). This cannot happen when approvals of a
  gate do not overlap and every token gets stored (`ApprovalTokens.OneLiveTokenPerGate`).
- The lease lock needs its holders to finish within the lease, and the idempotency record needs
  executions shorter than their claim and non-empty results. `ResourceLock.LeaseBoundaryExact`,
  `Idempotency.ClaimBoundaryExact` and `Idempotency.SuccessStopsUnlessEmpty` show that each of
  these is the exact boundary. When recording a success raises, the record says failed and the
  next check repeats the call (`Idempotency.UnrecordedSuccessRepeats`).
- A run stopped at a gate has dispatched every due step of that level, executed those whose gate
  is open, and reports none of their results. If the caller keeps every reported result, both
  rounds dispatch exactly the due steps of that level, and no step of an earlier one; the
  repository's own caller keeps only the completed results, so recovered failures of earlier
  levels are dispatched again as well (`GateReplay.StoppedLevelRunsAgain`).
- Overlapping audit flushes keep the recording order exactly as long as batches are written
  oldest first and only the newest goes back into the buffer, or one that overflows entirely
  (`AuditBuffer.OrderKeptIff`).
- A sync that raises half-way leaves the cache entry beside changed rows;
  `Connections.AgreementAlways` shows that nothing else breaks the agreement, and this only if
  something had changed.
- A Booker that does not get the resource lock raises after it has claimed its idempotency key and
  leaves the claim behind, so the key stays blocked for everybody until the claim times out
  (`Idempotency.AbandonedClaimBlocks`).
- A carried or previewed value that is neither a dictionary nor null ends the run with an
  internal error that names no step.
- `mark_connected`, `disconnect` and the callback store the provider name as given while every
  check normalises it. `Connections.MarkVisibleIff` and `Connections.DisconnectIneffectiveIff`
  say when that is visible.
- The circuit breaker can close straight from open, by the late success of an older half-open
  call (`CircuitBreaker.OpenCanCloseDirectly`); the success count it needs is still earned.

## Model

| member | source | states |
|---|---|---|
| Chains.RankIsLongestChain | components/ExecuteOrchestrator/adapters/dag_resolver.py:53-69 | the rank a level-by-level sort assigns to a step is one less than the length of the longest dependency chain ending at it |
| Chains.LongestChainUnique | components/ExecuteOrchestrator/adapters/dag_resolver.py:53-69 | a step has only one longest-chain length, so the resolved levels are determined as sets |
| Chains.StuckHasCycle | components/ExecuteOrchestrator/adapters/dag_resolver.py:71 | if every step of a set waits for another step of the set, there is a cycle |
| DagResolver.BuildIndex | components/ExecuteOrchestrator/adapters/dag_resolver.py:41-49 | in-degrees count the present dependency entries and the dependents map is their inverse with the same multiplicities, also for repeated and dangling entries |
| DagResolver.RelaxLevel | components/ExecuteOrchestrator/adapters/dag_resolver.py:60-66 | finishing a level lowers every in-degree by exactly the entries that level satisfies, and queues each newly free step once |
| DagResolver.Resolve | components/ExecuteOrchestrator/adapters/dag_resolver.py:22-71 | empty exactly on the empty graph; cycle error exactly when numbers repeat or the present dependencies have a cycle; otherwise every step once, in the level of its longest chain |
| DagResolver.Verdict | components/ExecuteOrchestrator/adapters/dag_resolver.py:68-71 | once the queue is empty, the processed count equals the graph size exactly when there is neither a duplicate nor a cycle |
| DagResolver.DependenciesFirst | components/ExecuteOrchestrator/adapters/dag_resolver.py:22-71 | every present dependency of a step sits in an earlier level |
| PlanValidator.CheckStructure | components/Planner/adapters/plan_validator.py:146-176 | accepts exactly the graphs with distinct numbers whose dependencies all exist and are smaller; every rejection names a real offender |
| PlanValidator.WellStructuredResolves | components/Planner/adapters/plan_validator.py:146-176 | an accepted graph has no cycle and no chain longer than the number of the step it ends at |
| PlanValidator.CheckAndResolve | components/Planner/adapters/plan_validator.py:146-176 | what the structural checks accept is resolved, with step k in 0-based level at most k - 1 |
| PlanValidator.ReachesFrom | components/Planner/adapters/plan_validator.py:61-72 | the inner worklist terminates and finds the api step exactly when it is reachable over context_from, also on cyclic references |
| PlanValidator.HasInterveningSanitizer | components/Planner/adapters/plan_validator.py:39-73 | true exactly when some directly referenced sanitizer has the api step upstream |
| PlanValidator.CheckReasoner | components/Planner/adapters/plan_validator.py:396-422 | the outer worklist terminates and accepts exactly when every api step reachable past non-sanitizers is covered; a rejection names an uncovered one |
| PlanValidator.CheckRuleF | components/Planner/adapters/plan_validator.py:389-422 | Rule F is exact over the whole plan |
| PlanValidator.RuleFMeetsIntentIff | components/Planner/adapters/plan_validator.py:389-422 | for a reasoner with given references of which given ones are sanitizers, Rule F agrees with "an intervening sanitizer is required" in every plan that passes all earlier checks exactly when all references are sanitizers or every step below a referenced sanitizer is one too, as far as the 100-step limit leaves room for that step |
| PlanValidator.RawReferenceExample | components/Planner/adapters/plan_validator.py:389-422 | a three-step plan that passes every step rule before and after Rule F, and Rule F itself, although the reasoner reads the raw api result |
| ExecutionModel.SegmentOk | components/ExecuteOrchestrator/service/execute_service.py:369-464 | every segment of a task keeps the spawn accounting, the gate and dependency rules of the history, the tie of every execution to the dispatch right before it, and its own promise |
| ExecutionModel.AttestAccounted | components/ExecuteOrchestrator/service/execute_service.py:1164-1169 | recording a child keeps revision = attestations = spawned steps, numbered revisions, and the per-parent limit |
| ExecutionModel.SystemNext | components/ExecuteOrchestrator/service/execute_service.py:323-326 | whichever task of a level runs next, the other tasks' conditions survive |
| ExecutionModel.NumberedNextIff | components/ExecuteOrchestrator/service/execute_service.py:1105-1169 | fresh numbers (max + 1, max + 2 and so on) stay fresh in a segment if and only if it is not the grant of a request made before another child was recorded, and numbers that are not fresh never become so |
| ExecutionModel.NumberedIffDistinct | components/ExecuteOrchestrator/service/execute_service.py:1110-1113 | the spawned steps are numbered without gaps exactly when no two have the same number |
| ExecutionModel.SizeNextIff | components/ExecuteOrchestrator/service/execute_service.py:1105-1108 | spawning takes the plan past 100 steps in a segment exactly when that segment is the grant of a request while the plan is full |
| ExecutionModel.SizeNext | components/ExecuteOrchestrator/service/execute_service.py:1105-1108 | how far: if at most `width` requests are with the policy engine at once, planned, spawned and requested steps stay within 99 + width (or the plan's own size) |
| ExecutionModel.GatheringNext | components/ExecuteOrchestrator/service/execute_service.py:1075-1191 | the whole invariant of a level survives any segment of any task with any reply, with the two exact conditions on numbers and size over its whole history |
| ExecutionModel.Progress | components/ExecuteOrchestrator/service/execute_service.py:323-326 | every segment brings the gathering closer to its end |
| ExecutionModel.CountedNext | components/ExecuteOrchestrator/service/execute_service.py:323-326 | a level's task is dispatched by the level loop once, however the tasks interleave |
| ExecutionHistory.SegmentHistory | components/ExecuteOrchestrator/service/execute_service.py:1075-1191 | a segment keeps every task end, request and child dispatch explained by what was answered before: a returned content is that of the step's own successful call, with all its requests granted; a gate stop reports the results of that moment; a raised error follows a failed call, a denial, a full parent or plan, or a malformed request; and a failed call or a denial ends the task at once |
| ExecutionHistory.RemembersNext | components/ExecuteOrchestrator/service/execute_service.py:1127-1191 | whichever task goes on and whatever it is answered: a child is the next request of its parent's call, and is dispatched if and only if the policy engine allowed it without asking for approval and it has no gate (if: at the latest when its parent ends); each child's answer is stored, and every result of a spawned step is what a child's call returned |
| SpawnOverlap.OverlapDuplicatesNumber | components/ExecuteOrchestrator/service/execute_service.py:1105-1113 | from any state in which two spawning steps run and each is answered with a request, they can ask one after the other, and if both are then allowed they record two children with the same number |
| SpawnOverlap.OverlapRun | components/ExecuteOrchestrator/service/execute_service.py:1075-1191 | for every size from 2 to 99 a plan that is valid by every rule and, for its first resolved level, six segments from a fresh context after which two children have the same number, and with 99 planned steps the plan has 101 |
| ExecuteService.ExecuteService.Advance | components/ExecuteOrchestrator/service/execute_service.py:395-421 | one segment on the context's fields: the answer, or the dispatch, goes down in the history first, and what follows is the segment function, whose meaning is that of `ExecutionHistory.SegmentHistory` and `ExecutionModel.SegmentOk` |
| ExecuteService.ExecuteService.Gather | components/ExecuteOrchestrator/service/execute_service.py:323-326 | running a level's tasks in any order ends, changes no planned result and keeps the invariant |
| ExecuteService.ExecuteService.FilterLevel | components/ExecuteOrchestrator/service/execute_service.py:319-363 | preview-only and carried steps get their stored result and exactly the others remain to execute, unless some value cannot be stored, which is reported |
| ExecuteService.ExecuteService.SkipStep | components/ExecuteOrchestrator/service/execute_service.py:343-362 | a skipped step gets its preview or its carried result, and nothing else changes |
| ExecuteService.ExecuteService.HandleStepFailure | components/ExecuteOrchestrator/service/execute_service.py:1228-1293 | a not-connected error, a graph without a recovery reasoner, or a failure after five recoveries ends the run with its own fault and changes nothing; in every other case the step is recorded as failed and counted, the first reasoner of the plan that can spawn begins and ends as a recovery within the new history, and the run goes on if and only if it returned; as many recoveries have run as were counted |
| ExecuteService.ExecuteService.Settle | components/ExecuteOrchestrator/service/execute_service.py:328-334 | every outcome up to the first fault is stored under its own step: a returned content as completed, a recovered failure as failed; no earlier planned result changes, and a fault is explained by a task of the level that raised; a reported gate is its own, unapproved, with the stored results of exactly the planned steps that had one when the tasks were created |
| ExecuteService.ExecuteService.ExecuteLevel | components/ExecuteOrchestrator/service/execute_service.py:312-334 | a level without fault gives every one of its steps a result; it dispatches exactly the steps that are not skipped, once each, or none when a stored value is malformed; a fault names such a value or a due step whose task raised |
| ExecuteService.LevelReady | components/ExecuteOrchestrator/service/execute_service.py:203-206 | when a level starts, its steps have no result and all their present dependencies have one |
| ExecuteService.GatheringEnds | components/ExecuteOrchestrator/service/execute_service.py:323-334 | after a gathering the run is as sound as before it, with the planned results untouched |
| ExecuteService.SuccessMeans | components/ExecuteOrchestrator/service/execute_service.py:203-232 | once every planned step has a result, a previewed step has its preview and a carried one its earlier result, neither was dispatched, and any other was dispatched once and has what its task returned, or is recorded as failed if its task raised |
| ExecuteService.ExecuteService.ExecutePlan | components/ExecuteOrchestrator/service/execute_service.py:159-232 | a run starts exactly if the token is valid, the plan not expired, and the graph non-empty, with distinct numbers and no cycle, and is otherwise refused with the matching error type. Over a whole run: accounting, dependency order and gates; a history in which every child and every task end has its reason (`ExecutionHistory.RemembersNext`); two children with the same number, or more than 100 steps, exactly under the conditions above; no step dispatched twice by the level loop, every execution tied to its dispatch, and every result of a due step one that its task ended with. A run that ends has dispatched exactly the due steps of its first `reached` levels. The answer is success if and only if no level ended with a fault, approval exactly for a gate, with its id, step and results, and otherwise the kind of error of that fault with its step, total and revision. Success means all levels and, for every planned step, what `SuccessMeans` says; there are at most five failures, as many as recoveries that ran. A gate stop names a due step of the last level with its own unapproved gate, and reports the stored results of exactly the planned steps finished before. Any other error names a due step of the last level whose task raised: not connected; or with no reasoner to recover or one that raised; or after five recoveries. Otherwise a value stored for a skipped step of the next level is malformed |
| GateReplay.ReportedIsNew | components/ExecuteOrchestrator/service/execute_service.py:395-421 | the gate that stops a run belongs to the plan and was not approved in that run |
| GateReplay.Replay | components/ExecuteOrchestrator/service/execute_service.py:353-421 | approving each reported gate and resubmitting ends, after at most as many gate stops as the plan has distinct gate ids; for any choice of the results that the caller keeps, no step whose result was kept is dispatched again by the level loop of any later round; what the next round dispatches again is that of `StoppedLevelRunsAgain` |
| GateReplay.StoppedLevelRunsAgain | static/index.html:2946-2953 | when the next round starts from the preview state plus the kept results, both rounds dispatch exactly the due steps of the first whose result was not kept, as far as the second gets; if every planned result was kept it gets at least as far as the stopped level, and these are exactly the due steps of that level |
| GateReplay.PlainResubmitResumes | static/index.html:2946-2953 | adding the kept results and the approval, and nothing else, is such a next round |
| SpawnPolicy.EvaluateTrustVerdicts | components/PolicyEngine/service/policy_service.py:205-285 | a block rule denies; otherwise approval is needed exactly for an injection, a degraded scanner or a matching rule, and needed approval without a gate denies |
| SpawnPolicy.TrustAntitone | components/PolicyEngine/service/policy_service.py:205-285 | for any role, with or without a gate, more ancestor verdicts or a degraded scanner never turn a denial into an allowance and never remove the need for approval |
| SpawnPolicy.ResolveLearnedPolicy | components/PolicyEngine/service/policy_service.py:291-312 | the learned policy of the first proposed step that has one, none exactly when no step has one |
| SpawnPolicy.CheckProposals | components/PolicyEngine/service/policy_service.py:94-157 | there are violations exactly when a count, role, tool, plugin, call or recursion limit is broken; approval is needed for a strict rule or a Booker |
| SpawnPolicy.EvaluateSpawn | components/PolicyEngine/service/policy_service.py:59-199 | an explicit policy is resolved before a learned one, of the first proposed step that has one; the allowed and approval flags are exactly the declared conditions on that policy and the request, with no match always allowed with approval, and a denial lists exactly the broken limits |
| SpawnPolicy.AllowedOutrightIsSound | components/PolicyEngine/service/policy_service.py:59-199 | allowed without approval implies a matched rule, every limit met by every proposed step, no Booker, no injection, no degraded scanner, no matching rule that applies to all roles |
| SpawnPolicy.Antitone | components/PolicyEngine/service/policy_service.py:59-199 | hence for the spawn decision: more ancestor verdicts or a degraded scanner never turn a denial into an allowance |
| SpawnPolicy.ExecutorCountsTwice | components/ExecuteOrchestrator/service/execute_service.py:1105-1137 | with a matched policy a spawn is allowed exactly when the plan with the new step has at most 99 steps and the step is within the policy |
| SpawnPolicy.ExecutorHidesVerdicts | components/ExecuteOrchestrator/service/execute_service.py:1127-1137 | a request the executor gets allowed would be denied with the verdicts it withholds exactly if a policy matches and there is an injection, a degraded scanner, or a rule that blocks or asks for approval |
| SpawnPolicy.LearnedStepsApprovedIff | components/PolicyEngine/service/policy_service.py:389-424 | after learning, spawns of the same role and tool with no overriding policy are approved outright exactly if the role is not Booker, at most 3 non-spawning steps are proposed, the plan stays within 100, the tool is a plugin, and nothing upstream is injected or degraded |
| ResourceLock.Redis.Set | components/ExecuteOrchestrator/adapters/resource_lock.py:49-54 | SET NX EX writes, with a lease of 30 seconds, exactly when no live value is there |
| ResourceLock.ResourceLockAdapter.Acquire | components/ExecuteOrchestrator/adapters/resource_lock.py:45-62 | polls at most twice per second of the timeout; success leaves our value in the store and in the dictionary, failure means every round was refused |
| ResourceLock.ResourceLockAdapter.Release | components/ExecuteOrchestrator/adapters/resource_lock.py:64-72 | deletes the key only when the live value is the one this adapter holds |
| ResourceLock.InvNext | components/ExecuteOrchestrator/adapters/resource_lock.py:45-72 | any step of any task or process keeps: whoever has the lock is named by the store, with the lease still running |
| ResourceLock.TimelyRunsAreSafe | components/ExecuteOrchestrator/adapters/resource_lock.py:45-72 | if holders finish releasing before their lease ends, a key has at most one holder and no release deletes another's value |
| ResourceLock.TimelyReleaseIsOwn | components/ExecuteOrchestrator/adapters/resource_lock.py:64-72 | under the same assumption no release is skipped, and it frees its own entry |
| ResourceLock.LeaseBoundaryExact | components/ExecuteOrchestrator/adapters/resource_lock.py:45-72 | from any state of a timely run, for any holder and any other task that asks for the key at a later time: exclusion survives exactly if the lease has not run out, and otherwise a release that has compared the value deletes the other task's lock |
| ResourceLock.LateComparisonStops | components/ExecuteOrchestrator/adapters/resource_lock.py:64-72 | a release that has taken its value and compares it later goes on to the delete exactly if the lease has not run out, whether or not somebody else has asked for the key by then |
| ResourceLock.LateReleaseBreaksLock | components/ExecuteOrchestrator/adapters/resource_lock.py:70-72 | two whole runs in which a late holder overlaps with the next one and deletes its lock |
| Idempotency.IdempotencyAdapter.Claim | components/ExecuteOrchestrator/adapters/idempotency.py:62-97 | a fresh, expired, failed or unknown key, or a claim at least 300 seconds old, is claimed for this execution and for a day; a success answers with its result and a younger claim is a conflict, both without a change; other keys are untouched |
| Idempotency.InvNext | components/ExecuteOrchestrator/adapters/idempotency.py:47-134 | every step keeps: one run at most, backed by the claim on record; a remembered success is what the record says |
| Idempotency.AtMostOncePerLifetime | components/ExecuteOrchestrator/service/execute_service.py:523-599 | at most one execution is under way, and two recorded successes are at least the 24 h record lifetime apart |
| Idempotency.ClaimBoundaryExact | components/ExecuteOrchestrator/adapters/idempotency.py:78-84 | from any state of a well-behaved run, a check during an execution starts a second one exactly when the first claim has timed out by then |
| Idempotency.LaterChecksReplay | components/ExecuteOrchestrator/adapters/idempotency.py:62-76 | until the record expires every check returns the stored result and changes nothing |
| Idempotency.UnrecordedSuccessRepeats | components/ExecuteOrchestrator/service/execute_service.py:588-596 | from any state of a well-behaved run, after a tool call that returned the next check stays out if the success gets recorded, and repeats the call if recording it raises |
| Idempotency.SuccessStopsUnlessEmpty | components/ExecuteOrchestrator/service/execute_service.py:533-535 | a stored success stops the next execution exactly when its result is not the empty object |
| Idempotency.EmptyResultRepeats | components/ExecuteOrchestrator/service/execute_service.py:533-535 | a run in which an empty result is executed twice |
| Idempotency.OutlivedClaimRepeats | components/ExecuteOrchestrator/adapters/idempotency.py:78-84 | a whole run in which an execution slower than its claim is repeated |
| Idempotency.AbandonedClaimBlocks | components/ExecuteOrchestrator/service/execute_service.py:533-542 | from any state of a well-behaved run, after an execution that gave up on the resource lock the next check goes on exactly when the claim it left behind has timed out |
| ApprovalTokens.ApprovalService.Approve | components/ApprovalGate/service/approval_service.py:81-164 | no scopes is an error; a live gate record gives back its own token; otherwise a new token is signed and stored with the same lifetime |
| ApprovalTokens.ApprovalService.ValidateToken | components/ApprovalGate/service/approval_service.py:229-300 | each verdict exactly under its own condition: not issued, expired, of another plan, of another gate when one is given, already used, or else accepted; acceptance leaves a marker for the lifetime of a token and nothing else changes |
| ApprovalTokens.GateStore.MarkConsumed | components/ApprovalGate/adapters/gate_store.py:152-176 | first use exactly when no live marker exists, and only then the marker is written |
| ApprovalTokens.Always | components/ApprovalGate/service/approval_service.py:129-300 | in every run each use's marker lasts at least until its token has expired, and a second marker comes only after the first has gone |
| ApprovalTokens.UsedAsAsked | components/ApprovalGate/service/approval_service.py:237-268 | in every run, each accepted validation is of an issued token of the plan that was asked for, and of the gate if one was given, checked before its expiry |
| ApprovalTokens.TurnedAwayIff | components/ApprovalGate/service/approval_service.py:256-266 | in every run, a validation is turned away at its first look exactly when some use of its token has left a marker that is still there |
| ApprovalTokens.SecondUseHasStalled | components/ApprovalGate/service/approval_service.py:237-279 | with no timing assumption a second use comes from a validation that checked expiry in time and marked only after expiry and after the first marker |
| ApprovalTokens.MarkAcceptedIff | components/ApprovalGate/service/approval_service.py:268-279 | in every run, a validation at its marker succeeds exactly when the markers of all earlier uses of its token have gone |
| ApprovalTokens.ReusedIff | components/ApprovalGate/service/approval_service.py:229-300 | a run uses some token twice if and only if somewhere in it a validation marks a used token after all its markers have gone |
| ApprovalTokens.SingleUse | components/ApprovalGate/service/approval_service.py:229-300 | if validations mark before the token expires, no token is ever used twice, in any interleaving |
| ApprovalTokens.StalledValidationReuses | components/ApprovalGate/service/approval_service.py:256-279 | a run in which one token is used twice |
| ApprovalTokens.SignBesideIff | components/ApprovalGate/service/approval_service.py:85-152 | in every run, an approval about to sign finds an unexpired token of its gate exactly when one had not been stored at the moment it looked, and then the gate has two |
| ApprovalTokens.TwoLiveIff | components/ApprovalGate/service/approval_service.py:85-152 | at some point of a run a gate has two unexpired tokens if and only if somewhere in it an approval signs a token beside one not stored when it looked |
| ApprovalTokens.OneLiveTokenPerGate | components/ApprovalGate/service/approval_service.py:85-152 | if no approval of a gate starts while another one of it is under way, and every token is stored, no gate ever has two unexpired tokens |
| ApprovalTokens.OverlappingApprovalsIssueTwo | components/ApprovalGate/service/approval_service.py:85-152 | a run in which overlapping approvals leave a gate with two unexpired tokens |
| CircuitBreaker.Breaker.BeginCall | components/Planner/adapters/circuit_breaker.py:61-70 | before a call: refused exactly while open with the last failure less than the timeout ago; an admitted call leaves open for half-open and restarts the success count |
| CircuitBreaker.Breaker.EndFailed | components/Planner/adapters/circuit_breaker.py:84-92 | after an exception: half-open, or a count that reaches the threshold, opens the circuit, and the time of the failure is kept |
| CircuitBreaker.Breaker.EndSucceeded | components/Planner/adapters/circuit_breaker.py:94-103 | after a success: one that began or ends half-open counts towards closing and closes at its threshold; any other resets the failure count |
| CircuitBreaker.OverlappingCallsSafe | components/Planner/adapters/circuit_breaker.py:59-103 | with any number of overlapping calls: closed implies fewer failures than the threshold, the success count stays below its threshold, and every close follows exactly that many counted successes since the last reset |
| CircuitBreaker.AdmissionExact | components/Planner/adapters/circuit_breaker.py:54-70 | a call is refused exactly when the circuit is open and the last failure of the whole run is less than the timeout ago |
| CircuitBreaker.OpenCanCloseDirectly | components/Planner/adapters/circuit_breaker.py:94-103 | a run in which the circuit goes from open to closed with no new probe |
| CircuitBreaker.SequentialRefinesHistory | components/Planner/adapters/circuit_breaker.py:59-103 | one call at a time, mode and counters are those of a specification that looks at outcomes only |
| CircuitBreaker.TrippedIsWindow | components/Planner/adapters/circuit_breaker.py:59-103 | that specification means: a window of failures as long as the threshold, with no window of successes as long as its threshold since |
| AuditBuffer.AuditService.Append | components/Audit/service/audit_service.py:110-112 | the locked section of record is the record step |
| AuditBuffer.AuditService.TakeBatch | components/Audit/service/audit_service.py:243-247 | the locked section that opens a flush is the take step |
| AuditBuffer.AuditService.ReAdd | components/Audit/service/audit_service.py:268-275 | the locked section after a failed write is the failure step: batch first, oldest dropped, and only down to the limit |
| AuditBuffer.AuditService.Record | components/Audit/service/audit_service.py:103-121 | recording with nothing in between, with and without its automatic flush |
| AuditBuffer.Conservation | components/Audit/service/audit_service.py:237-283 | in every interleaving the recorded events are, as a multiset, the persisted, in-flight, buffered and dropped ones |
| AuditBuffer.InOrderNextIff | components/Audit/service/audit_service.py:237-283 | from an ordered state with any number of flights, a step keeps the order exactly when it is a record, a take, the write of the oldest batch, or the return of the newest batch or of one that overflows entirely |
| AuditBuffer.OrderKept | components/Audit/service/audit_service.py:237-283 | in every run of such steps, however many flushes overlap, persisted, in flight and buffered together are the recording order without the dropped events |
| AuditBuffer.OrderKeptIff | components/Audit/service/audit_service.py:237-283 | the order holds throughout a run if and only if all its steps are such steps |
| AuditBuffer.OverlapReorders | components/Audit/service/audit_service.py:243-250 | a run in which overlapping flushes store a later event first |
| AuditQuery.PageExact | components/Audit/adapters/db.py:105-152 | a page is the ascending initial part of the matches after the cursor, complete up to the next cursor |
| AuditQuery.TraversalAscends | components/Audit/adapters/db.py:105-152 | over a traversal of a table that changes between pages, ids rise strictly, so none comes twice |
| AuditQuery.TraversalMissesNothing | components/Audit/adapters/db.py:166-201 | a row that matched at every page and lies at or below the cursor has been returned |
| AuditQuery.FinishedTraversalComplete | components/Audit/adapters/db.py:105-152 | a finished traversal returned every row that matched throughout, exactly once |
| AuditQuery.ReturnedIff | components/Audit/adapters/db.py:105-152 | a traversal of a table that changes between pages returns a row, also one that appears late, exactly when at some page it matches above that page's cursor with fewer matches below it than the limit |
| AuditQuery.StaticTraversalExact | components/Audit/adapters/db.py:105-152 | on an unchanged table the traversal is exactly the sorted matches, as many as the reported total, in no more pages than needed plus one |
| Connections.NormalizeIdempotent | components/IntegrationManager/service/integration_service.py:27-35 | normalising a provider name twice is normalising it once |
| Connections.IntegrationManager.HandleCallback | components/IntegrationManager/service/integration_service.py:148-177 | stores the callback's outcome under the given name and drops the user's cache entry |
| Connections.IntegrationManager.DisconnectProvider | components/IntegrationManager/service/integration_service.py:179-221 | stores the disconnection, whatever the remote revocation did, and drops the user's cache entry |
| Connections.IntegrationManager.SyncConnections | components/IntegrationManager/service/integration_service.py:292-333 | a completed sync makes the user's rows true exactly for the usable remote names and drops the cache entry; one that raises leaves what the calls before that stored, and the entry |
| Connections.IntegrationManager.WarmConnectionCache | components/IntegrationManager/service/integration_service.py:259-290 | caches the connected set read after the sync, also when the sync failed or was cut short |
| Connections.IntegrationManager.IsUserConnectedCached | components/IntegrationManager/service/integration_service.py:241-257 | answers from the cache if present and from the table otherwise |
| Connections.AgreementAlways | components/IntegrationManager/adapters/connection_cache.py:42-80 | over every sequence of operations, cached sets equal the connected providers throughout if and only if no sync raised after changing a cached user's connections |
| Connections.ChecksAgree | components/IntegrationManager/service/integration_service.py:230-257 | hence the cached and the uncached check agree after every such sequence |
| Connections.SyncIsExact | components/IntegrationManager/service/integration_service.py:292-333 | after a sync the connected providers are exactly the non-empty normalised remote names |
| Connections.SyncedNamesAreNormal | components/IntegrationManager/service/integration_service.py:304-324 | after a sync only normal names stay connected |
| Connections.OtherUsersKept | components/IntegrationManager/adapters/db.py:76-127 | an operation for one user changes no other user's connections |
| Connections.OverlappedWarmIff | components/IntegrationManager/service/integration_service.py:280-282 | a warm-up that straddles another operation keeps the agreement exactly when that operation left the user's connections as they were |
| Connections.OverlappedWarmIsStale | components/IntegrationManager/service/integration_service.py:280-282 | for instance, a warm-up that read the table before a disconnect and writes after it breaks the agreement |
| Connections.MarkVisibleIff | components/IntegrationManager/service/integration_service.py:340-353 | marking a provider is visible to the check exactly when the name is normal or its normal form was connected before |
| Connections.DisconnectIneffectiveIff | components/IntegrationManager/service/integration_service.py:179-221 | after a disconnect the check still says yes exactly when the name was not normal and its normal form was connected |
| Evidence.Deduplicate | components/ContextRAG/adapters/budget_manager.py:70-95 | one item per key in first-seen order, the most confident one, the earliest on ties |
| Evidence.DeduplicatedUnique | components/ContextRAG/adapters/budget_manager.py:70-95 | those clauses determine the result |
| Evidence.SortSorted | components/ContextRAG/adapters/budget_manager.py:39-54 | the sort orders by relevance, tier and confidence, and keeps input order on ties |
| Evidence.SortKeeps | components/ContextRAG/adapters/budget_manager.py:39-54 | the sort is a permutation |
| Evidence.StableSortUnique | components/ContextRAG/adapters/budget_manager.py:39-54 | a stable sort of the evidence is unique |
| Evidence.EnforceBudget | components/ContextRAG/adapters/budget_manager.py:36-68 | returns the longest prefix of the stably sorted evidence whose byte sum is at most 2048, with that sum |

## Left out

- ExecuteService.ExecuteService.Gather: tasks are cut at the awaits of the service; audit and tracker awaits, which touch no shared field, are merged into their neighbours.
- GateReplay.Replay: a carried value does not reuse a gate id as its key, and a step whose carried key is a gate id is not claimed to be skipped; the caller may add anything else to the preview state.
- GateReplay.StoppedLevelRunsAgain: for rounds whose gate ids differ from the keys of previews and carried results, and whose kept results can be stored.
- ExecutionModel.SizeNext: an upper bound; when exactly 100 is passed is `ExecutionModel.SizeNextIff`.
- ApprovalTokens.SingleUse: assumes Redis is up and that a validation marks before the token expires; the store's fail-open branches accept any number of uses.
- ApprovalTokens.TwoLiveIff: storing a token may fail; a lookup that fails, which counts as no record, is not an event.
- ApprovalTokens.ApprovalService.Approve: user id, scopes on the token, preview state and learning from approvals are dropped; a token is a record only the issuer can make.
- Idempotency.IdempotencyAdapter.Claim: read and write are one step; at single-command granularity two callers can both claim.
- Idempotency.UnrecordedSuccessRepeats: a `mark_succeeded` that raises has written nothing.
- AuditBuffer.Conservation: a batch write is all or nothing, and a flush is not cancelled.
- Connections.AgreementAlways: an operation ends, or raises, before the next begins, and Redis calls succeed; a service without a cache or without a remote client only takes fewer of these steps. What an overlap does is `Connections.OverlappedWarmIff`.
- Connections.NormalizeIdempotent: ASCII only; connection timestamps and entity ids are not modelled.
- Results, arguments, prompts, templates and model output are opaque numbers; a preview-only step with no stored preview gets the number 0.
- Expiry of tokens follows section 4.1.4 of RFC 7519 (not on or after `exp`); the library's treatment of the very second of expiry is not part of this model.
- Order of steps inside a level: the levels are exact as sets, and the queue order is not stated.
- The other business rules of the validator are stated (`PlanValidator.StepRules`, `ParallelOk`, `LaterStepRules`) but not run as methods: they are single-field checks. The byte sizes of arguments and plans are not modelled.
- Gates with an empty id are treated as the executor does, as no gate; the validator's test for a missing id on a Booker is not modelled.
- Recognising a not-connected error by the text of its message: a flag of the reply.
- Compensation: no code of the service pushes to its stack.
- Which reasoner recovers: the first one that can spawn, whatever its level, so its dependencies are not claimed.
- Cancellation, retries and backoff, logging, HTTP routes, SQL text, encryption, signing and hashing.
- Policy and attestation storage, and policy versions: policies are a map.
- planner_service, workflow_registry, preview_service, TrustFilter and Scheduler are not part of this model.
