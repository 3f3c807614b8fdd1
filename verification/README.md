# Verified model of the incident pipeline and the inventory reconciler

A Dafny model of the parts of the repository that decide something: which
policy governs a fix and when it may run by itself, how tasks and incidents
change state under concurrent callers, which alerts are worked on, where a
fault in the topology comes from, and what a reconciling pass over the
inventory changes. `dafny verify dfyconfig.toml` checks all of it.

Code that updates objects in place is modelled as classes whose methods are
tied to functions on values; the results over whole runs and interleavings are
lemmas about those functions. HTTP, SQL and LLM calls, clocks and Python's
`str` are parameters.

| file | what it models |
|---|---|
| `TaskStore.dfy` | the task table with its event log: event sourcing, retries, incident closure under concurrent rejects |
| `Workflow.dfy`, `WorkflowRoutes.dfy` | the node graph, the approval gate and `resume_execution` as interleaved steps over the task store; where each answer leads |
| `PolicyRegistry.dfy`, `LearningEngine.dfy`, `PipelineModels.dfy` | policy selection, autonomy levels, promotion and demotion on outcome histories |
| `PolicyResolver.dfy` | the programmatic fast path |
| `TopologyCorrelator.dfy` | the two bounded breadth-first searches against a shortest-distance specification |
| `AlertPoller.dfy` | deduplication, the per-cycle cap, the once-per-transition journal |
| `PolicyTemplates.dfy`, `PolicySynthesizer.dfy`, `TemplateGenerality.dfy`, `TemplateFilling.dfy`, `Text.dfy` | generalising commands into templates and filling them in again; that templates are general; that filling is one substitution |
| `YamlCodec.dfy` | the printers and validating parsers of policies and intents |
| `LoadData.dfy`, `ListOrder.dfy`, `ValueComparison.dfy`, `Reconcile.dfy` | comparing values, exactly; `create_or_get` in apply and plan mode, what an update achieves, idempotence |
| `PlanAndApply.dfy`, `Placeholders.dfy` | when a plan announces what the apply then does; the ids it makes up |
| `LoaderCache.dfy`, `CacheRefresh.dfy` | prefetch and filter caches, snapshot indexes |
| `PruneNetwork.dfy`, `StateSnapshot.dfy` | pruning stale addresses, the state file |

Conditions the results state:

- *Idempotence* and *plan predicts apply* ask that the filters tell the requests
  apart (`Reconcile.Separated`); `IdentityFiltersSeparate` gives a sufficient
  condition on the calls' filters and payloads and on the starting store. They
  also ask that payloads leave the id to the server. The plan result asks further
  that nothing stored compares equal to an id not given out yet or made up by
  this plan (`PlanAndApply.Unforeseen`); beyond that its condition is exact.
- *Identities in a plan* ask further that the text of a filter shows whether plan
  and apply resolve it differently (`PlanAndApply.FilterTextTells`) and that the
  server's ids do not look like placeholders.
- *Cache coherence* asks that filters sharing a cache key select the same objects
  (`LoaderCache.Faithful`); filters of text do.
- *Orphan detection* asks that no assignment is stale in two listings, which is
  exact for assignments; device names without colons suffice.
- *Exact comparisons* ask that `str` leaves text alone, tells numbers apart and, for
  lists and mappings, tells those of texts apart and never renders a list as `None`.
- *Templates are general* for commands that show their pattern
  (`TemplateGenerality.Separable`).
- *Filling is one substitution* when no brace in a template's words or in a value can
  open a key (`TemplateFilling.Harmless`).
- *At most one execution* asks that no two executing resumes of a task clash, which
  is exact.

For filters that clash, names that look like placeholders, interfaces of planned
devices, values that spell keys, shared cache keys, objects without id, interfaces listed twice and
overlapping resumes a lemma shows what goes wrong.

Where code and documentation differ, the model follows the code:

- `find_root_cause` looks one step out even when `hops` is negative: its bound is
  max(1, hops + 1).
- The fast-path gate uses the policy's level without looking at its expiry.
- An `escalate` intent ends without a gate, because no task exists yet.
- The hourly sweep can promote again on the successes a promotion was just given
  for.
- The fallback scan for custom fields in the snapshot lookup is never reached.
- An action without an identity of its own is recorded under the text of its filter,
  which in a plan can hold made-up ids.
- `resume_execution` checks and marks the start of an execution in two
  transactions.

## Model

| member | source | states |
|---|---|---|
| Workflow.RunIsSafe | ai-agents/ops_agent/workflow.py:1033-1331 | In every run of pipelines, resumes, API operations, policy changes and clock ticks from an empty queue: each started execution has an earlier approval of its task; each system approval has an earlier record naming a policy and a level of L4 or above, the run's table has held that policy at that level, and the task's gate is not flagged for maintenance |
| Workflow.FlaggedTaskNeverExecutes | ai-agents/ops_agent/workflow.py:1259-1331 | Once a gate carries the maintenance flag it keeps it in every continuation, and no execution starts on that task any more, provided no execution was already in flight |
| Workflow.ExecutesAtMostOnceIff | ai-agents/ops_agent/workflow.py:1259-1331 | In a run from an empty queue and all its completions, every task whose fix is not a compliance remediation is executed at most once if and only if no resume decides to execute such a task while another that has decided so is in flight |
| Workflow.ClashExecutesTwice | ai-agents/ops_agent/workflow.py:1259-1331 | From any world with such a clash, finishing the two resumes executes the task twice more |
| Workflow.ClashIsReachable | ai-agents/ops_agent/workflow.py:1259-1331 | Two human resumes of one approved task clash, from the empty queue and whatever the policies |
| Workflow.ExecutesAtMostOnce | ai-agents/ops_agent/workflow.py:1259-1331 | In particular, resumes of one task that never overlap execute it at most once |
| Workflow.GateDecisionIsJustified | ai-agents/ops_agent/workflow.py:1059-1083 | The gate allows automatic execution if and only if an existing policy at L4 or above backs it: the fast-path policy while it exists (whatever its expiry), otherwise the best enabled match that has not expired |
| Workflow.GateSettlesTask | ai-agents/ops_agent/workflow.py:1033-1149 | An uninterrupted gate always ends with its task settled: approved by the system exactly when the decision allows execution and the task is not flagged, otherwise awaiting approval; the stored flag is the pipeline's |
| WorkflowRoutes.SuppressedGetsNoTask | ai-agents/ops_agent/workflow.py:443-471 | In every run: the pipeline of a suppressed alert has no task, ends on the spot, and neither then nor in any later step writes to the store or the content |
| WorkflowRoutes.NoActionReachesNoGate | ai-agents/ops_agent/workflow.py:623-650 | An investigation that finds nothing to do completes its task, notes that and ends; no gate and no approval come from it, then or later |
| WorkflowRoutes.NoFixReachesNoGate | ai-agents/ops_agent/workflow.py:790-808 | Neither do they from a proposal of no action, which writes nothing |
| WorkflowRoutes.NoBudgetFailsTask | ai-agents/ops_agent/workflow.py:595-599 | Without budget the investigation fails its task and ends for good |
| WorkflowRoutes.NoAiWaitsForHuman | ai-agents/ops_agent/workflow.py:951-1030 | With AI off and no fast path the alert becomes a task awaiting approval, with no fix attached, and its pipeline ends |
| WorkflowRoutes.FastPathGoesToGate | ai-agents/ops_agent/workflow.py:311-407 | A resolved fast path opens, claims and starts its task, names its policy and goes straight to the gate with the policy's fix |
| WorkflowRoutes.InvestigationOpens | ai-agents/ops_agent/workflow.py:566-592 | An investigation runs on a task of its own, created, claimed and started |
| WorkflowRoutes.DiagnosisLeadsToProposal | ai-agents/ops_agent/workflow.py:623-639 | A diagnosis completes the task and asks for a fix; risky and human fixes go to the gate at once, the others by way of validation, and the pipeline carries the fix proposed |
| WorkflowRoutes.ValidationLeadsToGate | ai-agents/ops_agent/workflow.py:244-247 | Validation leads to the gate with the same fix, whatever it finds |
| WorkflowRoutes.DoubtWaitsForHuman | ai-agents/ops_agent/workflow.py:623-650 | A diagnosis of low confidence completes the task and leaves it awaiting approval with no fix |
| WorkflowRoutes.BreakageWaitsForHuman | ai-agents/ops_agent/workflow.py:652-693 | So does an investigation that breaks, without completing the task |
| WorkflowRoutes.RunKeepsSound | ai-agents/ops_agent/workflow.py:188-1197 | In every run each pipeline has at its node a task and a fix exactly as the graph brings them there, and each gate in progress holds that fix, the maintenance flag and the decision's policy and level |
| WorkflowRoutes.RunMakesGates | ai-agents/ops_agent/workflow.py:1033-1149 | In every run each gate shows the fix and the maintenance flag of the pipeline that made it |
| WorkflowRoutes.MaintenanceIsNeverAutoApproved | ai-agents/ops_agent/workflow.py:1033-1149 | The task of a pipeline started in a maintenance window is never approved by the system, before or after whatever else happens |
| WorkflowRoutes.ResumeDecidesIff | ai-agents/ops_agent/workflow.py:1259-1331 | A resume executes exactly when the task is approved, unflagged, and a remediation or not yet started with commands to apply; flagged it is suppressed instead; without commands it only reports |
| WorkflowRoutes.NothingToApplyNeverExecutes | ai-agents/ops_agent/workflow.py:1304-1318 | A gate with nothing to apply is never executed, however often it is approved and resumed, unless an operator gives commands |
| Workflow.RunKeepsInv | ai-agents/ops_agent/workflow.py:188-1331 | The invariant behind the safety results: justified log, gates that carry their decision and flag, resumes in flight only on approved tasks, one owner per task |
| Workflow.IncidentWorkflow.CreateApprovalGate | ai-agents/ops_agent/workflow.py:1033-1149 | The gate writes exactly the content, the note and the approval or approval request its decision calls for |
| Workflow.IncidentWorkflow.ResumeExecution | ai-agents/ops_agent/workflow.py:1259-1331 | A resume leaves every task row alone and appends exactly the events its decision on the one snapshot calls for |
| TaskStore.RunIsEventSourced | ai-agents/shared/task_store.py:307-563 | After any sequence of store operations whose added events have no lifecycle names, each task's status is the replay of its events, its retry count is its number of retry events and at most 2, and it has at most three claims, whatever the interleaving of claimants |
| TaskStore.AddEventKeepsSourcedIff | ai-agents/shared/task_store.py:567-589 | An added event breaks the replay exactly when its name would move the task's status |
| TaskStore.StepRow | ai-agents/shared/task_store.py:307-851 | Every operation does to every row what its event says (status, retry count and, for a link, the incident; parent and type never change), and nothing at all exactly where its guard fails |
| TaskStore.ClaimTakes | ai-agents/shared/task_store.py:393-408 | A claim of a pending task leaves it claimed with one more claim event, and a second claim right after changes nothing |
| TaskStore.ClaimsAreEvents | ai-agents/shared/task_store.py:393-408 | In every run the successful claims of a task since the queue was cleared are as many as its claim events |
| TaskStore.ClaimedOncePerEpoch | ai-agents/shared/task_store.py:393-408 | Whatever happens in between and whoever claims: between two successful claims of a task lies a retry, or its creation anew, that put it back into the queue |
| TaskStore.NoLostClosure | ai-agents/shared/task_store.py:504-563 | In any interleaving of the two transactions of concurrent rejects, the incident is never closed while a sibling RCA is unfinished, is closed by at most one event, and is closed by exactly one once all rejects have finished and left no sibling open |
| TaskStore.RejectRunKeepsClosureInv | ai-agents/shared/task_store.py:504-563 | What holds between any two of those transactions |
| TaskStore.StepAppends | ai-agents/shared/task_store.py:307-589 | The event log is append-only: each transaction appends the one event fixed by the operation where its guard holds, and none where it fails |
| TaskStore.StepKeepsParentsKnown | ai-agents/shared/task_store.py:307-389 | Every stored parent is an existing, older task, whatever operation runs |
| TaskStore.RunKnowsParents | ai-agents/shared/task_store.py:307-389 | After any run whose creations name existing parents or none, every chain of parents ends |
| TaskStore.TaskStore.CreateTask | ai-agents/shared/task_store.py:307-389 | Creates a pending row and its event, or nothing when the id is taken |
| TaskStore.TaskStore.ClaimTask | ai-agents/shared/task_store.py:393-408 | Succeeds exactly on a pending task, which is then claimed with one event more; otherwise nothing changes |
| TaskStore.TaskStore.StartTask | ai-agents/shared/task_store.py:410-421 | Status and event of a start, in one transaction |
| TaskStore.TaskStore.CompleteTask | ai-agents/shared/task_store.py:423-436 | Status and event of a completion |
| TaskStore.TaskStore.FailTask | ai-agents/shared/task_store.py:438-455 | Status and event of a failure |
| TaskStore.TaskStore.RequestApproval | ai-agents/shared/task_store.py:464-489 | Status and event of an approval request |
| TaskStore.TaskStore.ApproveTask | ai-agents/shared/task_store.py:491-502 | Status and event of an approval |
| TaskStore.TaskStore.RejectTask | ai-agents/shared/task_store.py:504-531 | Rejects the row in one transaction and looks at the incident in a second |
| TaskStore.TaskStore.MaybeCloseIncident | ai-agents/shared/task_store.py:533-563 | Closes the incident exactly when it is open, has RCAs and all of them have finished |
| TaskStore.TaskStore.AddEvent | ai-agents/shared/task_store.py:567-589 | Appends one event and changes no row |
| TaskStore.TaskStore.RetryTask | ai-agents/shared/task_store.py:824-851 | Succeeds exactly on a failed task with fewer than two retries |
| TaskStore.TaskStore.GetTaskChain | ai-agents/shared/task_store.py:978-999 | Terminates and returns the parents of a task, oldest first, each the parent of the next, up to one without a stored parent; empty for an unknown task |
| TaskStore.TaskStore.LinkTaskToIncident | ai-agents/shared/task_store.py:1065-1083 | Moves the task to the incident and notes it on the incident |
| TaskStore.TaskStore.CloseIncident | ai-agents/shared/task_store.py:1158-1176 | Status and event of a resolved incident |
| TaskStore.TaskStore.ClearAllTasks | ai-agents/shared/task_store.py:1427-1433 | Empties rows and log and returns how many rows there were |
| PipelineModels.LevelIndex | ai-agents/shared/pipeline_models.py:124-140 | The position of a known level in the level order; unknown labels stay inside it |
| PolicyRegistry.ScoreIsLexicographic | ai-agents/shared/policy_registry.py:402-505 | The weights 8, 4, 2, 1 order eligible policies lexicographically by (alertname, fix type, role, environment), and a tie means identical filters |
| PolicyRegistry.BestIndexIsBest | ai-agents/shared/policy_registry.py:402-505 | Selection gives an eligible policy that nothing eligible is more specific than, the first in list order among equals, and none exactly when nothing is eligible |
| PolicyRegistry.BestIsUnique | ai-agents/shared/policy_registry.py:402-505 | That description fits exactly one position, so it determines the selection |
| PolicyRegistry.EligibleIff | ai-agents/shared/policy_registry.py:402-505 | A policy is eligible exactly when confidence, risk and prior successes are within its bounds and every field it names agrees; unknown labels count as low confidence and high risk |
| PolicyRegistry.NewestMostSpecificGoverns | ai-agents/shared/policy_registry.py:209-243 | Told from the table: the policy `query` settles on is the most specific of the enabled and eligible ones, the newest among equally specific, and there is none exactly when none is enabled and eligible |
| PolicyRegistry.WhatGovernsIsChosen | ai-agents/shared/policy_registry.py:209-243 | That description fits one position of the table only |
| PolicyRegistry.DecisionNamesGoverning | ai-agents/shared/policy_registry.py:243-277 | The decision names that policy and its level, or L2 past the expiry of a level of L4 or above, and allows execution exactly for a level of L4 or above |
| PolicyRegistry.SaferNeverLessSpecific | ai-agents/shared/policy_registry.py:402-505 | More confidence, more prior successes or less risk never loses the match nor its specificity |
| PolicyRegistry.DecideAllowsIff | ai-agents/shared/policy_registry.py:209-277 | Execution is allowed if and only if the best enabled match is at L4 or above and not past its expiry; approval is asked for in exactly the other cases |
| PolicyRegistry.PolicyRegistry.FindBestMatch | ai-agents/shared/policy_registry.py:402-505 | The scoring loop returns the best match, or none when nothing is eligible |
| PolicyRegistry.PolicyRegistry.Query | ai-agents/shared/policy_registry.py:209-277 | The decision of the best enabled match, with the default when there is none and the downgrade when it has expired |
| PolicyRegistry.PolicyRegistry.PromotePolicy | ai-agents/shared/policy_registry.py:279-302 | One level up with a fresh expiry for a promotable policy below L4, nothing otherwise; no other row changes |
| PolicyRegistry.PolicyRegistry.DemotePolicy | ai-agents/shared/policy_registry.py:304-320 | One level down without expiry for a policy above L1, nothing otherwise; no other row changes |
| LearningEngine.RunKeepsInv | ai-agents/shared/learning_engine.py:43-146 | Over any run of outcomes, sweeps and clock ticks: automation never raises a policy to L5, never raises a non-promotable one, never lowers one below min(its start, L1); an automatic L4 carries the expiry of a promotion not since undone; every promotion was earned |
| LearningEngine.AutoExecutionNeedsLivePromotion | ai-agents/shared/policy_registry.py:243-302 | A policy that started at L3 or below without expiry auto-executes only within the time to live of a promotion that no later change has undone |
| LearningEngine.PromotionNeedsSuccessesSinceFailure | ai-agents/shared/learning_engine.py:74-146 | Between a recorded failure of a policy and any later promotion of it, by either route, lie at least `threshold` successes |
| LearningEngine.WindowDecidesLikeFullHistory | ai-agents/shared/learning_engine.py:126-146 | The window of threshold + 5 rows decides promotion exactly as the full history would |
| LearningEngine.LongRunIsEarned | ai-agents/shared/learning_engine.py:137-146 | A trailing run of `threshold` successes leaves every earlier failure followed by that many successes |
| LearningEngine.OutcomeMovesRow | ai-agents/shared/learning_engine.py:43-85 | One outcome: a failure demotes its policy by one level, without expiry, if demotion is on and it is above L1; a success promotes it by one, with a new expiry, exactly when it is promotable, below L4 and the history now ends in `threshold` successes of it; no other row and no other case changes anything |
| LearningEngine.EnoughIffEndsInSuccesses | ai-agents/shared/learning_engine.py:137-146 | The engine's count reaches the threshold exactly when the policy's newest rows hold that many successes and nothing else |
| LearningEngine.FailedPolicyWaits | ai-agents/shared/learning_engine.py:74-83 | After a failure a policy at L4 or below backs no automatic decision until it has been promoted again, in every run |
| LearningEngine.SweepPromotesExactly | ai-agents/shared/learning_engine.py:87-106 | A promotion sweep leaves history, clock and list alone and promotes a listed policy once, exactly when it is promotable, below L4 and has the successes before the sweep; every other row stays as it is, whatever the sweep does to the policies before it |
| LearningEngine.SweepDemotesExactly | ai-agents/shared/learning_engine.py:108-122 | The same for demotions: once, exactly when the newest outcome before the sweep failed |
| LearningEngine.SweepReusesEvidence | ai-agents/shared/learning_engine.py:87-106 | One batch of successes can be spent twice, in any table: a sweep right after an earned promotion promotes again exactly when the policy was at L2 or below before the first |
| LearningEngine.LearningEngine.CountConsecutive | ai-agents/shared/learning_engine.py:137-146 | The loop with the early break counts the trailing successes in the window |
| LearningEngine.LearningEngine.RecordOutcome | ai-agents/shared/learning_engine.py:43-85 | The step that `OutcomeMovesRow` describes |
| LearningEngine.LearningEngine.EvaluatePromotions | ai-agents/shared/learning_engine.py:87-106 | The sweep, and the list of exactly the policies it promoted, in list order |
| LearningEngine.LearningEngine.EvaluateDemotions | ai-agents/shared/learning_engine.py:108-122 | The sweep, and the list of exactly the policies it demoted, in list order |
| PolicyResolver.FastPathIsOrdered | ai-agents/shared/policy_registry.py:356-398 | The fast path offers exactly the candidates, each once, by falling specificity and in list order within one specificity |
| PolicyResolver.FastPathOffers | ai-agents/shared/policy_registry.py:356-398 | The candidates are the enabled policies with conditions for any alert or this one and any role or this one, and, unless asked strictly, for every role when the role is unknown |
| PolicyResolver.Resolve | ai-agents/shared/policy_resolver.py:138-193 | Resolves exactly when there are conditions, all pass and the templates render; no condition is checked after the first that does not pass |
| PolicyResolver.TryFastPath | ai-agents/ops_agent/workflow.py:320-405 | The workflow's fast path takes the most specific policy that resolves, the first listed among equals, none only when none resolves; the policy is enabled, has conditions, and is for this alert and, if it names a role, for this known role |
| TopologyCorrelator.TopologyCorrelator.BuildGraph | ai-agents/shared/topology_correlator.py:202-211 | The graph has an edge exactly for each cable between two known distinct devices; it is symmetric and irreflexive |
| TopologyCorrelator.TopologyCorrelator.VisitNeighbours | ai-agents/shared/topology_correlator.py:90-126 | The neighbour loop visits exactly the new neighbours, each once, one level deeper |
| TopologyCorrelator.TopologyCorrelator.FindRootCause | ai-agents/shared/topology_correlator.py:61-102 | Returns another device with an active RCA at minimum graph distance, and none exactly when there is none within the bound, on any graph, cyclic ones included |
| TopologyCorrelator.TopologyCorrelator.GetBlastRadius | ai-agents/shared/topology_correlator.py:104-128 | Returns exactly the devices at distance 1..hops, without duplicates, by non-decreasing distance |
| TopologyCorrelator.TopologyCorrelator.IsDownstreamSymptom | ai-agents/shared/topology_correlator.py:130-133 | Holds exactly when the alerting device is at distance 1..hops from the candidate |
| TopologyCorrelator.DownstreamIsSymmetric | ai-agents/shared/topology_correlator.py:130-133 | On a symmetric graph the symptom relation is symmetric |
| TopologyCorrelator.SymptomHasRootCause | ai-agents/shared/topology_correlator.py:61-133 | When it holds, the root-cause search that knows of that candidate alone answers the candidate |
| TopologyCorrelator.HasEdgesSymmetric | ai-agents/shared/topology_correlator.py:202-211 | Graphs built from cable records are symmetric and irreflexive |
| AlertPoller.JournalIsDestuttered | ai-agents/ops_agent/alert_poller.py:115-131 | Over any run, the rows written for a fingerprint are the requests for it without consecutive repeats; requests without a fingerprint are all written |
| AlertPoller.AcceptedAgainOnlyIfCleared | ai-agents/ops_agent/alert_poller.py:199-406 | Between two acceptances of a fingerprint lies a resolved event for it of an investigated severity, or a reset that did not seed it again |
| AlertPoller.ForgetsIffClears | ai-agents/ops_agent/alert_poller.py:199-406 | A step forgets a seen fingerprint exactly when it is one of those two |
| AlertPoller.EventIsDecided | ai-agents/ops_agent/alert_poller.py:340-406 | The verdict on every kind of event: under which decision it is journaled and what is marked as seen; accepted exactly when firing, investigated, unseen and live |
| AlertPoller.FirstFiringIsAccepted | ai-agents/ops_agent/alert_poller.py:340-406 | In every run the first firing event of an unseen fingerprint is accepted, if it is investigated and live |
| AlertPoller.SweepRespectsCap | ai-agents/ops_agent/alert_poller.py:228-270 | A cycle accepts at most the cap, stops early only at the cap, and leaves the state of fingerprints it did not reach alone |
| AlertPoller.SweepAcceptsExactly | ai-agents/ops_agent/alert_poller.py:228-270 | The work of a cycle is, in order, exactly what was acceptable at its start among the events it looked at |
| AlertPoller.BeyondCapStaysEligible | ai-agents/ops_agent/alert_poller.py:228-270 | Events beyond the cap stay exactly as eligible as they were |
| AlertPoller.SeedAdds | ai-agents/ops_agent/alert_poller.py:133-153 | Seeding marks exactly the fingerprints of active tasks and keeps the others |
| AlertPoller.InOrderDistinct | ai-agents/ops_agent/alert_poller.py:248-252 | A cycle never classifies a fingerprint twice |
| AlertPoller.AlertPoller.SeedSeenFromStore | ai-agents/ops_agent/alert_poller.py:133-153 | The seeding loop |
| AlertPoller.AlertPoller.ResetSeen | ai-agents/ops_agent/alert_poller.py:199-208 | Forgets everything, seeds again, and returns how much is seen |
| AlertPoller.AlertPoller.RecordOnce | ai-agents/ops_agent/alert_poller.py:115-131 | Writes a row unless it repeats the fingerprint's last one |
| AlertPoller.AlertPoller.ClassifyEvent | ai-agents/ops_agent/alert_poller.py:340-406 | The verdict on one event and the new dedup and journal state |
| AlertPoller.AlertPoller.LatestPerFingerprint | ai-agents/ops_agent/alert_poller.py:228-253 | One entry per non-empty fingerprint, its latest event, in the order in which the fingerprints first appear |
| AlertPoller.AlertPoller.ClassifyUntilCap | ai-agents/ops_agent/alert_poller.py:259-267 | The classification loop, stopping at the cap |
| AlertPoller.AlertPoller.PollOnce | ai-agents/ops_agent/alert_poller.py:228-270 | One cycle: the sweep over the latest events, no fingerprint twice |
| PolicyTemplates.GeneralizeThenFill | ai-agents/shared/policy_synthesizer.py:51-63 | Generalising commands and filling the template with the same device and interface gives the stripped commands back, for commands without an opening brace, a device without outer white space, and interface tokens that are all that interface; whatever further keys the context has |
| TemplateGenerality.TemplateHasNoInterface | ai-agents/shared/policy_synthesizer.py:45-63 | No template holds an interface name, whatever the commands and the device |
| TemplateGenerality.TemplateHasNoDevice | ai-agents/shared/policy_synthesizer.py:51-63 | No template holds the name of its device, for names without braces that are no part of a placeholder |
| TemplateGenerality.MatchIsName | ai-agents/shared/policy_synthesizer.py:45-48 | What the pattern matches is a prefix and at least one digit, slash or dot between word boundaries |
| TemplateGenerality.NameIsMatched | ai-agents/shared/policy_synthesizer.py:45-48 | Wherever such a name starts the pattern matches |
| TemplateGenerality.TemplateOfRendering | ai-agents/shared/policy_synthesizer.py:51-63 | Commands written from a pattern for a device and an interface generalise to the pattern, when the device name starts nowhere else, nothing next to the interface continues its name, and the plain text holds no interface name |
| TemplateGenerality.SameTemplate | ai-agents/shared/policy_synthesizer.py:51-63 | So the same commands for two devices and interfaces get one template |
| TemplateGenerality.LearnedHereFillsThere | ai-agents/shared/policy_synthesizer.py:51-63 | A template learned on one device and interface, filled in for another, gives the commands for that one |
| TemplateGenerality.PatternGetsADraft | ai-agents/shared/policy_synthesizer.py:79-116 | Samples written from one pattern for any devices and interfaces agree, and their draft is the pattern |
| TemplateGenerality.DraftNamesNoInterface | ai-agents/shared/policy_synthesizer.py:79-116 | No draft names an interface |
| TemplateGenerality.ExampleIsSeparable | ai-agents/shared/policy_synthesizer.py:51-63 | The conditions hold, for example, of an interface and a device name with a space between them |
| PolicyTemplates.Fmt | ai-agents/shared/policy_resolver.py:322-327 | The replacement loop over the context keys |
| TemplateFilling.FillsEveryKey | ai-agents/shared/policy_resolver.py:322-327 | Replacing key after key puts every value of the context in its place at once and leaves unknown keys and other braces alone, as the comment there promises, when no brace in words or values can open a key |
| TemplateFilling.FillIgnoresOrder | ai-agents/shared/policy_resolver.py:322-327 | So the order of the keys does not matter |
| TemplateFilling.ValueIsFilledAgain | ai-agents/shared/policy_resolver.py:322-327 | Otherwise it does: a value that spells a later key is filled in again |
| TemplateFilling.SelectorIsHarmless | ai-agents/shared/policy_resolver.py:322-327 | The braces of a PromQL selector, around a key as well, meet the condition |
| PolicySynthesizer.DraftReproducesSamples | ai-agents/shared/policy_synthesizer.py:57-63 | A draft filled in with the device and interface of any task it was learned from is that task's own commands, under the conditions of the template round trip |
| PolicySynthesizer.DraftFor | ai-agents/shared/policy_synthesizer.py:79-116 | A pattern gets a draft exactly when it has enough evidence, a recipe, no covering policy and samples that all generalise alike; the draft is disabled, at L3 |
| PolicySynthesizer.CollectEvidence | ai-agents/shared/policy_synthesizer.py:120-164 | Every pattern with evidence is a group, holding exactly its samples in task order |
| PolicySynthesizer.SamplesAreLessons | ai-agents/shared/policy_synthesizer.py:120-164 | The samples of a pattern are its verified, resolved, non-fast-path tasks with commands, one each in task order, and nothing else |
| PolicySynthesizer.Synthesize | ai-agents/shared/policy_synthesizer.py:79-116 | Exactly one draft for every pattern that deserves one |
| PolicySynthesizer.DeservedIff | ai-agents/shared/policy_synthesizer.py:79-183 | Told from the tasks: a draft is deserved exactly by enough lessons of one alert with a recipe that all generalise to its commands, with no fast-path policy on the alert for that role or any; it is disabled and at L3 |
| YamlCodec.PolicyRoundTrip | ai-agents/ui/yaml_codec.py:15-170 | For every document the parser accepts, printing and parsing again is the identity if and only if neither the diagnosis nor the commands of its fast path are blank, and it is stable after one round in every case |
| YamlCodec.IntentRoundTrip | ai-agents/ui/yaml_codec.py:175-274 | For every document the parser accepts, printing and parsing an intent is the identity, clamps and defaults included |
| YamlCodec.ParsePolicyIsGood | ai-agents/ui/yaml_codec.py:74-170 | Everything the policy parser produces is stripped and within the allowed values |
| YamlCodec.ParseIntentIsGood | ai-agents/ui/yaml_codec.py:205-274 | Everything the intent parser produces is stripped, clamped and within the allowed values, with the defaults in fields of other kinds |
| YamlCodec.PolicyMeans | ai-agents/ui/yaml_codec.py:74-170 | A policy document is rejected exactly when a field it sets is wrong, and otherwise means what it sets, with L2, low confidence, high risk, promotable and empty texts for what it leaves out |
| YamlCodec.IntentMeans | ai-agents/ui/yaml_codec.py:205-274 | The same for intents by kind: a monitor, enabled, every 300 seconds, without cooldown and of normal priority unless the document says otherwise, numbers clamped |
| YamlCodec.PrintThenParsePolicy | ai-agents/ui/yaml_codec.py:15-170 | Printing and parsing any policy in the allowed values gives it back, less a blank root cause or fix |
| YamlCodec.StoredMonitorRoundTrip | ai-agents/ui/yaml_codec.py:175-274 | Any stored monitor with a query, whatever its numbers, is printed with an interval and a priority and parsed with blanks as defaults and numbers clamped |
| LoadData.ComparisonIsLawful | nautobot/data_loader/load_data.py:123-208 | Every value compares equal to itself, and a related object equal to whatever its id equals |
| ValueComparison.TextsEqualIff | nautobot/data_loader/load_data.py:203-208 | Two texts compare equal exactly when they are up to case and outer spaces, as `str` leaves text alone |
| ValueComparison.FoldsAlikeIff | nautobot/data_loader/load_data.py:203-206 | Case and outer spaces are all that this ignores: letter for letter the stripped texts are the same |
| ValueComparison.NumbersEqualIff | nautobot/data_loader/load_data.py:196-202 | Two numbers exactly when they are the same |
| ValueComparison.TextEqualsNumberIff | nautobot/data_loader/load_data.py:196-202 | A text and a number exactly when the number renders as the text |
| ValueComparison.NoneEqualsTextIff | nautobot/data_loader/load_data.py:174-202 | An absent value and a text exactly when the text is empty or what `None` renders as |
| ValueComparison.RecordEqualsTextIff | nautobot/data_loader/load_data.py:174-208 | A related object and a text exactly when its id or one of its value, name, label or slug is the text up to case and outer spaces |
| ValueComparison.RecordsEqualIff | nautobot/data_loader/load_data.py:123-208 | Two related objects exactly when their ids are equal up to case and outer spaces |
| ValueComparison.ChoiceEqualsTextIff | nautobot/data_loader/load_data.py:123-208 | A choice and a text exactly when its value or its label is the text, up to the same |
| ValueComparison.IdentifiedEqualsTextIff | nautobot/data_loader/load_data.py:123-208 | A mapping with an id and a text exactly when that id or one of its labels is the text, up to the same |
| ValueComparison.MappingEqualsTextIff | nautobot/data_loader/load_data.py:123-208 | A mapping with a value and a text exactly when a label is the text or, in a mapping of at most two keys, the value shows as it, and in a larger one the whole mapping does |
| ValueComparison.MappingsEqualIff | nautobot/data_loader/load_data.py:123-208 | Two mappings of texts without id and value exactly when they are the same, letter for letter |
| ValueComparison.NoneEqualsListIff | nautobot/data_loader/load_data.py:174-202 | An absent value and a list exactly when the list is empty |
| ValueComparison.TextListsEqualIff | nautobot/data_loader/load_data.py:137-208 | Two lists of texts exactly when they hold the same texts, each as often, letter for letter |
| ValueComparison.SortKeeps | nautobot/data_loader/load_data.py:137-139 | Sorting drops nothing and adds nothing |
| ValueComparison.TextFilterMatchesIff | nautobot/data_loader/load_data.py:162-173 | A filter of texts finds the objects with those texts up to case and outer spaces, and no others |
| ValueComparison.RelationFilterMatchesIff | nautobot/data_loader/load_data.py:162-173 | A filter on an `_id` key looks at the id of the related object |
| ValueComparison.DifferingTextIsUpdated | nautobot/data_loader/load_data.py:678-701 | A stored text that differs from the payload's, beyond case and outer spaces, is reported in an update and, in an apply, replaced; one that does not differ is neither |
| ValueComparison.AppliedTextsAgree | nautobot/data_loader/load_data.py:678-780 | After an apply every compared text is the payload's up to case and outer spaces, wherever text was stored |
| ValueComparison.ActionTellsTheChange | nautobot/data_loader/load_data.py:703-780 | The recorded action says what happened: a create adds the payload as an object, an update sets just the recorded fields of one object to the payload's values, a noop and any plan change nothing |
| ListOrder.ListsCompareAsMultisets | nautobot/data_loader/load_data.py:137-208 | Lists with the same elements, each as often, compare equal in any order, as long as different elements render differently |
| ListOrder.SortIgnoresOrder | nautobot/data_loader/load_data.py:137-139 | Sorting by rendered text depends only on the elements |
| LoadData.First | nautobot/data_loader/load_data.py:162-173 | The first object in server order that passes the filter |
| LoadData.NautobotDataLoader.ObjectMatchesFilter | nautobot/data_loader/load_data.py:162-173 | True exactly when every filter key compares equal, with `_id` keys looking at the related object's id |
| LoadData.NautobotDataLoader.FindExisting | nautobot/data_loader/load_data.py:729-735 | Finds the first matching object |
| LoadData.NautobotDataLoader.UpdateIfNeeded | nautobot/data_loader/load_data.py:678-701 | Patches exactly the fields that differ (in a plan nothing), touches no other object, and records one noop or update |
| LoadData.NautobotDataLoader.CreateOrGet | nautobot/data_loader/load_data.py:703-780 | The new store, the one action recorded, under its own identity or the text of its filter, and the object returned, in apply and in plan mode |
| LoadData.NautobotDataLoader.Run | nautobot/data_loader/load_data.py:703-780 | A pass over any list of requests, later ones using the ids earlier ones returned |
| Reconcile.ApplyIsIdempotent | nautobot/data_loader/load_data.py:678-780 | A second apply pass over the store the first one left changes nothing, returns the same ids and records only noops, when the filters tell the requests apart |
| Reconcile.PlanAfterApplyIsEmpty | nautobot/data_loader/load_data.py:699-780 | A plan made right after an apply of the same desired state records only noops, when the filters tell the requests apart and hold no placeholder text |
| PlanAndApply.PlanPredictsApplyIff | nautobot/data_loader/load_data.py:699-780 | A plan writes nothing, and it records, request by request, the verb, type and changed fields that an apply from the same start records, also for requests that depend on objects it only has made-up ids for, if and only if it misjudges no request: none with a placeholder-like filter value would find an object |
| PlanAndApply.PlanKeepsIdentitiesIff | nautobot/data_loader/load_data.py:703-780 | A plan that misjudges nothing records every action under the apply's identity if and only if no request that goes by its filter refers in it to an object the plan creates |
| PlanAndApply.InterfaceOnNewDevice | nautobot/data_loader/load_data.py:888-913 | Such a request: an interface on a device the plan creates is planned and applied under different identities |
| PlanAndApply.PlaceholderNameMisleadsThePlan | nautobot/data_loader/load_data.py:143-160 | A misjudged request: a desired name starting with `planned-` is announced as a create although the object exists |
| PlanAndApply.PlanWritesNothing | nautobot/data_loader/load_data.py:699-775 | A plan leaves the inventory as it is, whatever the requests |
| Placeholders.PlannedIdsDiffer | nautobot/data_loader/load_data.py:770-775 | Made-up ids are equal only for the same type and number |
| Placeholders.MadeUpIdsDiffer | nautobot/data_loader/load_data.py:770-775 | No two objects of one plan get the same id |
| Placeholders.PlaceholderIsSeen | nautobot/data_loader/load_data.py:143-160 | A text that starts like a made-up id is recognised wherever it stands in a value, at any depth of lists and mappings |
| Placeholders.SeenIsPlaceholder | nautobot/data_loader/load_data.py:143-160 | Nothing else is taken for one |
| Placeholders.PlaceholderIsPlannedAsCreate | nautobot/data_loader/load_data.py:715-775 | With such a text in its filter a call is planned as a create, whatever is stored |
| Placeholders.WithoutPlaceholderPlansSearch | nautobot/data_loader/load_data.py:715-735 | Without one a plan works on the object an apply works on |
| Reconcile.IdentityFiltersSeparate | nautobot/data_loader/load_data.py:162-208 | Calls whose filters are part of their payloads and pairwise do not match, on a store where no object matches two of them, are told apart in the sense those results need |
| Reconcile.WrittenIsSettled | nautobot/data_loader/load_data.py:678-701 | What a call writes, the same call leaves alone |
| Reconcile.WrittenStays | nautobot/data_loader/load_data.py:703-780 | What a call wrote is still in place, at its position, after all later calls of the pass |
| Reconcile.FirstUndisturbed | nautobot/data_loader/load_data.py:703-780 | Earlier calls of a pass do not change which object a later call works on |
| PlanAndApply.StepsAgreeIff | nautobot/data_loader/load_data.py:715-780 | One plan step records the shape of the apply step exactly when it does not misjudge the call, and then returns the same id or the made-up one in its place |
| Reconcile.ClashingFiltersNeverSettle | nautobot/data_loader/load_data.py:678-780 | Why the filters must differ: two requests with one filter and different payloads overwrite each other in every pass |
| LoaderCache.CachedQueryEqualsLiveQuery | nautobot/data_loader/load_data.py:605-676 | After any creates, creates of a plan, lookups and deletes (while prefetching, of objects with ids), a cached live query equals a live query, on every endpoint |
| LoaderCache.CachesDoNotShow | nautobot/data_loader/load_data.py:577-676 | Over any run of an apply from empty caches, a lookup through prefetch and filter cache finds exactly the matching objects in server order, when objects have distinct ids, a fetch gets everything (in one page, if all objects fit) or fails, and the server's filter returns at least what the loader's comparison accepts |
| LoaderCache.TextFiltersAreFaithful | nautobot/data_loader/load_data.py:605-608 | Filters of text values never share a cache key unless they are equal |
| LoaderCache.SharedKeyGivesWrongAnswer | nautobot/data_loader/load_data.py:605-617 | Filters that share a cache key but select differently get each other's answer |
| LoaderCache.NumberAndTextShareKey | nautobot/data_loader/load_data.py:605-617 | The number 5 and the text 5 are such a pair |
| LoaderCache.RecordAndIdShareKey | nautobot/data_loader/load_data.py:605-608 | A related object and the text of its id share a key |
| LoaderCache.ReorderedListsShareKey | nautobot/data_loader/load_data.py:605-608 | Lists that differ in order alone share a key |
| LoaderCache.FirstPageHidesTheRest | nautobot/data_loader/load_data.py:577-603 | Where only the first page could be fetched, a match on it hides all matches beyond it |
| LoaderCache.BeyondFirstPageIsAsked | nautobot/data_loader/load_data.py:577-617 | Without a match on it the server is asked |
| LoaderCache.DeleteShowsIff | nautobot/data_loader/load_data.py:667-676 | After a delete a right cached answer is still right, unless the deleted object has no id, its endpoint is prefetched and the answer holds objects without id |
| LoaderCache.DroppingWithoutIdGoesStale | nautobot/data_loader/load_data.py:667-676 | Deleting an object without id while prefetching does leave a cached answer stale |
| LoaderCache.AskedOnce | nautobot/data_loader/load_data.py:610-623 | Between changes to an endpoint a live query is sent once, whatever is looked up or changed elsewhere in between |
| LoaderCache.FetchedOnce | nautobot/data_loader/load_data.py:577-597 | An endpoint is fetched once in a run, whether that succeeds or fails |
| LoaderCache.LoaderCache.GetPrefetchedObjects | nautobot/data_loader/load_data.py:577-597 | Fetches an endpoint once and remembers the list, or the failure |
| LoaderCache.LoaderCache.CachedLiveFilter | nautobot/data_loader/load_data.py:610-617 | Answers from the cache or asks and remembers |
| LoaderCache.LoaderCache.CachedFilter | nautobot/data_loader/load_data.py:599-603 | The matching prefetched objects, in order |
| LoaderCache.LoaderCache.FindExisting | nautobot/data_loader/load_data.py:729-735 | Prefetched matches first, then a cached live query |
| LoaderCache.LoaderCache.ClearFilterCacheForEndpoint | nautobot/data_loader/load_data.py:619-623 | Forgets exactly the answers of one endpoint |
| LoaderCache.LoaderCache.UpsertPrefetchObject | nautobot/data_loader/load_data.py:649-665 | Replaces the object with the same id or appends, and forgets the endpoint's answers |
| LoaderCache.LoaderCache.RemovePrefetchObject | nautobot/data_loader/load_data.py:667-676 | Removes the objects with the id and forgets the endpoint's answers, except for an object without id |
| LoaderCache.LoaderCache.Create | nautobot/data_loader/load_data.py:776-778 | The server's create followed by the caches' |
| LoaderCache.LoaderCache.Delete | nautobot/data_loader/load_data.py:1609-1613 | A prune's delete followed by the caches' |
| CacheRefresh.BuildIndexes | nautobot/data_loader/cache_refresh.py:69-81 | Under every indexed key, each text is mapped to exactly the positions of the records that have it, ascending |
| CacheRefresh.SnapshotLookupByIdentity | nautobot/data_loader/load_data.py:467-530 | The loop over an index bucket returns its first position that is in range |
| CacheRefresh.LookupIsALinearScan | nautobot/data_loader/load_data.py:467-517 | The indexed lookup finds exactly what a linear scan over the snapshot finds first, for every type that has a lookup key |
| CacheRefresh.FirstMatchIsUnique | nautobot/data_loader/load_data.py:505-517 | A first match is unique, so both return the same record |
| PruneNetwork.StaleRowsGoOnceIff | nautobot/data_loader/load_data.py:1805-1878 | Every stale assignment is deleted exactly once if and only if no assignment is stale in two listings of the desired interfaces; no other is deleted |
| PruneNetwork.RowGoesPerListing | nautobot/data_loader/load_data.py:1823-1867 | For any listings: an assignment is deleted once per listing it is stale in |
| PruneNetwork.AddressGoesPerDemand | nautobot/data_loader/load_data.py:1815-1878 | For any listings: the counter and the number of deletes of an address, from its assignments and the deletions the listings ask for |
| PruneNetwork.AddressGoesWithItsLastAssignmentIff | nautobot/data_loader/load_data.py:1805-1878 | An address is deleted once when all its assignments go and otherwise never, if and only if the listings ask for fewer deletions than it has assignments, or for as many and none twice |
| PruneNetwork.AddressGoesWithItsLastAssignment | nautobot/data_loader/load_data.py:1805-1878 | So it is wherever none of its assignments is listed twice, and there the counter is the number of assignments left |
| PruneNetwork.ListingIsDistinct | nautobot/data_loader/load_data.py:1539-1546 | Device names without colons and distinct snapshot ids list every interface at most once, as the desired addresses are keyed by device and interface |
| PruneNetwork.PruneWithoutColons | nautobot/data_loader/load_data.py:1757-1878 | Under that condition every stale assignment goes exactly once, and exactly the addresses that lose all their assignments go, once |
| PruneNetwork.AssignmentGoesIff | nautobot/data_loader/load_data.py:1757-1878 | Told from the snapshot: an assignment is deleted exactly when a desired entry names its interface, by the last row with that label, and does not want its address, the one of the last row with that id |
| PruneNetwork.AddressGoesIff | nautobot/data_loader/load_data.py:1757-1878 | And an address, with distinct ids and device names without colons, exactly when it has assignments and all of them are |
| PruneNetwork.KeysShareLabel | nautobot/data_loader/load_data.py:1823-1824 | Two such keys share their label when a device name has a colon |
| PruneNetwork.VisitKeepsTracks | nautobot/data_loader/load_data.py:1838-1878 | Each visit of an assignment keeps counter and deletions of every address in step |
| PruneNetwork.CountsAreRight | nautobot/data_loader/load_data.py:1815-1821 | The counting loop counts each address's assignments |
| PruneNetwork.InterfaceListedTwice | nautobot/data_loader/load_data.py:1823-1878 | Then one interface is listed twice, and an address that another interface still has is deleted |
| PruneNetwork.ReadAddresses | nautobot/data_loader/load_data.py:1810-1813 | The last snapshot row of each id wins |
| PruneNetwork.ReadAssignments | nautobot/data_loader/load_data.py:1815-1821 | Groups assignments by interface and counts them by address |
| PruneNetwork.UnassignStale | nautobot/data_loader/load_data.py:1838-1878 | The inner loop over the assignments of one interface |
| PruneNetwork.ReadLabels | nautobot/data_loader/load_data.py:1757-1781 | The label table of the snapshot's interfaces on managed devices |
| PruneNetwork.PruneAddresses | nautobot/data_loader/load_data.py:1757-1878 | The recorded deletes, from device names and snapshot on: every assignment once per listing it is stale in, and, where none of its assignments is listed twice, an address once exactly when it loses all of them |
| StateSnapshot.BuildStateSnapshot | nautobot/data_loader/load_data.py:234-254 | The table says of every address what the last action on it says, drops it when that is a delete, and keeps the rest |
| StateSnapshot.AddressesCoincideIff | nautobot/data_loader/load_data.py:229-232 | Without arrows and dots in types, two objects share an address exactly when their types are alike up to case and their identities up to space, colon, slash, dot and underscore |
| StateSnapshot.DeleteDropsNamesake | nautobot/data_loader/load_data.py:229-246 | Identities that share an address share an entry: deleting one object drops the other's |

## Left out

- Nautobot, Prometheus and chat HTTP calls, RabbitMQ, notifications, metrics, logging, UI rendering, FastAPI routes and scripts.
- SQL: every store operation is one transaction on values; PostgreSQL's foreign-key failure for events of missing tasks is not modelled (as under SQLite, the event is still inserted).
- Time: a logical clock and insertion order stand for timestamps; ties within one second are not modelled.
- Tenants: every table is that of one tenant.
- Text is ASCII, and severity, status, risk and confidence are taken after lower-casing.
- YAML and JSON text: dumping and loading are taken as inverse on documents; malformed JSON columns met while printing are not modelled.
- What follows `execution_started`: the execution agent, lab validation, verification and knowledge-base entries.
- Budgets, LLM answers, intents and condition checks are inputs of the workflow's steps.
- Clearing the queue, approvals the API records as made by "system", and forged `auto_approved` or `execution_started` notes are not among the steps of a workflow run.
- Notes on the pipeline's progress that nothing reads (`parse_warning`, `rate_limit_retry`, `investigate_failed`, `fix_proposal_*`, `validation_*`).
- Task content: only the fix, the maintenance flag, the policy id and the level of a gate are modelled.
- `_fetch_topology_graph` steps 1 and 2 (HTTP) and the time to live of the graph cache.
- Side effects of classifying a resolved alert on incidents and stale gates, and what `_investigate` does beyond marking a fingerprint as seen.
- `_build_draft` beyond the key, commands, level and samples of a draft.
- `_dig` and the three kinds of condition check, whose answers are inputs.
- `seed_defaults` and its backfill of default policies.
- `create_or_get` through snapshot and read-through modes; endpoint-specific `ensure_*` methods; devices, which are compared twice in one pass.
- References to other objects inside nested lists and mappings of a payload: terms are resolved at the top level.
- The fallback `endpoint.get` of `create_or_get`: it is taken to find nothing that the filter does not.
- CachesDoNotShow: is about apply runs; in a plan the prefetched lists hold objects the server does not have, and only the coherence of cached live queries is stated.
- Updates in place and the filter cache: an update may leave a cached answer with objects that no longer match; `LoaderCache` covers creates, lookups and deletes.
- Aliasing of objects shared between the prefetched list and cached answers.
- Snapshot rows that are not mappings, which the lookups skip.
- Pruning of cables and interfaces, and of addresses and interfaces from live queries.
- `_snapshot_filter` and its query cache, `_needs_live_verify_for_compare`, cache statistics.
