# Agent graph runtime, rollback cycles and exact-cover validators

This project models the backend of a controlled agent runtime in Dafny and proves properties of
the model.  The runtime reconciles two data sources of a school.  A task runs along a reviewed
graph of nodes; many workers claim the same run, freeze a set of candidate actions, decide on one,
execute it and commit the move, in several separate transactions of which only the commit is
fenced.  Around it are the loops that ingest pages and execute operations in batches, the service
that decides whether a target may be rolled back and keeps the chain of retries, and the validators
that hold a model's answers to an exact cover of what it was asked.

To verify all files together, run `dafny verify dfyconfig.toml` in this directory.

## How the model is organised

| file | what it models |
|---|---|
| `GraphDefinition.dfy`, `Paths.dfy` | the three graphs as tables of templates, and what holds on every path |
| `Actions.dfy`, `Guards.dfy` | candidate actions, the frozen action set, decisions, the replan budget and path legality |
| `GraphStore.dfy` | the rows of one graph run: each transaction as a function from rows to rows, and a class that carries it out in place |
| `Worker.dfy`, `WorkerSteps.dfy`, `WorkerRuns.dfy` | any number of workers as a system of events, one event per transaction or local step, what each step does, and the invariant of all |
| `WorkerHistory.dfy`, `WorkerTermination.dfy`, `WorkerPauses.dfy` | what every run of that system satisfies, how it winds down, when transactions succeed and how they leave the run |
| `Invocations.dfy` | the durable attempts of one sub-agent call, with concurrent and crashing runners |
| `CandidateProvider.dfy`, `Ingestion.dfy` | the provider that projects actions from durable facts, and the inspection and normalisation loops |
| `ExecutionLoop.dfy`, `ExecutionOffers.dfy`, `ExecutionTools.dfy` | batches of operations in dependency order, and the tools and reports of one batch |
| `Replanning.dfy` | compiled plans over confirmed replans, when preflight lets one through, and whether its execution ends |
| `RollbackCycles.dfy`, `RollbackTasks.dfy`, `RollbackGates.dfy`, `ReportFacts.dfy` | rollback cycles against the report history, the retry chain, the human gates of a rollback, and report facts |
| `Analysis.dfy`, `DatabaseMapping.dfy`, `HistoryPaging.dfy` | analysis payloads, the database field mapping, and paging through reports |
| `Distinctness.dfy`, `Wrappers.dfy` | small shared notions |

Hashes and canonical encodings are injective, so a hash is represented by what it hashes.
Identifiers and lease tokens are fresh numbers.  Candidate provider, supervisor, executor, model
outputs and operation outcomes are arbitrary: they are parameters of the event, call or loop, and a
theorem holds for all of them.  A lease may expire at any time.  The node and action kinds are
numbered constants; the numbers carry no meaning.

## What turned out different from what one would expect

- History paging takes its cursor from the look-ahead row that it does not return and then asks for
  strictly older rows, so one row in every `limit + 1` is never shown (`PagingOmitsBlockEnds`);
  paging is complete if and only if everything fits on one page (`PagingIsCompleteIff`).
- A run that stored a second plan never finishes executing.  The verify node counts the pending
  operations of every plan of the run, but only the newest plan is executed, so the operations of a
  plan that became stale stay pending.  The loop reaches the terminal report if and only if the run
  stored at most one plan and, with the SQL handler, every operation that another depends on succeeds
  (`RunFinishesIff`); every replan that cures a stale plan leads into a loop that only a termination
  ends (`CuredRunNeverFinishes`, with the concrete run of `ReplannedRunRepeatsForever`).
- Within one plan, the CSV handler always leaves nothing pending.  The SQL handler leaves the
  dependents of a failed operation pending (`SqlLoopFinishesIff`, with the concrete plan of
  `SqlLoopCanRepeatForever`).
- A sub-agent call that is resumed on another input at the same cursor is always refused once an
  attempt is stored: attempts are looked up by input, but their key leaves the input out, so the
  resumption starts over at attempt one and conflicts with it (`ResumeConflictsIff`).
- "At most one completed rollback per cycle" holds if and only if no rollback reports its completion
  while the cycle record already names another one (`OncePerCycleIff`): report generation finds that
  record set and leaves it, but writes the report all the same.  Rollbacks that report only while
  they hold the school lock never do so (`RollbackOncePerCycle`); a rollback that lost the lock and
  reports after the next cycle's rollback does, from an empty book on (`LateReportRepeatsRollback`).
- A cross-phase replan is not always cured by confirming it.  Plans are stored once per content, and
  preflight looks at the plan stored last, so when the target returns to an earlier version with the
  same work, the plan in between stays the newest and every further replan is stale
  (`ReturnIsStaleForever`, exact condition in `ReplanPassesIff`); nor does any replan help when the
  database reports a version of its own (`ForeignChangeIsStaleForever`).
- The hash of a frozen action set covers the allowed actions only.  A decision accepted against one
  set is accepted on replay exactly when the blockers it names are blockers of the stored set
  (`ReplayAcceptedIff`, `ReplayCanBeRefused`).  A decision taken on a set with one action names no
  blockers, and the production provider offers no other sets (`SupervisorIsNeverConsulted`), so the
  refusal needs another provider.
- The deterministic variant of the restore action is never offered: the single template of its node
  has already been returned (`RestoreIsNeverDeterministic`).
- Erasing `materialize_sources` maps a v2 run to a v1 run if and only if the run does not block at
  that node (`ErasureIsV1Run`): v1 has no block edge at the lock node that takes its place
  (`BlockedMaterialisationIsNoV1Run`).  The two production handlers of the node are deterministic and
  never record a model failure, so only an arbitrary executor produces the blocked run.
- A changed rollback generation is never the reason for a refusal when a cycle record existed at the
  preview, because the staleness check comes first (`FrozenGenerationHolds`).
- A source without rows still gets one, empty, page (`EmptySourceHasOnePage`).

## Model

| member | source | states |
|---|---|---|
| GraphDefinition.RunNodesAreDeclared | backend/app/agent_graph/definition.py:38-57 | every node a run of any of the three graphs visits, by template, terminate and block edges, is declared by its graph |
| GraphDefinition.ExecutionIsGated | backend/app/agent_graph/definition.py:75-203 | on every run, any execution node is preceded by the approval gate and by a gate, compile, preflight sequence after which the run has only executed; no replan gate lies after that sequence |
| GraphDefinition.TerminalClosesTheRun | backend/app/agent_graph/definition.py:157-202 | `terminal` is entered only from a report node and is the last node of a run |
| GraphDefinition.NoWorkAfterDrain | backend/app/agent_graph/definition.py:183-202 | once a run drains or blocks it visits only closing nodes |
| GraphDefinition.RestoreVisitsChainOnce | backend/app/agent_graph/definition.py:238-315 | a rollback run at its k-th working node has visited exactly the chain of working nodes up to it, once each |
| GraphDefinition.ErasureIsV1Run | backend/app/agent_graph/definition.py:211-235 | a v2 run without its materialisation visits is a v1 run if and only if it does not block at that node |
| GraphDefinition.BlockedMaterialisationIsNoV1Run | backend/app/agent_graph/definition.py:211-235 | a v2 run of four nodes that does block there and erases to no v1 run |
| Actions.BuildAllowedActionSet | backend/app/agent_graph/actions.py:25-68 | succeeds exactly on candidate lists with unique identifiers, a passed action, a reason exactly for a single action and no semantic alias, and splits them into allowed and excluded; duplicate and alias errors say what they found |
| Actions.BuildableIsWellShaped | backend/app/agent_graph/contracts.py:69-90 | whatever the builder accepts satisfies the frozen set's own contract: identifiers unique and disjoint, reason exactly for a single action |
| Actions.DeterministicDecisionReplays | backend/app/agent_graph/actions.py:71-111 | the decision recorded for a lone action is accepted again when it is replayed |
| Actions.ReplayAcceptedIff | backend/app/agent_graph/actions.py:71-111 | between sets with the same hash a decision is accepted again exactly when its blockers are active there |
| Actions.ReplayCanBeRefused | backend/app/agent_graph/actions.py:71-137 | two well-shaped sets with the same hash under which one decision is accepted and refused |
| GraphStore.GraphRows.constructor | backend/app/agent_runtime/service.py:115-196 | a confirmed task starts with the lock held and its first two moves in the log |
| GraphStore.GraphRows.DoRecordCandidateSet | backend/app/agent_graph/repository.py:102-146 | a candidate set is written once per cursor, found again when its actions are the same, and refused otherwise or at a stale cursor |
| GraphStore.GraphRows.DoRecordDecision | backend/app/agent_graph/repository.py:179-215 | a decision is written once per cursor and only for a member of the frozen set |
| GraphStore.GraphRows.DoRecordTransition | backend/app/agent_graph/repository.py:217-255 | a transition moves node and cursor together and only from the expected ones |
| GraphStore.FencedRefusals | backend/app/agent_graph/worker.py:463-500 | a commit, a model failure and a contract failure are refused for a lost fence first, then for a moved run, then for a missing lock |
| GraphStore.DecisionRefusals | backend/app/agent_graph/repository.py:179-215 | a decision is refused exactly without a frozen set, a second time, and outside the set |
| GraphStore.CandidateSetRefusals | backend/app/agent_graph/repository.py:102-146 | a set is refused exactly at a stale cursor and in place of other actions, and otherwise the cursor has its actions |
| GraphStore.TransitionRefusals | backend/app/agent_graph/repository.py:217-255 | a move is refused exactly from elsewhere or when it was made already |
| GraphStore.FreezeRefusals | backend/app/agent_graph/worker.py:210-256 | what each refusal to freeze says |
| GraphStore.GraphRows.DoClaim | backend/app/agent_runtime/repository.py:363-397 | a claim takes a running run whose lease is absent or expired, under a new token and fencing number, and fails as a whole without the school lock |
| GraphStore.GraphRows.DoFreeze | backend/app/agent_graph/worker.py:210-256 | freezing needs the snapshot to be current and returns the stored set, the decision already taken and the replan count |
| GraphStore.GraphRows.DoRelease | backend/app/agent_runtime/repository.py:421-430 | only the holder of the lease releases it |
| GraphStore.SettleEndsTogether | backend/app/agent_graph/worker.py:505-552 | a move of a live run ends run, graph and task alike and gives up the lock exactly when it reaches `terminal`, as terminated when termination was requested |
| GraphStore.GraphRows.DoMove | backend/app/agent_graph/worker.py:487-505 | a repair action draws on the replan budget in the same step as the move, and a failed move leaves the count alone |
| GraphStore.GraphRows.DoCommit | backend/app/agent_graph/worker.py:463-566 | the commit is fenced, needs a current snapshot and the lock, and either writes everything or nothing |
| GraphStore.GraphRows.DoBlockModelFailure | backend/app/agent_graph/worker.py:577-669 | a model failure is recorded under the same fence and moves to the blocked node, or writes nothing |
| GraphStore.GraphRows.DoFailRun | backend/app/agent_graph/worker.py:671-832 | a contract failure ends run, graph and task as failed and releases the lock, under the same fence; releasing fails when the lock is not held (`release_school_lock`), and then nothing is written |
| Worker.CommitKeeps | backend/app/agent_graph/worker.py:463-566 | a successful commit keeps the linear log, rising fences, frozen facts, explained transitions, budget and common end, and only adds to log and facts |
| Worker.BlockKeeps | backend/app/agent_graph/worker.py:577-669 | so does a recorded model failure |
| Worker.FreezeYields | backend/app/agent_graph/worker.py:210-256 | after freezing, a worker holds the set every other worker finds at that cursor, and the replan count of that cursor |
| WorkerSteps.WhoDecides | backend/app/agent_graph/worker.py:258-308 | a recorded decision is replayed or the worker stops; a lone action is decided without a supervisor; with a choice the supervisor's answer counts exactly when it is accepted |
| WorkerSteps.DecidedActionGoesOn | backend/app/agent_graph/worker.py:294-317 | a decided action is carried on exactly when it moves along a template or winds the run down, and is not a fourth repair |
| WorkerSteps.OutcomeIsTaken | backend/app/agent_graph/worker.py:327-333 | an executor's outcome is taken exactly when it is about the decided action and brings no evidence that was not asked for |
| WorkerSteps.OnlyDecidedIsExecuted | backend/app/agent_graph/worker.py:308-333 | nothing is executed that was not decided |
| WorkerSteps.TerminationGoesOn | backend/app/agent_graph/worker.py:351-388 | the winding-down path goes on exactly with a lone termination request that leads to the drain |
| WorkerSteps.CheckTakesPath | backend/app/agent_graph/worker.py:335-349 | a worker winds down exactly when termination was requested by the time it looks and the run is not winding down already |
| WorkerSteps.PlanTakesStored | backend/app/agent_graph/worker.py:198-215 | a frozen set is planned again whatever the provider offers |
| WorkerRuns.StepKeeps | backend/app/agent_graph/worker.py:126-566 | every event of every worker or operator keeps the invariant of rows and snapshots |
| WorkerRuns.RunKeeps | backend/app/agent_graph/worker.py:126-566 | so does every sequence of events, and rows only grow |
| WorkerHistory.LinearHistory | backend/app/agent_graph/worker.py:463-566 | over any interleaving the cursor counts the transitions, cursors are contiguous, transitions chain from the initial to the current node along edges, and fencing numbers rise with every worker transition |
| WorkerHistory.RunsExecuteOnlyWhenApproved | backend/app/agent_graph/definition.py:75-203 | in every history the workers can produce, execution comes after the approval gate and a compile and preflight with no replan gate in between |
| WorkerHistory.ReplayIsDeterministic | backend/app/agent_graph/worker.py:195-333 | candidate set and decision are written once per cursor, the log only grows, each decision lies in its set, and every ordinary transition takes the decided action; the others are confirmations, moves to the drain and recorded failures |
| WorkerHistory.OneActionPerCursor | backend/app/agent_graph/worker.py:256-333 | two workers that carry out the ordinary work of one cursor carry out the same action |
| WorkerHistory.ReplanBudgetHolds | backend/app/agent_graph/guards.py:19-29 | the replan count is the number of repair moves in the history and never exceeds three, although it is read and drawn on in different transactions |
| WorkerHistory.LeaseNeverReturns | backend/app/agent_graph/worker.py:390-429 | a lease that was lost is never held again |
| WorkerHistory.SupersededWorkerIsHarmless | backend/app/agent_graph/guards.py:31-46 | once a worker lost its claim, its later steps change no node, cursor, status, lock, log or replan count: at most they add a fact at its own cursor |
| WorkerTermination.TerminationIsBounded | backend/app/agent_graph/worker.py:335-388 | after a termination request at most three commits follow, four with one in flight, plus three for each recorded model failure, less the distance still to go |
| WorkerTermination.TerminationEndsTheRun | backend/app/agent_graph/worker.py:505-552 | a run that then reaches `terminal` ends terminated in that step: run, graph and task agree, lock and lease are gone, and it stays so |
| WorkerPauses.PausedRunWaits | backend/app/agent_graph/worker.py:505-566 | after a commit that pauses, the run waits for people at a human gate: for every continuation without an operator no claim succeeds, and log, node, cursor, statuses and lock stay |
| WorkerPauses.CommitOutcome | backend/app/agent_graph/worker.py:505-566 | a commit to `terminal` ends run, graph and task as terminated if that was requested and as completed otherwise, without the lock; a pause waits for people; any other commit leaves status and lock as they were |
| WorkerPauses.TerminalOutcome | backend/app/agent_graph/worker.py:525-552 | over all histories, the event that reaches `terminal` ends the run as terminated exactly when that was requested, and as completed otherwise |
| WorkerPauses.ClaimSucceedsIff | backend/app/agent_runtime/repository.py:363-397 | a claim succeeds exactly on a running run without an unexpired lease, under a fresh token and with the lock held, and raises the fencing number |
| WorkerPauses.CommitSucceedsIff | backend/app/agent_graph/worker.py:463-566 | in every history a commit succeeds exactly when the claim is held, the run stands where it was claimed, the lock is held and the successor has a phase and may pause if asked to; it then appends exactly its move |
| WorkerPauses.BlockSucceedsIff | backend/app/agent_graph/worker.py:577-669 | in every history a model failure is recorded exactly under the fence, at the place of the claim, where the node has a phase |
| WorkerPauses.FreezeSucceedsIff | backend/app/agent_graph/worker.py:210-256 | in every history a plan is frozen or found exactly where it was made and unless other actions were frozen there |
| WorkerPauses.DecisionSucceedsIff | backend/app/agent_graph/repository.py:179-215 | in every history a chosen action is recorded as decided exactly when nothing was decided at its cursor |
| WorkerPauses.BlockedRunWaits | backend/app/agent_graph/worker.py:577-669 | a recorded model failure blocks run and graph at the blocked node, keeps the lock, and rests until an operator acts |
| WorkerPauses.FailedRunRests | backend/app/agent_graph/worker.py:671-832 | a failed run has failed in run, graph and task, holds no lock, made no move, and rests |
| WorkerPauses.OperatorOutcome | backend/app/agent_runtime/service.py:335-364 | a termination request flags a run that has not ended and makes a waiting or blocked one claimable; a stopping rejection flags it, and the last decision resumes a waiting run only |
| Invocations.AttemptsAreBounded | backend/app/agent_graph/repository.py:295-364 | over any interleaving of runners on any inputs, crashes and resumptions there are at most the allowed attempts, numbered without gaps, all but the newest failed, and the retry count is the number after the first |
| Invocations.ResumeConflictsIff | backend/app/agent_graph/repository.py:490-548 | a resumption conflicts with a stored attempt if and only if some attempt was stored for another input |
| Invocations.CompletedIsReplayed | backend/app/ai/graph_subagents.py:157-172 | once an attempt completed, no record changes any more; every runner that resumes on its input is given what its validator makes of the output, or fails when the validator refuses it, and one on another input is refused |
| Invocations.OutputIsReplayed | backend/app/ai/graph_subagents.py:157-172 | when a runner ends its running attempt with an output, it has that output, and every later resumption on the input replays this very output |
| Invocations.ErrorIsCarried | backend/app/agent_graph/repository.py:490-548 | when it ends with an error, every later resumption on the input lists the code, and the next one records its attempt with the feedback of this error |
| Invocations.RunnerRepairs | backend/app/ai/graph_subagents.py:200-245 | the runner itself goes on with the next attempt and the feedback of its own failure |
| Invocations.ResumptionInterrupts | backend/app/agent_graph/repository.py:490-548 | a resumption ends an attempt left running as interrupted, lists that code, and starts the next attempt if one is left |
| Invocations.AttemptsAreFinal | backend/app/agent_graph/repository.py:316-345 | an attempt is finalised, and found again when recorded again, only while it runs, and then only with the same content |
| Invocations.CodesAreExact | backend/app/agent_graph/repository.py:490-548 | the failure categories of a resumption list each code of an earlier attempt on its input exactly once |
| Invocations.InvocationRows.RecordInvocation | backend/app/agent_graph/repository.py:295-364 | an attempt is recorded at the current cursor, or found again while it runs with the same input, feedback and content |
| Invocations.InvocationRows.FinalizeInvocation | backend/app/agent_graph/repository.py:439-463 | only a running attempt can be finalised |
| Invocations.InvocationRows.PrepareResume | backend/app/agent_graph/repository.py:490-548 | attempts on this input left running become interrupted, and the next number, the newest repair feedback and the codes seen on it are returned |
| CandidateProvider.TemplatesMatchTheGraph | backend/app/agent_graph/runtime.py:132-388 | the provider's templates and the graph's templates are the same, in both directions |
| CandidateProvider.OffersOneAction | backend/app/agent_graph/runtime.py:452-675 | for every declared node, contract and valuation of the facts, with pending operations counted over all plans of the run, the provider fails exactly in the listed cases and otherwise offers exactly one legal, well-formed action with evidence, which asks for people exactly when it waits and is of high risk exactly when it waits, changes the target or assesses a restore |
| CandidateProvider.ProviderAgreesWithBuilder | backend/app/agent_graph/runtime.py:405-450 | every candidate list it hands over has one passed action and a reason, and is accepted by the set builder and the path guard |
| CandidateProvider.SupervisorIsNeverConsulted | backend/app/agent_graph/worker.py:258-308 | on such an offer the worker decides alone, for the offered action, whatever a supervisor would say |
| ExecutionOffers.OffersWhatCanRun | backend/app/agent_graph/runtime.py:553-588 | at an execute node the provider offers at most fifty operations, in order and without repeats, each pending with all dependencies succeeded; one that could run waits only behind fifty earlier ones; and the bare template is offered exactly when none can run |
| ExecutionOffers.OffersAreLinearExtension | backend/app/agent_graph/runtime.py:100-129 | over any rounds of successive offers and any outcomes no operation is offered twice, and each only after all its dependencies were offered and succeeded |
| CandidateProvider.FirstBatchAction | backend/app/agent_graph/runtime.py:1129-1189 | the first pending analysis batch is offered, for analysis or for repair |
| CandidateProvider.AnalysisOffer | backend/app/agent_graph/runtime.py:1129-1189 | analysis waits for people while a clarification is open, then takes the first pending batch with its items and evidence, and moves on when none is left |
| CandidateProvider.RepairOffer | backend/app/agent_graph/runtime.py:1129-1189 | a repair takes the first pending batch |
| CandidateProvider.ReportOffer | backend/app/agent_graph/runtime.py:589-611 | a report is written from the facts at the current cursor and ends the run |
| CandidateProvider.MaterializeOffer | backend/app/agent_graph/runtime.py:480-525 | the API source is materialised if there is one, and the remote one otherwise |
| CandidateProvider.ReasonSays | backend/app/agent_graph/runtime.py:1219-1241 | the reason of a lone action says exactly one of five things about it |
| Ingestion.InspectionAction | backend/app/agent_graph/runtime.py:677-725 | the first source not inspected yet is offered, authoritative first, under each contract |
| Ingestion.InspectionsInOrder | backend/app/agent_graph/runtime.py:677-725 | the authoritative source is inspected first, then the target, each reading its own source only, by a sub-agent only under v1; then normalisation begins |
| Ingestion.PairMappingOffer | backend/app/agent_graph/runtime.py:834-931 | under v2 the pair mapping is asked for once unless a source is hopeless, and of a model exactly when a source needs it |
| Ingestion.RoleMappingOffer | backend/app/agent_graph/runtime.py:733-833 | under v3 each role's mapping is asked for once, authoritative first, unless a source is hopeless, and of a model exactly when the source needs it and is no API |
| Ingestion.NormalisationsRead | backend/app/agent_graph/runtime.py:933-981 | a whole source is read by the server and a page by the sub-agent, and nothing else is |
| Ingestion.MappingsCommitted | backend/app/agent_graph/production_executor.py:1678-1700 | a pair mapping is resolved exactly when both roles are, two databases are mapped at once, and an API maps itself |
| Ingestion.PageNormalization | backend/app/agent_graph/runtime.py:933-981 | under v1 the first missing page is offered, and a missing source file fails |
| Ingestion.RoleNormalization | backend/app/agent_graph/runtime.py:733-833 | under v3 the first missing mapping, then the first missing normalisation is offered; an unresolved mapping or fatal inspection ends the loop |
| Ingestion.BatchMakesProgress | backend/app/agent_graph/runtime.py:727-981 | every committed batch action leaves strictly less to do, under each contract |
| Ingestion.NormalizationTerminates | backend/app/agent_graph/runtime.py:727-981 | the self-loop is left within as many commits as there are missing pages or checkpoints, whatever the executor finds |
| Ingestion.MappingsComeFirst | backend/app/agent_graph/runtime.py:727-931 | from an intake without normalised sources, in every state the loop reaches, a source whose full normalisation is offered, committed or checkpointed has every mapping resolved, and the target comes after the authoritative source |
| Ingestion.FinishedIntakeIsJudged | backend/app/agent_graph/runtime.py:983-1127 | when the loop is left, the intake is judged normal exactly when under v1 both sources were recognised, and under v2 and v3 mappings are resolved and, under v3, no unrecognised source has problems, snapshots are complete and the authoritative source is not empty |
| Ingestion.PagesInOrder | backend/app/agent_graph/runtime.py:1289-1311 | under v1 exactly the pages of both sources are committed, once each, authoritative pages first |
| Ingestion.PagesCoverRows | backend/app/agent_graph/production_executor.py:4200-4213 | each row lies on exactly one page and each page of a non-empty source holds one to fifty rows |
| Ingestion.EmptySourceHasOnePage | backend/app/agent_graph/runtime.py:1289-1311 | a source without rows gets one empty page |
| Replanning.ReplanPassesIff | backend/app/repositories/agent_governance.py:326-383 | a confirmed replan gets through preflight exactly when there is no plan, or the database agrees and either the plan shares no finding with one of its version, or it is stored already and the newest plan is for this version |
| Replanning.ProviderFollowsPlans | backend/app/agent_graph/runtime.py:614-657 | on such plans the provider asks for another replan exactly when this one does not get through |
| Replanning.SameRoundSameAnswer | backend/app/agent_graph/production_executor.py:2680-2820 | while version and work stay the same, a replan asked for again is asked for after every further compilation |
| Replanning.HistoryPassesIff | backend/app/agent_graph/production_executor.py:2680-2820 | over any history of compilations preflight passes if and only if the database agrees and the plan stored last was compiled for the current version |
| Replanning.ReturnIsStaleForever | backend/app/agent_runtime/csv_governance_handlers.py:292-304 | a target that returns to an earlier version with the same work stays stale |
| Replanning.ForeignChangeIsStaleForever | backend/app/agent_graph/runtime.py:614-657 | no compilation makes a plan current that the database contradicts |
| ExecutionLoop.BatchIsIndependent | backend/app/agent_graph/runtime.py:100-129 | a batch has at most fifty ready operations, no repeats and no dependency between members, and is empty only when nothing is ready |
| ExecutionLoop.DispatchIsLinearExtension | backend/app/agent_graph/runtime.py:534-588 | over any number of rounds and outcomes no operation is dispatched twice and each comes after all its dependencies, which succeeded |
| ExecutionLoop.SomeReady | backend/app/agent_graph/runtime.py:534-588 | in an acyclic plan without pending dependents of failed operations some operation is ready whenever any is pending |
| ExecutionLoop.CsvLoopFinishes | backend/app/agent_runtime/csv_governance_handlers.py:477-502 | with the CSV handler nothing of the executed plan is pending after as many rounds as operations were, and the report is then reached unless older plans have pending operations |
| ExecutionLoop.CsvLoopFinishesIff | backend/app/agent_graph/runtime.py:534-588 | with the CSV handler the loop reaches the report if and only if no older plan of the run has a pending operation |
| ExecutionLoop.SqlLoopFinishesIff | backend/app/agent_runtime/sql_governance_handlers.py:43-92 | with the SQL handler it does so if and only if, besides, every operation that another depends on succeeds |
| ExecutionLoop.SqlLoopCanRepeatForever | backend/app/agent_runtime/sql_governance_handlers.py:60-92 | a concrete plan of two operations on which the loop never ends |
| ExecutionLoop.IndependentLoopIsExact | backend/app/agent_graph/runtime.py:534-588 | without dependencies the report is reached after exactly the number of operations divided by fifty, rounded up, rounds, if no older plan has pending operations, and never otherwise |
| Replanning.RunFinishesIff | backend/app/agent_graph/runtime.py:534-588 | over any history of compilations, execution gets to the report if and only if the run stored at most one plan and, with the SQL handler, every operation that another depends on succeeds |
| Replanning.CuredRunNeverFinishes | backend/app/agent_graph/runtime.py:534-588 | a replan that cures a stale plan leads into an execution that never gets to the report, whatever the outcomes |
| Replanning.ReplannedRunRepeatsForever | backend/app/agent_graph/runtime.py:534-588 | a concrete run of one operation, planned twice, whose every outcome succeeds and which never ends |
| ExecutionLoop.StuckForever | backend/app/agent_graph/runtime.py:534-588 | without a ready operation the two nodes repeat with unchanged statuses |
| ExecutionLoop.PlanRows.BlockDependentsOf | backend/app/agent_runtime/csv_governance_handlers.py:477-502 | the sweep blocks exactly the pending operations that depend, directly or through pending ones, on the failed operation |
| ExecutionLoop.PlanRows.Execute | backend/app/agent_runtime/csv_governance_handlers.py:375-420 | a ready operation takes its outcome, a finished one is kept, one with a failed dependency is blocked, and errors change nothing |
| ExecutionTools.OutcomesAreWriteOnce | backend/app/agent_graph/governance_executors.py:267-316 | over any tool calls a recorded outcome is never changed and its operation never invoked again, the outcomes are the accepted answers, at most one for each operation, and ready and recorded operations partition the frozen list |
| ExecutionTools.CallInvokes | backend/app/agent_graph/governance_executors.py:267-345 | a call outside its context, for a foreign operation or plan, or only reading, invokes nothing; executing one operation invokes the callback exactly when it has no outcome |
| ExecutionTools.BatchIsComplete | backend/app/agent_graph/governance_executors.py:292-307 | a batch gives every operation an outcome unless the callback answers for another operation, and then invokes nothing more |
| ExecutionTools.ValidateReport | backend/app/agent_graph/governance_executors.py:353-385 | the checks on a report, as one condition |
| ExecutionTools.AcceptedIffPermutation | backend/app/agent_graph/governance_executors.py:353-385 | a report is accepted if and only if all operations were executed and it is a permutation of the recorded outcomes |
| ExecutionTools.Tools.Create | backend/app/agent_graph/governance_executors.py:216-234 | tools exist only for a non-empty list of distinct operations |
| ExecutionTools.Tools.RunOnce | backend/app/agent_graph/governance_executors.py:309-316 | a recorded outcome is returned and the trace of invocations stays as it is; otherwise the callback is invoked once, and an answer for another operation is refused and not recorded |
| ExecutionTools.Tools.RequestExecution | backend/app/agent_graph/governance_executors.py:280-290 | one operation of the frozen list is executed and recorded once |
| ExecutionTools.Tools.RequestBatch | backend/app/agent_graph/governance_executors.py:292-307 | all operations are executed in order, stopping at the first error but keeping what was recorded |
| ExecutionTools.Tools.ReadyOperations | backend/app/agent_graph/governance_executors.py:267-278 | the ready operations are those without an outcome, in order |
| ExecutionTools.Tools.Verification | backend/app/agent_graph/governance_executors.py:318-328 | an outcome can be read exactly when it is recorded |
| ExecutionTools.FreezeApprovals | backend/app/agent_graph/governance_executors.py:169-207 | succeeds exactly on freezable groups at the current cursor whose gates clash with no stored gate, and then each group has its pending gate and every stored gate is kept |
| ExecutionTools.RecordGate | backend/app/agent_graph/repository.py:550-589 | a gate is recorded or found again unless the cursor is stale or a gate of the same content differs, and the key stays unique |
| ExecutionTools.FreezableIff | backend/app/agent_graph/governance_executors.py:169-207 | groups are freezable when all are reviewable, non-empty and free of repeats, and no finding lies in two |
| ExecutionTools.PartitionComparisons | backend/app/agent_graph/rollback_executors.py:112-140 | the comparison facts are accepted exactly when every frozen operation has one known disposition, and are split by it |
| ExecutionTools.CardinalitiesDecide | backend/app/agent_graph/rollback_executors.py:130-140 | the three size and union tests hold exactly in that case |
| ExecutionTools.ValidateAssessment | backend/app/agent_graph/rollback_executors.py:142-157 | an assessment is accepted exactly when it lists each frozen operation under its own disposition and no other, and lists nothing else |
| RollbackCycles.RecordAgreesWithScan | backend/app/agent_reporting/rollback_cycles.py:103-222 | after any history a set record implies that the scan blocks, and where a clear record disagrees with the scan a sync was started after the last completed rollback |
| RollbackCycles.ScanBlocksIff | backend/app/agent_reporting/rollback_cycles.py:193-222 | the scan blocks exactly when a completed rollback was not followed by a sync that completed with nothing but verified successes |
| RollbackCycles.LatestSyncIff | backend/app/agent_reporting/rollback_cycles.py:224-244 | the latest sync is the sync task of the data source that was created last |
| RollbackCycles.ReasonMatchesAvailability | backend/app/agent_reporting/rollback_cycles.py:44-101 | the history list shows a reason exactly for the syncs whose rollback would be refused, and the same one |
| RollbackCycles.GenerationCountsStarts | backend/app/agent_reporting/rollback_cycles.py:130-147 | once a record exists its generation counts the sync starts of its data source |
| RollbackCycles.FrozenGenerationHolds | backend/app/agent_reporting/rollback_cycles.py:64-101 | a rollback frozen at a generation is available again only if no sync of its data source started since, and a changed generation is never the reason when a record existed |
| RollbackCycles.RecordEndsOlderPreviews | backend/app/agent_reporting/rollback_cycles.py:64-101 | a rollback previewed before its data source had a record is not available at its generation once there is one |
| RollbackCycles.NoTargetIsAvailable | backend/app/agent_reporting/rollback_cycles.py:64-101 | a task without a usable target has no cycle and is always available, at generation zero |
| RollbackCycles.StartOpensCycle | backend/app/agent_reporting/rollback_cycles.py:130-147 | a sync that starts opens the next generation of its own data source's record and clears it |
| RollbackCycles.ReportWritesRecord | backend/app/agent_reporting/service.py:97-103 | what a first report makes of the records, for every kind of task and report |
| RollbackCycles.HolderStays | backend/app/agent_runtime/repository.py:648-692 | while nobody releases it the school lock stays with its holder, whoever else asks for it |
| RollbackCycles.LockMoves | backend/app/agent_runtime/repository.py:648-715 | a held lock is only released, never taken over, and a free one is taken by a sync that starts or a rollback that is confirmed |
| RollbackCycles.OncePerCycleIff | backend/app/agent_reporting/rollback_cycles.py:149-173 | over any history, a sync start or a fully successful sync lies between any two completed rollbacks of a data source if and only if no rollback reports its completion while its cycle is used up |
| RollbackCycles.UsedIsRecorded | backend/app/agent_reporting/rollback_cycles.py:149-173 | whether a cycle is used up is what its record says, unless a rollback completed before records were kept |
| RollbackCycles.RollbackOncePerCycle | backend/app/agent_reporting/rollback_cycles.py:149-173 | so it is when rollbacks report only under the lock |
| RollbackCycles.LateReportRepeatsRollback | backend/app/agent_reporting/service.py:58-104 | from an empty book, a history of two syncs and their previewed and confirmed rollbacks in which both rollbacks complete in the second cycle |
| RollbackCycles.RollbackBook.LatestSyncTask | backend/app/agent_reporting/rollback_cycles.py:224-244 | the newest sync task of a data source |
| RollbackCycles.RollbackBook.HistoricalBlocked | backend/app/agent_reporting/rollback_cycles.py:193-222 | the scan: the newest report that completes a rollback or syncs fully decides |
| RollbackCycles.RollbackBook.Reason | backend/app/agent_reporting/rollback_cycles.py:44-62 | the reason shown beside a task |
| RollbackCycles.RollbackBook.Ensure | backend/app/agent_reporting/rollback_cycles.py:64-101 | availability: staleness first, then the generation, then the cycle |
| RollbackCycles.RollbackBook.RecordFullySuccessfulSync | backend/app/agent_reporting/rollback_cycles.py:103-128 | a fully successful sync creates or clears the record |
| RollbackCycles.RollbackBook.RecordCompletedRollback | backend/app/agent_reporting/rollback_cycles.py:149-173 | a completed rollback creates the record or marks a clear one |
| RollbackCycles.RollbackBook.CreateSync | backend/app/agent_runtime/task_service.py:105-151 | a sync is refused under an active lock, which it otherwise takes |
| RollbackCycles.RollbackBook.ConfirmRollback | backend/app/agent_runtime/service.py:248-333 | a confirmation needs a pending rollback that is still available at its frozen generation, and the lock |
| RollbackCycles.RollbackBook.GenerateReport | backend/app/agent_reporting/service.py:58-104 | a task gets one report, which updates the cycle record when it syncs fully or completes a rollback |
| RollbackTasks.CreateMatchesScan | backend/app/agent_reporting/service.py:144-387 | after any history a rollback request, with the second availability check for an existing attempt, is accepted with the same result exactly when it would be by the scan alone |
| RollbackTasks.RetryChainHolds | backend/app/agent_reporting/service.py:169-251 | after any history the attempts for a source and version are numbered without gaps, each retry names its predecessor, and all but the newest ended with every mutation skipped and nothing written |
| RollbackTasks.EarlierAttemptsWroteNothing | backend/app/agent_reporting/service.py:411-421 | in every history an attempt that is not the newest finished on a database target with a report that completed with conflicts, has mutations, and every one of them skipped as a conflict without a write |
| RollbackTasks.WrittenAttemptIsReturned | backend/app/agent_reporting/service.py:192-216 | once the newest attempt has reported any other mutation, every later accepted request returns it and changes nothing, whatever happens in between |
| RollbackTasks.EligibilityIsExact | backend/app/agent_reporting/service.py:159-177 | a request is accepted only for a sync that completed with nothing but verified successes, and refused as not eligible only for another task |
| RollbackTasks.LockRefusesAttempts | backend/app/agent_reporting/service.py:253-260 | while the school lock is held no attempt is added, and only then is it the reason |
| RollbackTasks.EventsMove | backend/app/agent_reporting/service.py:192-216 | a run that moves changes its own attempt until it has finished, and nothing else |
| RollbackTasks.NextNumberIsUnused | backend/app/agent_reporting/service.py:217-241 | the duplicate check by idempotency key never finds anything |
| RollbackTasks.RepeatReturnsSame | backend/app/agent_reporting/service.py:169-216 | repeating a request in the state it left returns the same attempt and changes nothing |
| RollbackTasks.CompensatesEveryMutation | backend/app/agent_reporting/service.py:330-365 | a created attempt holds one high-risk compensating operation per source mutation, in order, each for a verified mutation |
| RollbackTasks.RollbackDesk.AddAttempt | backend/app/agent_reporting/service.py:217-387 | one attempt and its task row are added, unless the lock is held or the key exists |
| RollbackTasks.RollbackDesk.CreateRollbackTask | backend/app/agent_reporting/service.py:144-387 | a request returns the newest attempt unless it ended without a write on a database target |
| RollbackGates.RestoreIsApproved | backend/app/agent_graph/production_executor.py:3453-3531 | whatever the order of gates, decisions and late executors, a run past its restore plan has exactly one rollback approval gate, approved, and no unapproved conflict gate |
| RollbackGates.RestoreWasApproved | backend/app/api/routes/agent.py:2309-2330 | a run past its restore plan was approved by people: an event of its history approved its one approval gate while it was pending, and one each conflict gate |
| RollbackGates.RejectionBarsRestore | backend/app/agent_graph/production_executor.py:3497-3531 | once a person rejected a pending gate no continuation compiles a restore plan |
| RollbackGates.GatesAreRecordedOnce | backend/app/agent_graph/repository.py:550-589 | however often executors run again each gate is recorded once |
| RollbackGates.GatesAreRecorded | backend/app/agent_graph/production_executor.py:3453-3496 | an assessment with conflicts leaves their gate, one without adds nothing, and the wait leaves an approval gate exactly when every conflict is approved |
| RollbackGates.RestoreIsReachable | backend/app/agent_graph/production_executor.py:3453-3531 | some history reaches the compiled restore, so the row above speaks of real histories |
| ReportFacts.CompileFacts | backend/app/agent_reporting/service.py:471-494 | counts per status, the verified successes in order, and eligibility |
| ReportFacts.SuccessfulAre | backend/app/agent_reporting/service.py:471-494 | the mutations that can be rolled back are those that succeeded and were verified as valid |
| ReportFacts.CountsAddUp | backend/app/agent_reporting/service.py:471-494 | every mutation is counted under exactly one status |
| ReportFacts.CompletedRollbackRestoredAll | backend/app/agent_reporting/service.py:454-468 | a rollback counts as completed exactly when it has mutations and none failed, was blocked, rejected or skipped |
| ReportFacts.EligibleIsNotDeletable | backend/app/agent_reporting/service.py:82-94 | a report that allows a rollback does not allow deletion |
| ReportFacts.RetryableIsNotCompleted | backend/app/agent_reporting/service.py:411-468 | a retryable rollback never counts as completed |
| Analysis.PartitionTemplateWork | backend/app/agent_graph/analysis_executors.py:106-153 | the template group is the largest same-profile group with the smallest key, and the rest goes to the fallback |
| Analysis.TemplateGroupIsAlike | backend/app/agent_graph/analysis_executors.py:106-153 | the items of the template group leave nothing to judge and are alike in kind, entity, operations and fields; without a group no item of the batch leaves nothing to judge |
| Analysis.OperationAnswersKind | backend/app/agent_graph/analysis_executors.py:629-686 | which kinds of finding each operation may answer |
| Analysis.SplitIsExact | backend/app/agent_graph/analysis_executors.py:106-153 | with unique identifiers the two parts are disjoint, keep the order and hold every item exactly as often as the batch |
| Analysis.SplitIsDisjointIff | backend/app/agent_graph/analysis_executors.py:130-137 | they are disjoint exactly when no identifier is shared across the split |
| Analysis.ChoiceIgnoresOrder | backend/app/agent_graph/analysis_executors.py:126-129 | the chosen profile does not depend on the order of the batch |
| Analysis.InstantiateTemplate | backend/app/agent_graph/analysis_executors.py:156-204 | succeeds exactly for a matching template with an allowed operation, the policy's risk, no leaked value and evidence inside the manifest; each payload repeats the template on its item's own evidence, deletions at high, changes at medium and the rest at low risk |
| Analysis.ValidateMembership | backend/app/agent_graph/analysis_executors.py:715-748 | findings are accepted exactly when they cover the expected items once each with the expected kind and evidence, and each error names what is wrong |
| Analysis.ValidateSolutions | backend/app/agent_graph/analysis_executors.py:647-654 | solutions are accepted exactly when they name each finding once |
| Analysis.CompilePayloads | backend/app/agent_graph/analysis_executors.py:629-686 | succeeds exactly on a covered, actionable batch whose solutions answer every finding with its own, allowed operation; each payload translates its finding; errors come in the order membership, solutions, operations |
| Analysis.CompileCombined | backend/app/agent_graph/analysis_executors.py:689-712 | the combined compiler is the direct translation of each finding, part by part, and never fails because of a solution |
| Analysis.AnalyzeBatch | backend/app/agent_graph/production_executor.py:2312-2509 | a successful batch has exactly one payload per work item, of the expected kind, with an allowed operation and evidence inside the manifest |
| DatabaseMapping.ConfigRoundTrip | backend/app/agent_graph/production_executor.py:4675-4700 | a configured mapping encoded as output and decoded into the checkpoint is unchanged, and resolved exactly when it covers all fixed fields |
| DatabaseMapping.MergeRoles | backend/app/agent_graph/production_executor.py:4729-4772 | a model answer is merged exactly when it speaks only for the roles it was asked about, and then decides those roles only |
| DatabaseMapping.ConfiguredRolesAreKept | backend/app/agent_graph/production_executor.py:4729-4772 | roles the model was not asked about keep exactly the configured mapping |
| DatabaseMapping.ValidateRole | backend/app/agent_graph/production_executor.py:4813-4884 | a role's mapping is accepted exactly when fields and references are unique, references known and not forbidden, entries well formed, mapped and unresolved fields partition the fixed six, and an enforced mapping is met |
| DatabaseMapping.ValidateOutput | backend/app/agent_graph/production_executor.py:4775-4886 | an output is accepted exactly when every active role is, inactive roles are empty and unresolved entries belong to active roles |
| DatabaseMapping.AcceptedMappingIsExact | backend/app/agent_graph/production_executor.py:4813-4884 | in an accepted output mapped and unresolved fields partition the fixed fields, different fields have different columns, and no key or version column is mapped |
| DatabaseMapping.AcceptedEntriesAreTyped | backend/app/agent_graph/production_executor.py:4813-4884 | an accepted entry is cleaned in the way its field needs, for students only when it is the class name, from a known column that is no key or version column |
| DatabaseMapping.EnforcedMappingIsMet | backend/app/agent_graph/production_executor.py:4813-4884 | where the configuration is enforced, the checkpoint of an accepted output is the configured mapping |
| DatabaseMapping.ResolvedPassesRecheck | backend/app/agent_graph/production_executor.py:1678-1696 | a role checkpoint of an accepted output is resolved exactly when nothing of the role is unresolved, and exactly then passes the check before normalisation |
| HistoryPaging.History | backend/app/agent_reporting/service.py:106-133 | a page exists exactly for limits from 1 to 100, and its cursor is the popped look-ahead row |
| HistoryPaging.RowsAreOrdered | backend/app/agent_reporting/service.py:106-133 | any two reports are ordered one way, by time and then by identifier, so the query has one order |
| HistoryPaging.PagingOmitsBlockEnds | backend/app/agent_reporting/service.py:106-133 | following the cursors shows rows strictly newest first without repeats and omits exactly the rows at zero-based positions k * (limit + 1) - 1, as many as the rows divided by limit + 1 |
| HistoryPaging.PagingIsCompleteIff | backend/app/agent_reporting/service.py:106-133 | nothing is omitted if and only if everything fits on one page |
| HistoryPaging.FixedPagingIsComplete | backend/app/agent_reporting/service.py:106-133 | with the cursor taken from the last returned row the pages join up to the whole table |

## Left out

- Heartbeats, lease times and asyncio plumbing: a lease may expire, be released or be lost at any step, which covers every timing.
- Event log, failure records, safe messages, report texts and their summaries: presentation only.
- The value of the coarse phase: only whether a node has one matters, because a commit into a node without one is refused.
- The executor's inner work at each node (materialising, reading, writing to connectors, the language model): arbitrary results, constrained only by the checks the code makes on them.
- Worker runs begin after the confirmation of the task, because the phase table has no entry for the nodes before it.
- Which guard code names a refused template: only that a refused candidate carries one.
- Unique identifiers of rows, sound foreign keys and strictly increasing creation times are taken from the database; rows created at the same instant are ordered by identifier there and by position here.
- Stores are read and written as one atomic step per transaction; isolation anomalies inside a database transaction are not modelled.
- Batch planning and identity-index construction: not part of this model, so termination of the analysis loop is not claimed.
- GraphStore.GraphRows.DoBlockModelFailure: the failure details and safe codes it stores are not modelled.
- RollbackCycles.RollbackOncePerCycle: a consequence under a locking discipline; the exact condition is `OncePerCycleIff`.
- ExecutionTools: tool calls run one after another, as the tool loop awaits each call; overlapping executions of one operation are not modelled.
- Replanning: what a compilation finds executable is a parameter; an absent target version is created by the compilation before it stores a plan.
- Analysis.AnalyzeBatch: the kind in a work item's evidence is taken to be the kind persisted for it, since both come from the same row; batch size limits and text lengths are not modelled.
- DatabaseMapping.ConfigRoundTrip: entries are listed in a fixed field order instead of the configuration's own order.
- RollbackTasks.RetryChainHolds: starts from a tenant without rollback tasks; keys that clients choose freely for other tasks are not modelled.
- Invocations.AttemptsAreBounded: covers one invocation key, on all inputs; tool-call replay and the early stop after an authorization failure are not modelled.
- CSV field mapping, fixed-field normalisers, phone and email masking, evidence tokens and authorization lookups: set lookups that add only easy members.
