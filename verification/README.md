# A verified model of sandcode's core

sandcode orchestrates coding agents. A run goes through a state machine, an attempt loop
with verify and lint gates, governance policies, a scheduler, and a server that projects
and streams the run's events. This project models the parts of it that carry state,
protocol or arithmetic, and proves what each part promises against an independent
statement of it. `dafny verify dfyconfig.toml` checks everything.

Code that updates things in place is a class or a loop here too. Each such method is
proved against a function on values, and the laws are proved about those functions.

| files | what they model |
|---|---|
| `Events`, `Runtime`, `RuntimeLaws` | the event vocabulary, the transition table and the execution state |
| `Governance` | the policy engine and the retry limit |
| `Reactor` | the first-in first-out reaction loop |
| `RefineCycle`, `ReactiveCycle`, `CycleLaws`, `CycleAnswers` | the attempt loop over an arbitrary world, its two drivers, and what it does in each world |
| `CycleTracking`, `RunStream`, `RunTracking` | everything a run publishes, kernel pass and early exits included, and the state machine that watches it |
| `Graph`, `Plan`, `Validate`, `Kahn`, `TopoSort`, `Levels` | plans, cycle search, validation and topological sorting |
| `Chains`, `ChainOrder`, `ChainRun` | splitting a plan into chains and running one |
| `HeapOrder`, `Queue`, `Admission`, `Scheduler`, `PoolProtocol` | the priority queue, the admission state, and the worker pool as a concurrent protocol |
| `Staging`, `Handlers` | the server's staging map around the scheduler, interleaved and one handler at a time |
| `Json`, `BraceScan`, `Extraction`, `ExtractionLaws` | recovering a JSON object (RFC 8259) from free-form text |
| `Limiter`, `LimiterLaws` | the token-bucket limiter with idle eviction |
| `Sse`, `SseProtocol`, `RunDelivery` | resuming an event stream across replay and live tail, and which streams a run closes |
| `StateCache` | the bounded per-run projection |
| `Histogram` | the cumulative latency histogram |

## Where the code and its documentation disagree

The model follows the code.

- `TopoSort` is documented as stable on input order within each level.
  `TopoSort.NotStableWithinLevel` is a plan where it is not, `TopoSort.EmissionOrder` is the
  order it does produce, and `Levels.StableExactly` is the condition on the plan under which
  it is stable.
- `extractJSONObject` is documented to return the first complete object. It only looks at
  the first opening brace: `ExtractionLaws.ExtractsExactlyTheFirst` is what it returns on
  every text, and `ExtractionLaws.LoneBraceHidesObject` an object it does not find.
- The refine cap is documented to default to three. The chain executor does not apply the
  default; `ChainRun.CapIsHonouredExactly`.
- The execution state is meant to follow the run. It loses a run that takes more attempts
  than the state's own cap of three, and one whose kernel pass came ahead of it, as `Execute`
  arranges, without enriching the prompt: no later event then leads to completion. A kernel
  built on a brain always enriches, so the second case needs a `kernel.New(nil, ...)`, which
  neither command builds. `RunTracking.WholeRunMatches` is the condition for one run,
  `RunTracking.TrackingIsExact` for a configuration, its engine and its kernel pass,
  `RunTracking.ConfigurationIsExact` for what is known before anything runs.
- Streams are documented to close when their run ends. A run whose credentials cannot be
  applied ends without publishing anything, unlike the other six early exits: its streams
  stay open and its state stays live. Otherwise a stream that starts behind the closing
  event, as after a reconnect with the last id, or whose full channel refused that event,
  stays open too. `SseProtocol.ClosedExactly`, `SseProtocol.OpenedTooLate`,
  `RunDelivery.RunClosesStream`, `RunTracking.AbortedRunFails`.
- `TopoSort` reports a cycle for an unknown dependency too; `TopoSort.SortsExactlyAcyclic`.
- Idle eviction in the limiter is observable unless a bucket refills within the ttl;
  `LimiterLaws.EvictionInvisibleExactly`. Then more than the burst and the earned tokens can
  pass in an interval, and the retry hint may not be the least one;
  `LimiterLaws.IntervalBoundExactly`, `LimiterLaws.HintIsLeastExactly`.

## Model

| member | source | states |
|---|---|---|
| Runtime.ExecutionState.Apply | internal/runtime/statemachine.go:73-121 | one event takes the state to that of the value machine, reports the same error, and a rejection changes no field |
| Runtime.Replay | internal/runtime/statemachine.go:131-153 | the loop computes the strict fold from the anchored start state, with its first error; only a missing run id gives no state |
| RuntimeLaws.TableIsExact | internal/runtime/transitions.go:31-115 | phase by phase: every move of the table and no other; failure and cancellation from the eleven live phases |
| RuntimeLaws.LiveRunsCanEnd | internal/runtime/transitions.go:80-106 | run.cancelled and run.failed are accepted in each of the eleven live phases, lead to Cancelled and Failed, and keep the attempt |
| RuntimeLaws.QueuedRunIsCancelled | internal/scheduler/pool.go:86-99 | a run that is scheduled and then cancelled while it is queued is projected as cancelled at attempt 1 |
| RuntimeLaws.EveryTypeIsHandled | internal/runtime/transitions.go:117-168 | an event type is observation only exactly when it moves the machine from no phase and is not one of five types left out of both lists |
| RuntimeLaws.RefusedExactly | internal/runtime/statemachine.go:73-89 | when an event is refused and for which of the three reasons |
| RuntimeLaws.RefineCounts | internal/runtime/statemachine.go:91-105 | a refinement below the cap starts the next attempt, and at the cap it fails the run |
| RuntimeLaws.ErrorIsNoted | internal/runtime/statemachine.go:95-116 | the last error is that of the failure or the exceeded cap, and nothing else touches it |
| RuntimeLaws.ProjectAppend | internal/server/state_cache.go:82-86 | projecting a stream in two parts is projecting it whole |
| RuntimeLaws.TerminalIsFinal | internal/runtime/statemachine.go:74-76 | no later event changes a terminal state |
| RuntimeLaws.ReplayAgreesWithProject | internal/runtime/statemachine.go:123-153 | a replay without error is the error-swallowing projection and counts every event |
| RuntimeLaws.ReplayTakesAsLong | internal/runtime/statemachine.go:131-153 | a replayed run that ended took the time from its first event to its last, whenever it is replayed |
| RuntimeLaws.AttemptStaysBounded | internal/runtime/statemachine.go:96-105 | over every event sequence the attempt stays between 1 and the cap and never falls |
| RuntimeLaws.ObservationsAreInert | internal/runtime/transitions.go:117-168 | deleting all observation-only events leaves phase, attempt and cap unchanged |
| RuntimeLaws.CompletedRunBalances | internal/runtime/transitions.go:56-78 | in a completed run accepted gate failures = accepted refine events = attempt - 1, agent completions = attempt, and approvals required = approvals granted |
| Governance.Engine.Evaluate | internal/governance/engine.go:59-88 | the accumulating loop computes the aggregate verdict of the policies in order |
| Governance.Engine.AddPolicy | internal/governance/engine.go:36-44 | a policy is appended exactly when no policy has its name |
| Governance.DeniedMeaning | internal/governance/engine.go:63-78 | the verdict is Deny exactly when some policy denies, errors included |
| Governance.ReviewMeaning | internal/governance/engine.go:79-85 | the verdict is Review exactly when none denies and some policy asks for review |
| Governance.BreakdownMeaning | internal/governance/engine.go:66-78 | the audit rows are those of the policies in order, up to and including the first denial, each with the policy's name, verdict and reason, or the error as a denial |
| Governance.ReasonsMeaning | internal/governance/engine.go:59-88 | the reasons are those of the audit rows that do not allow, in their order |
| Governance.RetryLimitsExactly | internal/governance/builtin/retry_limit.go:28-41 | retry limits deny attempt n exactly when a positive one of them is below n, and deny nothing but refinements; so RetryLimit(r) allows attempt r |
| Governance.RetryLimitDenies | internal/governance/builtin/retry_limit.go:28-41 | with RetryLimit(r) in the engine every refine attempt beyond r is denied |
| Reactor.Reactor.Register | internal/reactor/reactor.go:48-50 | a later handler for a type replaces the earlier one |
| Reactor.Reactor.Dispatch | internal/reactor/reactor.go:63-89 | log, state and error are those of taking turns until quiet; without an error the log is the seed and then all handler outputs in order; it fails exactly when some turn meets a handler's error, and then that event is the last of the log |
| Reactor.AbortExactly | internal/reactor/reactor.go:76-84 | a dispatch fails exactly when some handler does, and that ends it: what is queued then stays unprocessed and nothing is added |
| Reactor.DispatchLaw | internal/reactor/reactor.go:64-87 | at every turn log ++ queue = seed ++ everything produced so far |
| RefineCycle.Cycle.RunAgent | internal/orchestrator/run.go:747-761 | one agent step on the shared variables is that of the recursive loop; what it amounts to is CycleAnswers.AttemptsExactly and CycleAnswers.CrashEndsLoop |
| RefineCycle.Cycle.Refine | internal/orchestrator/run.go:684-730 | at the cap or on a governance denial the run ends with the gate's exit code; otherwise the attempt is counted, announced and started |
| RefineCycle.Cycle.RunGate | internal/orchestrator/run.go:766-818 | the verify and lint steps over an arbitrary gate answer |
| RefineCycle.Cycle.RunAttempt | internal/orchestrator/run.go:870-891 | the steps of one attempt in order, each gate only when configured |
| RefineCycle.Cycle.RunImperative | internal/orchestrator/run.go:869-892 | the attempt loop terminates with the variables and published events of the recursive loop, for every world |
| RefineCycle.ReloopConsumesAttempt | internal/orchestrator/run.go:684-730 | an attempt that loops back has used up exactly one attempt of the budget |
| ReactiveCycle.TurnKeepsOutlook | internal/orchestrator/run.go:834-866 | one reactor turn plus what the loop would still do is what the loop would have done |
| ReactiveCycle.ReactorFollowsLoop | internal/orchestrator/run.go:833-867 | from any command the reactor becomes quiet, having done what the loop does |
| ReactiveCycle.DriversAgree | internal/orchestrator/run.go:820-892 | for every world the reactor-driven cycle ends with the loop's variables and Result and publishes the loop's events once the commands are filtered out |
| ReactiveCycle.RunReactive | internal/orchestrator/run.go:820-867 | the reactive driver on the object agrees with the imperative one in variables and result events |
| CycleLaws.AttemptsWithinCap | internal/orchestrator/run.go:685-690 | the attempts never exceed the effective cap |
| CycleLaws.AttemptNeedsRoom | internal/orchestrator/run.go:685-701 | an attempt is only added below the cap and when governance does not deny it |
| CycleLaws.AttemptsBelowRefusal | internal/orchestrator/run.go:691-700 | the loop never gets as far as an attempt that governance refuses |
| CycleLaws.AttemptsWithinPolicy | internal/governance/builtin/retry_limit.go:28-41 | with RetryLimit(r) configured the attempts never exceed r |
| CycleLaws.LoopEndsClean | internal/orchestrator/run.go:744-892 | the loop ends clean exactly when its last attempt was clean: agent exit 0 and every configured gate passed on that attempt |
| CycleLaws.SuccessExactly | internal/orchestrator/run.go:894-939 | the final status is success exactly when the last attempt was clean, the deadline did not pass and the merge went through |
| CycleLaws.RefusedExactly | internal/orchestrator/run.go:691-700 | governance refuses an attempt exactly when there is an engine and one of its policies errs on it or denies it |
| CycleAnswers.AttemptsExactly | internal/orchestrator/run.go:675-892 | the loop gets beyond attempt n exactly when on every attempt up to n the agent was started and exited with 0 in time, the first configured gate that did not pass ran and failed, the cap leaves room, and governance does not refuse the next |
| CycleAnswers.CrashEndsLoop | internal/orchestrator/run.go:747-761 | a crashed agent ends the run: its agent.completed is the last event of the loop, no gate is asked, and its result is that of the run |
| CycleAnswers.LoopEnds | internal/orchestrator/run.go:675-892 | the exit code, error, deadline flag and verify output the loop leaves, from the number of attempts and the world's answers to the last of them |
| CycleAnswers.LoopSays | internal/orchestrator/run.go:675-892 | for every world the loop publishes the transcript of the attempts it started, payloads included |
| CycleAnswers.StatusExactly | internal/orchestrator/run.go:894-939 | cancelled exactly when the deadline passed, whatever else went wrong, and success exactly when all else is clean |
| CycleAnswers.ResultExactly | internal/orchestrator/run.go:894-1013 | the whole Result and the last two events of the run |
| CycleTracking.WalkIsProjection | internal/server/state_cache.go:71-86 | along every stamped trace, phase, attempt and cap of the projected state depend only on the event types |
| CycleTracking.LoopTracked | internal/orchestrator/run.go:869-892 | along the loop's events the state machine stays in step with the loop until its own cap fires |
| RunStream.Drive | internal/orchestrator/run.go:820-1013 | with either driver a run publishes its prelude, its loop and its final events, once the cycle commands are erased, and an event of its own comes last |
| RunStream.RunEndsItsLog | internal/orchestrator/run.go:340-1013 | for the runs that reach the loop and the seven early exits: a run publishes an event that closes streams exactly when it did not fail on its credentials, once and last |
| RunTracking.PassWalks | internal/kernel/kernel.go:176-363 | of a whole kernel pass, reactive or not, only the classified, planned and enriched results move the state machine |
| RunTracking.PreludeReachesExecuting | internal/orchestrator/execute.go:286-293 | the machine is executing at attempt 1 when the loop starts exactly when it was in Submitted or Enriched when the run was submitted, so exactly unless the kernel ran ahead without enriching |
| RunTracking.WholeRunMatches | internal/server/state_cache.go:71-86 | for either driver, any place of the kernel, any approval and tools, and the scheduler's announcements anywhere, the projection of a run ends in the phase of the final status with the Result's attempts exactly when the run took at most three attempts, or, after a kernel that ran ahead without enriching, when it took one and did not succeed |
| RunTracking.TrackingIsExact | internal/runtime/statemachine.go:45-57 | every run of a configuration, engine and kernel pass that reaches the loop is tracked exactly when governance bars all of them, or the kernel did not run ahead without enriching and there is no gate, the effective cap is at most three, or governance refuses attempt 2, 3 or 4 |
| RunTracking.ConfigurationIsExact | internal/kernel/kernel.go:116-130 | every run of a configuration, whichever way its kernel pass goes and its engine may behave, is tracked exactly when in each behaviour governance bars it, or the kernel ahead of it is not one built without a brain and the loop is short as above |
| RunTracking.AnyEngineIsExact | cmd/sandcode/serve.go:275-292 | with nothing known of the engine that leaves: no brainless kernel ahead, and no gate or an effective cap of at most three |
| RunTracking.RetryLimitTracks | internal/governance/builtin/retry_limit.go:28-41 | with a retry limit of at most three every configuration is tracked, unless its kernel ahead has no brain and some run is not barred |
| RunTracking.StubbornRunsOn | internal/orchestrator/run.go:684-700 | when gates never pass the loop goes on to every attempt that the cap and governance leave it |
| RunTracking.AbortedRunFails | internal/orchestrator/run.go:449-581 | a run that ends before its loop is projected as failed at its first attempt exactly when it publishes a closing event; after a failure on the credentials it stays live where it was submitted |
| Sse.TerminalEventsEndRuns | internal/server/sse.go:220-230 | the events that close a stream are exactly those the transition table sends to a terminal phase |
| CycleTracking.ErasureIsInert | internal/runtime/transitions.go:117-168 | erasing any observation-only events, such as the commands of the reactive driver and the scheduler's announcements, does not change where the state machine ends |
| CycleTracking.CommandsAreInert | internal/runtime/transitions.go:129-168 | in particular the commands |
| Plan.CycleSearch.Visit | internal/planner/types.go:171-189 | the recursive three-colour visit returns only ids on a cycle, and otherwise finishes its node |
| Plan.FindCycle | internal/planner/types.go:163-197 | terminates; returns "" exactly on acyclic plans, and otherwise an id on a real cycle |
| Validate.ValidatePlan | internal/planner/types.go:66-100 | accepts exactly the plans with non-empty fields, distinct ids, known dependencies and no cycle; a reported error is the plan's first defect in the order of the checks |
| Validate.FirstDefectIsUnique | internal/planner/types.go:66-100 | a plan has one first defect, up to the node named of a cycle |
| Validate.SelfDependencyIsCycle | internal/planner/types.go:87-89 | the self-dependency check rejects nothing that the cycle check would accept |
| Validate.Roots | internal/planner/types.go:104-112 | the roots, in input order |
| Validate.ValidateDAG | internal/orchestrator/dag_validate.go:12-37 | accepts exactly the valid plans without fan-in that have a judge when there are several roots; each error is justified |
| TopoSort.BuildDependents | internal/planner/types.go:127-132 | the reverse adjacency lists each dependent once per repeated entry, in input order |
| TopoSort.Sort | internal/planner/types.go:120-159 | the counter loop computes the set-based order, repeated and dangling dependency entries included |
| TopoSort.ReleaseDependents | internal/planner/types.go:147-152 | decrementing the counters releases exactly the nodes whose last dependency was just output |
| TopoSort.OrderIsTopological | internal/planner/types.go:114-159 | a sort that succeeds is a permutation of the ids with every dependency first |
| TopoSort.SortsExactlyAcyclic | internal/planner/types.go:154-158 | the sort succeeds exactly when every dependency is known and the plan is acyclic |
| TopoSort.EmissionOrder | internal/planner/types.go:141-153 | nodes leave by the position of their last dependency, then by input position |
| TopoSort.NotStableWithinLevel | internal/planner/types.go:114-119 | a plan on which the sort is not stable within a level |
| Levels.LevelByLevel | internal/planner/types.go:141-153 | the sort emits level by level |
| Levels.StableExactly | internal/planner/types.go:114-159 | the sort is stable on input order within every level exactly when dependencies on the level below are not crossed |
| Levels.LevelsExist | internal/planner/types.go:114-119 | every sortable plan has levels |
| Chains.AcceptedPlanIsForest | internal/orchestrator/dag_validate.go:12-37 | an accepted plan is a forest listed dependencies first |
| Chains.ChainBuilder.Visit | internal/orchestrator/dag_run.go:341-348 | the recursive visit terminates and appends the subtree in depth-first order |
| Chains.DecomposeChains | internal/orchestrator/dag_run.go:325-360 | on an accepted plan: one chain per root, in root order, holding the visit of that root, with its agent |
| Chains.ChainsPartition | internal/orchestrator/dag_run.go:316-360 | every node of the plan occurs exactly once over all visits |
| Chains.ChainMembers | internal/orchestrator/dag_run.go:339-348 | a node is in the chain of exactly the root it descends from |
| Chains.DecompositionIsPartition | internal/orchestrator/dag_run.go:310-360 | the chains partition the plan, and in its chain every node but the root follows its dependency |
| Chains.AgentsRotate | internal/orchestrator/dag_run.go:320-356 | with several agents the first chains get one each, in order, and after the last agent it is the first one's turn; with at most one every chain is left to the default |
| ChainOrder.ChainIsPreorder | internal/orchestrator/dag_run.go:339-348 | a task is followed by everything below it before anything else, and tasks with the same dependency, and the chains, come in the order of the plan |
| ChainRun.RunNode | internal/orchestrator/dag_chain.go:238-328 | the attempt loop of one node computes the recursive run |
| ChainRun.NodeRunLaws | internal/orchestrator/dag_chain.go:248-328 | attempts stay within the configured cap, and the node succeeds exactly when its last attempt started, exited cleanly and passed verification |
| ChainRun.NodeAttemptsExactly | internal/orchestrator/dag_chain.go:248-316 | a node gets beyond attempt n exactly when on every attempt up to n the agent started and exited cleanly, the verifier ran and failed, and the cap left room |
| ChainRun.NodeResultExactly | internal/orchestrator/dag_chain.go:248-328 | the node's result from the world's answers to its last attempt |
| ChainRun.CrashEndsNode | internal/orchestrator/dag_chain.go:280-285 | a crashed agent is not retried: its attempt is the last one and its result that of the node |
| ChainRun.CapIsHonouredExactly | internal/orchestrator/dag_chain.go:304-308 | a failing node is retried up to the documented cap exactly when a positive cap is configured |
| ChainRun.RunChain | internal/orchestrator/dag_chain.go:175-208 | runs a prefix of the chain in order and stops at the first failure |
| ChainRun.ChainsRespectDependencies | internal/orchestrator/dag_chain.go:175-208 | no chain runs a node whose dependency has not already succeeded |
| HeapOrder.SwapUp | internal/scheduler/queue.go:66-67 | one sift-up exchange moves the only violation one level up |
| HeapOrder.SwapDown | internal/scheduler/queue.go:66-67 | one sift-down exchange with the better child moves the only violation down |
| Queue.PQ.Push | internal/scheduler/queue.go:49-66 | adds the entry and keeps the heap and every entry's index right |
| Queue.PQ.Pop | internal/scheduler/queue.go:35-67 | removes one entry; every entry left has a lower priority, or the same priority and a larger sequence number |
| Queue.PQ.Remove | internal/scheduler/queue.go:72-80 | removes exactly one entry of the run, or reports that there is none |
| Queue.PQ.PositionOf | internal/scheduler/queue.go:85-102 | the number of queued entries strictly before the run's, or -1; modifies nothing |
| Queue.FirstIsLeast | internal/scheduler/queue.go:35-41 | the root of the heap precedes every other entry |
| HeapOrder.DrainStep | internal/scheduler/queue.go:94-101 | the entries popped so far are always those before every entry left |
| Scheduler.Sched.Submit | internal/scheduler/pool.go:49-84 | refuses when stopped, for a known run, and when full, in this order; else queues the run with the submitted priority, the next sequence number and its time, and reports how many queued runs have at least its priority |
| Scheduler.Sched.Cancel | internal/scheduler/pool.go:86-99 | succeeds exactly for known runs that are not running, and removes exactly their entry |
| Scheduler.Sched.Status | internal/scheduler/pool.go:101-119 | running or queued with the number of runs ahead and the time it was recorded with; unknown runs give none |
| Scheduler.Sched.TakeNext | internal/scheduler/pool.go:160-174 | takes one entry off the queue and marks it running; every entry left has a lower priority, or the same and a larger sequence number |
| Scheduler.Sched.StopAll | internal/scheduler/pool.go:121-135 | once: refuses new runs and cancels exactly the queued ones |
| Scheduler.Sched.Finish | internal/scheduler/pool.go:181-183 | forgets the finished run |
| Admission.RunsSplit | internal/scheduler/pool.go:16-27 | runs is the disjoint union of queued and running |
| Admission.SubmitKeepsValid | internal/scheduler/pool.go:49-84 | submission keeps the admission state valid and the queue within its bound |
| PoolProtocol.ControlKept | internal/scheduler/pool.go:49-192 | every critical section keeps running runs and busy workers in one-to-one correspondence and the queue bounded |
| PoolProtocol.HistoryKept | internal/scheduler/pool.go:49-192 | every step keeps the ledger of accepted, popped, launched and cancelled runs |
| PoolProtocol.PoolSafety | internal/scheduler/pool.go:49-192 | in every interleaving: runs = queued + running, queued <= capacity, running <= pool size, no run launched twice or launched and cancelled, equal priorities are popped in submission order, and each popped run was popped while no run of higher priority was queued |
| PoolProtocol.PopsInOrder | internal/scheduler/pool.go:160-174 | every pop of an execution takes a queued run, and every other queued run has a lower priority, or the same and a larger sequence number |
| PoolProtocol.SubmitQueues | internal/scheduler/pool.go:49-84 | an accepted submission of an execution queues the run with the submitted priority and a sequence number above all earlier ones; a refused one changes nothing |
| PoolProtocol.NothingPoppedAfterStop | internal/scheduler/pool.go:121-135 | after Stop's critical section no unpopped run is ever launched |
| Staging.MoveKept | internal/server/runs.go:78-131 | every step of handlers, workers and shutdown keeps the staging invariant |
| Staging.StagingIsExact | internal/server/server.go:323-384 | in every interleaving the map holds exactly the runs still waiting, each launched run gets its own request, and a worker misses one only after a timed-out drain |
| Staging.NothingLeftStaged | internal/server/server.go:330-346 | nothing leaks once no run waits |
| Staging.MissedExactly | internal/server/server.go:358-384 | in every interleaving some worker has missed its request exactly when some worker took after the purge, and then the drain had timed out |
| Staging.TakeMisses | internal/server/server.go:376-384 | a worker's request is missing exactly when the purge came first |
| Staging.TimeoutCanMiss | internal/server/server.go:358-368 | a whole execution in which that happens, so the "no pending request" branch is reachable |
| Handlers.RunServer.CreateRun | internal/server/runs.go:78-108 | stage, submit and un-stage on refusal, with the status of each refusal; a new id keeps staged = queued |
| Handlers.RunServer.CancelRun | internal/server/runs.go:113-131 | cancels and un-stages exactly the queued runs and keeps staged = queued |
| Handlers.RunServer.TakePending | internal/server/server.go:376-384 | returns and removes the request if there is one |
| Json.BareObject | internal/llmcli/llmcli.go:151-153 | a JSON text that starts with a brace and ends without whitespace is an object |
| BraceScan.ValueIsCalm | internal/llmcli/llmcli.go:163-190 | inside an object every JSON value, whatever its strings and nesting, leaves the scanner's depth as it found it |
| BraceScan.ObjectClosesAtItsEnd | internal/llmcli/llmcli.go:160-190 | on an object followed by anything the scanner stops exactly at the object's last brace |
| BraceScan.ObjectsArePrefixFree | internal/llmcli/llmcli.go:160-190 | no object text is a proper prefix of another |
| Extraction.Scan | internal/llmcli/llmcli.go:160-190 | the loop over depth, string and escape flags finds the first position where the braces balance |
| Extraction.StripFencesOf | internal/llmcli/llmcli.go:194-208 | drops the opening line and everything from the last fence on |
| Extraction.ExtractJSONObject | internal/llmcli/llmcli.go:148-191 | the method computes the specified outcome, errors included |
| ExtractionLaws.ExtractsExactlyTheFirst | internal/llmcli/llmcli.go:145-191 | for every text: o is returned exactly when an accepted object o begins at the first opening brace of the unfenced text |
| ExtractionLaws.RecoversFromProse | internal/llmcli/llmcli.go:145-191 | an object after prose without an opening brace is returned, with any suffix |
| ExtractionLaws.RecoversFromFence | internal/llmcli/llmcli.go:193-208 | an object inside a code fence is returned, whatever the body holds |
| ExtractionLaws.EarlierBraceDecides | internal/llmcli/llmcli.go:154-190 | with an opening brace before the object, extraction succeeds exactly when an object begins at that brace |
| ExtractionLaws.LoneBraceHidesObject | internal/llmcli/llmcli.go:145-147 | a text whose complete object is not found |
| ExtractionLaws.SharedLineRecovers | internal/llmcli/llmcli.go:199-202 | an object on the fence's own line is returned exactly when it has no line break |
| ExtractionLaws.StripsTheFence | internal/llmcli/llmcli.go:194-208 | stripping a fenced body returns the body |
| ExtractionLaws.UnclosedFenceRecovers | internal/llmcli/llmcli.go:199-206 | behind a fence that is opened and never closed the object is recovered exactly when it contains no fence itself |
| ExtractionLaws.NoBraceExactly | internal/llmcli/llmcli.go:154-158 | a missing brace is reported exactly when the unfenced text has none |
| Limiter.RateLimiter.Allow | internal/ratelimit/limiter.go:46-73 | refill, cap, take a token or compute the retry hint, as the value step does; what the configured burst and rate mean is LimiterLaws.BurstIsConfigured and LimiterLaws.RefillIsConfigured |
| Limiter.RateLimiter.SweepIdle | internal/ratelimit/limiter.go:75-86 | evicts exactly the buckets idle for a ttl, at most once per ttl |
| LimiterLaws.BurstIsConfigured | internal/ratelimit/limiter.go:28-41 | a new limiter admits n simultaneous requests of a key exactly when n is at most the configured burst, or one if that is less than one |
| LimiterLaws.RefillIsConfigured | internal/ratelimit/limiter.go:58-69 | some seconds after a key has spent its burst, n requests pass exactly when the rate has earned them or the key has been forgotten, and n is at most the burst |
| LimiterLaws.UnlimitedExactly | internal/ratelimit/limiter.go:50-52 | every request is admitted at once and for ever exactly when the rate is not positive |
| LimiterLaws.EvictionIsInvisible | internal/ratelimit/limiter.go:46-86 | with a forward clock and rate*ttl >= burst every answer is that of a limiter that never evicts |
| LimiterLaws.EvictionInvisibleExactly | internal/ratelimit/limiter.go:28-86 | and exactly then, apart from limiters that never limit or never evict |
| LimiterLaws.IntervalBound | internal/ratelimit/limiter.go:46-73 | a key is admitted at most burst + rate*(t-s) times in any interval [s,t], if a bucket refills within the ttl or nothing is evicted |
| LimiterLaws.IntervalBoundExactly | internal/ratelimit/limiter.go:46-86 | and exactly then: otherwise two bursts one ttl apart exceed it |
| LimiterLaws.RetryIsAdmitted | internal/ratelimit/limiter.go:45-73 | a denied key that retries after the hint, with no admission in between, is admitted |
| LimiterLaws.HintIsLeast | internal/ratelimit/limiter.go:71-72 | in every state a limiter can be in, the hint is the least whole number of seconds that works, if an eviction cannot come before the earned token |
| LimiterLaws.HintIsLeastExactly | internal/ratelimit/limiter.go:71-86 | and exactly then: otherwise a spent key that is evicted gets its token sooner |
| Sse.ReplayPhase | internal/server/sse.go:124-151 | replays what follows the anchor, up to the first terminal event, and remembers it |
| Sse.LivePhase | internal/server/sse.go:161-181 | sends the live events not already replayed, up to the first terminal event |
| Sse.Stream | internal/server/sse.go:122-181 | the two phases in sequence |
| Sse.SeamIsExact | internal/server/sse.go:97-151 | however subscription and snapshot fall, replay plus deduplicated live tail is the log after the anchor |
| Sse.IndexOfEventID | internal/server/sse.go:190-197 | the first position of the id, or -1 |
| SseProtocol.StepKept | internal/server/sse.go:97-181 | every step of the stream and every publish keeps the stream invariant |
| SseProtocol.StreamIsInOrder | internal/server/sse.go:97-181 | in every interleaving, overflow included, a stream sends events after its starting point in log order, none twice |
| SseProtocol.LostExactly | internal/server/sse.go:99-107 | in every execution a position is lost exactly when some step published it to the listening stream while 64 positions were waiting |
| SseProtocol.NothingLostExactly | internal/server/sse.go:99-107 | so nothing is lost exactly when fewer than 64 positions wait at each publish |
| SseProtocol.StreamIsExact | internal/server/sse.go:97-181 | if fewer than 64 positions wait at each publish the stream has no gap, and once caught up or finished it is the log's suffix up to the first terminal event |
| SseProtocol.ClosedExactly | internal/server/sse.go:94-181 | in every interleaving, overflow included, a stream that its client does not leave is closed by the run exactly when some closing event at or after its starting point was in the snapshot or found room in the channel |
| SseProtocol.ClosedWithoutLoss | internal/server/sse.go:94-181 | if fewer than 64 positions wait at each publish: exactly when the log from the starting point holds a closing event |
| SseProtocol.NeverStuck | internal/server/sse.go:94-181 | a stream that has neither caught up nor been closed can take a step that brings it closer |
| SseProtocol.OpenedTooLate | internal/server/sse.go:122-181 | a stream opened without an anchor, or resumed at the last event, after a run has ended stays open |
| RunDelivery.RunClosesStream | internal/server/sse.go:94-181 | a run, with the commands of its driver and the scheduler's announcements anywhere in it, closes exactly the streams that start no later than its closing event and were not refused that event, and none if it failed on its credentials |
| RunDelivery.LaterEventsReach | internal/server/sse.go:94-181 | an event published after the run is sent by exactly the streams that the run does not close, that start no later than it and that were not refused it |
| RunDelivery.AdviceReaches | internal/orchestrator/coordinate.go:151-241 | so are the reviews and the report that Coordinate publishes |
| StateCache.Projection.Apply | internal/server/state_cache.go:71-87 | creates the run if needed, evicts at most one run, and folds the event into the run's state, ignoring a rejection |
| StateCache.Projection.OnEvent | internal/server/state_cache.go:56-67 | the bus handler applies every event of a run and ignores events without one |
| StateCache.Projection.Forget | internal/server/state_cache.go:142-155 | removes the run from map and order |
| StateCache.Projection.List | internal/server/state_cache.go:128-138 | copies of all cached states in insertion order |
| StateCache.AlwaysConsistent | internal/server/state_cache.go:71-155 | after every operation the order lists the cached runs once each and the size is within capacity |
| StateCache.ApplyConsistent | internal/server/state_cache.go:71-111 | the run just applied is always present |
| StateCache.EvictionSparesLiveRuns | internal/server/state_cache.go:89-111 | at most one run is dropped, never the applied one, and a live run only when no cached run is terminal |
| StateCache.OldestIsEvicted | internal/server/state_cache.go:94-111 | the dropped run is the oldest terminal one, or the very oldest when it is live |
| StateCache.OrderAfterEvent | internal/server/state_cache.go:71-111 | a cached run keeps its place, a new run comes last, and those before it keep their order without the one that had to go |
| StateCache.OrderAfterForget | internal/server/state_cache.go:142-155 | forgetting a run takes it out of the states and out of the order, and nothing else |
| StateCache.CachedStateIsFold | internal/server/state_cache.go:71-87 | every cached state is the error-ignoring fold of its run's events since its last insertion |
| Histogram.CheckBuckets | internal/metrics/metrics.go:307-311 | accepts exactly the strictly increasing bounds |
| Histogram.Search | internal/metrics/metrics.go:358-360 | the leftmost bucket whose bound is at least the value |
| Histogram.Child.Observe | internal/metrics/metrics.go:351-367 | one more observed value, counted in its bucket |
| Histogram.Child.Snapshot | internal/metrics/metrics.go:372-383 | entry i is the number of observed values at most bound i, the last entry the number of all |
| Histogram.BucketIsDifference | internal/metrics/metrics.go:376-380 | a bucket holds the difference between neighbouring cumulative counts |
| Histogram.SnapshotIsCumulative | internal/metrics/metrics.go:369-383 | the entries never decrease and none exceeds the total |

## Left out

- Git worktrees, sandbox processes, model calls, databases, HTTP parsing and telemetry: calls into other systems; their answers are arbitrary parameters here.
- Event payloads and their JSON encoding: only the fields that decide something are kept; wall-clock durations are dropped, and error texts are shortened.
- Run ids and keys of the scheduler and the limiter are numbers, event ids are strings assumed unique, and 64-bit counters are unbounded.
- Prompts, redaction, strategies, role grants, cost routing and compliance counts: single branches or string building.
- Budget recording in the attempt loop: the budget policy is an arbitrary policy of the engine.
- Options that Run and Execute refuse before they publish anything, and the store rows of early failures.
- A missing agent, worktree or sandbox of a chain: the early failure exits of runChain are not part of the model.
- The dispatch of a prompt to several agents or to the DAG executor.
- The run.cancelled event that the scheduler publishes for a run it takes off the queue is no part of a run's stream here; its projection is RuntimeLaws.QueuedRunIsCancelled.
- Reactor.Reactor.Dispatch: does not model a reaction that never becomes quiet; the ghost `limit` is a number of turns after which it is quiet, which ReactiveCycle.ReactorFollowsLoop supplies for the refine cycle. Handlers are functions on the shared state.
- RunTracking.ConfigurationIsExact: the enricher of a brain never returns an error (internal/brain/enricher.go:48, internal/memory/enricher.go:87); an engine's behaviour is its verdicts by action and attempt, and whoever is asked for an approval may give it.
- RunStream.Published: with an empty run id the kernel's pass names no run and the state cache ignores it, as if there were no kernel; events that name no run are not part of the log.
- TopoSort.Sort: requires distinct ids; with a repeated id the source's maps keep the last task, and its documentation asks for validation first.
- Staging.StagingIsExact: covers one scheduler lifetime; a server that is served again starts from an empty map.
- PoolProtocol.PoolSafety: a panic inside a launched run is an ordinary finish, as the recovery makes it.
- SseProtocol.StreamIsExact: one Publish, persisting and delivering, is one step, and the channel carries positions in the log; the log is in publish order, while the store sorts by the time of each event and then by insertion; keep-alives and write errors are the leave step.
- Extraction.ExtractJSONObject: texts are sequences of Unicode characters, not bytes, and the JSON validator is a parameter that accepts only texts of the RFC 8259 grammar (it may refuse some, such as very deep nesting).
- Limiter.RateLimiter.Allow: reals instead of floating point and instead of saturating durations.
- Histogram.Child.Observe: reals instead of floating point, so no NaN or infinity; label families are not modelled.
- StateCache.Projection.Apply: one clock reading per event for both creation and application.
- The parallel execution of chains and the judge that ranks their results.
