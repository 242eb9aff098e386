# Verified core of the runner

A Dafny model of the parts of the runner that decide whether a job's work and
its logs arrive intact: task dispatch and shutdown, log delivery and masking,
job scheduling, the expression language, the hand-written protobuf codec, the
cache store, matrix expansion and the environment-file protocol. `dafny verify
dfyconfig.toml` checks all of it.

| file | component |
|---|---|
| `Poller.dfy` | poll thread, semaphore, work queue, worker pool, stop/join |
| `Masking.dfy`, `LogForwarder.dfy` | secret masking; batching and resending by `ack_index` |
| `JobGraph.dfy`, `Orchestrator.dfy`, `ExecutorLives.dfy` | Kahn's order, waves, the wave runner, its executors' lifetimes |
| `ExprEvaluator.dfy`, `ExprGrammar.dfy`, `ExprTermination.dfy`, `ExprLaws.dfy` | values and parser; grammar and meaning; when evaluation ends; what the operators answer |
| `ExprText.dfy`, `ExprScan.dfy` | tokenizer and interpolation; what each kind of text is read as |
| `ProtoCodec.dfy`, `ProtoTask.dfy`, `ProtoUpdate.dfy`, `ProtoErrors.dfy` | varints, fields, `decodeTask`, `UpdateTask`; the task round trip; what the server reads of an update; irregular messages |
| `CacheStore.dfy`, `CacheLookup.dfy`, `ArtifactIds.dfy` | reserve/patch/commit/purge/restart; lookup; artifact identifiers |
| `Matrix.dfy`, `MatrixLaws.dfy` | matrix expansion; what include and exclude do, row by row |
| `EnvFile.dfy`, `Accumulation.dfy`, `EnvProtocol.dfy`, `EnvLaws.dfy` | the `$GITHUB_ENV` reader; what reading a growing file adds up to; records, search path, the manager between steps; path lines and what is no record |
| `Sequences.dfy`, `Fairness.dfy` | facts about concatenation and about fair schedules |

## How the model is built

Protocols (`Poller`, `LogForwarder`, `CacheStore`, `ArtifactIds`, `ExecutorLives`) are a state, an
`Apply` that is total, and a `Run` over a sequence of steps. Everything the
outside decides is inside the step: which thread moves, lost and empty replies,
how many bytes were written, the clock, the random blob name. A step that is
not enabled changes nothing, so a lemma about every sequence of steps is a lemma
about every interleaving. Beside the transition functions stand classes with the
source's own fields, whose methods are proved to perform those steps, and loops
are methods proved equal to, or characterized by, a specification. Where the
source visits a map in its key order the model visits it in any order.

## Where the code does less than its comments say

* `stop()` notifies without the mutex and can lose a wake-up (`Poller.StopAloneLosesWakeup`): exactly on a worker that is about to block, so never while no worker holds the mutex (`Poller.StopLosesIff`, `Poller.StopLosesNothingUnlocked`); `join()` covers it.
* Masking can leave a secret that begins or ends with `*` or contains `***`; it is complete exactly for the others (`Masking.CompleteIffSolid`). An empty secret would make it run for ever (`Masking.EmptySecretNeverEnds`); `addSecret` and the task executor keep those out, the forwarder's constructor does not look.
* `finish()` makes the worker drain at most once more, and not at all if it has drained and not yet read the flag: lines stay queued even if they fit into a batch (`LogForwarder.FinishFlushesOneBatch` says exactly when, `LogForwarder.FinishCanLeaveAllOfIt` shows it).
* Giving up leaves `next_index_` short (`LogForwarder.GiveUpShortfall`), after which a line can be acknowledged and lost (`LogForwarder.GiveUpCanLoseAnAcknowledgedLine`); a batch that ends with an acknowledgement is stored exactly when its first label is not behind the server's log (`LogForwarder.AcknowledgedIsStoredIff`).
* An empty or timed-out reply counts as a full acknowledgement; the batch is then stored exactly when, besides, the server could take all that was still missing (`LogForwarder.AcknowledgedIsStoredIff`, `LogForwarder.EmptyReplyCanLoseALine`).
* The address of an executor whose `execute()` throws stays registered after it is destroyed, until one built at the same address returns (`ExecutorLives.RegisteredAreAliveIff`).
* A dot that belongs to no path can make the parser loop (`ExprGrammar.StrayDotLoops`). Whether it does depends on the calls that are open there (`ExprTermination.DotCanBeOutOfReach`); a text is evaluated to its end inside any number of open calls exactly when it has no such dot (`ExprTermination.EvaluationEndsIff`).
* The task decoder does not look at the wire type of its own fields (`ProtoErrors.TaskIgnoresWireType`), and drops context entries and needs whose name is empty (`ProtoTask.TaskRoundTripIff`). A step of which everything is a default is not sent at all (`ProtoUpdate.BlankIsEmpty`).
* A task result of 0 that is written reads as `unknown`, an elided one as the empty name (`ProtoCodec.WrittenResultHasAName`).
* Two uploads of one key, a failed commit or a failed removal leave a blob on disk that nothing ever removes (`CacheStore.OrphansGrow` says exactly when).
* Index keys of different entries can be equal; requests for a version are answered rightly exactly when no entry of another version is filed under this version and a key without a comma (`CacheLookup.LookupAgreesIff`).
* A matrix with only `include` entries keeps an empty first row (`Matrix.IncludeOnly`, `Matrix.EmptyRowIff`).
* Re-reading `$GITHUB_ENV` after every step equals one reading at the end exactly if no reading had a key that the final file lacks (`Accumulation.AddsUpIff`); it does so for every continuation exactly if, besides, the file is not left in the middle of a new `KEY=VALUE` line (`EnvFile.AccumulatesIff`). The files are opened for appending, so what an earlier job left there is read too.
* Re-reading `$GITHUB_PATH` repeats its lines; the search order is that of one reading exactly if the earlier readings are searched like its beginning (`EnvProtocol.SearchIsOneReadIff`), which whole lines ensure (`EnvProtocol.SearchIsOneRead`).

## Model

| member | source | states |
|---|---|---|
| Poller.Capacity | src/runner/Poller.cpp:31-37 | the capacity is between 1 and 16: the configured one when that is in range, otherwise 1 |
| Poller.RunKeeps | src/runner/Poller.cpp:86-192 | every step of every thread keeps the protocol's invariant, so every interleaving does |
| Poller.CapacityConserved | src/runner/Poller.cpp:130-275 | free permits, the poll thread's permit, queued tasks, popped tasks and permits dropped at shutdown always add up to the capacity; queued plus running never exceeds it, the semaphore never exceeds 16, and the active count is the number of executing workers |
| Poller.ExactlyOnce | src/runner/Poller.cpp:130-192 | in every state a dispatched task is in exactly one place (queued, in hand, executed once, discarded), and only join's drain after shutdown discards |
| Poller.EveryFetchedTaskIsDispatched | src/runner/Poller.cpp:215-275 | in every run each of the tasks that FetchTask returned is dispatched, in its order, or in the poll thread's hands, or the one with which the thread exited after shutdown; a permit is dropped only after shutdown |
| Poller.FetchedIsCounted | src/runner/Poller.cpp:221-254 | the tasks the runner has received are exactly the answers FetchTask gave while the poll thread was asking |
| Poller.RunDispatches | src/runner/Poller.cpp:243-275 | tasks are dispatched in the order in which they are fetched, without a gap, and at most the last one is missing |
| Poller.PollThreadDelivers | src/runner/Poller.cpp:215-275 | without shutdown, with a free permit and a free mutex, the poll thread's own steps bring the next task to the end of the queue for one permit |
| Poller.WorkerTakes | src/runner/Poller.cpp:134-144 | with the mutex free, a worker's own steps take the front task and leave the mutex free |
| Poller.WorkerExecutes | src/runner/Poller.cpp:148-190 | four more run it once, give its permit back and leave the active count as it was |
| Poller.JoinIsComplete | src/runner/Poller.cpp:92-125 | when join returns all workers have exited, nothing is queued or active, and each dispatched task was executed or discarded, once |
| Poller.NoLostWakeup | src/runner/Poller.cpp:112-139 | while a worker is blocked, queued tasks are covered by awake workers or a pending notification; after join's drain and notify_all no worker is blocked or about to block |
| Poller.SomeoneCanMove | src/runner/Poller.cpp:119-139 | while join waits, some worker that has not exited can always move towards its exit |
| Poller.MoveShortens | src/runner/Poller.cpp:130-192 | a worker that moves while join waits gets strictly closer to its exit |
| Poller.OthersKeepWorkers | src/runner/Poller.cpp:86-125 | no other thread sets a worker back then |
| Poller.JoinReturns | src/runner/Poller.cpp:92-125 | some schedule lets join return from every reachable state in which the flag is set and it has been called |
| Poller.JoinReturnsFairly | src/runner/Poller.cpp:86-192 | from every such state join returns under every schedule in which, whenever some thread can move, some thread sooner or later does |
| Poller.MovesAreBounded | src/runner/Poller.cpp:86-275 | once the flag is set the threads can take only a bounded number of steps together, in whatever order |
| Poller.StepLowers | src/runner/Poller.cpp:86-275 | once the flag is set no step of anybody raises the bound, and every step of a thread that does something lowers it |
| Poller.NobodyIsStuck | src/runner/Poller.cpp:92-125 | until join has returned there is always a thread that can move |
| Poller.JoinGetsCloser | src/runner/Poller.cpp:92-118 | before join has notified, some thread has a step that brings it strictly closer, whoever holds the mutex and wherever the poll thread is |
| Poller.StopAloneLosesWakeup | src/runner/Poller.cpp:86-90 | a run in which stop's notification is lost on a worker that had evaluated its predicate |
| Poller.StopLosesIff | src/runner/Poller.cpp:86-90 | from any state with the flag set, stop's notification leaves a worker that can still end up blocked if and only if that worker is about to release the mutex and block |
| Poller.StaysUp | src/runner/Poller.cpp:130-142 | once the flag is set, a worker that is neither blocked nor about to block never will be |
| Poller.StopLosesNothingUnlocked | src/runner/Poller.cpp:86-90 | in every reachable state only the worker that holds the mutex can miss the notification, so nothing is lost when no worker holds it |
| Poller.Shared.constructor | src/runner/Poller.cpp:31-37 | the shared fields start as the protocol's initial state |
| Poller.Shared.StoreShutdown | src/runner/Poller.cpp:86-111 | setting the flag is the protocol's step, in stop and in join |
| Poller.Shared.TryAcquire | src/runner/Poller.cpp:257-259 | a permit is taken exactly when one is free in time, as the poll thread's step says |
| Poller.Shared.DispatchTask | src/runner/Poller.cpp:271-275 | the task joins the end of the queue and one waiting worker, if there is one, is woken before the lock is released, as the poll thread's two steps say |
| Poller.Shared.TakeTask | src/runner/Poller.cpp:134-145 | exit exactly on shutdown with an empty queue, otherwise the front task if there is one, as the worker's step says |
| Poller.Shared.DrainQueue | src/runner/Poller.cpp:112-115 | the popping loop empties the queue and discards all of it, as join's step says |
| Masking.Find | src/runner/LogForwarder.cpp:54 | the first occurrence at or after a position, or none |
| Masking.MaskInPlace | src/runner/LogForwarder.cpp:53-57 | the editing loop replaces the occurrences found from left to right and terminates |
| Masking.MaskSecrets | src/runner/LogForwarder.cpp:50-60 | every registered secret in turn |
| Masking.SplitIsExact | src/runner/LogForwarder.cpp:53-57 | the pieces kept contain no occurrence, and with the secret between them they are the original line |
| Masking.MaskingIsComplete | src/runner/LogForwarder.cpp:50-60 | no registered solid secret occurs in the result, and no later pass brings an earlier one back |
| Masking.StarFreeIsSolid | src/runner/LogForwarder.cpp:50-60 | secrets without a star are solid, so masking is complete for them |
| Masking.CleanLineIsKept | src/runner/LogForwarder.cpp:50-60 | a line in which no secret occurs is unchanged |
| Masking.LeakyLine | src/runner/LogForwarder.cpp:50-60 | every secret that is not solid has a line it survives in |
| Masking.CompleteIffSolid | src/runner/LogForwarder.cpp:50-60 | masking is complete for all lists drawn from a pool and all lines if and only if every secret of the pool is solid |
| Masking.EmptySecretNeverEnds | src/runner/LogForwarder.cpp:40-57 | an empty secret would be found again after every replacement, for ever |
| LogForwarder.ServeContinues | proto/runner.proto:133-142 | the log grows only by rows at their own positions, continuing it without a gap, and by as many as the server accepts |
| LogForwarder.Forwarder.constructor | src/runner/LogForwarder.cpp:13-34 | takes the initial secrets unchecked and starts with an empty queue and index 0 |
| LogForwarder.Forwarder.AddSecret | src/runner/LogForwarder.cpp:40-48 | empty and known secrets are not registered |
| LogForwarder.Forwarder.AppendWithTime | src/runner/LogForwarder.cpp:72-85 | the masked line joins the end of the queue |
| LogForwarder.Forwarder.Drain | src/runner/LogForwarder.cpp:108-112 | a batch is the front of the queue, of the batch size or all of it |
| LogForwarder.Forwarder.SendBatch | src/runner/LogForwarder.cpp:125-163 | at most three tries, each resending from the acknowledged index; the new index and the sent count follow from how they ended |
| LogForwarder.TrySafe | src/runner/LogForwarder.cpp:139-161 | one try, whatever the reply, keeps the server's log an order-preserving part of the lines |
| LogForwarder.TryExact | src/runner/LogForwarder.cpp:139-156 | one try keeps the log a prefix and the label right, and a settled batch is all there |
| LogForwarder.DeliveryIsSafe | src/runner/LogForwarder.cpp:72-163 | in every run the server's log is a duplicate-free, order-preserving subsequence of the appended lines, appended is drained plus queued, and after a final request only the same batch is sent |
| LogForwarder.LastBatchIsFlagged | src/runner/LogForwarder.cpp:114-120 | in every run, when the worker has ended its last request carried no_more, and so did every request of that batch and no other |
| LogForwarder.RequestsBuildTheLog | src/runner/LogForwarder.cpp:125-139 | in every run the server's log is what the labels and rows of the requests, with the counts it accepted, build up from the empty log |
| LogForwarder.DeliveryIsExact | src/runner/LogForwarder.cpp:93-163 | without give-up and empty replies the log is always a prefix of the drained lines, and all of them with next_index_ their number after each batch |
| LogForwarder.ExactSurvivesIff | src/runner/LogForwarder.cpp:138-162 | for every reply and number of tries left, when a call keeps exactness, from the state before it |
| LogForwarder.GiveUpShortfall | src/runner/LogForwarder.cpp:161-162 | which last replies give up, how short they leave next_index_, and that exactness survives if and only if the reply was lost, no row had been acknowledged away and the server took the rest |
| LogForwarder.GiveUpCanLoseAnAcknowledgedLine | src/runner/LogForwarder.cpp:139-162 | a run from the start in which a give-up makes a later line acknowledged and never stored |
| LogForwarder.AcknowledgedIsStoredIff | src/runner/LogForwarder.cpp:135-156 | however many tries it takes, a non-empty batch that the client takes for acknowledged has been stored whole if and only if its first label was not behind the server's log and, if the last reply was empty, the server could take all that was still missing |
| LogForwarder.EmptyReplyCanLoseALine | src/client/RunnerClient.cpp:778 | a run in which an empty reply counts as a full acknowledgement of a line that was never stored |
| LogForwarder.NoSecretIsDelivered | src/runner/LogForwarder.cpp:50-163 | in every run whose lines were masked with the solid secrets registered when they were appended, no line of the server's log contains such a secret |
| LogForwarder.CallsAreTries | src/runner/LogForwarder.cpp:138-160 | the calls of the transition system are the retry loop of the object |
| LogForwarder.CallsEnd | src/runner/LogForwarder.cpp:138-162 | a batch ends after at most its tries |
| LogForwarder.ThreeFailures | src/runner/LogForwarder.cpp:135-162 | a batch whose every call fails is sent unchanged exactly three times under one label, with the final flag as it was read, then given up, and next_index_ passes it |
| LogForwarder.FinishFlushesOneBatch | src/runner/LogForwarder.cpp:87-121 | for finish at any moment of any run with nothing appended later: when the worker ends, all that was queued is left if it had drained and not yet read the flag, and otherwise what did not fit into one batch; exactly when nothing is left |
| LogForwarder.WorkerGetsCloser | src/runner/LogForwarder.cpp:93-163 | after finish every step of the worker, whatever the reply, brings it closer to its end, and there is always one |
| LogForwarder.FinishCanLeaveTheRest | src/runner/LogForwarder.cpp:108-121 | a run that leaves the second line of a queue larger than a batch |
| LogForwarder.FinishCanLeaveAllOfIt | src/runner/LogForwarder.cpp:114-121 | a run that leaves a line that would have fitted, appended between the drain and the look at the flag |
| LogForwarder.OverIsFinal | src/runner/LogForwarder.cpp:121 | what is queued when the worker ends is never sent |
| JobGraph.TopologicalJobOrder | src/runner/JobGraph.cpp:11-71 | fails exactly on an undefined need; the order has no duplicates and puts needs first; a cycle is reported if and only if there is one; the stuck jobs are exactly those that can reach a cycle |
| JobGraph.BuildGraph | src/runner/JobGraph.cpp:32-37 | in-degrees count needs with repeats, dependents list each dependent as often as it needs the job |
| JobGraph.InitialReady | src/runner/JobGraph.cpp:40-43 | exactly the jobs without needs |
| JobGraph.Release | src/runner/JobGraph.cpp:50-54 | every listed dependent waits for one less, and exactly those that reach zero are freed, once |
| JobGraph.Sort | src/runner/JobGraph.cpp:45-55 | the loop keeps Kahn's invariant and ends with nothing ready |
| JobGraph.OrderedJobsAreAcyclic | src/runner/JobGraph.cpp:45-55 | an ordered job cannot reach a cycle |
| JobGraph.StuckJobsReachACycle | src/runner/JobGraph.cpp:57-68 | a job left out of the order can |
| JobGraph.OrderDecides | src/runner/JobGraph.cpp:57-59 | comparing the two sizes decides whether the graph has a cycle |
| JobGraph.GreatestNeed | src/runner/JobGraph.cpp:81-87 | the greatest wave among the needs that have one |
| JobGraph.AssignWaves | src/runner/JobGraph.cpp:77-89 | on an order with needs first every job's wave is the length of its longest chain of needs |
| JobGraph.LastWave | src/runner/JobGraph.cpp:92-93 | the last wave that is used |
| JobGraph.GroupWaves | src/runner/JobGraph.cpp:95-99 | each wave lists its jobs in the given order |
| JobGraph.WaveSchedule | src/runner/JobGraph.cpp:73-102 | fails exactly on an unknown job; every job of the order is in its own wave, which keep the given order; on a topological order they are the depths and none is empty |
| JobGraph.ScheduleIsRight | src/runner/JobGraph.cpp:73-102 | grouped depths of a topological order are a schedule by depth without an empty wave |
| JobGraph.EveryDepth | src/runner/JobGraph.cpp:73-102 | below a longest chain there is a job at every depth |
| JobGraph.WavesAreLeast | src/runner/JobGraph.cpp:73-102 | no schedule that puts needs strictly earlier uses fewer waves |
| Orchestrator.Run | src/runner/WorkflowOrchestrator.cpp:95-274 | succeeds if and only if the needs are defined and acyclic, every job ran and all succeeded; the trace is lawful, the report is what finished, the waves that ran are the first ones up to the stop, and every result is its job's answer to the results of the earlier waves |
| Orchestrator.Plan | src/runner/WorkflowOrchestrator.cpp:109-127 | a plan exists exactly for defined, acyclic needs |
| Orchestrator.RunWaves | src/runner/WorkflowOrchestrator.cpp:133-274 | the loop stops at the first cancelled or fast-failed wave, and success means all waves ran well |
| Orchestrator.NextWave | src/runner/WorkflowOrchestrator.cpp:134-265 | every job of the wave runs once and its result is its answer to the results of the waves before |
| Orchestrator.RunWave | src/runner/WorkflowOrchestrator.cpp:167-243 | batches within the limit, each as large as the limit and the rest of the wave allow, run every job of the wave, in any order of ends |
| Orchestrator.RunBatch | src/runner/WorkflowOrchestrator.cpp:176-243 | every start and end of a batch is lawful, every slot holds its job's own answer |
| Orchestrator.WaveLimits | src/runner/WorkflowOrchestrator.cpp:144-157 | fail-fast if all its jobs ask for it; the limit is the smallest positive max-parallel, or none |
| Orchestrator.Collect | src/runner/WorkflowOrchestrator.cpp:245-250 | the wave's results join the report and the results shown later; a failure is seen if and only if there is one |
| Orchestrator.AllSucceeded | src/runner/WorkflowOrchestrator.cpp:267-269 | true exactly when every reported job succeeded |
| Orchestrator.StartsOnce | src/runner/WorkflowOrchestrator.cpp:176-243 | no job is started twice |
| Orchestrator.NeedsEndFirst | src/runner/WorkflowOrchestrator.cpp:57-91 | before a job starts each of its needs has ended, and it is shown the result it ended with |
| Orchestrator.LiveIsBounded | src/runner/WorkflowOrchestrator.cpp:144-243 | live jobs belong to one wave and respect every positive max-parallel in it |
| Orchestrator.FinishedEnded | src/runner/WorkflowOrchestrator.cpp:245-250 | a recorded result is the one its job ended with |
| Orchestrator.Registry.constructor | src/runner/WorkflowOrchestrator.cpp:17-23 | nobody is registered or told |
| Orchestrator.Registry.StoreFlag | src/runner/WorkflowOrchestrator.cpp:26 | the flag is set before the sweep |
| Orchestrator.Registry.Sweep | src/runner/WorkflowOrchestrator.cpp:31-34 | every registered executor is told |
| Orchestrator.Registry.Register | src/runner/WorkflowOrchestrator.cpp:37-46 | after a sweep a new executor is told at once, so none is ever registered untold |
| Orchestrator.Registry.Unregister | src/runner/WorkflowOrchestrator.cpp:48-53 | exactly this executor is removed |
| ExecutorLives.RegisteredAreAliveIff | src/runner/WorkflowOrchestrator.cpp:48-53 | in every run, with addresses used again, a registered address leads nowhere exactly if it was left behind by an executor that threw and nothing lives there; so all registered addresses are alive if and only if something lives at each that was left |
| ExecutorLives.ThrowLeavesAddress | src/runner/WorkflowOrchestrator.cpp:208-227 | after any run, the address of an executor that throws is still registered when it is destroyed |
| ExecutorLives.ReuseClearsAddress | src/runner/WorkflowOrchestrator.cpp:48-53 | an executor built at the same address that returns unregisters what was left there |
| ExecutorLives.AliveWithoutThrow | src/runner/WorkflowOrchestrator.cpp:208-227 | if no execute() throws, all registered addresses are alive |
| ExprEvaluator.LooseEqLaws | src/workflow/ExprEvaluator.cpp:166-201 | loose equality is symmetric, and reflexive except for NaN |
| ExprEvaluator.LooseEqIsNotTransitive | src/workflow/ExprEvaluator.cpp:166-201 | three values that show it is not transitive |
| ExprLaws.FiniteNumbers | src/workflow/ExprEvaluator.cpp:370-377 | on finite numbers the six operators are <, <=, >, >=, = and their negation |
| ExprLaws.AllNumbers | src/workflow/ExprEvaluator.cpp:370-377 | the infinities lie outside all finite numbers, and with a NaN all operators but != are false |
| ExprLaws.OrderingsAreNumeric | src/workflow/ExprEvaluator.cpp:154-164 | the orderings of any two values are those of the numbers they count as: null 0, booleans 0 or 1, strings as converted |
| ExprLaws.NeqIsNotEq | src/workflow/ExprEvaluator.cpp:371-372 | == is loose equality and != its negation |
| ExprLaws.TruthIsNonZero | src/workflow/ExprEvaluator.cpp:126-134 | exactly null, false, 0, NaN and the empty string are not truthy |
| ExprLaws.NullEqualsZeros | src/workflow/ExprEvaluator.cpp:169-190 | null equals exactly null, false, 0 and the empty string, from either side |
| ExprLaws.TruthsCompareByTruth | src/workflow/ExprEvaluator.cpp:192-193 | a boolean equals exactly what has its truth |
| ExprLaws.NumbersCompareByNumber | src/workflow/ExprEvaluator.cpp:195 | a number equals a string exactly when the string converts to it |
| ExprLaws.TextsCompareByLetter | src/workflow/ExprEvaluator.cpp:196-200 | strings are equal exactly if they are letter by letter the same but for case |
| ExprLaws.OrAndPick | src/workflow/ExprEvaluator.cpp:328-348 | or gives its first truthy operand or the second, and its first falsy one or the second |
| ExprLaws.NumeralsCompare | src/workflow/ExprEvaluator.cpp:359-381 | two numerals around each operator, parsed from tokens, give the comparison of the numbers |
| ExprLaws.LiteralsPick | src/workflow/ExprEvaluator.cpp:328-348 | two literals around or and and, parsed from tokens, give the operand that the first one's truth picks |
| ExprEvaluator.Parser.constructor | src/workflow/ExprEvaluator.h:138-146 | the cursor starts at the first token |
| ExprEvaluator.Parser.Or | src/workflow/ExprEvaluator.cpp:328-337 | value and cursor are those of the grammar function |
| ExprEvaluator.Parser.And | src/workflow/ExprEvaluator.cpp:339-348 | value and cursor are those of the grammar function |
| ExprEvaluator.Parser.Not | src/workflow/ExprEvaluator.cpp:350-357 | value and cursor are those of the grammar function |
| ExprEvaluator.Parser.Comparison | src/workflow/ExprEvaluator.cpp:359-381 | value and cursor are those of the grammar function; one operator at most |
| ExprEvaluator.Parser.Primary | src/workflow/ExprEvaluator.cpp:383-423 | value and cursor are those of the grammar function |
| ExprEvaluator.Parser.PathOrCall | src/workflow/ExprEvaluator.cpp:400-420 | a dotted path is looked up, or called when a parenthesis follows |
| ExprEvaluator.Parser.Call | src/workflow/ExprEvaluator.cpp:425-434 | the argument loop collects the arguments the grammar function does |
| ExprEvaluator.ParseOr | src/workflow/ExprEvaluator.cpp:328-337 | the cursor never moves back and never passes the end mark |
| ExprEvaluator.Arguments | src/workflow/ExprEvaluator.cpp:425-434 | the same for the argument loop, unless it stands still for ever |
| ExprGrammar.StandsStillOnlyAtDot | src/workflow/ExprEvaluator.cpp:428-431 | a round of the argument loop stands still if and only if the cursor is at a dot |
| ExprGrammar.DotIsNull | src/workflow/ExprEvaluator.cpp:425-434 | at a dot nothing is consumed, so the argument loop never ends there |
| ExprGrammar.StrayDotLoops | src/workflow/ExprEvaluator.cpp:428-431 | an input on which the parser loops |
| ExprGrammar.EvaluationTerminates | src/workflow/ExprEvaluator.cpp:326-434 | with dots only inside paths every token list is evaluated to the end, however malformed |
| ExprTermination.EvaluationEndsIff | src/workflow/ExprEvaluator.cpp:326-434 | a token list is evaluated to its end inside any number of open calls if and only if its dots occur only inside paths |
| ExprTermination.StrayDotTraps | src/workflow/ExprEvaluator.cpp:425-434 | behind more open calls than there are tokens before it, a dot outside a path makes evaluation loop |
| ExprTermination.ArgumentsStop | src/workflow/ExprEvaluator.cpp:425-434 | no argument list passes a dot outside a path, and one that ends before it has found its closing parenthesis behind its first argument |
| ExprTermination.OrStops | src/workflow/ExprEvaluator.cpp:328-434 | no parse passes a dot outside a path |
| ExprTermination.DotCanBeOutOfReach | src/workflow/ExprEvaluator.cpp:383-434 | an input with such a dot on which evaluation ends, because a parenthesis closes the call before it |
| ExprGrammar.ArgsRead | src/workflow/ExprEvaluator.cpp:425-434 | any number of printed arguments is read as their meanings, in order |
| ExprGrammar.Reads | src/workflow/ExprEvaluator.cpp:326-434 | a printed expression anywhere in a token list is read as its meaning and left exactly at its end |
| ExprGrammar.EvaluationMeansDenotation | src/workflow/ExprEvaluator.cpp:326-434 | for every expression, evaluating its precedence-printed tokens gives its meaning and stops at their end |
| ExprLaws.OpenParenthesis | src/workflow/ExprEvaluator.cpp:386-392 | an expression behind a parenthesis that is not closed means what it means without it |
| ExprLaws.OpenCall | src/workflow/ExprEvaluator.cpp:425-434 | a call that is not closed is made with what was read |
| ExprText.Tokenize | src/workflow/ExprEvaluator.cpp:239-320 | the scanning loop delivers the tokens of the text and one end mark |
| ExprText.ScanIsClosed | src/workflow/ExprEvaluator.cpp:239-320 | every text gives a list that ends in its only end mark, as the parser needs |
| ExprText.TokenReads | src/workflow/ExprEvaluator.cpp:249-316 | every token with a spelling is read back from it, and nothing after it is |
| ExprScan.Alphabet | src/workflow/ExprEvaluator.cpp:236-237 | which characters are spaces, and which make up numerals and names, by their codes |
| ExprScan.NumeralScans | src/workflow/ExprEvaluator.cpp:268-276 | a numeral is the longest run of digits and dots, behind a minus or not |
| ExprScan.NameScans | src/workflow/ExprEvaluator.cpp:300-312 | a name is the longest run of letters, digits, underscores and hyphens, and true, false and null are literals |
| ExprScan.StringScans | src/workflow/ExprEvaluator.cpp:254-266 | a string of any characters in either quotes, quotes and backslashes escaped, is read back |
| ExprScan.OpenStringScans | src/workflow/ExprEvaluator.cpp:259-265 | a string that is not closed runs to the end of the text |
| ExprScan.StrayScans | src/workflow/ExprEvaluator.cpp:314-315 | a character that begins no token is passed over |
| ExprScan.WhiteScans | src/workflow/ExprEvaluator.cpp:244-250 | white space is passed over |
| ExprText.QuotedReads | src/workflow/ExprEvaluator.cpp:255-266 | an escaped string of any characters is read back |
| ExprText.TextRoundTrip | src/workflow/ExprEvaluator.cpp:239-320 | whatever the spacing that keeps neighbours apart, the spelled tokens are read back |
| ExprText.TextMeansDenotation | src/workflow/ExprEvaluator.cpp:645-656 | from text to value: however spaced and padded, an expression's text evaluates to its meaning |
| ExprText.EveryExpressionHasAText | src/workflow/ExprEvaluator.cpp:239-320 | every expression with proper names and numerals has a text, and it evaluates to the expression's meaning |
| ExprText.BracesAreStripped | src/workflow/ExprEvaluator.cpp:658-668 | a condition means the same with and without its braces |
| ExprText.BlankConditions | src/workflow/ExprEvaluator.cpp:645-668 | an empty condition holds; one of blanks only, with or without braces, is the empty string |
| ExprText.Interpolate | src/workflow/ExprEvaluator.cpp:670-697 | the loop computes the interpolated string |
| ExprText.TemplateIsFilled | src/workflow/ExprEvaluator.cpp:670-697 | every template is filled slot by slot and its literal text kept |
| ExprText.OpenTemplateIsFilled | src/workflow/ExprEvaluator.cpp:670-697 | an expression that is not closed runs to the end of the text, behind any template |
| ExprText.TemplateMeansDenotations | src/workflow/ExprEvaluator.cpp:645-697 | interpolating a template of expressions shows the meaning of each in its place and keeps the rest |
| ProtoCodec.AppendVarint | src/client/RunnerClient.cpp:45-51 | the loop appends the value's base-128 digits, least significant first |
| ProtoCodec.DecodeVarint | src/client/RunnerClient.cpp:99-109 | the loop reads the digits, cut to 64 bits, and leaves the pointer after them |
| ProtoCodec.VarintRoundTrip | src/client/RunnerClient.cpp:45-109 | decoding inverts encoding on every 64-bit value, in 1 to 10 bytes, and leaves the rest |
| ProtoCodec.FieldLocal | src/client/RunnerClient.cpp:99-127 | reading a whole field does not look past it |
| ProtoCodec.FieldsConcat | src/client/RunnerClient.cpp:330-393 | the fields of a concatenation are the fields of its parts |
| ProtoCodec.DecodeTaskLoop | src/client/RunnerClient.cpp:330-393 | the decoding loop computes the task the fields say |
| ProtoTask.TaskRoundTrip | src/client/RunnerClient.cpp:254-393 | decoding an encoded task, with its defaults written or left out, gives back id, payload, secrets, machine and variables, and exactly the named entries of the context and the needs |
| ProtoTask.TaskRoundTripIff | src/client/RunnerClient.cpp:312-385 | the whole task comes back if and only if no context key and no needed job has an empty name |
| ProtoTask.PairReads | src/client/RunnerClient.cpp:255-268 | a map entry is read as its key, field 1, and its value, field 2 |
| ProtoTask.StructReads | src/client/RunnerClient.cpp:273-316 | a Struct of strings is read as its named entries, in order |
| ProtoTask.NeedReads | src/client/RunnerClient.cpp:361-378 | the outputs and the result of a needed job are read back |
| ProtoTask.OnTheWire | src/client/RunnerClient.cpp:45-63 | two fields, byte by byte |
| ProtoErrors.OverrunThrows | src/client/RunnerClient.cpp:111-117 | data longer than what is left is refused |
| ProtoErrors.UnknownWireTypeThrows | src/client/RunnerClient.cpp:119-127 | a skipped field is refused unless its wire type is 0, 1, 2 or 5 |
| ProtoErrors.RefusedTask | src/client/RunnerClient.cpp:330-393 | a refused field makes the whole task refused, whatever came before it |
| ProtoErrors.SkippedOverrunEnds | src/client/RunnerClient.cpp:119-127 | skipped data longer than what is left ends the message |
| ProtoErrors.SkippedFixedEnds | src/client/RunnerClient.cpp:119-127 | so does a skipped fixed field cut short |
| ProtoErrors.MissingNumberIsZero | src/client/RunnerClient.cpp:99-109 | a number whose bytes are missing is 0 |
| ProtoErrors.TaskIgnoresWireType | src/client/RunnerClient.cpp:334-391 | the task decoder goes by the field number alone: field 1 is read as a number and 2 to 7 as length and data under any wire type |
| ProtoErrors.PartsHeedWireType | src/client/RunnerClient.cpp:255-377 | the decoders of its parts take a field only under its own wire type |
| ProtoErrors.PartsHeedNumber | src/client/RunnerClient.cpp:255-377 | and skip data fields of any other number |
| ProtoErrors.LastOfEntryCounts | src/client/RunnerClient.cpp:255-268 | in a map entry the order of the fields does not matter and the last of each counts |
| ProtoErrors.NeedInPieces | src/client/RunnerClient.cpp:355-385 | a need in two pieces has the outputs of both and the result of the second |
| ProtoCodec.DecodeIsMerge | src/client/RunnerClient.cpp:330-393 | decoding is merging what the message says into an empty task |
| ProtoCodec.ConcatenationMerges | src/client/RunnerClient.cpp:330-393 | the decode of a concatenation is the merge of the decodes: last scalar wins, lists append, failure stays |
| ProtoCodec.UnknownFieldIsIgnored | src/client/RunnerClient.cpp:119-127 | any well-formed field with an unknown number at any field boundary changes nothing |
| ProtoCodec.SkippedField | src/client/RunnerClient.cpp:119-127 | a field a decoder skips leaves no trace, whatever its wire type |
| ProtoCodec.TakenField | src/client/RunnerClient.cpp:53-127 | a number or data field a decoder takes is its next field |
| ProtoCodec.StateFields | src/client/RunnerClient.cpp:436-461 | the encoded task state holds the id and the result, each unless it is 0, and nothing else the decoder takes |
| ProtoCodec.UpdateRoundTrip | src/client/RunnerClient.cpp:436-513 | decoding an encoded update gives back the task id and the result's name for any steps, times and outputs |
| ProtoUpdate.UpdateIsRead | src/client/RunnerClient.cpp:436-474 | a reader that takes every field by its number finds in an encoded update the task, the result, both times, every step that is not all defaults and every output pair, as given and in order |
| ProtoUpdate.StepReads | src/client/RunnerClient.cpp:451-460 | all six members of a step are read back from its message |
| ProtoUpdate.BlankIsEmpty | src/client/RunnerClient.cpp:451-460 | a step has an empty message, which is not written, exactly when all its members are 0 |
| ProtoUpdate.ResultNames | src/client/RunnerClient.cpp:476-513 | decoding an encoded update names the result success, failure, cancelled, skipped or unknown |
| ProtoCodec.WrittenResultHasAName | src/client/RunnerClient.cpp:497-504 | a result that is written out always has a name, so a written 0 differs from an elided one |
| CacheStore.StoreIsSound | src/cache/CacheServer.cpp:111-153 | after every run each entry is filed under its key with a blob of its own that exists, and the saved index is the one in memory |
| CacheStore.StepKeepsSound | src/cache/CacheServer.cpp:274-435 | every request keeps that, and so do a failed commit, a purge and a restart |
| CacheStore.RestartKeepsEntries | src/cache/CacheServer.cpp:111-133 | a restart loses the uploads in progress and no entry |
| CacheStore.BlobsLast | src/cache/CacheServer.cpp:398-435 | a blob keeps its bytes for the rest of the run and is there until, and only until, a purge of an expired entry that names it |
| CacheStore.OrphansGrow | src/cache/CacheServer.cpp:403-427 | exactly which requests leave a blob that no entry names, and which one |
| CacheStore.UploadIsItsChunks | src/cache/CacheServer.cpp:303-367 | an upload's file is its own chunks written in order since it was reserved, partial writes included |
| CacheStore.AssembledByte | src/cache/CacheServer.cpp:352-367 | after slices of one source, covered bytes are the source's, gaps are zeros and nothing lies beyond |
| CacheStore.AssembleIsSourceIff | src/cache/CacheServer.cpp:352-367 | slices of a source, in any order and with repeats, assemble to it if and only if its last byte and all that are not zero are among them |
| CacheStore.CommittedSourceIsServed | src/cache/CacheServer.cpp:326-435 | an upload of slices is served as their source, in every later state whose index names the blob, if and only if they were sufficient; so always when they covered it |
| CacheStore.CommittedEntryLives | src/cache/CacheServer.cpp:382-427 | a committed upload is listed under its key and version with its blob, its length and the time of the commit, and stays so, with the bytes of the upload, if and only if no later commit for the key and no purge more than its number of days of 86400000 ms after the commit came |
| CacheStore.ListedUntil | src/cache/CacheServer.cpp:912-930 | an entry stays in the index unchanged exactly until a later commit for its key or a purge when it is too old |
| CacheStore.PatchedByte | src/cache/CacheServer.cpp:352-366 | every byte of the file after a chunk: the chunk's at its start, or at the front if that is not positive, and otherwise what was there, or zero |
| CacheStore.WriteChunk | src/cache/CacheServer.cpp:358-366 | the write loop leaves the chunk at its offset, or as much of it as was written |
| CacheStore.SweepExpired | src/cache/CacheServer.cpp:918-926 | the purge loop keeps exactly the entries not older than the cutoff and counts the others |
| CacheStore.CacheServer.constructor | src/cache/CacheServer.cpp:90-103 | a server starts with the saved index and no uploads |
| CacheStore.CacheServer.HandleReserve | src/cache/CacheServer.cpp:274-324 | 400 without key or version, 409 if the index key is taken, otherwise a new upload with an empty file |
| CacheStore.CacheServer.HandlePatch | src/cache/CacheServer.cpp:326-380 | 404 for an unknown upload, 500 if the file cannot be opened or the write stops short, otherwise 204; the file is the step's |
| CacheStore.CacheServer.HandleCommit | src/cache/CacheServer.cpp:382-435 | 404, 500 or 204; the blob is the upload's file and the index is saved |
| CacheStore.CacheServer.PurgeOlderThan | src/cache/CacheServer.cpp:912-930 | nothing for a non-positive age, otherwise the step, and the number of removed entries |
| CacheLookup.ParseKeys | src/cache/CacheServer.cpp:48-59 | the splitting loop gives the pieces between commas |
| CacheLookup.KeysRoundTrip | src/cache/CacheServer.cpp:48-59 | joined keys are read back, all but an empty last one: a round trip exactly when there is none |
| CacheLookup.HandleLookup | src/cache/CacheServer.cpp:210-272 | the exact pass finds the first index key, else the restore pass decides |
| CacheLookup.RestorePass | src/cache/CacheServer.cpp:246-260 | a newest one of the entries of the version that start with a restore key, or none |
| CacheLookup.LookupAgreesIff | src/cache/CacheServer.cpp:210-272 | requests for a version are answered as specified by key and version, whatever keys they name, if and only if no entry of another version is filed under this version and a comma-free key |
| CacheLookup.KeysAreCommaFree | src/cache/CacheServer.cpp:48-59 | no key of a request contains a comma |
| CacheLookup.CommaProtects | src/cache/CacheServer.cpp:48-59 | an entry whose index key ends alike but that no request can reach |
| CacheLookup.LookupIsRight | src/cache/CacheServer.cpp:210-272 | in every reachable store with bar-free versions the answer is the specified one |
| CacheLookup.OneKeyIsExact | src/cache/CacheServer.cpp:225-246 | a request with one key is answered with an entry of that very key and version, or missed when there is none |
| CacheLookup.SecondKeyIsAPrefix | src/cache/CacheServer.cpp:246-260 | without an exact match the second key is a prefix, and the answer is a newest entry of the version that it begins, or none |
| CacheLookup.LookupCanMislead | src/cache/CacheServer.cpp:226-228 | a reachable store that answers for a key nobody stored |
| CacheLookup.IndexKeysCollideIff | src/cache/CacheServer.cpp:226 | two versions can share an index key exactly when one ends with a bar and the other |
| ArtifactIds.LoadIndex | src/cache/CacheServer.cpp:157-183 | the loop recovers the index and one more than its largest identifier |
| ArtifactIds.IdsCountCreations | src/cache/CacheServer.cpp:501-514 | the n-th artifact ever created gets identifier n, across overwriting, finalizing and restarts |
| ArtifactIds.IdsAreDistinct | src/cache/CacheServer.cpp:470-587 | two stored artifacts never share an identifier |
| ArtifactIds.ArtifactShelf.constructor | src/cache/CacheServer.cpp:157-183 | a server starts with the saved artifacts and the recovered counter |
| ArtifactIds.ArtifactShelf.HandleCreate | src/cache/CacheServer.cpp:470-530 | created exactly for a safe name; the artifact gets the next identifier and is saved |
| ArtifactIds.ArtifactShelf.HandleFinalize | src/cache/CacheServer.cpp:532-587 | found exactly for a known name; the artifact is then finalized, with the measured size if that is positive and the declared one otherwise, and the identifier it was created with |
| ArtifactIds.FinalizedArtifact | src/cache/CacheServer.cpp:553-569 | a finalized artifact is marked and has the measured size if that is positive and the declared one otherwise; all else is kept |
| ArtifactIds.CreatedArtifact | src/cache/CacheServer.cpp:501-514 | a created artifact is unmarked, of size 0, with the next identifier, and all others are kept |
| ArtifactIds.FinalizedIff | src/cache/CacheServer.cpp:470-587 | in every run an artifact is stored exactly if it was created, and finalized exactly if that came after its last creation |
| Matrix.MatchesPattern | src/workflow/MatrixExpander.cpp:8-16 | true exactly when the pattern is part of the row |
| Matrix.CrossProduct | src/workflow/MatrixExpander.cpp:22-35 | the loops compute the cross product |
| Matrix.ApplyInclude | src/workflow/MatrixExpander.cpp:38-73 | the loop widens every matching row, or adds the entry |
| Matrix.RemoveExcluded | src/workflow/MatrixExpander.cpp:75-85 | the rows that match no pattern |
| Matrix.ExpandMatrix | src/workflow/MatrixExpander.cpp:18-87 | the whole expansion |
| Matrix.CrossIsEveryChoice | src/workflow/MatrixExpander.cpp:22-35 | the rows are the choices of one value per axis, each in exactly one place, the last axis fastest |
| Matrix.IncludedIsRight | src/workflow/MatrixExpander.cpp:37-73 | before exclusion row i extends the i-th combination unaltered, every include entry is inside some row, no value is invented, and at most one row is added per entry |
| MatrixLaws.IncludeOneEntry | src/workflow/MatrixExpander.cpp:38-73 | a row that shares a key with the entry and differs on no shared one holds the bindings of both, at its own place; every other row is unchanged; the entry is added as a row if and only if there was no row of the first kind |
| MatrixLaws.OneEntryIsOne | src/workflow/MatrixExpander.cpp:38-73 | those rules leave nothing about the rows open |
| MatrixLaws.IncludeByStages | src/workflow/MatrixExpander.cpp:37-73 | the whole include list is merged or added by these rules, one entry after the other |
| MatrixLaws.IncludeIsDetermined | src/workflow/MatrixExpander.cpp:37-73 | any way of doing so ends with the same rows |
| MatrixLaws.ExpansionIsRight | src/workflow/MatrixExpander.cpp:18-87 | an empty matrix yields nothing; otherwise the combinations go through the include list, and exactly the rows that hold no exclude pattern stay, in order |
| MatrixLaws.ExtraKeyIsMerged | src/workflow/MatrixExpander.cpp:45-72 | an entry with an extra key widens the row it fits and adds none |
| Matrix.KeepIsExact | src/workflow/MatrixExpander.cpp:75-85 | the result is exactly the rows no exclude pattern matches, in order |
| Matrix.IncludeOnly | src/workflow/MatrixExpander.cpp:22-23 | without axes an empty row comes first, before the merged include entries |
| Matrix.EmptyRowIff | src/workflow/MatrixExpander.cpp:18-87 | exactly when the expansion yields a row without keys |
| EnvFile.ParseKeyValueFile | src/process/EnvManager.cpp:106-145 | the reading loop computes what the line reader specifies |
| EnvFile.ReadHeredoc | src/process/EnvManager.cpp:121-133 | the inner loop reads up to the delimiter or the end |
| EnvFile.AppendingIsSafeIff | src/process/EnvManager.cpp:106-145 | no appended text can lose a key if and only if the file does not end inside a new simple record; never when it ends with a newline |
| EnvFile.AccumulationIsOneParse | src/process/EnvManager.cpp:155-160 | reading the file after every step leaves the overrides of one reading at the end |
| EnvFile.AccumulatesIff | src/process/EnvManager.cpp:155-160 | for any steps so far, re-reading adds up to one reading over all overrides and all next texts if and only if the file is not left inside a new simple record and no reading had a key that the file now lacks |
| Accumulation.AddsUpIff | src/process/EnvManager.cpp:155-160 | for any run of steps, whatever reads the file: the accumulated overrides are those of one reading at the end if and only if no reading had a key that the final file lacks |
| EnvFile.WholeLinesAccumulate | src/process/EnvManager.cpp:155-188 | for steps that append whole lines, even an open heredoc, the overrides are one parse of the file |
| EnvProtocol.RecordsRoundTrip | src/process/EnvManager.cpp:103-145 | any list of well-formed records, simple or heredoc, with either line end, reads back as its last-wins map |
| EnvProtocol.LastWinsAt | src/process/EnvManager.cpp:132-140 | what last-wins means, key by key |
| EnvProtocol.OpenBlockCounts | src/process/EnvManager.cpp:124-132 | a heredoc the file does not close gives its key all its lines |
| EnvLaws.NoRecordIsIgnored | src/process/EnvManager.cpp:112-140 | after any records and before anything, blank lines, lines of neither form, lines with an empty key and blocks without a key change nothing |
| EnvProtocol.SearchIsOneRead | src/process/EnvManager.cpp:164-174 | re-reading the path file after every step leaves the search order of one reading |
| EnvProtocol.SearchIsOneReadIff | src/process/EnvManager.cpp:164-174 | for any steps, whole lines or not, the search order is that of one reading if and only if what was accumulated before the last reading is searched like its beginning |
| EnvProtocol.CollectPath | src/process/EnvManager.cpp:167-173 | the non-empty lines, in order |
| EnvLaws.PathRoundTrip | src/process/EnvManager.cpp:164-174 | lines written with either line end, and a last one without, are read back as the non-empty ones in order |
| EnvProtocol.EnvManager.constructor | src/process/EnvManager.cpp:13-37 | starts without overrides, on whatever the protocol files already hold |
| EnvProtocol.EnvManager.ParseOutputs | src/process/EnvManager.cpp:149-151 | the outputs the file says |
| EnvProtocol.EnvManager.ApplyEnvChanges | src/process/EnvManager.cpp:155-160 | the file's map over the overrides, and nothing else changes |
| EnvProtocol.EnvManager.ApplyPathChanges | src/process/EnvManager.cpp:164-174 | all lines of the file join the path again |
| EnvProtocol.EnvManager.ResetBetweenSteps | src/process/EnvManager.cpp:184-188 | only the output and summary files are emptied |
| EnvProtocol.EnvManager.RunSteps | src/runner/StepRunner.cpp:129-140 | any number of steps, each ending with outputs read, both files applied and the reset, leaves the accumulated overrides and path |

## Left out

- Poller: the ping thread, `tasks_version_`, a second start, and a worker killed by a signal, which releases its permit as the normal path does; steps are sequentially consistent and time-outs are free choices.
- LogForwarder: the local callback and a request that arrives after the client has already retried it; the server follows the contract in proto/runner.proto.
- Orchestrator: what a job does is an arbitrary function of its name and the results it is shown; the branch for a wave's job that the workflow does not define is not modelled, because a planned wave has none; cancellation is seen between waves.
- ExprEvaluator: the built-in functions, context lookup, number conversion and number formatting are arbitrary functions; conversions that raise an exception are not modelled; characters are ASCII.
- ProtoCodec: digits of a varint beyond 64 bits are taken as shifted out, a length that wraps the pointer as an overrun, and field numbers as cut to 32 bits; the ping, register, declare, fetch and log messages would only repeat the same encoders.
- CacheStore: requests are handled one at a time and a restart falls between two; blob names do not repeat; reserving creates its file, saving the index succeeds, and a saved index loads as it was saved; parsing of Content-Range and JSON is not modelled.
- CacheLookup: which of several equally new entries is returned is left open.
- ArtifactIds: artifact blobs, listing and signed URLs, which only copy fields.
- EnvFile: a read error in the middle of a file.
- HTTP, libcurl, libmicrohttpd, YAML, process spawning, actions, `hashFiles`, configuration, logging and the command line are not part of this model.
