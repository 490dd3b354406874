# Verification model of the transaction load tester

The repository sends large batches of transactions to a node, throttled so that the node's pool is
neither starved nor flooded. Its guarantees span files: a budget that counts on counters kept by the
event logs, a pool that counts tasks the counters also count, a monitor with two maps that may
disagree, nonces allotted by many tasks at once, and a batch whose order only makes sense together
with the way the runner takes it apart. This project models those parts as one system and proves
what each step keeps and what follows for whole runs.

## How it fits together

- `Transactions`, `ExecutionLog`: statuses, tasks, per-transaction logs and the shared counters.
  `Counters` and `TransactionExecutionLog` are classes; the counters are also a value (`Tally`), so
  that a recount of all logs can be compared with them.
- `TxTask`: the future that executes one task, as the stages at which it awaits and as the two
  methods `SendWatchedTx` and `SendTx`; the grammar of the logs it writes.
- `Scheduler`: the runner as a step system against an arbitrary sink. A step carries the answer a
  worker gets and the pending count that is sampled, so a statement about all step sequences is a
  statement about every sink, every interleaving, every timer and every interruption. A branch of
  the select loop that cannot be taken leaves the state as it is. Workers move only inside
  `workers.next()`, so refilling is atomic for them.
- `Runner`: the runner object with its fields updated in place, each method proved against
  `Scheduler`.
- `Budgeting`, `Throttle`: counters, budget, starvation, how full every refill fills and the exact
  in-flight condition, in every reachable state against an arbitrary sink.
- `History`: what a run has recorded stays recorded, and how a run ends.
- `Journals`, `Transcripts`: the shape of the logs, and their contents as transcripts of what the
  tasks were answered.
- `FakeSink`, `FakeDriver`, `FakeRuns`, `FakeCompletion`: the in-memory sink with its scripts, the
  runner object at work on the sink object, the in-flight bound, and termination and completeness.
- `FakeLogs`, `FakeCounters`: logs, results and counters on the fake sink as functions of the scripts
  alone.
- `BlockMonitor`, `MonitorRuns`: the monitor object and its refinement of a flat list of listeners.
- `MonitoredRuns`, `SystemBranches`: scheduler and monitor composed through the request channel; the
  premise on the monitor's answers is proved there instead of assumed.
- `SystemLiveness`: what the composed system owes a task that waits for the monitor.
- `Arithmetic`: the facts about products and quotients the proofs use.
- `Nonces`, `Chunks`, `Scenario`, `Transposition`, `Batches`: nonce allocation, chunked building,
  the stable sort and what they amount to together.
- `NonceCalls`: one allocator call by itself, and where its nonces and failures come from.
- `NonceIndependence`, `AccountOrder`: accounts do not influence each other's nonces, and each one's
  nonces stand in the batch in order, wherever the others start.
- `FakeBuilder`: the builder of fake transactions as a special case of the allocator.
- `Decimals`, `DerivedAccounts`: account names, and when the lookups find them.
- `Dispatch`: the end-to-end order, from the settings of a scenario to the tasks the runner starts.
- `Premises`: concrete inputs on which the results fail when a premise is dropped.

## Premises that are stated

- Distinct hashes, where a result is about logs or about the pool. The tests at
  `src/runner.rs:454-456` share a hash; `RunConservesTasks`, `RunDispatchesInOrder`,
  `RunKeepsTallyExact`, `RunBufferedExactIff`, `RunStarvesIff` and `RunBoundedIff` need no such
  premise; the last one says exactly when a run keeps within the threshold.
- The monitor answers `Ok` or mortal expiry. `RepliesAreBenign` proves it of the composed system;
  `RunBufferedExactIff` says exactly how far `buffered` is off without it, and `RunStarvesIff`
  when that starves the runner.
- Each hash is registered with the monitor once. `RegistrationSafeIffClean` gives the exact
  condition for a single registration.
- No batch is longer than the largest machine word.

Every lemma carries `{:induction false}`: proofs by induction say so in their bodies.

## Where the code and its documentation differ

- `with_account_id` (`src/scenario.rs:270-277`) promises that a number behaves like `with_start_id`.
  The derivation is the same, but the accounts are only if the number is written canonically
  (`NumericIdLikeStartId`), without a plus sign or a leading zero (`CanonicalIff`): for "007" the
  lookup fails (`PaddedNumberIsNotFound`).
- The last account id may be the largest 32-bit number, but the range then wraps (or overflows) and
  the lookups fail (`NumberedLookups`).
- A watched stream that ends without a terminal status is marked as not happening
  (`src/runner.rs:127`). On the fake sink it leaves the transaction in the pool for good; how many
  of these a run can bear is part of the condition in `FakeRunDrainsIff`.
- A monitor error other than expiry is logged as a second submit result (`src/runner.rs:162-165`).
  `buffered` then wraps, and the runner can starve on an empty pool (`OtherErrorStarves`).

## Model

| member | source | states |
|---|---|---|
| `Transactions.TerminalStatuses` | src/transaction.rs:200-244 | a status is terminal exactly if it is final or an error, never both, and exactly if its letter is one of F, D, I, E |
| `Transactions.LettersTellStatuses` | src/transaction.rs:201-212 | a letter of the in-pool string is read back as exactly one kind of status |
| `ExecutionLog.Counters.constructor` | src/execution_log.rs:72-90 | all counters start at zero |
| `ExecutionLog.Counters.Inc` | src/execution_log.rs:113-115 | one counter goes up by one, the others stay |
| `ExecutionLog.Counters.CountEvent` | src/execution_log.rs:125-149 | of the fifteen counters, exactly those to which the event belongs go up by one, each named with its own kind of event, and no other one; resubmission and leaving the best block belong to none |
| `ExecutionLog.BookedWhereItBelongs` | src/execution_log.rs:125-149 | an event is booked under a counter if and only if it is of the kind that counter is for |
| `ExecutionLog.TransactionExecutionLog.constructor` | src/execution_log.rs:280-288 | an empty log with the data of its transaction and the shared counters |
| `ExecutionLog.TransactionExecutionLog.PushEvent` | src/execution_log.rs:312-325 | appends the event and books it, unless it is an in-block event and the log had one already |
| `ExecutionLog.PushKeepsTallyExact` | src/execution_log.rs:125-149 | a push to any log keeps every counter equal to a recount of all logs by the kind of event the counter is for, where in-block counts logs and the others count events |
| `TxTask.SendWatchedTx` | src/runner.rs:106-139 | the loop over the status stream writes the log and returns the result of the stage machine fed with that stream, in a runner with or without a monitor, and books each event in the shared counters |
| `TxTask.SendTx` | src/runner.rs:141-179 | the same for an unwatched submission and its wait for the monitor, every error branch included |
| `TxTask.ReactMoves` | src/runner.rs:106-179 | a future takes in exactly the answers it awaits, monitor or not, and goes on to the await that follows in the code |
| `TxTask.FinishedLogHasOneAnswer` | src/runner.rs:106-179 | a finished log holds exactly one submit outcome, as its third event |
| `TxTask.WatchedInpoolString` | src/execution_log.rs:509-518 | the in-pool string of a finished watched task has a letter of a terminal status at most in last place, and the task is done exactly when that letter is F |
| `Scheduler.RefillIgnoresResults` | src/runner.rs:389-401 | refilling before or after recording a result gives the same state |
| `Scheduler.RefillFrame` | src/runner.rs:289-305 | refilling moves as many tasks as the budget and the queue allow from the queue to the workers and touches nothing else |
| `Scheduler.RunConservesTasks` | src/runner.rs:292-411 | in every reachable state, interrupted or not, queued, live, done and failed hashes are together the given multiset, shared hashes included |
| `Scheduler.RunDispatchesInOrder` | src/runner.rs:236-305 | in every reachable state the popped tasks are the given list read from its end, each popped once, and every task has a log |
| `History.ExecFollows` | src/runner.rs:356-413 | along a run the logs, `done`, `errors` and the started tasks only ever grow at their ends |
| `History.StepEndsIff` | src/runner.rs:375-411 | a running state ends if and only if there is a stop, a timeout, a sink panic or no worker left, under that reason and with nothing else changed |
| `History.RunEnds` | src/runner.rs:375-411 | a run that has ended did so by its first ending branch; its reason stands and nothing changes from then on |
| `Budgeting.RunKeepsTallyExact` | src/execution_log.rs:125-149 | in every reachable state each shared counter equals the number of logged events of the kind it is for, for in-block the number of logs that hold one |
| `Budgeting.RunBufferedExact` | src/execution_log.rs:117-123 | with monitor answers `Ok` or expiry, `buffered` never underflows and is the number of live workers whose submission is unanswered |
| `Budgeting.RunBufferedExactIff` | src/runner.rs:157-167 | with any monitor, `buffered` is off, modulo the word size, by the number of foreign monitor errors, so it is exact if and only if there was none |
| `Budgeting.RunStuckForAReason` | src/runner.rs:278-288 | with an arbitrary sink and an arbitrary monitor, a run that ends through all futures done with tasks still queued had threshold zero or a last pending count that left no budget: one of at least the threshold, or any one that the foreign monitor errors counted by `Surplus` outweigh; without such errors only the former |
| `Budgeting.RunStarvesIff` | src/runner.rs:278-304 | an idle limited runner with tasks queued starts none at the next tick if and only if the count it reads is at least the threshold, or there were foreign monitor errors and threshold less count is within their number of the largest word |
| `Budgeting.RunStarvedForGoodIff` | src/runner.rs:373-413 | such a runner never starts a task again, whatever happens, if and only if even an empty pool would leave it no budget |
| `Throttle.RefillBoundIff` | src/runner.rs:278-304 | a refill keeps the workers in flight within the threshold if and only if the pending count and `buffered` cover them, or the queue is too short to matter |
| `Throttle.RunBoundedIff` | src/runner.rs:356-413 | for any batch, shared hashes included, any sink and any monitor: the bound holds at every point of a run if and only if every refill of the run is covered in that sense |
| `Throttle.BenignRunBoundedIff` | src/runner.rs:356-413 | the same in terms of the workers and the pending count alone, when the monitor answers only `Ok` or expiry |
| `Throttle.BeginFills` | src/runner.rs:360-369 | the initial fill starts as many tasks as the smaller of threshold and batch |
| `Throttle.RefillFills` | src/runner.rs:278-304 | whatever the monitor said, after a refill the pending count, the `buffered` of before and the tasks started reach the threshold if anything is left in the queue, and do not exceed it if anything was started; an unlimited refill empties the queue |
| `Throttle.RefillFillsUnanswered` | src/runner.rs:278-304 | the same with `buffered` read as the live workers whose submission is unanswered: the pending count and those workers reach the threshold unless the queue is empty, and stay within it if anything was started |
| `Throttle.RefillingBranches` | src/runner.rs:375-401 | the tick and the return of a worker are the branches that refill, and there are no others |
| `Throttle.RunRefillsFill` | src/runner.rs:356-413 | every refill of every run, with any sink, monitor and interleaving, fills in that sense |
| `Journals.RunWatchedStrings` | src/execution_log.rs:509-518 | over whole runs, a finished watched task is done exactly when its in-pool string ends in F, and terminal letters occur only last |
| `Journals.RunBufferedByLogs` | src/execution_log.rs:117-123 | `buffered` is the number of popped transactions whose log holds no submit result |
| `Transcripts.ReactTells` | src/runner.rs:106-179 | a task logs exactly the entry that belongs to the answer it got, and returns exactly when that answer settles its result, with that result |
| `Transcripts.RunTranscripts` | src/runner.rs:106-192 | over all runs, with any sink and monitor, each log is `Popped` and the transcript of what its own task was answered, one entry per answer; the task is done or failed exactly when its last answer settles it so, and no earlier answer did |
| `Transcripts.RunStatusesDelivered` | src/runner.rs:115-125 | the statuses in a log are the delivered ones, all of them and in order, up to the first terminal one |
| `Transcripts.RunJournals` | src/runner.rs:106-192 | every log is a word of the grammar: empty while queued, fitting the stage while live, complete and in agreement with the recorded result once finished; after its submit outcome a watched log is exactly the delivered statuses up to the first terminal one |
| `Runner.Runner.constructor` | src/runner.rs:226-265 | a new runner has the given queue and one empty log per hash, with the nonce and account of its own transaction, all sharing fresh counters |
| `Runner.Runner.OpenLogs` | src/runner.rs:236-244 | the loop leaves exactly one empty log per hash, with the shared counters and the nonce and account of the last transaction of that hash |
| `Runner.Runner.PushEvent` | src/execution_log.rs:312-325 | a push to one log changes that log and the counters and no other log |
| `Runner.Runner.Pop` | src/runner.rs:267-272 | removes and returns the last queued task, which has a log; none exactly if the queue is empty |
| `Runner.Runner.StartWorker` | src/runner.rs:293-304 | one round of the refill loop: pop, log `Popped`, push the future |
| `Runner.Runner.Launch` | src/runner.rs:296-299 | `Popped` is logged before the future joins the worker set |
| `Runner.Runner.StartWorkers` | src/runner.rs:360-369 | the bounded loop with its early exit is `Refill` |
| `Runner.Runner.BudgetFor` | src/runner.rs:278-288 | the saturating budget, unlimited for the largest threshold; that it is neither too small nor too large is `Throttle.RefillFills` |
| `Runner.Runner.ConsumePending` | src/runner.rs:274-325 | samples and refills by the budget; the whole new state is given, and how full it is by `Throttle.RunRefillsFill` |
| `Runner.Runner.PollWorker` | src/runner.rs:387-390 | a polled worker logs what it reacts with and leaves the set exactly if it returns |
| `Runner.Runner.Next` | src/runner.rs:387-404 | the whole branch of `workers.next()`: poll, and on a result refill and record |
| `Runner.Runner.Complete` | src/runner.rs:389-401 | the refill and the recording of the result, in the order of the code, amount to recording first |
| `Runner.Runner.Record` | src/runner.rs:393-401 | the hash goes to `done` or to `errors` |
| `Runner.Runner.Select` | src/runner.rs:375-413 | one iteration of the select loop is one `Step` |
| `Runner.Runner.Run` | src/runner.rs:350-417 | the initial fill and the loop are `Exec` of the schedule from the refilled state |
| `FakeSink.FakeTransactionsSink.constructor` | src/fake_transaction_sink.rs:23-28 | an empty pool |
| `FakeSink.FakeTransactionsSink.SubmitAndWatch` | src/fake_transaction_sink.rs:32-41 | the hash is in the pool before the stream is played |
| `FakeSink.FakeTransactionsSink.NextEvent` | src/fake_transaction.rs:293-308 | plays the script in order and takes the hash out of the pool on a terminal status |
| `FakeSink.FakeTransactionsSink.BeginSubmit` | src/fake_transaction_sink.rs:53-56 | the hash is in the pool during the delay |
| `FakeSink.FakeTransactionsSink.EndSubmit` | src/fake_transaction.rs:310-333 | the last scripted event decides the result; an empty script or a last event that is not terminal panics and leaves the hash in the pool |
| `FakeSink.FakeRunsAreRuns` | src/fake_transaction_sink.rs:30-69 | every run on the fake sink is a run on an arbitrary sink with acceptable monitor answers, so all results above hold of it |
| `FakeSink.FakeEndings` | src/runner.rs:375-411 | stop, timeout and the lack of workers end a fake run under their own names, and a poll ends it exactly by the panic of a plain submission with a broken script |
| `FakeDriver.Ask` | src/fake_transaction_sink.rs:32-59 | the sink object answers a polled worker and changes its pool as the step system says |
| `FakeDriver.DriveStep` | src/runner.rs:375-413 | one select branch of the runner object on the sink object is one `FakeStep` |
| `FakeDriver.Drive` | src/runner.rs:350-424 | a new runner object on a new sink object is, after any schedule, in the state `FakeRun` gives |
| `FakeRuns.LiveBound` | src/runner.rs:278-288 | every live worker is unanswered or in the pool, so there are at most `buffered` plus pool size of them although some are counted twice |
| `FakeRuns.FakeRunBoundedIff` | src/runner.rs:274-305 | for any batch, a run on the fake sink keeps the bound throughout if and only if at every refill the workers are no more than the unanswered ones and the pool together, or the queue is too short to matter |
| `FakeRuns.FakeRunInFlight` | src/runner.rs:274-305 | in every reachable state over distinct hashes the live workers never exceed the send threshold |
| `FakeCompletion.FakeRunTerminates` | src/fake_transaction.rs:293-333 | no run takes more branches that change something, the timer aside, than one plus, for each task, three plus the length of its script |
| `FakeCompletion.FakeRunCanEnd` | src/runner.rs:387-411 | from every reachable state the run can end without stop or timeout |
| `FakeCompletion.FakeRunDrainsIff` | src/runner.rs:356-417 | an uninterrupted run that has ended drained its queue through all futures done if and only if no unwatched submission panics and fewer than threshold tasks ahead of the last dispatched one are watched with no terminal status |
| `FakeLogs.ScriptedResultMeans` | src/fake_transaction.rs:310-333 | a plain submission is accepted exactly for a final last status; its error spells out the kind and message of any other terminal one; every other script panics |
| `FakeLogs.FakeRunScripted` | src/fake_transaction.rs:293-333 | in every reachable state a live watched log is the head and the script as far as it was played, a finished one the head and the script up to its first terminal status, a finished plain one the scripted result; done means exactly that the deciding status is `Finalized` |
| `FakeLogs.FakeRunResults` | src/runner.rs:356-417 | a drained run has no worker left, `done` plus `errors` is a permutation of the batch, and which task is in which, with which log, is a function of its script, whatever the schedule |
| `FakeCounters.FakeRunTally` | src/execution_log.rs:125-149 | after a drained run over distinct hashes every counter is the sum of what the scripts contribute to it, whatever the schedule |
| `FakeCounters.FakeRunTerminalCounters` | src/execution_log.rs:139-142 | after such a run the finalized, dropped, invalid and error counters are the numbers of watched tasks whose deciding status is of that kind |
| `FakeCounters.SuccessIsFinalized` | src/execution_log.rs:139 | a watched task succeeds exactly if it is counted as finalized |
| `BlockMonitor.BlockMonitor.constructor` | src/block_monitor.rs:157-158 | both maps start empty |
| `BlockMonitor.BlockMonitor.RegisterListener` | src/block_monitor.rs:169-178 | the callback is inserted, replacing an earlier one whose trigger is dropped, and the hash joins the bucket of its deadline |
| `BlockMonitor.BlockMonitor.Trigger` | src/block_monitor.rs:125-128 | a callback is taken out and sent to at most once |
| `BlockMonitor.BlockMonitor.HandleBlock` | src/block_monitor.rs:110-147 | a finalized block notifies the callbacks of its extrinsics and then those of its deadline bucket; a best block changes nothing |
| `BlockMonitor.BlockMonitor.Expire` | src/block_monitor.rs:131-138 | the whole bucket expires, in whatever order the set yields it |
| `BlockMonitor.BlockLeaves` | src/block_monitor.rs:122-138 | a finalized block leaves exactly the callbacks that neither its extrinsics nor its bucket name, with their listeners, and every bucket but its own |
| `BlockMonitor.RegisterRefines` | src/block_monitor.rs:169-178 | a clean registration keeps the two maps a refinement of the flat list |
| `BlockMonitor.BlockRefines` | src/block_monitor.rs:122-138 | a finalized block is a full scan of the flat list, in spite of stale deadline entries |
| `BlockMonitor.RegistrationSafeIffClean` | src/block_monitor.rs:169-178 | the next finalized block is answered like a scan, whatever it contains, if and only if the hash was not pending and not filed under another deadline |
| `BlockMonitor.OverwrittenListenerLost` | src/block_monitor.rs:169-171 | registering a pending hash again loses the first listener: a block with the hash shows it |
| `BlockMonitor.StaleDeadlineFires` | src/block_monitor.rs:122-138 | a deadline left behind by an answered registration expires a later one of the same hash too early |
| `MonitorRuns.CleanRunRefines` | src/block_monitor.rs:149-181 | every run of clean registrations and blocks keeps the refinement |
| `MonitorRuns.MonitorRefinesScan` | src/block_monitor.rs:149-181 | if no hash is registered twice, all answers of a run are those of a full scan per finalized block, and no listener is dropped |
| `MonitorRuns.RegistrationMeetsFate` | src/block_monitor.rs:110-181 | a listener is answered by the first finalized block after its registration that has its hash or its deadline, at most once, and is pending exactly until then |
| `MonitorRuns.DecisionIsAnswered` | src/block_monitor.rs:122-138 | the first finalized block after a registration that has its hash or its deadline is answered, with `Ok` and that block if it has the hash and with the expiry otherwise |
| `MonitorRuns.AnsweredIff` | src/block_monitor.rs:122-138 | a listener has been answered if and only if some finalized block since its registration had its hash or its deadline |
| `MonitorRuns.OkIsInclusion` | src/block_monitor.rs:122-129 | `Ok(b)` only if finalized block b contained the hash after the registration |
| `MonitorRuns.ErrIsExpiry` | src/block_monitor.rs:131-138 | an error is the listener's own deadline, and no finalized block since the registration up to and including that one contained the hash |
| `MonitorRuns.DeadlineSafety` | src/block_monitor.rs:117-138 | with consecutive finalized blocks, a listener registered before its deadline block is answered and no longer pending once that block has been processed |
| `MonitoredRuns.RepliesAreBenign` | src/block_monitor.rs:65-72 | in the composed system a task hears of an inclusion of its own hash or of its own deadline, never another error |
| `MonitoredRuns.SystemRunLogs` | src/runner.rs:148-172 | over all composed runs no log holds two submit results, `MortalDroppedMonitor(n)` occurs only for a task valid until n, and `FinalizedMonitor(b)` only for a finalized block with the transaction; that every waiting task has asked and is answered is `SystemLiveness` |
| `MonitoredRuns.SystemRunBuffered` | src/execution_log.rs:117-123 | `buffered` is exact in every reachable state of the composed system |
| `SystemBranches.SystemRunsAreRuns` | src/runner.rs:148-172 | to the scheduler every composed run is a run in which the monitor answers only `Ok` or expiry, so what holds of those holds of the composed system |
| `SystemBranches.SystemRunStuckForAReason` | src/runner.rs:278-288 | a composed run that ends with tasks queued had threshold zero or last read a count of at least the threshold |
| `SystemBranches.SystemRunResumesIff` | src/runner.rs:278-304 | in the composed system an idle limited runner with tasks queued starts one at the next tick if and only if the count is below the threshold |
| `SystemLiveness.SystemWaitersAsk` | src/runner.rs:148-156 | in every reachable state of the composed system each task that waits for the monitor has sent its request, with its deadline or with none, and the request is in the channel or has been processed |
| `SystemLiveness.ReceivesAll` | src/block_monitor.rs:167-178 | taking requests processes them in the order they were sent until the channel is empty |
| `SystemLiveness.SystemDecisionAnswered` | src/block_monitor.rs:110-138 | over composed runs with distinct hashes, the first finalized block to have the hash or the deadline of a processed request is answered: `Ok` with that block if it has the transaction, the expiry otherwise |
| `SystemLiveness.SystemAnsweredIff` | src/block_monitor.rs:110-138 | over such runs a processed request has an answer if and only if a finalized block since then had its hash or its deadline |
| `SystemLiveness.DeliverEnds` | src/runner.rs:154-171 | delivering `Ok` with block b makes the waiting task done with `FinalizedMonitor(b)` last in its log; delivering the expiry makes it fail with `MortalDroppedMonitor` last |
| `SystemLiveness.WaitingTaskCanEnd` | src/runner.rs:148-172 | from every reachable running state a waiting task ends: once the channel is emptied and a finalized block has its transaction there is an answer, and delivering that ends it |
| `Nonces.NonceTable.constructor` | src/subxt_transaction.rs:246 | an empty table |
| `Nonces.NonceTable.CommitNonce` | src/subxt_transaction.rs:288-295 | the locked section: the successor of the table's entry, or the fetched nonce if there is none |
| `Nonces.NonceTable.CheckAccountNonce` | src/subxt_transaction.rs:273-296 | an uninterrupted call, its fetch error included, is one commit |
| `NonceCalls.CallAlone` | src/subxt_transaction.rs:273-296 | the three moves of a call without interruption give the successor of the table's entry, without an entry the chain's nonce, and without either an error that changes nothing |
| `NonceCalls.CallCanReturn` | src/subxt_transaction.rs:273-296 | whatever has happened so far, a call that has not failed can be brought to its return |
| `NonceCalls.FetchesAreAnswers` | src/subxt_transaction.rs:282-287 | under every interleaving a fetched nonce is the chain's answer to the very call that fetched it, and a call fails only if the chain failed it |
| `NonceCalls.KnownAccountsNeverFail` | src/subxt_transaction.rs:278-287 | under every interleaving a call for an account the table knows neither asks the chain nor fails |
| `Nonces.InterleavedNonces` | src/subxt_transaction.rs:273-296 | under every interleaving of reads, fetches and commits, the nonces of an account are consecutive in commit order, one per returned call, from the table's successor or the first committed fetch |
| `Nonces.InterleavedDistinct` | src/subxt_transaction.rs:288-295 | no two calls for one account return the same nonce |
| `Nonces.InterleavedRange` | src/subxt_transaction.rs:288-295 | a returned nonce lies in the run of as many nonces as calls have returned |
| `NonceIndependence.AccountsAreIndependent` | src/subxt_transaction.rs:273-296 | deleting every move of the other accounts changes neither the stages and nonces of an account's calls nor its commits nor its entry in the table |
| `Chunks.BoundEnds` | src/scenario.rs:504-505 | the first chunk begins at 0 and the last one ends at n |
| `Chunks.ChunkSize` | src/scenario.rs:504-505 | chunk sizes differ by at most one, and with no more chunks than items none is empty |
| `Chunks.ChunksTile` | src/scenario.rs:493-540 | the chunks put together are the whole list, for every length, zero included, and every parallelism |
| `Decimals.DecimalInjective` | src/scenario.rs:469 | different account numbers print differently |
| `Decimals.ParseDecimal` | src/scenario.rs:558 | a printed 32-bit number parses back to itself |
| `Decimals.CanonicalIff` | src/scenario.rs:558 | a string that parses is the printed form of its number if and only if it has no plus sign and no leading zero |
| `Decimals.OtherSpellings` | src/scenario.rs:558 | a plus sign or a leading zero does not change the number; what is too large, empty or holds another character does not parse |
| `Scenario.PushAccount` | src/scenario.rs:466-476 | the loop with its running nonce yields one account's parameters |
| `Scenario.AccountsOfRange` | src/scenario.rs:463-491 | every account of a numbered scenario is a number of its range, and an account id is the only account of its scenario |
| `Scenario.NumberInRange` | src/scenario.rs:463-476 | a number is among the accounts if and only if it lies from the first to the last one, both included |
| `Scenario.BuildAllParams` | src/scenario.rs:463-491 | the nested loops yield the account-major parameters of the accounts of `NumberInRange` or of the account id, or none where the code panics; how many each account gets is `Dispatch.BuiltPerNumber` |
| `Scenario.BuildChunk` | src/scenario.rs:511-533 | one spawned task builds its own chunk in order |
| `Scenario.BuildTransactions` | src/scenario.rs:493-542 | chunked building, flattening and sorting equal sorting the sequential build, for every parallelism |
| `Scenario.SortIsStable` | src/scenario.rs:541 | the sort orders by nonce and keeps the order of equal nonces |
| `Scenario.StableSortUnique` | src/scenario.rs:541 | there is only one such list, so any stable sort gives it |
| `Transposition.TransposedEntries` | src/scenario.rs:541-542 | entry i of the transposition has account i mod m and nonce f + i div m |
| `Transposition.SortTransposes` | src/scenario.rs:541-542 | sorting any account-major list, each account's nonces in any order, gives the transposition |
| `Batches.GivenBatchIsTransposed` | src/scenario.rs:463-542 | with a starting nonce the batch is the transposition |
| `Batches.FirstCommitIsChains` | src/subxt_transaction.rs:282-295 | the first nonce committed for an account is what the chain says for that account |
| `Batches.AllocatedBatchIsTransposed` | src/scenario.rs:511-542 | without a starting nonce, when the chain says the same for every account, it is that transposition under every interleaving of the building tasks' nonce calls; the general case is `AccountOrder.AllocatedFront` |
| `AccountOrder.SortKeepsCopies` | src/scenario.rs:541 | the sorted list holds the same transactions, as often as before |
| `AccountOrder.AllocatedFront` | src/scenario.rs:511-542 | whatever the chain answers for each account and however the calls interleave, in every front of the sorted batch an account's nonces are consecutive from its own first committed one |
| `FakeBuilder.BuildTransaction` | src/transaction.rs:112-145 | the watched branch panics before anything changes; otherwise the given nonce is ignored and the account's next one committed, from zero, and an account that is not a number becomes alice |
| `FakeBuilder.LockedCallCommits` | src/transaction.rs:122-129 | a call under one lock is the interleaving of the allocator's three moves in which nothing comes between, and yields one nonce after the last one, from zero |
| `FakeBuilder.FakeBatch` | src/scenario.rs:511-542 | in whatever order the building tasks get the lock, entry i of a fake batch has nonce i div m and account start + i mod m |
| `DerivedAccounts.DeriveChunk` | src/subxt_transaction.rs:479-502 | one derivation thread yields the pairs of its chunk; what those pairs are is `DerivedAccounts.CollectNumbered` |
| `DerivedAccounts.DeriveRange` | src/subxt_transaction.rs:465-507 | the threads joined in order yield the pairs of the whole range, for every parallelism |
| `DerivedAccounts.DeriveAccounts` | src/subxt_transaction.rs:459-517 | the threaded derivation yields the map of the sequential one, which for a range holds at the name of each index i the key pair generated from that i and its metadata, and no other name; or it panics for a range that ends before it begins or an unknown keyring name |
| `DerivedAccounts.CollectNumbered` | src/subxt_transaction.rs:484-507 | the map has exactly the printed numbers of the range as keys, each with the key pair generated from its own index and the metadata of that index |
| `DerivedAccounts.DerivedEntries` | src/subxt_transaction.rs:459-517 | both kinds of derivation spelled out: a range has the pair of index i under the name of i and nothing else, a keyring name has the key pair of its development account, anything else panics |
| `DerivedAccounts.DevAccountNames` | src/subxt_transaction.rs:428-436 | each development account answers to exactly its two names |
| `DerivedAccounts.DerivedAreSenders` | src/scenario.rs:546-572 | when the lookups succeed the sink knows exactly the accounts that send |
| `DerivedAccounts.NumberedLookups` | src/scenario.rs:552-554 | with account numbers every lookup succeeds if and only if the last number is below the largest 32-bit number and the range does not end before it begins |
| `DerivedAccounts.NamedLookups` | src/scenario.rs:555-568 | with an account id the lookup succeeds if and only if it is a keyring name or the canonical form of a number below the largest 32-bit number |
| `DerivedAccounts.NumericIdLikeStartId` | src/scenario.rs:270-289 | a numeric account id asks for the same derivation as a start id, and stands for the same account if and only if it is canonical |
| `DerivedAccounts.PaddedNumberIsNotFound` | src/subxt_transaction.rs:651-653 | "007" parses as 7 and its lookup fails |
| `Dispatch.DispatchIsPrefix` | src/scenario.rs:637 | a runner given the reversed batch pops the batch from its front, at every point of every run |
| `Dispatch.RoundsAreConsecutive` | src/runner.rs:267-272 | in such a front each account's nonces are consecutive, and their number is fixed by the length of the front |
| `Dispatch.SharesAreEven` | src/runner.rs:267-272 | no account is ever more than one transaction ahead of another |
| `Dispatch.BuiltIsTransposed` | src/scenario.rs:449-543 | when all accounts start with the same nonce, what building may return is the transposition of the accounts; `Dispatch.BuiltFront` is the general case |
| `Dispatch.BuiltPerAccount` | src/scenario.rs:463-542 | in what building may return every configured account has as many transactions as are asked for, and nobody else has any |
| `Dispatch.BuiltPerNumber` | src/scenario.rs:463-542 | for a range: each number from the first to the last one has that many transactions, and no other number has any |
| `Dispatch.BuiltFront` | src/scenario.rs:449-543 | in every front of what building may return an account's nonces are consecutive from its own start on, whether or not the accounts start alike |
| `Dispatch.StartIsChains` | src/scenario.rs:93-96 | without a configured nonce an account starts with the nonce the chain holds for it |
| `Dispatch.ScenarioDispatch` | src/scenario.rs:546-655 | end to end: for a scenario whose lookups succeed, with given nonces or with nonces allotted under any interleaving and any answers of the chain, at every point of every run the started tasks are the front of the sorted batch and each account's nonces leave from its own start on without a gap |
| `Dispatch.CommonStartDispatch` | src/scenario.rs:546-655 | when the accounts start alike they also take turns: each one's share of what has left is fixed by the total |
| `Premises.SharedHashOverfills` | src/runner.rs:454-456 | with two tasks of one hash, a threshold of two lets three workers run; exactly when that happens is `FakeRuns.FakeRunBoundedIff` |
| `Premises.OtherErrorStarves` | src/runner.rs:162-165 | one foreign monitor error makes `buffered` the largest word, and the queued task is not started whatever the pool reports; exactly when that happens is `Budgeting.RunStarvesIff` |

## Left out

- Node connection, RPC and retries (`src/subxt_api_connector.rs`, `src/helpers.rs`,
  `create_online_transaction`): foreign calls; the pending count, every answer of a sink and the
  chain's nonce are parameters of a step.
- Key generation, signing and payload builders: foreign code; a key pair is known by the request it
  was generated from, or by its development account, and transaction hashes are opaque.
- The one-second cache of the pending count in `pending_extrinsics`: the arbitrary pending count
  covers it.
- Real time: timestamps, `time_to_*`, script delays, the tick interval, the shrinking timeout and the
  display interval; timer and timeout may come at any point.
- JSON journals, CSV output, statistics and plots, log-file names, the command line and the Ctrl-C
  hook, which is a `Stop` step; dropping the stop sender has the same effect.
- `is_watched`, `times_to_inblock` and `get_resent_count` of the logs and the second scripts of fake
  transactions: not implemented or never reached.
- The empty scripts that `FakeTransactionBuilder` gives its transactions.
- Mortality, tip and call data of a transaction: the batch model keeps account and nonce, a task also
  its hash, metadata and `valid_until`.
- Overflow of counters (usize), nonces (u128) and of `thread_idx * n` (usize): these grow without
  bound here; only `buffered` and the 32-bit account numbers wrap.
- A derivation range that ends more than one before it begins: modelled as a panic; a release build
  would wrap and never finish deriving.
- A worker that makes several moves in one poll: here these are several consecutive steps.
- BlockMonitor.BlockMonitor.Trigger: does not model the panic when the listening end of a reply is
  gone. A task holds that end until the reply comes, so it is gone only once a run has ended and
  dropped its workers, when nothing is left that waits for the monitor.
- A monitor task that has died, and the capacity of its request channel.
- Nonce tables are keyed by the hex form of the account id: here by the account's name, of which it
  is taken to be an injective function.
- The standard library's stable sort: modelled as an insertion sort, which `StableSortUnique` shows
  to give the only possible result.
- Async futures in the shape the compiler gives them: `TxTask.React` has their stages, and the
  methods `SendWatchedTx` and `SendTx` follow the code line by line for one task at a time.
- Listeners registered after their block or deadline was finalized: the code gives no guarantee.
