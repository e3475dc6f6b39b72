# Verified model of StockStat

A Dafny model of the parts of StockStat whose correctness spans several functions or a whole run,
with proofs of what they keep. `dafny verify dfyconfig.toml` checks everything.

- **Dispatcher** (`DispatcherModel`, `Conservation`, `SliceTracking`, `Provenance`, `Genuine`,
  `Completion`, `CompletionLimits`, `DispatcherRuns`, `Recovery`, `UndisturbedCalls`, `TaskTable`,
  `Dispatcher`, and `Fleet` for the protocol together with the worker registry). Tasks are split
  into slices, queued, assigned to workers, reported, merged. The state machine in `DispatcherModel`
  has one step per section under the lock and one per queue operation; a client or worker call is a
  thread that runs its sections one at a time, so `submit`, `assign_task`, `on_complete` and
  `on_fail` interleave freely with each other, with cancellations and with timeouts. A timeout takes
  a worker's assignments off record in one step and enqueues their slices one by one, since dequeues
  do not wait for the lock it holds. The classes in `TaskTable` and `Dispatcher` update records,
  queue, cache and worker registry in place; their methods are tied to the same section functions,
  and `UndisturbedCalls` shows that a call nobody interrupts is the run of its sections.
- **Splitting and merging** (`SliceIds`, `Shard`, `SliceFields`, `ShardCounts`, `SplitRuns`,
  `GridMeaning`, `BatchMeaning`, `Merge`, `EndToEnd`, `Delivery`). What a sharded grid search, batch
  backtest or simulation reports, compared with the unsharded run; `EndToEnd` and `Delivery` carry
  this through the state machine to what the client gets.
- **Queues, workers, prefetch** (`TaskQueue`, `Workers`, `DataCache`, `Prefetch`). The in-process and
  the Redis queue, the worker status machine, the byte-bounded cache and its transparency.
- **Query cache of the storage service** (`QueryCache`). LRU with a time to live.
- **Backtest ledger** (`Portfolio`, `Broker`, `Engine`). Reals stand for floats.
- **Order statistics** (`MultipleTesting`, `Survival`). In-place loops against closed forms.
- **Strategy expressions** (`Dsl`, `DslRoundTrip`, `DslTexts`). The recursive-descent parser over raw
  strings, a printer with either quote, and what texts no printer writes are read as.

`Protocol`, `Dicts`, `Seqs` and `Reals` hold shared datatypes, insertion-ordered dictionaries,
sequences and products of reals.

Where the code falls short of what one would expect, the model follows the code, and the exact
condition under which the expectation holds is proved:

- A scan that matches after skipping loses the skipped specs; nothing is lost if and only if it
  matches at the head or not at all.
- Completions are counted, not checked for novelty: a completed task has all its results if and only
  if no counted report was a duplicate or foreign, and a task reported often enough completes if and
  only if no report was counted on top of a full count before its check.
- No status is final: exactly which steps change it is proved for every status. A retry travels under
  the task's own id, and for a sharded task a timeout loses it; a reported slice stays assigned and
  can be enqueued again.
- A task id that contains "-s" misroutes an unsharded task. The clients generate UUIDs, which never
  contain it; the run theorems ask for ids without it.
- Slices of a grid or batch are expanded to a product again by the worker, so rows can be repeated;
  simulation splitting drops the remainder.
- Overwriting a cache entry leaks its bytes in the running count. The cache key ignores inline data.
  An assignment that interleaves with another can lose its prefetched data before it fetches them.
- A timeout check takes back the slices of silent workers that are online or busy, and of no others: a
  slice assigned to a worker that has left is stranded with it.
- The merge of a type that is not tabular is the result that arrived first; every slice's result
  matters if and only if there is at most one slice or the type is tabular.
- The floor of a worker's load at zero forgives excess reports: the load is assignments less reports
  if and only if reports never outran the load.
- A split for a negative number of workers leaves simulations without slices, and such a task never
  completes.
- A partial sale realizes no profit: it lowers the cost basis by its proceeds. On the short side money
  moves the wrong way: equity is off by twice the money traded.
- A parenthesis anywhere in a keyword argument makes the parser reject it.
- An opening buy below 1e-10 loses its cost basis, so the profit identity has a dust term.
- The broker charges for and logs the requested quantity: log, money and fee tell what was filled if
  and only if the account could fill the whole order. The identities are stated over executed fills.

## Model

| member | source | states |
|---|---|---|
| `Completion.CompletionExact` | packages/dispatcher/stockstat_dispatcher/core.py:189-207 | For every run in which no id is resubmitted and workers report what they were handed, under every interleaving of the sections, and every task not failed or cancelled and with no slice reported twice: completed means every slice is in the partial results and the stored result is the merge of them; with no completion check pending and at least one slice, completed if and only if all slices are reported; a task without slices never completes |
| `Completion.ReportsAreSlices` | packages/dispatcher/stockstat_dispatcher/core.py:189-198 | Reports counted for such a task come from its own attached slices, number at most n, and number n exactly when all slices are reported |
| `CompletionLimits.CompleteResultsIff` | packages/dispatcher/stockstat_dispatcher/core.py:200-207 | Whatever the workers report: when a check completes a task whose slices are attached, the results of all its slices are there if and only if no counted report was a duplicate or of no slice of the task |
| `CompletionLimits.EarlyReportCompletesIff` | packages/dispatcher/stockstat_dispatcher/core.py:78-89 | Before its slices are attached a task counts as one slice: a report checked then completes it if and only if it is the first one |
| `CompletionLimits.CompletedDespiteRepeatsIff` | packages/dispatcher/stockstat_dispatcher/core.py:189-207 | Repeated reports allowed: in every run without resubmission whose workers report what they were handed, a task with slices, not failed or cancelled and with no check pending, is completed if and only if at least as many reports as slices were counted and none overtook the check of a full count |
| `CompletionLimits.OvershotNeverCompletes` | packages/dispatcher/stockstat_dispatcher/core.py:196-207 | Once more reports than slices were counted before a check, no continuation of the run completes the task |
| `CompletionLimits.DoubleReportOvertakesCheck` | packages/dispatcher/stockstat_dispatcher/core.py:192-202 | From any state with one slice missing, two reports counted before either check lead there |
| `CompletionLimits.StatusAfter` | packages/dispatcher/stockstat_dispatcher/core.py:78-226 | The status of a task after any step, whatever it was before: pending once submitted or retried, at most three times; running once a pending one is handed out; completed when a check finds the counts equal; failed or cancelled when that is reported or asked for; otherwise as it was |
| `CompletionLimits.StaysCompletedIff` | packages/dispatcher/stockstat_dispatcher/core.py:126-226 | A completed task stays completed in a step if and only if the step does not cancel, fail, resubmit or retry it: terminal states are not absorbing |
| `CompletionLimits.StaysEndedIff` | packages/dispatcher/stockstat_dispatcher/core.py:126-226 | A failed task stays failed, and a cancelled one cancelled, if and only if the step does not resubmit or retry it, is no check that finds the counts equal, and does not cancel the one or fail the other |
| `CompletionLimits.RetryReclaimedIff` | packages/dispatcher/stockstat_dispatcher/core.py:334-342 | A retry whose worker times out is enqueued again if and only if the task was handed on whole; the retry of a sharded task is lost |
| `CompletionLimits.ReportedSliceReclaimedIff` | packages/dispatcher/stockstat_dispatcher/core.py:196-197 | A report takes nothing off record: a timeout enqueues a reported slice again if and only if it is assigned to the silent worker under the id of an attached slice |
| `CompletionLimits.WholeTaskRecordedIff` | packages/dispatcher/stockstat_dispatcher/core.py:165-173 | An assignment or report of a task handed on whole is recorded with that task if and only if its id contains no "-s" |
| `CompletionLimits.HistoryIsRecent` | packages/dispatcher/stockstat_dispatcher/core.py:344-359 | In every run the history is the list of the tasks that ended, cancelled, completed by a check or failed without another try, in that order, cut to the last thousand |
| `Conservation.RunAccounted` | packages/dispatcher/stockstat_dispatcher/core.py:78-226 | In every run under every interleaving, each enqueued spec is in exactly one place: queued, in a thread's hands, handed out, or dropped by a scan that matched after skipping it |
| `Conservation.WorkBounded` | packages/dispatcher/stockstat_dispatcher/core.py:209-226 | Enqueues for a task, sent or still to be sent, are one per slice, per retry and per slice taken back by timeouts; at most three retries; assignments never exceed enqueues, so without timeouts there are at most n + 3 |
| `SliceTracking.NoSliceLost` | packages/dispatcher/stockstat_dispatcher/core.py:148-226 | In every run without resubmission in which no scan matches after skipping, each slice of each task is with its submission, queued, in a thread's hands, assigned or reported |
| `DispatcherRuns.SkippedSpecIsLost` | packages/dispatcher/stockstat_dispatcher/core.py:150-159 | That condition is needed: for any two waiting tasks of which the worker can run only the second, the run that hands it out loses the first |
| `DispatcherRuns.CarriedThrough` | packages/dispatcher/stockstat_dispatcher/core.py:78-207 | A capable worker alone carries any task with slices, however split, from submission to completion: its reports are the partial results of the slices, and the result is the single one itself, one table of all, their list or the first of them |
| `Provenance.StepTraceable` | packages/dispatcher/stockstat_dispatcher/core.py:78-226 | With honest workers and no resubmission every step keeps: each enqueued id is that of a slice of an attached task, or of a task that was failed or cancelled |
| `Genuine.OnlyOwnWork` | packages/dispatcher/stockstat_dispatcher/core.py:78-342 | In every run without resubmission, whatever workers report: every spec queued, set aside, put back or handed out is an unaltered slice of the task its id is routed to, or that task itself |
| `Recovery.Completable` | packages/dispatcher/stockstat_dispatcher/core.py:78-226 | No dead ends: from every reachable state whose slices are all tracked, a task with slices that was not failed or cancelled and has no slice reported twice has a continuation that completes it |
| `Fleet.CheckTakesBackIff` | packages/dispatcher/stockstat_dispatcher/workers.py:109-118 | In every reachable state of protocol and registry, a timeout check takes an assigned slice off record and sends it back to the queue if and only if its worker is registered, online or busy, and silent beyond the timeout |
| `Fleet.StrandedForever` | packages/dispatcher/stockstat_dispatcher/workers.py:83-118 | A slice assigned to a worker that is away stays with it in every continuation in which the worker stays away and the slice is not handed out otherwise |
| `Fleet.DepartedWorkerStrands` | packages/dispatcher/stockstat_dispatcher/workers.py:83-86 | For every task with slices there is such a run: the worker registers, is handed a slice and unregisters |
| `EndToEnd.ResultsArrive` | packages/dispatcher/stockstat_dispatcher/core.py:196-203 | The stored results of a completed task are those of its slices, in the order in which the slices reported |
| `EndToEnd.GridSearchEndToEnd` | packages/dispatcher/stockstat_dispatcher/merge.py:7-30 | A sharded grid search reported as completed, in any interleaving, has the rows of the unsharded search, each as often if and only if the grid has one parameter or the chunks are single combinations |
| `EndToEnd.BatchEndToEnd` | packages/dispatcher/stockstat_dispatcher/merge.py:7-30 | The same for a batch backtest; rows arrive as often, for strategies and fees listed once, if and only if the chunks are aligned with the fee models |
| `EndToEnd.HandledAlone` | packages/dispatcher/stockstat_dispatcher/core.py:78-207 | The two theorems above apply to some run of every task with slices, whatever rows its slices come up with |
| `Delivery.ReportsDelivered` | packages/dispatcher/stockstat_dispatcher/merge.py:7-31 | The client of a completed task gets, for the results last reported for its slices and in the order of the reports: a single one itself whatever the type, one table of a tabular type's tables, their list when not all are tables, and otherwise the result reported first |
| `UndisturbedCalls.SubmitIsRun` | packages/dispatcher/stockstat_dispatcher/core.py:78-96 | A submission no other thread interrupts is the run of its sections: record, attach, enqueue each slice |
| `UndisturbedCalls.CompleteIsRun` | packages/dispatcher/stockstat_dispatcher/core.py:189-207 | The same for a completion report |
| `UndisturbedCalls.FailIsRun` | packages/dispatcher/stockstat_dispatcher/core.py:209-226 | The same for a failure report |
| `UndisturbedCalls.AssignIsRun` | packages/dispatcher/stockstat_dispatcher/core.py:148-174 | The same for an assignment request in every reachable state: scan, then record or put back; a fruitless scan restores the queue |
| `UndisturbedCalls.TimeoutIsRun` | packages/dispatcher/stockstat_dispatcher/core.py:334-342 | The same for a timeout |
| `Dispatcher.Dispatcher.constructor` | packages/dispatcher/stockstat_dispatcher/core.py:39-67 | Starts with no tasks, an empty queue and cache and no workers |
| `Dispatcher.Dispatcher.Submit` | packages/dispatcher/stockstat_dispatcher/core.py:78-96 | Records the task, attaches the slices of the sharding and queues them all in order |
| `Dispatcher.Dispatcher.EnqueueEach` | packages/dispatcher/stockstat_dispatcher/core.py:90-91 | Queues specs one after the other |
| `Dispatcher.Dispatcher.GetResult` | packages/dispatcher/stockstat_dispatcher/core.py:117-124 | The merged result of a completed task, otherwise the not-found or not-ready error |
| `Dispatcher.Dispatcher.Cancel` | packages/dispatcher/stockstat_dispatcher/core.py:126-134 | Cancels whatever state the task is in and remembers it in the history |
| `Dispatcher.Dispatcher.RecordHistory` | packages/dispatcher/stockstat_dispatcher/core.py:344-359 | The history keeps the most recent thousand entries |
| `Dispatcher.Dispatcher.Scan` | packages/dispatcher/stockstat_dispatcher/core.py:148-159 | Takes the first capable spec in queue order; when there is none the queue is exactly what it was |
| `Dispatcher.Dispatcher.AssignTask` | packages/dispatcher/stockstat_dispatcher/core.py:148-187 | Hands out that spec with its data, records the assignment, counts it for the worker; otherwise changes nothing |
| `Dispatcher.Dispatcher.PrepareAssignment` | packages/dispatcher/stockstat_dispatcher/core.py:161-187 | Data, record, worker load and message of one assignment |
| `Dispatcher.Dispatcher.PrefetchData` | packages/dispatcher/stockstat_dispatcher/core.py:238-259 | Leaves the cache as one lookup and, on a miss, one insertion of inline data, storage data or nothing would |
| `Dispatcher.Dispatcher.OnComplete` | packages/dispatcher/stockstat_dispatcher/core.py:189-207 | Both sections of a completion and the relief of the worker; an unknown task changes nothing |
| `Dispatcher.Dispatcher.CheckCompletion` | packages/dispatcher/stockstat_dispatcher/core.py:200-207 | Merges and completes the task exactly when as many reports as slices were counted |
| `Dispatcher.Dispatcher.OnFail` | packages/dispatcher/stockstat_dispatcher/core.py:209-226 | Both sections of a failure and the relief of the worker |
| `Dispatcher.Dispatcher.DecideRetry` | packages/dispatcher/stockstat_dispatcher/core.py:219-226 | Enqueues the whole spec again when the failure allows it and fewer than three retries were made, otherwise remembers the task |
| `Dispatcher.Dispatcher.CheckTimeouts` | packages/dispatcher/stockstat_dispatcher/core.py:327-332 | Marks silent workers offline and reassigns the slices of exactly those, worker by worker |
| `Dispatcher.Dispatcher.ReassignWorkerTasks` | packages/dispatcher/stockstat_dispatcher/core.py:334-342 | Takes all slices of a worker off record and queues those whose ids are slice ids |
| `Dispatcher.Dispatcher.AutoscalerMetrics` | packages/dispatcher/stockstat_dispatcher/core.py:301-316 | Queue depth, fleet statistics and the two scaling recommendations |
| `Dispatcher.ScanLosesNothingIff` | packages/dispatcher/stockstat_dispatcher/core.py:148-159 | A scan keeps every spec queued or handed out if and only if it finds nothing or finds the head of the queue |
| `Dispatcher.ScanFinds` | packages/dispatcher/stockstat_dispatcher/core.py:148-159 | A scan finds the first queued spec whose type the worker lists, or any if it lists "custom", and nothing if and only if there is none |
| `Dispatcher.AssignmentSource` | packages/dispatcher/stockstat_dispatcher/core.py:161-259 | An assignment sends the spec without its two inline fields and nothing else changed; unless the key is cached the data are the inline ones, whatever the symbols, else the base-64 ones, else those of the storage if there are symbols, else the absent value |
| `Dispatcher.AssignmentCarriesData` | packages/dispatcher/stockstat_dispatcher/core.py:161-187 | The data always comes along: the cached bytes, or else the encoding of the uncached lookup |
| `TaskTable.TaskTable.Register` | packages/dispatcher/stockstat_dispatcher/core.py:79-83 | A fresh pending record under the task id; an id seen before keeps its place in the dictionary |
| `TaskTable.TaskTable.Attach` | packages/dispatcher/stockstat_dispatcher/core.py:85-89 | The slices, their number and their index by id |
| `TaskTable.TaskTable.Assign` | packages/dispatcher/stockstat_dispatcher/core.py:165-173 | The worker under the slice id of the routed task; pending becomes running |
| `TaskTable.TaskTable.Store` | packages/dispatcher/stockstat_dispatcher/core.py:189-198 | The result under the slice id of the routed task, and one more completion counted |
| `TaskTable.TaskTable.CompleteIfCounted` | packages/dispatcher/stockstat_dispatcher/core.py:200-206 | Merge and completion exactly when the counts agree |
| `TaskTable.TaskTable.RetryIfAllowed` | packages/dispatcher/stockstat_dispatcher/core.py:219-224 | One more retry and pending again exactly when allowed |
| `TaskTable.TaskTable.SetStatus` | packages/dispatcher/stockstat_dispatcher/core.py:131 | The status alone, of any task in any state |
| `TaskTable.TaskRecord.Reclaim` | packages/dispatcher/stockstat_dispatcher/core.py:337-342 | Deletes a task's assignments to the worker one by one while queueing their slices: the loop does what the two dictionary functions say |
| `TaskTable.TaskTable.Reassign` | packages/dispatcher/stockstat_dispatcher/core.py:334-342 | The same over all tasks in dictionary order |
| `SliceIds.ParentOfSliceId` | packages/dispatcher/stockstat_dispatcher/shard.py:91-93 | The id of slice i is the task id, "-s" and i in decimal; cutting it at the last "-s" gives back the task, for every task id and index |
| `SliceIds.SliceIdInjective` | packages/dispatcher/stockstat_dispatcher/shard.py:91-93 | Slice ids coincide only for the same task and index |
| `SliceIds.SelfRoutedIff` | packages/dispatcher/stockstat_dispatcher/core.py:165 | An unsharded id is routed to itself if and only if it contains no "-s" |
| `SliceIds.SelfRoutedIsNoSlice` | packages/dispatcher/stockstat_dispatcher/core.py:191 | No self-routed id is the id of a slice |
| `Shard.ShardIds` | packages/dispatcher/stockstat_dispatcher/shard.py:10-21 | For every spec and split, slice ids are pairwise different, and routed to the task unless it is passed on whole under an id with "-s" |
| `Shard.ShardNumbers` | packages/dispatcher/stockstat_dispatcher/shard.py:10-21 | Every split gives the spec itself or slices numbered from zero |
| `Shard.ShardParamWise` | packages/dispatcher/stockstat_dispatcher/shard.py:24-70 | The slicing loops build the slices of the specification |
| `Shard.ShardSimulations` | packages/dispatcher/stockstat_dispatcher/shard.py:56-69 | The simulation loop with its early break does too |
| `Shard.ShardSymbolWise` | packages/dispatcher/stockstat_dispatcher/shard.py:73-83 | One slice per symbol when there are several |
| `SliceFields.SymbolsDealtOut` | packages/dispatcher/stockstat_dispatcher/shard.py:73-83 | A symbol-wise split of two symbols or more: each slice has one symbol, and laid end to end they are the symbols of the task |
| `SliceFields.SlicesKeep` | packages/dispatcher/stockstat_dispatcher/shard.py:91-110 | Slices of any split keep the dispatch options and every field of the data and compute spec that the split does not deal out; a grid slice keeps the parameter names |
| `SliceFields.PassedWhole` | packages/dispatcher/stockstat_dispatcher/shard.py:10-76 | The task is passed on whole when its split does not apply: one symbol, an empty grid or no strategies, any other task type or split |
| `Shard.ProductMember` | packages/dispatcher/stockstat_dispatcher/shard.py:27-29 | A row is in the product if and only if it picks one value from each list |
| `Shard.ChunkAt` | packages/dispatcher/stockstat_dispatcher/shard.py:34 | Chunk i is the stretch of the list starting at i times the size |
| `Shard.ChunksCover` | packages/dispatcher/stockstat_dispatcher/shard.py:34 | The chunks laid end to end are the list |
| `ShardCounts.ChunksPerWorker` | packages/dispatcher/stockstat_dispatcher/shard.py:30-34 | Between min(L, w) and 2w - 1 chunks; at most w of them if and only if L <= w or w divides L |
| `ShardCounts.SlicesPerWorker` | packages/dispatcher/stockstat_dispatcher/shard.py:30-47 | Those bounds for the slices of a grid search or batch backtest, one worker standing for none or zero; a negative number of workers gives single combinations |
| `ShardCounts.SimulationCoverage` | packages/dispatcher/stockstat_dispatcher/shard.py:56-69 | min(n, w) slices with consecutive disjoint seed ranges run n simulations if n < w and n - n mod w otherwise, so all of them if and only if n < w or w divides n; a negative number of workers, or no simulations, gives no slices |
| `GridMeaning.GridChunkExpands` | packages/compute/stockstat_compute/backtest/grid_search.py:41-47 | A slice of m combinations over k parameters runs exactly m^k combinations, its own among them and none outside the grid |
| `GridMeaning.GridSearchPreserved` | packages/dispatcher/stockstat_dispatcher/shard.py:26-39 | Sharding, running each slice's own product and merging in any order reports the set of rows of the whole search; with multiplicity if and only if one parameter or chunk size one |
| `BatchMeaning.SliceMember` | packages/dispatcher/stockstat_dispatcher/shard.py:49-54 | A slice of a batch runs any strategy of its chunk with any fee model of its chunk |
| `BatchMeaning.BatchRowSet` | packages/compute/stockstat_compute/backtest/batch_runner.py:37-90 | A sharded batch reports the set of rows of the whole batch |
| `BatchMeaning.BatchRowsIff` | packages/compute/stockstat_compute/backtest/batch_runner.py:37-90 | With strategies and fees listed once, the same rows with multiplicity if and only if the chunk size divides the number of fees, or the reverse, or there is one strategy |
| `SplitRuns.FlattenPermuted` | packages/dispatcher/stockstat_dispatcher/merge.py:11-26 | The order in which results arrive does not change the rows they add up to |
| `Merge.EveryResultMattersIff` | packages/dispatcher/stockstat_dispatcher/merge.py:7-31 | The merge depends on the result of every slice if and only if there is at most one slice or the type is tabular |
| `Merge.MergeFrames` | packages/dispatcher/stockstat_dispatcher/merge.py:21-26 | Tabular results of tabular task types merge into one table of all their rows |
| `TaskQueue.MemoryTaskQueue.Enqueue` | packages/dispatcher/stockstat_dispatcher/queue.py:18-21 | The new spec goes behind everything of the same or a smaller priority number |
| `TaskQueue.MemoryTaskQueue.Dequeue` | packages/dispatcher/stockstat_dispatcher/queue.py:23-28 | The head of the drain order, or none |
| `TaskQueue.MemoryTaskQueue.Clear` | packages/dispatcher/stockstat_dispatcher/queue.py:33-38 | Empties the queue by dequeuing |
| `TaskQueue.DrainOrderOfNew` | packages/dispatcher/stockstat_dispatcher/queue.py:18-21 | Heap and counter realise that insertion: a later counter drains after its equals |
| `TaskQueue.EnqueuedAllIsStableSort` | packages/dispatcher/stockstat_dispatcher/queue.py:18-28 | What was enqueued drains sorted by priority and in arrival order within each priority |
| `TaskQueue.EnqueuedAllIsOnlyStableSort` | packages/dispatcher/stockstat_dispatcher/queue.py:18-28 | No other order is such a stable sort |
| `TaskQueue.RequeuedIsUnchanged` | packages/dispatcher/stockstat_dispatcher/core.py:150-155 | Emptying a queue and enqueuing everything again under fresh counters restores the drain order |
| `TaskQueue.RedisTaskQueue.Enqueue` | packages/dispatcher/stockstat_dispatcher/queue.py:59-68 | Onto the list of the priority's sign; read as one queue, the lists behave as the in-process queue given that sign |
| `TaskQueue.RedisTaskQueue.Dequeue` | packages/dispatcher/stockstat_dispatcher/queue.py:70-75 | The head of the lists read as one queue: what waited longest in the most urgent list that is not empty; none and no change when all are empty |
| `TaskQueue.RedisRefinesMemory` | packages/dispatcher/stockstat_dispatcher/queue.py:59-75 | In every run the three lists answer as the in-process queue fed with the sign of each priority |
| `TaskQueue.RedisMatchesMemoryIff` | packages/dispatcher/stockstat_dispatcher/queue.py:10-84 | The two queues are interchangeable for priorities from a set if and only if the set has at most one priority of each sign |
| `Workers.WorkerRegistry.Register` | packages/dispatcher/stockstat_dispatcher/workers.py:46-61 | A fresh online record; an id seen before is replaced in place |
| `Workers.WorkerRegistry.UpdateHeartbeat` | packages/dispatcher/stockstat_dispatcher/workers.py:63-81 | Counters and status of the message, corrected to fit the load; unknown and empty ids are ignored |
| `Workers.WorkerRegistry.Unregister` | packages/dispatcher/stockstat_dispatcher/workers.py:83-86 | Offline |
| `Workers.WorkerRegistry.IncrementActive` | packages/dispatcher/stockstat_dispatcher/workers.py:88-94 | One more active task, busy at the limit |
| `Workers.WorkerRegistry.DecrementActive` | packages/dispatcher/stockstat_dispatcher/workers.py:96-107 | One active task less but not below zero, counters, online again below the limit |
| `Workers.WorkerRegistry.CheckTimeouts` | packages/dispatcher/stockstat_dispatcher/workers.py:109-118 | Marks silent online or busy workers offline and names exactly those, in registration order |
| `Workers.WorkerRegistry.ComputeStats` | packages/dispatcher/stockstat_dispatcher/workers.py:153-176 | Number of workers, by status, concurrency in all and available, active, completed and failed tasks |
| `Workers.LoadIsBalanceIff` | packages/dispatcher/stockstat_dispatcher/workers.py:88-107 | Without heartbeats, a worker's load is never below assignments less reports, and equal to it if and only if the worker at no point reported more than it was working on |
| `Workers.NamedIff` | packages/dispatcher/stockstat_dispatcher/workers.py:63-118 | In every run a check names a worker if and only if it is online or busy and more than the timeout has passed since its last registration or heartbeat |
| `Workers.CountsSinceHeartbeat` | packages/dispatcher/stockstat_dispatcher/workers.py:63-107 | A worker's counts are those of its last heartbeat, or its former ones where the message had none, plus the reports since |
| `Workers.CountsSinceRegistration` | packages/dispatcher/stockstat_dispatcher/workers.py:46-107 | From a registration on they are the reports since, and the load is assignments less reports while reports do not outrun it |
| `Workers.AlwaysConsistentIff` | packages/dispatcher/stockstat_dispatcher/workers.py:46-118 | Online implies room and busy implies none in every state of a run, under arbitrary messages, if and only if every worker registers with a concurrency of at least one |
| `Workers.RoomMeansOnline` | packages/dispatcher/stockstat_dispatcher/workers.py:153-165 | There is no available concurrency if and only if no worker is online |
| `Workers.OneMoreWorker` | packages/dispatcher/stockstat_dispatcher/workers.py:153-165 | What a worker adds to each figure of the fleet: room only while online or busy, everything else whatever its status |
| `Workers.ScaleAdvice` | packages/dispatcher/stockstat_dispatcher/core.py:309-315 | In every reachable fleet scaling up is advised if and only if more than twenty jobs wait and no worker is online, scaling down if and only if none waits, a worker is online and no recorded worker has active tasks |
| `DataCache.DataCache.GetRef` | packages/dispatcher/stockstat_dispatcher/prefetch.py:33-41 | A hit renews the access time, a miss is counted |
| `DataCache.DataCache.FetchBytes` | packages/dispatcher/stockstat_dispatcher/prefetch.py:43-53 | The cached bytes, the inline bytes, or the error |
| `DataCache.DataCache.Put` | packages/dispatcher/stockstat_dispatcher/prefetch.py:55-62 | Evicts until the bytes fit by the running count or nothing is left, then stores |
| `DataCache.DataCache.EvictLru` | packages/dispatcher/stockstat_dispatcher/prefetch.py:64-69 | Drops the first entry, in dictionary order, of those accessed least recently |
| `DataCache.DataCache.Invalidate` | packages/dispatcher/stockstat_dispatcher/prefetch.py:78-82 | Drops the entry and its bytes |
| `DataCache.RunningCount` | packages/dispatcher/stockstat_dispatcher/prefetch.py:33-89 | In every run the running count exceeds the bytes held by exactly the bytes overwritten in place since the last clear |
| `DataCache.CountExactOnMisses` | packages/dispatcher/stockstat_dispatcher/prefetch.py:33-89 | In every run that puts only on misses the running count is exact |
| `DataCache.FindsLastPut` | packages/dispatcher/stockstat_dispatcher/prefetch.py:33-89 | In every run the bytes found under a key are those last put there and not dropped since; hits and misses are the look-ups that found their key and that did not |
| `DataCache.SurvivesIff` | packages/dispatcher/stockstat_dispatcher/prefetch.py:57-69 | An entry survives a put if and only if the data fit once all entries before it in the order of eviction are gone: by last access, ties in dictionary order |
| `DataCache.NewestEvictedIff` | packages/dispatcher/stockstat_dispatcher/prefetch.py:57-69 | The most recently accessed entry is evicted if and only if the data would not fit beside it alone, by the running count |
| `DataCache.BoundAfterPut` | packages/dispatcher/stockstat_dispatcher/prefetch.py:55-62 | Right after any put the bytes held are within the bound or the new entry is alone |
| `DataCache.LeakDefeatsCaching` | packages/dispatcher/stockstat_dispatcher/prefetch.py:57-61 | Once the overwritten bytes exceed the bound, every put leaves the new entry alone |
| `DataCache.EvictsLruPrefix` | packages/dispatcher/stockstat_dispatcher/prefetch.py:57-69 | What is evicted is a prefix in order of last access; survivors keep their dictionary order |
| `DataCache.EvictsNoMoreThanNeeded` | packages/dispatcher/stockstat_dispatcher/prefetch.py:57-69 | ... and a shortest such prefix: with its most recent member the data would not have fitted |
| `Prefetch.KeyIgnoresSymbolOrder` | packages/foundation/stockstat_foundation/protocol/task.py:20-29 | The cache key is the same for every order of the symbols |
| `Prefetch.KeyTellsIff` | packages/foundation/stockstat_foundation/protocol/task.py:20-29 | Requests without separators in their fields have equal keys, before hashing, if and only if they have the same symbols in any order, time frame, range and source, absent and empty being the same |
| `Prefetch.FetchAfterPrefetchNeverRaises` | packages/dispatcher/stockstat_dispatcher/core.py:238-259 | Fetching right after prefetching finds the cached bytes or the encoding of the lookup, whatever was evicted |
| `Prefetch.PrefetchTransparentIff` | packages/dispatcher/stockstat_dispatcher/core.py:161-187 | The cache is invisible in every sequential run over a set of specs if and only if specs with equal keys ask for equal data |
| `Prefetch.InterleavedPrefetchRaisesIff` | packages/dispatcher/stockstat_dispatcher/core.py:163-176 | Two assignments that interleave are not protected: from any cache and for any clock readings, the second prefetch loses the data of the first before they are fetched if and only if the keys differ, its own data are not cached, and they do not fit even with everything gone that is evicted earlier |
| `Prefetch.InterleavedPrefetchAloneIff` | packages/dispatcher/stockstat_dispatcher/core.py:163-176 | With clock readings later than all accesses before, that is: do not fit beside them alone |
| `Prefetch.InterleavedPrefetchMayRaise` | packages/dispatcher/stockstat_dispatcher/core.py:163-176 | From an empty cache this happens if and only if the keys differ and both data together exceed the bound |
| `Prefetch.SequentialCountExact` | packages/dispatcher/stockstat_dispatcher/core.py:238-259 | Assignments served one after the other keep the running count equal to the bytes held |
| `QueryCache.QueryCache.Get` | packages/storage/stockstat_backend/storage/cache.py:21-34 | Value and recency of a fresh entry, removal of an expired one, hit and miss counts |
| `QueryCache.QueryCache.Put` | packages/storage/stockstat_backend/storage/cache.py:36-42 | The entry becomes the most recent, the least recent ones beyond the capacity go |
| `QueryCache.LruInclusion` | packages/storage/stockstat_backend/storage/cache.py:21-52 | On every common trace a cache of smaller capacity holds a subsequence, in recency order, of what a larger one holds, never exceeds its capacity, and all its hits are hits of the larger with the same value |
| `QueryCache.InclusionFromNew` | packages/storage/stockstat_backend/storage/cache.py:12-52 | The same for two new caches, with no more hits on as many requests |
| `QueryCache.AnswersAreCurrent` | packages/storage/stockstat_backend/storage/cache.py:21-52 | In every run, whatever capacity and clock, an answer is the value last stored under the key, not dropped since and not older than the time to live |
| `QueryCache.RoomyCacheExact` | packages/storage/stockstat_backend/storage/cache.py:21-52 | With room for all and a clock that does not go back, a request is answered if and only if there is such a value |
| `QueryCache.CountersTally` | packages/storage/stockstat_backend/storage/cache.py:21-34 | Hits and misses count the answered and unanswered requests |
| `QueryCache.RequestLeaves` | packages/storage/stockstat_backend/storage/cache.py:21-34 | After a request the entry that answered it is the most recent, one too old to answer it is gone, and the others are as before |
| `Portfolio.Position.UpdateOnBuy` | packages/compute/stockstat_compute/backtest/portfolio.py:37-53 | Quantity, average price and realized profit after a signed trade |
| `Portfolio.Portfolio.ExecuteBuy` | packages/compute/stockstat_compute/backtest/portfolio.py:87-113 | Book after a buy, cut to the affordable or covering quantity |
| `Portfolio.Portfolio.ExecuteSell` | packages/compute/stockstat_compute/backtest/portfolio.py:115-133 | Book after a sale, cut to the holding when short selling is off |
| `Portfolio.Portfolio.ComputeTotalValue` | packages/compute/stockstat_compute/backtest/portfolio.py:79-85 | Cash and the market value of priced positions |
| `Portfolio.TradeMovesBasis` | packages/compute/stockstat_compute/backtest/portfolio.py:37-57 | Any trade of any position, long or short: profit less the fee is realized exactly when a long position ends, the basis moves by the money traded while the position stays on its side (so a partial sale realizes nothing), it is gone when flat, and a reversed position starts at the price |
| `Portfolio.FillIs` | packages/compute/stockstat_compute/backtest/portfolio.py:87-126 | What an order fills: all of it if the cash pays, else as much as spends all the cash or nothing; at most the short position covered or the long one sold, unless short selling is allowed |
| `Portfolio.PositionsAfter` | packages/compute/stockstat_compute/backtest/portfolio.py:74-133 | An order changes the position in its symbol by what it fills, and no other |
| `Portfolio.OnlyPricedCount` | packages/compute/stockstat_compute/backtest/portfolio.py:79-85 | Positions in symbols without a price count nothing |
| `Portfolio.BuyMovesBasis` | packages/compute/stockstat_compute/backtest/portfolio.py:42-53 | A buy raises the cost basis by what was paid, except for an opening quantity below the flatness threshold, and realizes nothing |
| `Portfolio.SellMovesBasis` | packages/compute/stockstat_compute/backtest/portfolio.py:39-53 | A sale lowers basis less realized profit by the proceeds, and books its fee as a loss exactly when it closes the position |
| `Portfolio.ProfitAndLoss` | packages/compute/stockstat_compute/backtest/portfolio.py:37-133 | In every long-only run over any symbols: cash is initial cash plus realized profit less cost basis less fees of fills that closed nothing less money sunk in dust |
| `Portfolio.EquityIdentity` | packages/compute/stockstat_compute/backtest/portfolio.py:79-133 | Hence total value is initial cash plus realized and unrealized profit less those fees and dust when every position is priced |
| `Portfolio.DustExample` | packages/compute/stockstat_compute/backtest/portfolio.py:43-52 | The dust term is needed: a first buy of a quantity below 1e-10 loses its basis |
| `Portfolio.FillCostsItsFee` | packages/compute/stockstat_compute/backtest/portfolio.py:87-133 | Marked at the fill price, any executed fill of any book, with short selling or without, changes equity by minus its fee, and on the short side by twice the money traded besides: up when covering, down when selling what is not held |
| `Portfolio.FillsSomeIff` | packages/compute/stockstat_compute/backtest/portfolio.py:87-133 | In a long-only book an order fills something if and only if it asks for something and a buy can pay for some of it, or a sale finds some of it held |
| `Broker.FeeBounds` | packages/compute/stockstat_compute/backtest/cost_model.py:15-19 | The fee is never below the floor, above the cap or the share of the notional only at the floor, below that share only at the cap; without a floor it lies between zero and the share |
| `Broker.SlippageSymmetric` | packages/compute/stockstat_compute/backtest/fill_model.py:16-51 | Buy and sale prices lie that many basis points above and below the price the model names: open, close or mean of the next bar, and the close of this one at the last bar or for any other model |
| `Broker.SignalTrades` | packages/compute/stockstat_compute/backtest/broker.py:38-73 | In a long-only account, a sell signal lowers the holding by the lesser of what it asks for and what is held, a buy signal raises it by all it asks for or all the cash pays for, each the other way round for a negative quantity; asked is the given quantity or equity times strength over price. Cash, trade log and other positions are exactly what that entails |
| `Broker.Broker.ExecuteSignal` | packages/compute/stockstat_compute/backtest/broker.py:38-73 | Leaves account and log as dealing with the signal does (see `Broker.SignalTrades`); stops without effect when sizing divides by zero |
| `Broker.LogTellsFillIff` | packages/compute/stockstat_compute/backtest/broker.py:55-72 | In a long-only account the logged quantity is the executed one if and only if the cash pays for the whole buy with its fee, or as much as is sold is held |
| `Broker.LogTellsCashIff` | packages/compute/stockstat_compute/backtest/broker.py:55-72 | When something is filled at a positive price, the money that moved is what the logged trade states if and only if the logged quantity was filled |
| `Broker.FeeTellsFillIff` | packages/compute/stockstat_compute/backtest/broker.py:55-60 | At a positive price the fee of the request is that of the fill if and only if the order fills in full, the rate is zero, or floor and cap level both fees |
| `Broker.LogOverstates` | packages/compute/stockstat_compute/backtest/broker.py:55-72 | That condition is needed: a buy of ten units that fills nine tenths of one is logged as ten and charged for ten |
| `Engine.BacktestEngine.Run` | packages/compute/stockstat_compute/backtest/engine.py:129-216 | The bar loop yields the track of the specification: points and trades, or the trades up to a division by zero |
| `Engine.BacktestEngine.RunBars` | packages/compute/stockstat_compute/backtest/engine.py:140-175 | The loop stops at the first bar whose sizing divides by zero, with the account as the specification has it |
| `Engine.RunsThroughIff` | packages/compute/stockstat_compute/backtest/broker.py:43-51 | Sizing never divides by zero if and only if no strength-sized signal meets a fill price of zero |
| `Engine.BacktestEngine.RunBar` | packages/compute/stockstat_compute/backtest/engine.py:142-175 | One bar: equity at the close, signal, equity again, drawdown against the earlier peak |
| `Engine.BarTold` | packages/compute/stockstat_compute/backtest/engine.py:142-175 | Bar by bar in every backtest, long or short: no signal or a hold leaves the account alone, any other signal is dealt with for the equity at the close before; the recorded point tells cash, holding at the close, their sum, and its distance from the greatest earlier equity as a part of that |
| `Engine.SoldIsDealt` | packages/compute/stockstat_compute/backtest/broker.py:38-61 | The sale of the next row is what the broker does with a strength-sized sell signal |
| `Engine.SaleSolventIff` | packages/compute/stockstat_compute/backtest/engine.py:142-163 | The executed order of a strength-sized sell signal keeps every solvent book of the symbol solvent if and only if the fee rate is at most one and the fill at least that rate of the close |
| `Engine.SolventThroughout` | packages/compute/stockstat_compute/backtest/engine.py:129-175 | Over a whole long-only backtest with such fills, cash and holding are non-negative at every bar and sizing never fails |
| `Engine.DrawdownSign` | packages/compute/stockstat_compute/backtest/engine.py:165-167 | Drawdown is against the highest of the initial cash and earlier bars: positive exactly at a new high above a positive peak, at least -1 with non-negative equity, and none without a positive peak |
| `MultipleTesting.BenjaminiHochberg` | packages/compute/stockstat_compute/handlers/stats/multiple_testing.py:19-26 | The in-place running minimum leaves at each position the least term from there on, capped |
| `MultipleTesting.Holm` | packages/compute/stockstat_compute/handlers/stats/multiple_testing.py:27-34 | The in-place running maximum leaves the greatest term up to there, capped |
| `MultipleTesting.StepUpClosedForm` | packages/compute/stockstat_compute/handlers/stats/multiple_testing.py:19-26 | That is min(1, min over p(k) >= p of n p(k) / #{<= p(k)}), whatever order argsort gave ties |
| `MultipleTesting.StepDownClosedForm` | packages/compute/stockstat_compute/handlers/stats/multiple_testing.py:27-34 | That is min(1, max over p(k) <= p of (n - #{< p(k)}) p(k)) |
| `MultipleTesting.TieOrderIrrelevant` | packages/compute/stockstat_compute/handlers/stats/multiple_testing.py:16-34 | Neither correction depends on how argsort orders ties |
| `MultipleTesting.CorrectionsOrdered` | packages/compute/stockstat_compute/handlers/stats/multiple_testing.py:17-34 | p <= Benjamini-Hochberg <= Holm <= Bonferroni, pointwise |
| `MultipleTesting.ReturnedArraysOrdered` | packages/compute/stockstat_compute/handlers/stats/multiple_testing.py:16-34 | That chain for the arrays the two loops return, each under its own order of ties |
| `MultipleTesting.RejectedSets` | packages/compute/stockstat_compute/handlers/stats/multiple_testing.py:42 | For alpha <= 1 the rejected sets are exactly the strict step-up and step-down sets, and for Bonferroni n p(k) < alpha |
| `Survival.KaplanMeier` | packages/compute/stockstat_compute/handlers/stats/survival.py:24-48 | The loop's curve is the product-limit estimate at each distinct time, its counter the number of durations not below it, and the median the first time at or below one half |
| `Survival.OrderIrrelevant` | packages/compute/stockstat_compute/handlers/stats/survival.py:25-27 | The counts depend on who was observed, not on the order of the arrays |
| `Survival.EstimateFalls` | packages/compute/stockstat_compute/handlers/stats/survival.py:32-39 | The curve never rises and stays in [0, 1] |
| `Survival.ProductLimit` | packages/compute/stockstat_compute/handlers/stats/survival.py:32-39 | At each time the estimate times those still under observation is the estimate before times those of them without an event then, events and censorings at one time in any mixture; censoring alone leaves the curve as it is |
| `Survival.MedianDivides` | packages/compute/stockstat_compute/handlers/stats/survival.py:40-48 | The curve is above one half before the median and not from it on, and above throughout if and only if there is none |
| `Survival.EstimateTelescopes` | packages/compute/stockstat_compute/handlers/stats/survival.py:32-39 | It is never below the share of subjects that outlive t, and exactly that share when nobody was censored up to t |
| `Survival.UncensoredIsEcdf` | packages/compute/stockstat_compute/handlers/stats/ecdf.py:22-24 | Without censoring it is one minus the empirical distribution function at the last copy of the time |
| `Dsl.SplitArgs` | packages/invocation/stockstat/dsl/parser.py:79-98 | The splitting loop yields the pieces between top-level commas, without a blank last one |
| `Dsl.ParseArgsLoop` | packages/invocation/stockstat/dsl/parser.py:52-77 | The argument loop, with its early exits on errors, gathers what each part is read as |
| `DslRoundTrip.RoundTrip` | packages/invocation/stockstat/dsl/parser.py:35-124 | The printed form of every well-formed expression, nested to any depth and whichever of the two quotes each string is put in, parses back to it if its calls stand only as positional arguments, and is rejected otherwise |
| `DslRoundTrip.ParsePrint` | packages/invocation/stockstat/dsl/parser.py:35-50 | parse(print(t)) = t for whole expressions if and only if calls are placed so |
| `DslRoundTrip.KeywordPiece` | packages/invocation/stockstat/dsl/parser.py:63-76 | A keyword argument whose value contains a call is taken for a positional argument and rejected |
| `DslRoundTrip.SplitReassembles` | packages/invocation/stockstat/dsl/parser.py:79-98 | For any text the pieces joined by commas are the text, no piece has a top-level comma, all but the last are closed, and the last one is if the text is |
| `DslRoundTrip.NaturalsAreACodec` | packages/invocation/stockstat/dsl/parser.py:103-104 | The assumptions on the number reader are met by decimal naturals |
| `DslTexts.SpacesIgnored` | packages/invocation/stockstat/dsl/parser.py:41-50 | White space around a call, after its name and around its arguments does not matter |
| `DslTexts.IdentifierReadIff` | packages/invocation/stockstat/dsl/parser.py:100-112 | A value is an identifier if and only if it is a word of letters, digits and underscores, not starting with a digit, and no number |
| `DslTexts.BareText` | packages/invocation/stockstat/dsl/parser.py:100-124 | Any other text without a parenthesis, not between equal quotes or square brackets, is the string itself |
| `DslTexts.PartsRead` | packages/invocation/stockstat/dsl/parser.py:59-76 | Parenthesis, leading bracket or brace, or no equals sign make an argument positional; otherwise the first equals sign separates key and value |
| `DslTexts.BracketsProtect` | packages/invocation/stockstat/dsl/parser.py:79-98 | Commas between brackets of any kind do not separate |
| `DslTexts.LastKeywordCounts` | packages/invocation/stockstat/dsl/parser.py:72-74 | Of keyword arguments with one key the last one counts |
| `DslTexts.BlankSkipped` | packages/invocation/stockstat/dsl/parser.py:59-62 | Blank arguments are skipped, wherever they stand |
| `DslTexts.SpacesAreBlank` | packages/invocation/stockstat/dsl/parser.py:59-62 | An argument of white space alone is blank |
| `DslTexts.OnlyCalls` | packages/invocation/stockstat/dsl/parser.py:41-50 | Whatever is accepted starts with the name of the call, has a parenthesis and ends with one |
| `DslTexts.NoExpression` | packages/invocation/stockstat/dsl/parser.py:35-46 | Blank text is rejected as empty, and so is any text without a parenthesis |

## Left out

- HTTP routes, sockets, threads beyond their lock sections, SQLAlchemy, the CLI: the lists of the Redis queue are sequences, a clock reading or generated id is a parameter.
- Blocking dequeue and its timeout: the dispatcher dequeues without blocking.
- The array layout of the priority heap: the heap is its set of entries with distinct counters, and a dequeue takes the least.
- Codecs: encode and decode are an abstract inverse pair, results are held decoded, JSON transport of queued specs is the identity.
- Exceptions of storage or codecs during prefetch, which would lose a spec already taken from the queue.
- Progress figures, timestamps, error texts, stream partials, trace ids, cluster listings and sub-dispatchers of the dispatcher: reporting only.
- Fleet.StrandedForever: load changes reach the registry at any time here, while the code makes them right after the section they belong to; the statements hold for more runs than the code has.
- Broker.Broker.ExecuteSignal: models the division by zero that sizing raises on plain floats; a numpy price of zero gives an infinite or undefined quantity instead, which the reals cannot express, and the model stops there (Engine.RunsThroughIff says when).
- Engine.BacktestEngine.Run: reports an error at such a price, where the code with numpy prices goes on with infinities.
- Engine.BacktestEngine.RunBars: stops at such a price for the same reason.
- Registration, heartbeat and departure at the dispatcher: they only pass the message on to the registry.
- A cancellation that still holds a record which a resubmission has replaced: cancel is one step, and the run theorems exclude resubmission.
- Hardware, labels, versions, load and average durations of workers: stored and listed only.
- The absent value inside a fee-model list, and the order of the set of fees of a slice (first occurrence here; rows are compared as multisets).
- An absent split strategy is the empty string; absent and empty grids, strategies and fee lists are the empty sequence, as the code's truth tests treat them.
- Time-wise splitting, which the code leaves unimplemented.
- Random streams of simulations: seeds and counts are modelled, drawn numbers are not.
- Dispatcher.Dispatcher.AssignTask: does not interleave; other threads between its sections are the state machine's business.
- Entries of the data cache are values in a sequence in dictionary order rather than objects; no other reference to them exists.
- execute_target_pct, the multiple-testing fall-through to uncorrected values, grouped distribution functions, hit rates and sizes in megabytes: one-line computations.
- Short selling has no profit-and-loss identity over runs: its cash branches do not conserve value (Portfolio.FillCostsItsFee says by how much per fill), and no profit is realized when a short position ends.
- Decoded base-64 data that the code keeps in the spec as inline data from then on: here they stay where they are, which changes no lookup.
- Sorting of grid-search rows by metric and the metrics themselves: rows are an arbitrary function of the parameters.
- The choice between cost and fill models by name; strategies are an arbitrary sequence of signals, one per bar.
- Rounding: floats are reals, and parsing and printing of numbers is an abstract pair whose assumptions decimal naturals meet.
- Machine-learning, spectral, wavelet and entropy handlers, indicators, plotting, the admin panel.
