# A verified model of joblib

joblib runs tasks in parallel, shares large arrays with worker processes through memory-mapped files,
caches function results on disk, and has its own file format for objects that hold arrays. This project
models the parts of it where several actors or several calls meet in one state, and proves what they
promise. `dafny verify dfyconfig.toml` checks everything.

| files | what they model |
|---|---|
| `Wrappers` | an option type and a minimum |
| `Batches`, `Dispatch`, `DispatchRuns`, `DispatchCalls`, `Parallel` | the dispatch and completion protocol of `Parallel`: a consumer loop, completion callbacks in two critical sections each, and successive calls of one object |
| `WeakKeys` | dictionaries keyed by object identity, with weak references and recycled ids |
| `Tracker`, `MemmapReducer`, `MemmapSession` | reference counting of temporary memmap files between the parent, the workers and the tracker process, the reducer that picks the file of an array, and whole runs of arrays, workers and the tracker |
| `Executor`, `ExecutorManager` | the data flow of the loky process pool: work ids, work items, a bounded call queue, workers, results, cancellation, crashes and shutdown |
| `Memory`, `MemorizedFunc` | the memo cache with function code on disk and the online table of function hashes |
| `StoreBackends`, `SafeWrite` | cache eviction, and writing by renaming |
| `PickleBuffered`, `ZlibFile` | buffered streams that stand for a flat byte string |
| `PickleFormat`, `PickleErrors`, `NumpyPickle` | pickle tokens with raw array bytes between them, written, read back, and refused when cut short |

Protocols are state machines over their steps, and a theorem about them is about every interleaving of
those steps. Objects that change in place are classes whose methods are proved against the same step
functions; the theorems are then about those functions.

Many function bodies are `pass` in the sources this follows. There the model does what the docstring, the
tests and the callers fix, and the next section names those choices.

## Where code and promise differ

- `Parallel.__call__` resets the counters (line 1052), installs the call id (1063) and replaces
  `_original_iterator` (1084) at three moments. A callback of an earlier call that runs in between can pass
  its guards: `_dispatch_new` looks at `_aborting` and at the iterator, never at the call id, and until 1063
  the call id is still the old one. `ReliableExactly` in `DispatchCalls` says exactly when no callback can:
  then, and only then, the call is right on every input. Otherwise, after the fresh id, tasks of the old
  iterator are dispatched for the new call (`StoppedCallIntrudes`), or `_iterating` is cleared and the call
  loses the tail of its input (`CompletedCallIntrudes`; `CallExactly` is the exact condition). Before the
  fresh id, a batch of the old call is counted, and in ordered mode queued, for the new one: its result is
  yielded (`ForeignResult`), its error raised (`ForeignError`), or, once lines 485-486 drop its completion,
  the new call waits for ever (`HangingCall`). After line 1084 such a callback can only dispatch one more batch
  of the current call.
- `next(output)` at lines 1060 and 1092 would drop the first result as the generators are written. The
  model reads it as a step that starts the call and yields nothing.
- A memmap file is unlinked under a new reference if an array is pickled into it again after the parent and
  all workers gave it up, but before the tracker has read so. Without `unlink_on_gc_collect` a file can be
  written that nobody tells the tracker about. Both are stated as equivalences in `Tracker`,
  and `FileLost` is a run that loses a file.
- The table `_FUNCTION_HASHES` spares reading the stored code, so a function in it does not notice that
  another one with the same identifier has replaced the store. `Memory` takes which functions are put into
  the table as a parameter, and proves that the cache is transparent exactly if no such function shares its
  identifier. `MemorizedFunc.call` does not compare code either, and `ForcedExactly` says what that costs.
- `PickleBufferedReader.read(n)` does not end when fewer than `n` bytes are left, and `read()` leaves out
  what is buffered; `PickleBuffered` states both exactly.

## Modelling choices

- A backend may complete any batch in flight at any time, once. Batch sizes are arbitrary at every dispatch.
  `dispatch_one_batch` takes the next slice, counts its tasks, and in ordered mode queues the callback;
  in unordered mode the callback queues itself when it completes. Stopping a call sets `_aborting` and
  drops what is queued.
- Arguments stand for their hash without the ignored ones, functions are pure and raise or return; function
  code is retrievable and equal only to itself. A function object that is collected leaves the online table.
- Limits on age are strict: an item is deleted if it was last accessed more than the limit ago.
- The capacity of the call queue is any positive number.
- Fresh names (`uuid4`) are parameters that were not used before.
- Pickle tokens are written by any self-delimiting encoding; where files are truncated, by one in which a
  token that is cut short decodes to nothing. A codec for streams is any pair of functions, and round trips
  assume only that decompressing everything gives everything.
- Seeks in `ZlibFile` that aim before the start end there: they rewind, and there is nothing to skip. The
  docstring forbids this for `whence` 0 and says nothing of the others.
- A failed batch is noticed when the consumer comes to it; the call is then aborted and what is queued is
  dropped.

## Model

| member | source | states |
|---|---|---|
| `DispatchCalls.ReliableExactly` | joblib/parallel.py:1050-1093 | The law of `__call__`, both ways. Once the counters are reset: whatever callbacks of earlier calls do before the call runs, and for every input, pre-dispatch amount, split into batches and interleaving, every finished run yields the sequential map of the input (a permutation of it in unordered mode), and no run without a failing task of its own raises or gets stuck, if and only if no callback is loose. |
| `DispatchCalls.CallYieldsItsInput` | joblib/parallel.py:1050-1093 | One half of it: a call at whose reset no callback is loose yields the map of its input. |
| `DispatchRuns.FinishedCallYieldsMap` | joblib/parallel.py:997-1010 | For a call that had nothing queued or counted before its fresh id, from any point of it: a finished run has yielded the map of what it has taken, completed equals dispatched, and no job and no unread result is left; and it has taken everything, with the iterator exhausted, if it was draining its input. |
| `DispatchRuns.OrderedPrefix` | joblib/parallel.py:997-1010 | At every moment of an ordered call that had nothing queued before its fresh id, failing ones included, what was yielded is a prefix of the sequential map. |
| `Dispatch.StepKeeps` | joblib/parallel.py:479-502 | Every step of the protocol, in any interleaving, keeps the invariant that ties counters, job queue, callback states and yielded results to the tasks taken from the iterator. |
| `DispatchRuns.Laziness` | joblib/parallel.py:662-667 | Batches taken never exceed the pre-dispatch amount, plus one for each event of the run that renewed a batch, plus one for each pull of the consumer; what was taken is a prefix of the input. |
| `DispatchRuns.LazinessSums` | joblib/parallel.py:492-502 | The two sums behind it: batches not paid for, and completions not yet used to renew one, never grow over any run. |
| `DispatchRuns.BatchSizes` | joblib/parallel.py:955-964 | Over any run of a call, each batch asked for holds exactly as many tasks as were asked for; only the last may hold fewer, when the iterator ended in it. Batches keep their tasks. |
| `DispatchRuns.BatchStep` | joblib/parallel.py:955-964 | One step makes at most one batch, of the next tasks of the iterator, as many as it asks for within the slice or all that are left. |
| `DispatchRuns.RunsEnd` | joblib/parallel.py:999-1010 | A run of a call has at most as many steps as a weighted count of tasks not taken, in flight, and completed but not yielded. |
| `DispatchRuns.WorkDecreases` | joblib/parallel.py:942-953 | Each effective step makes that count strictly smaller. |
| `DispatchRuns.Progress` | joblib/parallel.py:973-1010 | A call that had nothing counted before its fresh id and is not finished always has an effective step, unless the consumer has come to a batch that failed: no deadlock between its consumer and its callbacks. |
| `DispatchCalls.PastCallbackIsolated` | joblib/parallel.py:484-502 | Once a call runs, a callback of an earlier call adds nothing to its output and no result to its queue; at most it dispatches one more batch of the current input. |
| `DispatchCalls.EarlyExactly` | joblib/parallel.py:1042-1063 | Between the reset of the counters and the fresh call id, no schedule of callbacks disturbs the new call if and only if no callback is loose: between its two sections with the old iterator lazily consumed, or still to come with the current call id where that could queue or renew a batch. |
| `DispatchCalls.LateExactly` | joblib/parallel.py:1062-1084 | Between the fresh call id and the new iterator, none does if and only if the old iterator is not lazily consumed or no callback is between its two sections. |
| `DispatchCalls.StartExactly` | joblib/parallel.py:1050-1084 | No schedule of callbacks between the reset, the fresh call id and the new iterator disturbs the start of a call, if and only if no callback is loose when the counters are reset. |
| `DispatchCalls.CallYields` | joblib/parallel.py:1062-1093 | If nothing was queued or counted before the fresh id, and whatever callbacks did after it, a call yields the tasks taken then, followed by its input up to some point; and by all of it if `_iterating` is still set, or the input is not consumed lazily, or it fits the pre-dispatch amount. |
| `DispatchCalls.CallExactly` | joblib/parallel.py:1062-1093 | If nothing was queued or counted before the fresh id: all finished runs of a call yield the map of its input if and only if nothing was taken after it and (`_iterating` is still set, or the input is not consumed lazily, or it fits the pre-dispatch amount). Besides, a call is trivially right when a task taken has failed, because then no run finishes, or when it can dispatch nothing of its input and what it took happens to compute the same. |
| `DispatchCalls.FailedNeverFinishes` | joblib/parallel.py:1012-1022 | A call with a failed batch does not finish. |
| `DispatchRuns.GreedyRun` | joblib/parallel.py:997-1010 | Every error-free call has a run to its end in which no callback renews a batch; one that no longer iterates over a lazily consumed input ends with what is pre-dispatched. |
| `DispatchCalls.LostTail` | joblib/parallel.py:1079-1090 | If `_iterating` was cleared, then for every input and every pre-dispatch amount short of it a finished run yields only what is pre-dispatched. |
| `DispatchCalls.StoppedCallIntrudes` | joblib/parallel.py:495-502 | From a new object: a call is stopped while a callback is between its two sections, and the next call, with any input, yields the result of a task of the old iterator first. |
| `DispatchCalls.CompletedCallIntrudes` | joblib/parallel.py:495-502 | From a new object: a call runs to its end, and the next one, with any input and any amount short of it, yields only what it pre-dispatched. |
| `DispatchCalls.ForeignResult` | joblib/parallel.py:1052-1063 | From a new object, in ordered mode: a batch is renewed between the reset and the fresh id, and the next call, with no input, yields the result of a task of the old one. |
| `DispatchCalls.HangingCall` | joblib/parallel.py:484-486 | From a new object, in unordered mode: a batch is counted there whose completion is then dropped, and the next call, without an error, has no step left before it is finished. |
| `DispatchCalls.ForeignError` | joblib/parallel.py:484-491 | From a new object, in unordered mode: a batch of a stopped call fails between the reset and the fresh id, and the next call, none of whose own tasks failed, comes to its error. |
| `DispatchCalls.CompletedCallRests` | joblib/parallel.py:997-1010 | A call that has finished leaves no queued job, no callback that could queue one and nothing to dispatch, if and only if it has exhausted its iterator. |
| `DispatchCalls.StoppedCallRests` | joblib/parallel.py:484-502 | Neither does a stopped one. |
| `DispatchCalls.RestingKeeps` | joblib/parallel.py:484-502 | Callbacks that run between two calls keep it so. |
| `DispatchCalls.RestingResets` | joblib/parallel.py:1042-1048 | And the reset of the next call starts quiet. |
| `DispatchCalls.InstallIdOpens` | joblib/parallel.py:1062-1063 | From a quiet start the fresh call id establishes the invariant of the new call. |
| `Parallel.Parallel.GetOutputs` | joblib/parallel.py:997-1010 | The consumer loop against a backend that completes batches in any order and of any size, some with an error: it ends; without an error it returns the map of what was taken, all of the input if it was draining it; with one it aborts, having returned a part of the map, in ordered mode its beginning. It fails only if a batch of this very call failed. |
| `Parallel.Parallel.Call` | joblib/parallel.py:1050-1093 | The whole of `__call__` with callbacks of earlier calls at any moment: from rest, with no loose callback, it returns the map of its input (a permutation of it in unordered mode), or fails, with a failed batch of its own, having returned a part of it; and it rests again. |
| `Parallel.Parallel.CallEach` | joblib/parallel.py:1050-1093 | Any number of calls in a row, each after the callbacks of those before it have run to their end, are all answered so. |
| `Parallel.Parallel.Settle` | joblib/parallel.py:479-502 | Between calls the remaining callbacks run to their end without any other effect, and none is loose afterwards. |
| `Parallel.BatchCompletionCallBack.FirstSection` | joblib/parallel.py:479-491 | The first critical section: the guards on call id and abort, the stored outcome, and the queueing in unordered mode, as one step of the protocol. |
| `Parallel.BatchCompletionCallBack.DispatchNew` | joblib/parallel.py:495-502 | The second critical section, with its own guards. |
| `Parallel.Parallel.DispatchNext` | joblib/parallel.py:942-964 | A batch of as many tasks as were asked for, or of all that are left, is dispatched; `_iterating` is cleared exactly when there is none. |
| `Parallel.Parallel.PreDispatch` | joblib/parallel.py:955-964 | The same over the pre-dispatch slice, which a lazy call uses up; when nothing comes of it the call goes on to consume, and iterates on only if it is lazy. |
| `Parallel.Parallel.Dispatch` | joblib/parallel.py:931-940 | A batch of the next tasks is counted and given to the backend with a fresh callback of the current call; other callbacks stay. |
| `Parallel.Parallel.Turn` | joblib/parallel.py:997-1010 | One step of the consumer or of a callback keeps the invariant, loses no task, has less work left, and goes on draining. |
| `Batches.MapConcat` | joblib/parallel.py:364-366 | A batch runs its tasks in order: mapping is compatible with any split into batches. |
| `WeakKeys.Replay` | joblib/_dask.py:27-61 | Over any run of allocation at recycled ids, assignment, collection and callbacks the dictionary agrees with a map keyed by identity from which collected objects disappear. |
| `WeakKeys.WeakKeyDictionary.Get` | joblib/_dask.py:41-45 | A live object finds the last value set for it, and for no other object. |
| `WeakKeys.WeakKeyDictionary.Set` | joblib/_dask.py:47-58 | Sets the value of this object only, also where a dead object left an entry under the same id. |
| `WeakKeys.WeakKeyDictionary.OnDestroy` | joblib/_dask.py:54-56 | A callback that fires finds its entry, and no live object loses its value. |
| `WeakKeys.WeakKeyDictionary.Len` | joblib/_dask.py:60-61 | The stored size is the number of live keyed objects plus the callbacks still to run. |
| `WeakKeys.WeakKeyDictionary.HeapSteps` | joblib/_dask.py:27-36 | Allocation, at a recycled id too, and collection keep the dictionary right. |
| `WeakKeys.IdsAreRecycled` | joblib/_dask.py:34-35 | The id of a collected object can be given to a new one. |
| `Tracker.StepKeeps` | joblib/externals/loky/backend/resource_tracker.py:40-50 | Conservation: for every file and at every moment, count plus queued registers minus queued unlinks is the number of references held, and no unlink finds a count of zero. |
| `Tracker.Conservation` | joblib/_memmapping_reducer.py:182-187 | The same over any run of pickling, loading, collecting, releasing and tracking. |
| `Tracker.InitiallySafe` | joblib/_memmapping_reducer.py:156-158 | It holds, with safety, when nothing was pickled yet. |
| `Tracker.DrainIsTurns` | joblib/externals/loky/backend/resource_tracker.py:58-60 | Draining the pipe is a run of single turns of the tracker, and no unlink of it finds a count of zero. |
| `Tracker.SafeExactly` | joblib/_memmapping_reducer.py:176-196 | A step keeps every held file in place if and only if it is not this one: pickling into a file whose last reference was given up while its unlink is still queued. |
| `Tracker.HazardLoses` | joblib/_memmapping_reducer.py:182-196 | In that one case the file is lost: once the tracker has come to the old unlink, the pickle on its way to a worker names a file that is gone. |
| `Tracker.FileLost` | joblib/_memmapping_reducer.py:182-196 | And a run from the very beginning gets there. |
| `Tracker.SafeRun` | joblib/_memmapping_reducer.py:182-187 | Over any run without it, no held file is ever unlinked. |
| `Tracker.UnreleasedIsKept` | joblib/_memmapping_reducer.py:186-187 | As long as the parent does not release its own reference to a file, the file is kept from its first pickling on, whatever happens to other files. |
| `Tracker.WorkersFindTheirFiles` | joblib/backports.py:87-91 | No worker loads or holds a memmap whose file was unlinked. |
| `Tracker.EveryPrefixPositive` | joblib/externals/loky/backend/resource_tracker.py:40-50 | Every prefix of the pipe leaves a held file's count at 1 or more once its first register is handled. |
| `Tracker.TrackedExactly` | joblib/_memmapping_reducer.py:182-190 | Every existing file stays known to the tracker, except, exactly, when without `unlink_on_gc_collect` a released and removed file is written anew. |
| `Tracker.DrainedFileIsGone` | joblib/externals/loky/backend/resource_tracker.py:48-50 | A file whose references are all given up is gone, with its count, once the pipe is drained. |
| `Tracker.NothingLeftBehind` | joblib/externals/loky/backend/resource_tracker.py:48-50 | With `unlink_on_gc_collect`, over any run: nothing is left once all is released and drained. |
| `MemmapReducer.ResourceTracker.Turn` | joblib/externals/loky/backend/resource_tracker.py:40-60 | What each kind of message does to counts and files: a register adds one, an unregister removes the count and no file, the last unlink removes both, and the unlink of an unknown file is an error that changes nothing. |
| `MemmapReducer.ResourceTracker.Loop` | joblib/externals/loky/backend/resource_tracker.py:58-60 | The tracker loop handles every message of the pipe in order, and counts the unlinks of unknown files. |
| `Tracker.LastMessage` | joblib/externals/loky/backend/resource_tracker.py:58-60 | The messages are handled in the order they come, and an unlink is counted as an error exactly if it finds no count. |
| `MemmapReducer.ArrayMemmapForwardReducer.Call` | joblib/_memmapping_reducer.py:165-199 | A memmap is sent as a view of its file; an array goes to a temporary memmap if and only if it holds no Python objects and is larger than `max_nbytes`, and otherwise its bytes are sent, with no message and no file. Whatever ids were recycled and files made before, the worker gets the contents of this very array; two arrays never share a base name. |
| `MemmapReducer.ArrayMemmapForwardReducer.Share` | joblib/_memmapping_reducer.py:181-194 | Registers once for the worker, and once more for the parent if the name is new; writes the file only if it is not there. |
| `MemmapSession.Session.Run` | joblib/_memmapping_reducer.py:165-196 | Over any run of allocating, pickling, collecting and reallocating arrays at recycled ids, of workers and of the tracker: a worker that loads or holds a pickle of an array finds the contents of that very array, as long as the parent does not release the file; and, with `unlink_on_gc_collect`, released or not, unless the run has a hazard. |
| `MemmapSession.Session.Replay` | joblib/_memmapping_reducer.py:165-196 | Any such sequence is a run of the reference protocol, each of whose pickles is of the array its file stands for; each action of it has taken its effect, stated on arrays, names and protocol; distinct arrays never share a base name. |
| `Executor.StepKeeps` | joblib/externals/loky/process_executor.py:24-40 | Every step of the user, the manager and the workers keeps the books: each id of the dict in exactly one place, the dict holding the unresolved ids, and what travels with an id its own call or result. |
| `Executor.Conservation` | joblib/externals/loky/process_executor.py:24-40 | The same over any run, with crashes, cancels and shutdown. |
| `Executor.InitiallyInv` | joblib/externals/loky/process_executor.py:325-335 | The books are in order when the executor is made. |
| `Executor.ResolvedOnce` | joblib/externals/loky/process_executor.py:35-36 | No step changes a resolved future. |
| `Executor.OwnOutcome` | joblib/externals/loky/process_executor.py:127-150 | A future reports what a worker got for its own call. |
| `Executor.CancelExactly` | joblib/externals/loky/process_executor.py:29-34 | An outstanding future can be cancelled if and only if its id still waits in the work-id queue; in the call queue, or later, it cannot. |
| `Executor.CancelledNeverRuns` | joblib/externals/loky/process_executor.py:29-31 | A cancelled item is never sent and never executed, whatever follows. |
| `Executor.FirstComeFirstServed` | joblib/externals/loky/process_executor.py:24-39 | Over any run, whatever is cancelled or fails in it, workers get the calls in the order in which they were submitted. |
| `Executor.StepKeepsLine` | joblib/externals/loky/process_executor.py:24-31 | At every moment the ids in the call queue, followed by those that wait, are strictly increasing. |
| `Executor.ResultsInOrder` | joblib/externals/loky/process_executor.py:35-39 | Unless the executor breaks or is killed, results are collected in the order in which the workers sent them. |
| `Executor.FaultsResolveAll` | joblib/externals/loky/process_executor.py:256-275 | A worker death that is noticed, and a shutdown that kills, leave nothing unresolved: outstanding futures fail with the stated error, the others stay as they were, and later submits are refused. |
| `Executor.NothingUnresolved` | joblib/externals/loky/process_executor.py:24-40 | Once nothing is left to do every future is resolved, whatever faults there were. |
| `Executor.FaultFreeRun` | joblib/externals/loky/process_executor.py:24-40 | Without faults, every submitted call was then run and its future tells its own outcome, unless it was cancelled. |
| `Executor.RunsEnd` | joblib/externals/loky/process_executor.py:28-40 | The executor's own steps are bounded by what was submitted. |
| `Executor.WorkDecreases` | joblib/externals/loky/process_executor.py:28-40 | Each of them leaves less to do. |
| `Executor.Progress` | joblib/externals/loky/process_executor.py:28-40 | While the dict holds an item the manager or a worker can go on: no deadlock. |
| `ExecutorManager.FeedAllFills` | joblib/externals/loky/process_executor.py:29-34 | Filling the call queue is a run of single steps, and ends with the queue full or no id waiting. |
| `ExecutorManager.ProcessPoolExecutor.AddCallItemToQueue` | joblib/externals/loky/process_executor.py:29-34 | The loop that fills the call queue: cancelled items leave the dict, others become running, and the bound is kept. |
| `ExecutorManager.ProcessPoolExecutor.Submit` | joblib/externals/loky/process_executor.py:24-26 | A fresh id, in the dict with its call and at the end of the queue; refused if and only if broken or shut down, with the error of each, and then nothing changes. |
| `ExecutorManager.ProcessPoolExecutor.Cancel` | joblib/externals/loky/process_executor.py:33-34 | Says whether the item is cancelled: exactly if it has not left the work-id queue; only its future changes. |
| `ExecutorManager.ProcessPoolExecutor.ProcessResultItem` | joblib/externals/loky/process_executor.py:35-36 | Updates the future of the result and deletes its dict entry. |
| `ExecutorManager.ProcessPoolExecutor.FailPending` | joblib/externals/loky/process_executor.py:256-275 | Fails each future of the dict that can still fail, and empties the dict. |
| `ExecutorManager.ProcessPoolExecutor.TerminateBroken` | joblib/externals/loky/process_executor.py:264-268 | The executor is broken and every future resolved. |
| `ExecutorManager.ProcessPoolExecutor.KillWorkers` | joblib/externals/loky/process_executor.py:271-275 | The workers are gone and every future resolved. |
| `ExecutorManager.ProcessPoolExecutor.FeedOne` | joblib/externals/loky/process_executor.py:29-34 | The first waiting id leaves the queue: its call goes to the end of the call queue and its future runs, or, if it was cancelled, its item is removed. |
| `ExecutorManager.ProcessPoolExecutor.WorkerTakes` | joblib/externals/loky/process_executor.py:38-39 | A worker gets the first item of the call queue. |
| `ExecutorManager.ProcessPoolExecutor.WorkerFinishes` | joblib/externals/loky/process_executor.py:38-39 | It puts the outcome, with the id of its item, at the end of the result queue. |
| `ExecutorManager.ProcessPoolExecutor.OnQueueFeederError` | joblib/externals/loky/process_executor.py:159-166 | The future of a call that cannot be pickled fails, and its item is nowhere any more. |
| `ExecutorManager.ProcessPoolExecutor.Shutdown` | joblib/externals/loky/process_executor.py:367 | Sets the flag; whether workers are to be killed is never taken back. |
| `Memory.TransparentExactly` | joblib/memory.py:249-284 | Over every run of calls, redefinitions, collected functions, corruptions, clears, evictions, validation answers and restarts, every call gives what the current code computes if and only if no function of the online table shares its identifier with another. |
| `Memory.StepExactly` | joblib/memory.py:249-284 | The results on disk are those of the code on disk, and the table agrees with it; a step keeps this if and only if it is not one of two hazards: a forced call under other code, or a write of code over that of a listed function with the same identifier. |
| `Memory.RunStaysGood` | joblib/memory.py:249-284 | The same over runs. |
| `Memory.GoodIsTransparent` | joblib/memory.py:262-284 | In such a state every call is right, read from disk or not. |
| `Memory.SharingBreaks` | joblib/memory.py:335-345 | Two functions with one identifier, one of them listed: a concrete run returns the other's result. |
| `Memory.ForcedExactly` | joblib/memory.py:351-371 | A forced call does not compare code. Without shared identifiers every later run without another forced call is transparent if and only if the forced call raised or returned what the code on disk computes (or any code, where there is none yet); it did if the code on disk is the function's own. |
| `Memory.ForcedCallBreaks` | joblib/memory.py:351-371 | And a run from an empty store in which it did not, and a later call returns its result after a redefinition. |
| `Memory.SecondCallHits` | joblib/memory.py:262-284 | A call that returned is a hit the next time: the function is not run again, and nothing on disk changes. |
| `Memory.InCacheExactly` | joblib/memory.py:249-260 | Over every store whose results agree with the code beside them: a hit if and only if the code on disk is the function's own, there is an entry and the callback accepts it; an entry it refuses is removed, and no other; after other code, exactly the results under its identifier are; nothing is run. |
| `Memory.CallRunsExactly` | joblib/memory.py:262-284 | A call runs the function if and only if it cannot read its result. What it returns is then in the store; if it raises, no result is left there, whatever stood in its place; other entries are as before. |
| `Memory.ShelvingRunsExactly` | joblib/memory.py:286-301 | Shelving runs it if and only if there is no valid entry, corrupt or not. |
| `Memory.ForceRuns` | joblib/memory.py:351-371 | A forced call always runs it, keeps what it returns, and changes nothing else. |
| `Memory.Outside` | joblib/memory.py:514-517 | What collection, redefinition, corruption, eviction, a new process and clearing do to results, code and the online table. |
| `Memory.ReferenceTells` | joblib/memory.py:286-301 | Right after shelving a reference gives the result, or is reported corrupt. |
| `Memory.ReferenceLater` | joblib/memory.py:112-114 | Read after any run without hazards it gives what the code then on disk computes, or is reported corrupt: so it gives the result it was made for as long as that code is the same. |
| `Memory.CheckExactly` | joblib/memory.py:340-345 | After the code check the code on disk is the function's own. |
| `MemorizedFunc.MemorizedFunc.CheckPreviousFuncCode` | joblib/memory.py:340-345 | True only if the code on disk is the function's own; the code on disk is its own afterwards, and results are kept only then. |
| `MemorizedFunc.MemorizedFunc.IsInCacheAndValid` | joblib/memory.py:249-260 | The code, the entry and the validation callback, in that order: a hit only with the consent of the callback; a refused entry is cleared, and every other item is as before. |
| `MemorizedFunc.MemorizedFunc.CachedCall` | joblib/memory.py:262-284 | The answer is what the current code computes, and an entry the callback refuses is never the answer: the function runs again; a corrupt entry is recomputed; when shelving, a reference to an entry that exists. |
| `MemorizedFunc.MemorizedFunc.Call` | joblib/memory.py:351-371 | Runs the function once and persists what it returns; if it raises, the store is as before. |
| `MemorizedFunc.MemorizedFunc.Clear` | joblib/memory.py:347-349 | Removes exactly the results of this identifier, and writes the code. |
| `MemorizedFunc.MemorizedFunc.CheckCallInCache` | joblib/memory.py:313-325 | Whether there is an entry for the arguments; nothing is run or changed. |
| `MemorizedFunc.MemorizedResult.Get` | joblib/memory.py:112-114 | The stored result, or the error of a missing or corrupt one. |
| `MemorizedFunc.MemorizedResult.Clear` | joblib/memory.py:116-118 | Removes this entry and no other. |
| `MemorizedFunc.MemoryContext.Clear` | joblib/memory.py:514-517 | Results, code and the online table are gone. |
| `StoreBackends.GetItemsToDelete` | joblib/_store_backends.py:207-211 | The shortest oldest-first prefix after which bytes, count and age limits all hold, in numbers; nothing when they hold already. |
| `StoreBackends.CutIsLeastRecentlyUsed` | joblib/_store_backends.py:201-211 | What survives is at least as recent as what goes and within the limits; together they are all items; and nothing goes if and only if the limits hold. |
| `StoreBackends.EnforcedMeetsLimits` | joblib/memory.py:519-545 | After every deletion succeeded the limits hold, so that enforcing again deletes nothing. |
| `StoreBackends.HoldPermuted` | joblib/_store_backends.py:207-211 | Whether the limits hold does not depend on the order of the items. |
| `StoreBackends.StoreBackend.EnforceStoreLimits` | joblib/_store_backends.py:201-205 | Deletes the items of the cut, and leaves those that cannot be removed just now. |
| `SafeWrite.ReadersSeeWholeValues` | joblib/_store_backends.py:213-215 | With any number of writers, crashes and clears in between, a reader finds the whole of some value written to that file. |
| `SafeWrite.StepKeeps` | joblib/_store_backends.py:25-27 | Every step keeps temporary files in step with their writers. |
| `SafeWrite.OnlyRenamesShow` | joblib/backports.py:95-107 | A rename shows exactly what its writer was given; no other step but a clear changes a file. |
| `SafeWrite.TempsChange` | joblib/_store_backends.py:157-159 | A rename takes its own temporary file away, a clear those of its target, a failure none; files of other writers are left alone. |
| `SafeWrite.NothingLeftOver` | joblib/_store_backends.py:213-215 | Without failures no temporary file is left. |
| `SafeWrite.FileStore.SafeWrite` | joblib/_store_backends.py:25-27 | As a run of single writes: the temporary file gets the value, or the part before the failure. |
| `SafeWrite.FileStore.DumpItem` | joblib/_store_backends.py:153-155 | As a run of the protocol, with other writers in the middle of theirs: the item is replaced, or left as it was when the dump fails. |
| `SafeWrite.FileStore.ClearItem` | joblib/_store_backends.py:157-159 | The item and what writers have left of it are gone, and nothing else. |
| `PickleBuffered.PickleBufferedReader.Read` | benchmarks/bench_compression.py:99-114 | Ends, and returns exactly the next `n` bytes across refills and short chunks, when that many are left. |
| `PickleBuffered.EndsExactly` | benchmarks/bench_compression.py:104-113 | The loop of `read(n)` ends, within a bound, if and only if `n` bytes are left: otherwise it turns for ever, whatever the file gives. |
| `PickleBuffered.TurnConserves` | benchmarks/bench_compression.py:105-113 | Each turn hands out the next bytes and loses none, and stops short of what is needed only when the buffer is used up. |
| `PickleBuffered.PickleBufferedReader.ReadAll` | benchmarks/bench_compression.py:101-102 | `read()` is right if and only if the buffer holds nothing. |
| `PickleBuffered.PickleBufferedReader.ReadLine` | benchmarks/bench_compression.py:116-123 | Returns through the next newline, when one remains. |
| `PickleBuffered.PickleBufferedWriter.Write` | benchmarks/bench_compression.py:63-66 | File content plus pending chunks is everything written, and the pending chunks stay within the limit; the file is touched only when they would not. |
| `PickleBuffered.PickleBufferedWriter.Flush` | benchmarks/bench_compression.py:69-71 | Brings everything to the file, or, when it is closed, loses nothing. |
| `PickleBuffered.PickleBufferedWriter.Close` | benchmarks/bench_compression.py:73-75 | Everything written is in the closed file; a second close fails. |
| `PickleBuffered.RoundTrip` | benchmarks/bench_compression.py:47-114 | Written in any pieces, closed and read back in any sizes, the bytes are the same. |
| `ZlibFile.Replay` | joblib/compressor.py:221-264 | However the decompressor cuts its output, any sequence of `read`, `readinto`, `seek` and `tell` answers as a plain byte array with a cursor. |
| `ZlibFile.WriteThenRead` | joblib/compressor.py:236-243 | Written, closed and read back, the bytes are the same, given a codec that round-trips. |
| `ZlibFile.BinaryZlibFile.Read` | joblib/compressor.py:221-227 | The bytes from the cursor on, up to the size or the end; errors for a closed or write-only file. |
| `ZlibFile.BinaryZlibFile.ReadInto` | joblib/compressor.py:229-234 | Fills the front of the array with those bytes and leaves the rest of it. |
| `ZlibFile.BinaryZlibFile.Seek` | joblib/compressor.py:245-260 | The new position for each `whence`: the offset from the start, from the cursor or from the end, brought within the stream; it is the answer, and the cursor is there; the errors. |
| `ZlibFile.ReadFromEnd` | joblib/compressor.py:245-260 | `seek(-n, 2)` and `read()` give exactly the last `n` bytes. |
| `ZlibFile.MoveFromHere` | joblib/compressor.py:245-264 | `seek(d, 1)` moves `tell()` by `d`, within the stream. |
| `ZlibFile.ReadFromStart` | joblib/compressor.py:221-260 | `seek(p, 0)` and `read(n)` give the `n` bytes from `p` on. |
| `ZlibFile.BinaryZlibFile.Tell` | joblib/compressor.py:262-264 | The cursor of the byte array, or the number of bytes written so far; an error if and only if closed. |
| `ZlibFile.BinaryZlibFile.Write` | joblib/compressor.py:236-243 | Takes all of the data, in writing mode only. |
| `ZlibFile.BinaryZlibFile.Close` | joblib/compressor.py:192-198 | Brings what was written to the file in full, after what it held; may be called again; closes the file only if it owns it. |
| `ZlibFile.OpenFile` | joblib/compressor.py:164-190 | Succeeds if and only if level and mode are valid; the errors; a path opened for writing is truncated, an open file is written on. |
| `ZlibFile.BinaryZlibFile.FillBuffer` | joblib/compressor.py:174-178 | Brings more data if and only if the end is not reached, through empty blocks. |
| `PickleFormat.LoadsWhatWasDumped` | joblib/numpy_pickle.py:133-143 | For any nested object with arrays anywhere and any start position, loading what was dumped rebuilds it and stops right after it. |
| `PickleFormat.SavedRuns` | joblib/numpy_pickle.py:176-185 | Running the tokens and array bytes of a value pushes that value on whatever stack. |
| `PickleFormat.PayloadReads` | joblib/numpy_pickle.py:65-79 | Reading an array undoes writing it, raw bytes and object arrays. |
| `PickleFormat.LoadsEachDumped` | joblib/numpy_pickle.py:187-240 | Values dumped one after the other into one file are loaded one after the other. |
| `PickleErrors.TruncatedIsRefused` | joblib/numpy_pickle_utils.py:92-105 | Whatever value was dumped: a file that ends before the dump does, anywhere, is not loaded. |
| `PickleErrors.LoadedIsWhole` | joblib/numpy_pickle_utils.py:92-105 | Whatever the file: what is loaded is a well-formed value, each array with all its bytes, read from within the file. |
| `PickleErrors.RefusedExactly` | joblib/numpy_pickle.py:236-238 | Running goes on past a token if and only if it is there and has what it needs on the stack and behind it; otherwise the file is refused. |
| `PickleFormat.SizeExactly` | joblib/numpy_pickle.py:73-79 | A scalar takes one item, an array that of its first axis as many times over. |
| `PickleFormat.ArraysAreAligned` | joblib/test/test_numpy_pickle.py:1107-1159 | Every raw array payload starts at an offset that is a multiple of 16, and holds the array. |
| `NumpyPickle.NumpyPickler.Save` | joblib/numpy_pickle.py:133-143 | Recursive saving through the shared file handle writes exactly the format. |
| `NumpyPickle.NumpyPickler.WriteArray` | joblib/numpy_pickle.py:65-71 | The padding byte, the padding and the bytes in chunks of any size. |
| `NumpyPickle.NumpyUnpickler.ReadArray` | joblib/numpy_pickle.py:73-79 | Reads them back in chunks of any size; a truncated file gives no array. |
| `NumpyPickle.NumpyUnpickler.ReadMmap` | joblib/numpy_pickle.py:81-83 | Mapping gives the same bytes and the same position as reading. |
| `NumpyPickle.NumpyUnpickler.ReadOrMap` | joblib/numpy_pickle.py:85-99 | An array is mapped if and only if that is asked for and allowed and it holds no objects; the same array either way. |
| `NumpyPickle.NumpyUnpickler.LoadBuild` | joblib/numpy_pickle.py:176-185 | Sets a state, or replaces a wrapper on the stack by its array. |
| `NumpyPickle.NumpyUnpickler.Load` | joblib/numpy_pickle.py:236-277 | The token loop, with malformed files refused. |
| `NumpyPickle.DumpAndLoad` | joblib/numpy_pickle.py:187-277 | Dump then load, at the end of any file, mapped or read, gives the value. |

## Left out

- The sequential path of `Parallel` for one job, timeouts, progress printing, and the choice of backends: no state is shared.
- Backends without a retrieve callback (`parallel.py` lines 466-477, 481-483): the consumer then waits for jobs itself.
- Automatic batching: the adjustment rule is not in the files; the model allows every sequence of batch sizes.
- Which error is raised when several tasks failed: it is decided in bodies that are not there; the model says what has been yielded until then.
- `TemporaryResourcesManager`: its bodies are not there; a context is a folder, and releasing it is the parent giving up its references.
- Errors of `os.makedirs` and `chmod`, the prewarm read and verbosity in the reducer.
- Views of memmaps with strides: a view is a contiguous part of its file.
- Starting, idling out and replacing worker processes, and initializers: the pool starts with its workers and loses them only by death or shutdown.
- A second process that changes the same cache: its table would not be cleared with the store.
- Metadata, timing and warnings of the cache, and `Memory.cache` and `eval` as such.
- Errors for arguments of the wrong Python type.
- Compression algorithms, hashes, pickle opcodes, numpy element order: abstract functions, or bytes in memory order.
- Shared and recursive references in pickles (the memo of the pickler), and formats of joblib before 0.10.
- File objects opened for reading at a position that is not their start.
- PickleBuffered.PickleBufferedReader.Read: excludes requests past the end by a precondition, because the code does not return then; `PickleBuffered.EndsExactly` is that fact.
- PickleBuffered.PickleBufferedReader.ReadLine: excludes a rest without a newline, for the same reason.
