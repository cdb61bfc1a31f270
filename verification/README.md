# NanoNNG runtime core: a verified model

Dafny models of the in-memory machinery under NanoNNG's sockets, with proofs of what it promises over every input,
every run or every interleaving. `dafny verify dfyconfig.toml` checks the whole project.

- **Identifier hash map** (`src/core/idhash.c`): `Bits`, `Probe`, `IdTable`, `IdMap`. The class `IdMap.Map` updates an
  entries array and its counters in place and refines a finite map. The probe `5j+1 mod 2^k` is shown to be one full
  cycle, each skip counter to be exactly the number of keys whose path passes over the cell, and
  `id_load = id_count + sum of skips`. From these follow the early stop of the search and the end of every loop.
- **Asynchronous sleeps and the expire thread** (`src/core/aio.c`): `ExpireQueue` is the timer list as a class with its
  scanning loop. `AioSleep` is the protocol as a state machine: begin, schedule, finish, abort, stop, close, the sleep
  cancel function, the task and the expire thread, one step per region that holds a lock. `AioRuns` has the theorems
  over every interleaving, and `AioDeadlines` those that speak of the events of a run: which deadline a sleep waits for,
  when the expire thread takes it, and with what code it completes.
- **Task queue** (`src/core/taskq.c`): `Taskq`, a state machine for any number of workers, dispatchers and waiters;
  `TaskqEvents` ties its state to the calls made in a run.
- **Message queue** (`src/core/msgqueue.c`): `MsgqSpec` is the queue as a value, `MsgqRuns` has conservation and order
  over every run, `MsgqOutcomes` what each completion means for its message, `MsgqIndex` follows the index of the ring
  over a run and `MsgqNotify` its pollables, and the class `Msgq.Queue`, with its ring array, indices and loops, refines
  `MsgqSpec`.
- **URLs** (`src/core/url.c`): `UrlCanon` states the three rewriting passes as functions and proves what they achieve,
  `UrlMeaning` proves what they compute (the bytes kept, the path's segments reduced with a stack), `UrlBuffer` has the
  in-place passes with their two cursors, `UrlParse` the parser and printer as functions with the round-trip theorems,
  `UrlParts` proves that the parts of a parsed URL put together again are the input, `UrlReader` has the parser's loops,
  `UrlUtf8` the UTF-8 check against RFC 3629, and `UrlExamples` the URLs that do not come back.
- **Message bodies** (`src/core/message.c`): the class `Chunk.Chunk`, a window in a buffer, refines a byte sequence.
- **Linked list** (`src/core/list.c`): `RingList`, pointer updates on nodes, refines a sequence.
- **Notification pair** (`src/core/pollable.c`): `Pollable`, one step per atomic operation or system call.
- **Context lifetime** (`src/core/socket.c`): `Ctx`, a state machine, with the shutdown loop as a method.
- **Reaper** (`src/core/reap.c`): `Reap`, a state machine with the worker's pass, list by list, in which each call is a
  ticket; `ReapNodes` is the machine on rl_nodes and rn_next that refines it.

Operations, messages, contexts, threads and tickets are named by numbers. The clock, random numbers, the outcome of an
allocation and the error of a failed schedule are parameters or arbitrary.

## Promises that do not hold on every path

The lemmas named give the condition under which the promise does hold, and an input or a run that shows the failure.

- An abort with code zero that arrives between begin and schedule makes the schedule fail with "no error"; the sleep is
  then completed by nobody (`AioRuns.ScheduleLosesIff`, `AioRuns.ZeroAbortLoses`). Without such an abort nothing is
  ever lost (`AioRuns.NothingLost`).
- A put whose schedule failed is left waiting when earlier writers take all the room (`MsgqSpec.RefusedPutStuckIff`,
  `MsgqRuns.RefusedPutStuck`).
- A try-put can enter the ring ahead of waiting writers (`MsgqRuns.TryPutOrderIff`, `MsgqRuns.TryPutOvertakes`).
- A shrinking resize of the message queue tests its index with `>` where it wraps at equality, so that the index can
  leave the array (`Msgq.Drive`, `MsgqIndex.DropIndexIff`, `MsgqIndex.ResizeEscapes`).
- Insertion into a message that rebalances its free room overwrites the body (`Chunk.RebalancePrependsIff`,
  `Chunk.InsertOverwrites`). `nni_msg_pull_up` takes this insertion to be infallible and ignores its result
  (`Chunk.PullUp`, `Chunk.PullUpOverwrites`, `Chunk.PullUpLosesHeader`).
- Printing a URL and parsing it again changes hosts that are a bracketed `*`, start with `[` without a colon, or start
  with a delimiter after user information, and whatever a path scheme does not print (`UrlParse.RoundTripIff`; one URL
  for each in `UrlExamples`). The scheme `abstract` cannot be printed (`UrlParse.LocalRoundTrip`,
  `UrlExamples.AbstractUnprintable`). A host that ends in `@` is scanned past its end (`UrlParse.OverrunIff`,
  `UrlExamples.TrailingAt`).
- The UTF-8 check tests the third byte of a sequence where it should test the second (`UrlUtf8.ChecksThirdByte`,
  `UrlUtf8.AcceptedIff`). It refuses U+0800 (`UrlUtf8.RefusesU0800`) and accepts an overlong `/`
  (`UrlUtf8.AcceptsOverlongSlash`), which the comment in `src/core/url.c` says it is there to keep out.
- Preparing a task twice breaks its busy count (`Taskq.PrepCountsIff`, `Taskq.PrepTwiceBreaks`).
- The pollables of a message queue are not told of a close or a resize (`MsgqNotify.AgreesIff`,
  `MsgqNotify.ReadableAfterClose`, `MsgqNotify.RoomAfterResize`).
- A pollable that is cleared while a first `nni_pollable_getfd` is about to notify stays readable
  (`Pollable.ReadableIff`, `Pollable.StaleNotice`).
- A context opened after the shutdown loop and before the socket is closed stays on the list that shutdown waits for
  (`Ctx.DrainsIff`, `Ctx.LateOpenStays`).
- An item queued for reaping while it still waits has its rn_next overwritten; unless the value is the same, the lists
  no longer hold what was queued (`ReapNodes.QueueIff`, `ReapNodes.QueuedTwice`). The comment in `src/core/reap.h` says
  that an item queued again goes to the end of the list; the code puts it at the front (`Reap.BatchOrder`).

## Model

| member | source | states |
|---|---|---|
| `Probe.NoEarlyReturn` | src/core/idhash.c:90-94 | A walk of the probe `5j+1 mod 2^k` does not come back to its start in fewer than 2^k steps |
| `Probe.WalkInjective` | src/core/idhash.c:90-94 | Two different step counts below the capacity lead to two different cells |
| `Probe.FullCycle` | src/core/idhash.c:90-94 | For every capacity 2^k the probe visits every cell exactly once and is then back home: one full cycle |
| `Probe.GeoDivides` | src/core/idhash.c:90-94 | 2^k divides 1+5+...+5^(n-1) only if it divides n, the arithmetic fact behind the full cycle |
| `Probe.DistOfWalk` | src/core/idhash.c:90-94 | The number of probes between two cells is well defined and less than the capacity |
| `IdTable.PassedCellHasSkips` | src/core/idhash.c:96-124 | A cell that some stored key's probe path passes over has a positive skip counter |
| `IdTable.EarlyStop` | src/core/idhash.c:107-121 | Stopping the search at a cell without skips is sound: no cell further along holds the key |
| `IdTable.WholeRound` | src/core/idhash.c:107-121 | A whole round without meeting the key proves that it is absent |
| `IdTable.PlacedOk` | src/core/idhash.c:380-400 | Storing a key in the first free cell of its path, with one skip on each cell passed, keeps every skip counter equal to the number of keys that pass over the cell |
| `IdTable.RemovedOk` | src/core/idhash.c:332-352 | Clearing a key's cell and taking back the skips on its path keeps every skip counter exact |
| `IdTable.PlacedRepresents` | src/core/idhash.c:380-400 | The table then stores the old bindings and the new one, and nothing else |
| `IdTable.RemovedRepresents` | src/core/idhash.c:322-360 | The table then stores the old bindings without that key |
| `IdTable.PlacedSum` | src/core/idhash.c:380-400 | The sum of all skip counters grows by the length of the path |
| `IdTable.RemovedSum` | src/core/idhash.c:322-360 | The sum of all skip counters falls by the length of the path |
| `IdTable.AccountPlaced` | src/core/idhash.c:380-400 | id_load = id_count + sum of skips, and the abstract map, are kept by an insertion |
| `IdTable.AccountRemoved` | src/core/idhash.c:322-360 | The same accounting is kept by a removal |
| `IdTable.AccountOverwritten` | src/core/idhash.c:373-378 | Overwriting the value of a stored key changes no counter |
| `IdTable.FreeCellExists` | src/core/idhash.c:380-400 | With fewer keys than cells the probe reaches a free cell in less than one round, so the unbounded insertion loop ends |
| `IdTable.VisitComplete` | src/core/idhash.c:471-491 | Visiting from the first cell meets exactly the stored bindings |
| `IdTable.VisitAgrees` | src/core/idhash.c:471-491 | A full visit yields every binding of the abstract map, each key once |
| `IdMap.SearchEnds` | src/core/idhash.c:427-437 | Pigeonhole: while id_count <= max - min the cyclic search meets a free identifier, even if keys outside the range are stored |
| `IdMap.CyclicClosed` | src/core/idhash.c:427-437 | The cursor never leaves [min, max] |
| `IdMap.Map.constructor` | src/core/idhash.c:26-51 | A new map is empty and valid |
| `IdMap.Map.Find` | src/core/idhash.c:96-124 | Returns the cell of the key if the abstract map has it and none otherwise; the loop ends |
| `IdMap.Map.Get` | src/core/idhash.c:126-134 | Agrees with lookup in the abstract map |
| `IdMap.Map.Place` | src/core/idhash.c:380-400 | The insertion loop stores the key in the first free cell of its path, and ends |
| `IdMap.Map.Resize` | src/core/idhash.c:245-320 | Leaves the abstract map unchanged, on success leaves a free cell (id_count < id_cap), on failure changes nothing |
| `IdMap.Map.FitCap` | src/core/idhash.c:266-270 | The new capacity is the least power of two, 8 or more, with room for twice the keys |
| `IdMap.Map.Rehash` | src/core/idhash.c:292-315 | Rehashing every cell into a new table gives a table with exact skips that stores the same map |
| `IdMap.Map.Set` | src/core/idhash.c:362-401 | Adds or overwrites one binding of the abstract map, or fails with no change |
| `IdMap.Map.Unplace` | src/core/idhash.c:332-352 | The removal loop: both assertions on skip counters hold at every step and the loop ends at the key's cell |
| `IdMap.Map.Remove` | src/core/idhash.c:322-360 | Removes one binding, or reports that there is none |
| `IdMap.Map.Count` | src/core/idhash.c:493-497 | The size of the abstract map |
| `IdMap.Map.NextFree` | src/core/idhash.c:427-437 | The search loop finds the first identifier not in use in cyclic order from the cursor, and ends |
| `IdMap.Map.Alloc` | src/core/idhash.c:403-444 | Success binds an identifier in [min, max] that was free, with none free before it in cyclic order: from the cursor if it was used, from min + entropy % (max - min + 1) in a new random map, and the least free one in any other; the cursor goes to the next identifier; a full range is refused |
| `IdMap.AllocInOrder` | src/core/idhash.c:403-444 | n allocations on a new map that is not random give min, min + 1, min + 2 and so on |
| `IdMap.Around` | src/core/idhash.c:427-437 | First in the cyclic search means: free, and every identifier between the cursor and it, going round at max, is in use |
| `IdMap.Map.Visit` | src/core/idhash.c:471-491 | Gives the next binding at or after the cursor in cell order, and the cursor past it |
| `IdMap.Map.Fini` | src/core/idhash.c:53-62 | The map is empty afterwards and can be used again |
| `ExpireQueue.ScanPartitions` | src/core/aio.c:605-638 | One scan neither loses nor invents an operation, takes only overdue ones, and leaves eq_next at most the deadline of all that stay |
| `ExpireQueue.ScanTakesOverdue` | src/core/aio.c:605-638 | An overdue operation stays behind only when the batch is full |
| `ExpireQueue.ScanNext` | src/core/aio.c:605-638 | eq_next after a scan is the deadline of an operation that stays, or never: the thread is not woken for nothing |
| `ExpireQueue.Queue.constructor` | src/core/aio.c:815-833 | The list is empty, and eq_next covers it |
| `ExpireQueue.Queue.Add` | src/core/aio.c:554-565 | The operation is listed and eq_next is lowered to its deadline, waking the thread exactly then |
| `ExpireQueue.Queue.Remove` | src/core/aio.c:567-576 | The operation leaves the list and eq_next, left alone, still covers the rest |
| `ExpireQueue.Queue.Collect` | src/core/aio.c:605-638 | The scanning loop computes Scan of the list, and eq_next covers what stays |
| `AioSleep.StepKeeps` | src/core/aio.c:325-437 | Every lock-held region of begin, schedule, finish, abort, stop, close, the sleep cancel function and the expire thread keeps the protocol invariant (AioDeadlines says what the regions do with deadlines and codes) |
| `AioSleep.Frame` | src/core/aio.c:187-233 | An operation that a step does not touch keeps its own invariant, so the proof can go operation by operation |
| `AioRuns.ExactlyOneHolder` | src/core/aio.c:325-437 | In every interleaving a sleep whose begin succeeded is finished at most once, and until then its completion is held by exactly one of the aio, one caller or the expire thread |
| `AioRuns.AssertionsHold` | src/core/aio.c:325-410 | The assertions of the source hold in every run: no second cancel function is registered, nothing is listed twice, the cancel function is never stale |
| `AioRuns.NeverOversleeps` | src/core/aio.c:592-666 | Whenever the expire lock is free outside a scan, eq_next is at most every listed deadline, so the thread never naps past one; AioDeadlines.WaitsForItsDeadline says which deadline that is |
| `AioRuns.ScheduleLosesIff` | src/core/aio.c:386-391 | Scheduling leaves the operation with nobody to complete it if and only if it was aborted with code zero in between |
| `AioRuns.NothingLost` | src/core/aio.c:325-437 | In every run without an abort of code zero: begun = finished + (1 if there is a holder), so nothing is lost |
| `AioRuns.ZeroAbortLoses` | src/core/aio.c:412-437 | A run in which an abort with code zero between begin and schedule loses the sleep |
| `AioRuns.StopIsFinal` | src/core/aio.c:187-210 | Once nni_aio_stop has returned no operation begins or completes on the aio, in any continuation |
| `AioRuns.StopReturns` | src/core/aio.c:187-210 | When the waiting nni_aio_stop call returns, the aio is stopped and its task idle |
| `AioDeadlines.WaitsForItsDeadline` | src/core/aio.c:766-792 | Over every run, on the events: a registered sleep has the deadline and the expire-ok flag it was last armed with; unless that is never, it is in the expire thread's batch, or listed with eq_next and the end of any nap at most that deadline |
| `AioDeadlines.TakenWhenOverdue` | src/core/aio.c:592-638 | Over every run: with the thread awake and idle, a sleep whose deadline has passed makes it scan, and the scan takes the sleep unless it fills its batch of 100; a sleep whose deadline has not passed is not taken |
| `AioDeadlines.BeginsUnlessStopped` | src/core/aio.c:325-364 | Over every run: an operation begins if and only if the aio was never stopped or closed, and is else refused with NNG_ECANCELED and no timer |
| `AioDeadlines.RegistersUnlessStopped` | src/core/aio.c:366-410 | Over every run: scheduling registers the cancel function if and only if the operation was not aborted since it began and the aio never stopped or closed; else its caller goes on to complete it with the abort code (unless that is zero) or NNG_ECLOSED |
| `AioDeadlines.CancelCompletes` | src/core/aio.c:747-764 | Whoever has taken the cancel function can go through it, finish and dispatch, and the operation is then completed once, with the code it came with, off the list and with no timer |
| `AioDeadlines.TakeCompletes` | src/core/aio.c:187-233 | An abort, stop or close of a registered sleep leads to its completion with the abort code, NNG_ECANCELED or NNG_ECLOSED |
| `AioDeadlines.TimeoutCompletes` | src/core/aio.c:640-666 | The expire thread leads the entry it is at to its completion, as a success if it was armed so and else with NNG_ETIMEDOUT |
| `AioDeadlines.CallbacksCounted` | src/core/aio.c:441-468 | Over every run: the completions of an aio are the callbacks started and those queued; the callbacks started are those ended and those running |
| `Taskq.CountsKept` | src/core/taskq.c:129-208 | Every step keeps task_busy = (prepared ? 1 : 0) + units being dispatched, queued or running, for every task |
| `Taskq.PrepCountsIff` | src/core/taskq.c:177-184 | Preparing keeps that count right if and only if the task was not prepared already |
| `Taskq.PrepTwiceBreaks` | src/core/taskq.c:177-184 | A run of one preparation, after which a second one makes the count wrong |
| `Taskq.OrderKept` | src/core/taskq.c:30-67 | Every step keeps: the started units followed by the listed ones are the units in the order they were appended, each once |
| `Taskq.ListedKept` | src/core/taskq.c:152-175 | With no dispatch of a task that is still listed, at most one unit of each task is on the list |
| `Taskq.RunKeeps` | src/core/taskq.c:30-67 | All invariants hold in every reachable state, for any number of workers, callers and waiters |
| `Taskq.WaitSeesIdle` | src/core/taskq.c:200-208 | nni_task_wait can return if and only if nothing of the task is prepared, being dispatched, queued or running; task_busy is never negative (TaskqEvents.WaitMeansOver says it on the calls made) |
| `Taskq.NoWaiterForgotten` | src/core/taskq.c:200-208 | A thread asleep in nni_task_wait has work to wait for: the wake-up at zero is not lost |
| `Taskq.EachDispatchOnce` | src/core/taskq.c:152-175 | Each dispatch is on its way to the list, on it, or started, in exactly one of these and once; units start in list order |
| `Taskq.AllDispatchesRan` | src/core/taskq.c:30-67 | When nothing is in flight, every dispatch has run its callback exactly once, in list order |
| `Taskq.NoIdleWorker` | src/core/taskq.c:171-174 | Waking one worker per dispatch is adequate: no worker sleeps while more units are listed than workers are looking |
| `Taskq.OneNodeEach` | src/core/taskq.c:171-174 | Two listed units belong to two tasks, so the one list node inside a task suffices |
| `TaskqEvents.WaitMeansOver` | src/core/taskq.c:200-208 | Over every run, on the events: nni_task_wait can return if and only if the task is not prepared and the callback of every dispatch and exec of it has returned |
| `TaskqEvents.DispatchedOnce` | src/core/taskq.c:152-175 | Over every run, on the events: each dispatch of a task with a callback is on its way to the list, on it, or started by a worker, once; an exec or a dispatch without callback never enters the list; what is over was started |
| `TaskqEvents.WorkersConserved` | src/core/taskq.c:30-67 | No worker is lost or invented: each looks for work, sleeps, or runs one callback |
| `MsgqSpec.RunPutqSettles` | src/core/msgqueue.c:100-139 | After run_putq a waiting reader means an empty ring and no writer, and a writer waits only when there is no reader and the ring is full |
| `MsgqSpec.RunGetqSettles` | src/core/msgqueue.c:141-182 | After run_getq no reader waits while there is a message or a writer |
| `MsgqSpec.RunPutqFills` | src/core/msgqueue.c:100-139 | With no reader waiting, run_putq moves writers into the ring in order until it is full |
| `MsgqSpec.RefusedGetCompletes` | src/core/msgqueue.c:239-261 | A get whose schedule failed completes at once and is never left waiting |
| `MsgqSpec.RefusedPutStuckIff` | src/core/msgqueue.c:213-237 | A put whose schedule failed is left waiting if and only if no reader waits and earlier writers take all the room there is |
| `MsgqRuns.StepKeeps` | src/core/msgqueue.c:199-327 | Each operation keeps the two conservation laws and the shape of the wait lists |
| `MsgqRuns.EveryRun` | src/core/msgqueue.c:100-327 | Over every run of the specification: a waiting reader means an empty ring and no waiting writer; each operation begun has completed once or is on exactly one wait list; each message is in the ring, delivered, on its writer's aio, or freed (Msgq.Drive carries this over to the object); MsgqOutcomes.EveryOutcome relates the completions to the messages |
| `MsgqRuns.FirstInFirstOut` | src/core/msgqueue.c:100-182 | In runs of the specification where no try-put overtakes a waiting writer, messages are received in put order, across hand-off, cancellation, close and resize (Msgq.Drive carries this over to the object) |
| `MsgqRuns.TryPutOrderIff` | src/core/msgqueue.c:263-300 | A try-put keeps that order if and only if it does not enter the ring ahead of a waiting writer |
| `MsgqRuns.CloseStock` | src/core/msgqueue.c:302-327 | Close fails every waiting operation, frees what was buffered and leaves what was delivered |
| `MsgqRuns.ResizeStock` | src/core/msgqueue.c:340-406 | Resize, as specified, keeps the messages in order and accounts for those it drops; Msgq.Queue.Resize says when the code does this |
| `MsgqRuns.RefusedPutStuck` | src/core/msgqueue.c:213-237 | A run in which a put refused a place to wait is left waiting behind an earlier writer |
| `MsgqRuns.TryPutOvertakes` | src/core/msgqueue.c:263-300 | A run in which a try-put enters the ring ahead of a waiting writer and the order is lost |
| `MsgqOutcomes.EveryOutcome` | src/core/msgqueue.c:100-182 | Over every run: a put has completed as sent if and only if its message is delivered, in the ring or freed, as failed if and only if its writer still has the message, and not at all if and only if it is on the put list; a get has not completed if and only if it is on the get list, never completes as sent, and no other get receives its message |
| `MsgqOutcomes.EveryFailure` | src/core/msgqueue.c:199-327 | Over every run: an operation fails only with the error its own schedule was refused with, the error it was cancelled with, or NNG_ECLOSED after a close |
| `MsgqOutcomes.CancelFails` | src/core/msgqueue.c:199-211 | Over every run: cancelling an operation that has not completed fails it with that error, and changes nothing otherwise |
| `MsgqOutcomes.CloseFails` | src/core/msgqueue.c:302-327 | Over every run: closing fails every operation that has not completed with NNG_ECLOSED |
| `MsgqOutcomes.EveryOperation` | src/core/msgqueue.c:213-261 | The operations of a run are its puts and its gets, numbered as they came |
| `MsgqOutcomes.TryPutResult` | src/core/msgqueue.c:263-300 | A try-put succeeds if and only if the queue is open with a reader waiting or room in the ring, if and only if the queue then has the message; NNG_ECLOSED means closed, and a failure changes nothing |
| `Msgq.WindowPush` | src/core/msgqueue.c:124-131 | Writing at the put index appends to the ring's contents, across the wrap-around |
| `Msgq.WindowPop` | src/core/msgqueue.c:149-155 | Advancing the get index removes the oldest message, across the wrap-around |
| `Msgq.Queue.constructor` | src/core/msgqueue.c:38-73 | A new queue is empty, open, and has the asked capacity |
| `Msgq.Queue.RunPutq` | src/core/msgqueue.c:100-139 | The loop over the ring array and the wait lists computes MsgqSpec.RunPutq, whose completions MsgqOutcomes.EveryOutcome ties to the messages |
| `Msgq.Queue.RunGetq` | src/core/msgqueue.c:141-182 | The loop computes MsgqSpec.RunGetq |
| `Msgq.Queue.AioPut` | src/core/msgqueue.c:213-237 | Refines MsgqSpec.AioPut, including the failed schedule; over runs of calls its outcome is that of MsgqOutcomes.EveryOutcome |
| `Msgq.Queue.AioGet` | src/core/msgqueue.c:239-261 | Refines MsgqSpec.AioGet, including the failed schedule |
| `Msgq.Queue.TryPut` | src/core/msgqueue.c:263-300 | Refines MsgqSpec.TryPut, with its error codes |
| `Msgq.Queue.Cancel` | src/core/msgqueue.c:199-211 | The operation leaves whichever list it is on and fails once |
| `Msgq.Queue.Close` | src/core/msgqueue.c:302-327 | Refines MsgqSpec.Close |
| `Msgq.Queue.Resize` | src/core/msgqueue.c:340-406 | Refines MsgqSpec.Resize for growing, shrinking and failed allocation; the get index leaves the array, and stands one past its end, if and only if the messages dropped reach that end |
| `Msgq.Drive` | src/core/msgqueue.c:100-406 | Any sequence of operations on one object, resizes that fail for want of memory included, keeps its index inside the array if and only if no resize drops up to the end of the array, a condition on the run; then its state is the specified one, no operation or message is lost or served twice and, without overtaking, messages are delivered in put order; every put, get and failure has the outcome MsgqOutcomes says |
| `MsgqIndex.PosKept` | src/core/msgqueue.c:100-406 | In bounds, every operation leaves the get index inside the array and the ring within it |
| `MsgqIndex.DropIndexIff` | src/core/msgqueue.c:362-372 | The indices used while dropping stay inside the array if and only if the get index does not reach its end |
| `MsgqIndex.ResizeEscapes` | src/core/msgqueue.c:362-372 | A run on a queue of capacity three, with one resize, whose get index leaves the array |
| `MsgqNotify.AgreesIff` | src/core/msgqueue.c:184-197 | Over every run the sendable and recvable flags each agree with the queue if and only if the closes and resizes since the last nni_msgq_run_notify have turned what the queue can do an even number of times, by conditions on the queue before each of them |
| `MsgqNotify.AgreesSinceCreation` | src/core/msgqueue.c:38-73 | The same from a new queue on, whose flags are both down although it has room |
| `MsgqNotify.SilentTurns` | src/core/msgqueue.c:302-406 | What an operation that does not notify changes: a refused one nothing, a close and a resize exactly what their conditions say |
| `MsgqNotify.ReadableAfterClose` | src/core/msgqueue.c:302-327 | One put and a close: the queue is marked readable with nothing to read |
| `MsgqNotify.RoomAfterResize` | src/core/msgqueue.c:340-406 | One put on a queue of capacity one and a resize to two: the queue has room and is not marked sendable |
| `UrlCanon.UnescapeNormal` | src/core/url.c:134-167 | After the first pass no unreserved character is escaped and escapes are in upper case |
| `UrlCanon.CollapseNoDouble` | src/core/url.c:169-186 | After the second pass the path has no doubled slash |
| `UrlCanon.DotsClean` | src/core/url.c:188-221 | After the third pass the path has no dot segment |
| `UrlCanon.DotsNoDouble` | src/core/url.c:188-221 | Removing dot segments creates no doubled slash |
| `UrlCanon.DotsNormal` | src/core/url.c:188-221 | Removing dot segments creates no needless escape |
| `UrlCanon.CanonIsCanonical` | src/core/url.c:119-233 | An accepted input is never lengthened, and the result is canonical in all three respects (UrlMeaning.CanonMeans says what it is) |
| `UrlCanon.CanonFixed` | src/core/url.c:119-233 | A canonical string that passes the UTF-8 check is left as it is |
| `UrlCanon.CanonIdempotent` | src/core/url.c:119-233 | Canonicalising is idempotent on every accepted input |
| `UrlCanon.CanonStart` | src/core/url.c:119-233 | The result of an input that is empty or starts with `/`, `?` or `#` is again of that kind |
| `UrlCanon.PathSegments` | src/core/url.c:119-233 | For such input no segment of the path is `.` or `..` and only the last can be empty |
| `UrlMeaning.UnescapeKeepsBytes` | src/core/url.c:134-167 | Decoding and upper-casing escapes changes no byte that the string stands for |
| `UrlMeaning.SafeIsUnreserved` | src/core/url.c:150-156 | The characters decoded are the unreserved ones of section 2.3 of RFC 3986 and the bytes above 127 |
| `UrlMeaning.HexDigits` | src/core/url.c:20-37 | Each hexadecimal digit, in either case, is worth its place among the sixteen, and an escape sixteen times the first and the second |
| `UrlMeaning.SplitJoins` | src/core/url.c:169-221 | A path is its segments joined with slashes: cutting and joining are inverse |
| `UrlMeaning.CollapseSqueezes` | src/core/url.c:169-186 | The second pass drops the empty segments of the path, except the first and the last, and leaves query and fragment alone |
| `UrlMeaning.PopIsShorter` | src/core/url.c:197-201 | Dropping back to a slash takes the last segment off the path, and only that one |
| `UrlMeaning.DotsAreReduced` | src/core/url.c:188-221 | The third pass reduces the segments of the path with a stack: `.` is left out, `..` takes the last one off, and all others are put on; query and fragment are left alone |
| `UrlMeaning.JoinSplits` | src/core/url.c:169-221 | The segments read off a path of segments are those segments |
| `UrlMeaning.CanonMeans` | src/core/url.c:119-233 | For every accepted input: the result is the path of the unescaped input, which stands for the same bytes, with its empty segments squeezed out and its dot segments reduced with a stack, followed by the query and fragment as they are |
| `UrlUtf8.ChecksThirdByte` | src/core/url.c:39-89 | For all strings: the check accepts exactly the sequences of lead and continuation bytes in which each lead byte E0, ED, F0 or F4 allows the third byte of its sequence (section 4 of RFC 3629 restricts the second), two-byte leads are C2 to DF and leads end at F4 |
| `UrlUtf8.AcceptedIff` | src/core/url.c:39-89 | A well-formed string is accepted if and only if every such lead byte also allows the third byte of its sequence |
| `UrlUtf8.RightWithoutEdges` | src/core/url.c:39-89 | Without those four lead bytes the check accepts exactly the well-formed strings |
| `UrlUtf8.AsciiValid` | src/core/url.c:39-89 | Strings of ASCII characters always pass |
| `UrlUtf8.RefusesU0800` | src/core/url.c:70-77 | The encoding of U+0800 is well-formed and refused |
| `UrlUtf8.AcceptsOverlongSlash` | src/core/url.c:70-77 | The overlong form E0 80 AF of `/` is not well-formed and accepted, and canonicalisation leaves it in place |
| `UrlBuffer.UnescapePass` | src/core/url.c:134-167 | The in-place pass leaves Unescape of the string in the buffer, or reports what Unescape refuses |
| `UrlBuffer.CollapsePass` | src/core/url.c:169-186 | The in-place pass leaves Collapse of the string in the buffer |
| `UrlBuffer.PopCursor` | src/core/url.c:197-201 | The backward loop drops the last segment written, back to the last slash and no further |
| `UrlBuffer.DotsPass` | src/core/url.c:188-221 | The in-place pass leaves Dots of the string in the buffer, which UrlMeaning.DotsAreReduced says is the stack reduction |
| `UrlBuffer.Canonify` | src/core/url.c:119-233 | The three passes and the UTF-8 check compute Canon, which UrlMeaning.CanonMeans describes |
| `UrlParse.ParsedWell` | src/core/url.c:294-503 | Every parsed URL with a host has a lower-case scheme and host, a canonical request URI that starts at the end of the host, and host name, port, path, query and fragment that come from splitting these (UrlParts says what the splitting gives) |
| `UrlParts.UriParts` | src/core/url.c:406-446 | For every parsed URL with a host: the request URI is path, then `?` and query if there is one, then `#` and fragment if there is one, with no `?` or `#` in the path and no `#` in the query |
| `UrlParts.DividedOnce` | src/core/url.c:423-446 | There is only one way to divide a string so |
| `UrlParts.HostPart` | src/core/url.c:450-495 | The host part is the host name, in brackets if it was, then `:` and the port if one was given; the port is else the default of the scheme |
| `UrlParts.Reassembled` | src/core/url.c:294-405 | The input is scheme, `://`, user information and `@` if any, the host in some case after an optional `*`, and the text the request URI was made from |
| `UrlParts.DefaultPorts` | src/core/url.c:256-280 | For every scheme: with or without a 4 or 6 behind it, it has the port listed for it, and a scheme not listed has none |
| `UrlParts.WellKnownPorts` | src/core/url.c:235-254 | The listed ports: 80 for http and ws, 443 for https and wss, 22, 23, 70 and 9418 for ssh, telnet, gopher and git |
| `UrlParse.StableRoundTrip` | src/core/url.c:523-555 | Parsing what a stable URL prints to gives the same parts back, also where a default port was omitted |
| `UrlParse.RoundTripIff` | src/core/url.c:294-503 | For every URL with a host: print then parse gives the same scheme, host name, effective port, path, query and fragment if and only if the URL is stable, a condition on the scheme and host name alone (and the parts a path scheme cannot print) |
| `UrlParse.PlainHostsRoundTrip` | src/core/url.c:450-495 | Every URL without user information whose host is unbracketed or a bracketed address with a colon round-trips, unless its scheme is `ipc+abstract` or `unix+abstract`, which are printed as a bare path |
| `UrlParse.LocalRoundTrip` | src/core/url.c:523-555 | URLs that only name a path round-trip exactly, except that the scheme `abstract` cannot be printed |
| `UrlParse.PathIff` | src/core/url.c:532-537 | A URL with a host that prints as a bare path comes back if and only if it has nothing but a path |
| `UrlParse.OverrunIff` | src/core/url.c:359-378 | The host scan runs past the end of the input if and only if the text after `://` ends in an `@` with no `/`, `?`, `#` or other `@` before it |
| `UrlExamples.BracketedStar` | src/core/url.c:450-495 | `tcp://[*]` parses to the host name `*` and does not round-trip |
| `UrlExamples.DoubleBracket` | src/core/url.c:450-495 | `tcp://[[x]` parses to the host name `[x` and does not round-trip |
| `UrlExamples.SlashHost` | src/core/url.c:359-378 | `tcp://@/x` parses to the host name `/x` and does not round-trip |
| `UrlExamples.PathSchemeHost` | src/core/url.c:532-537 | `ipc+abstract://h` parses to the host name `h` and does not round-trip |
| `UrlExamples.TrailingAt` | src/core/url.c:359-378 | `tcp://u@` is scanned past its end |
| `UrlExamples.AbstractUnprintable` | src/core/url.c:532-537 | `abstract://x` parses and cannot be printed |
| `UrlReader.FindHost` | src/core/url.c:359-378 | The scanning loop with its restart after `@` computes ScanHost |
| `UrlReader.FindPort` | src/core/url.c:256-280 | The table walk finds the first entry that names the scheme |
| `UrlReader.ReadUri` | src/core/url.c:406-446 | Splits a canonical request URI into path, query and fragment as UrlParts.UriParts says |
| `UrlReader.ReadHost` | src/core/url.c:450-495 | Splits the host part into host name and port, or refuses it |
| `UrlReader.ParseUrl` | src/core/url.c:294-503 | The whole parser with its loops computes Parse, of which UrlParts gives the parts |
| `Chunk.Chunk.constructor` | src/core/message.c:401-440 | Zero bytes of the asked size, with 32 bytes of headroom and 32 of tailroom unless the size is a power of two from 1024 on |
| `Chunk.Chunk.Grow` | src/core/message.c:102-167 | The body is unchanged, and the asked room before and behind the data is there on success; it fails exactly when the room is not there and cannot be allocated, and then changes nothing; room that is there is used |
| `Chunk.Chunk.Append` | src/core/message.c:235-254 | The body becomes old body + data, in place if it fits; it fails exactly when it does not fit and the allocation fails, and then changes nothing |
| `Chunk.Chunk.Extend` | src/core/message.c:235-254 | Appending without data keeps the body as a prefix of the new one |
| `Chunk.Chunk.Trim` | src/core/message.c:200-212 | Drops a prefix of the body, or refuses when it is too short |
| `Chunk.Chunk.Chop` | src/core/message.c:189-197 | Drops a suffix of the body, or refuses when it is too short |
| `Chunk.Chunk.Dup` | src/core/message.c:217-230 | A copy with the same body, headroom and capacity in fresh storage, or ENOMEM |
| `Chunk.Chunk.Realloc` | src/core/message.c:494-508 | The body becomes a prefix of itself or an extension of itself, of the asked length |
| `Chunk.Chunk.Reserve` | src/core/message.c:510-514 | The body is unchanged and has the asked capacity behind it; it fails exactly when that is not there and cannot be allocated |
| `Chunk.Chunk.Insert` | src/core/message.c:268-320 | Prepends exactly whenever the headroom suffices or the buffer is regrown; otherwise leaves the rebalanced buffer; says exactly when it fails, and then changes nothing; the window stays inside the buffer |
| `Chunk.Chunk.InsertRebalancing` | src/core/message.c:284-297 | The window bound of the rebalancing branch, and the bytes it leaves |
| `Chunk.ShiftFits` | src/core/message.c:284-297 | The new window of the rebalancing branch starts at half of the free room, rounded up to a multiple of eight, and fits into the buffer |
| `Chunk.RebalancedBody` | src/core/message.c:284-297 | The body after rebalancing: the inserted bytes over the front of the old body, then what lay behind it |
| `Chunk.RebalancePrependsIff` | src/core/message.c:284-297 | The rebalancing branch prepends, whatever the bytes are, if and only if the body is empty |
| `Chunk.InsertOverwrites` | src/core/message.c:284-297 | A message of 100 bytes: one byte inserted is prepended, forty more overwrite it |
| `Chunk.MsgAlloc` | src/core/message.c:401-440 | Allocation gives a message with a valid chunk, or nothing |
| `Chunk.PullUp` | src/core/message.c:369-399 | The body becomes header + body when the message is copied or the insertion neither rebalances nor fails; a failed copy gives nothing; a failed insertion loses the header and keeps the body; a rebalancing one leaves the rebalanced buffer |
| `Chunk.PullUpOverwrites` | src/core/message.c:369-399 | A message of 101 bytes and a header of 40: the merged body is not header + body |
| `Chunk.PullUpLosesHeader` | src/core/message.c:369-399 | The same message, a header of 60 and a failed allocation: the message comes back unchanged, without the header |
| `RingList.Init` | src/core/list.c:23-29 | The head alone is a ring: the empty list |
| `RingList.First` | src/core/list.c:31-40 | The first item, or none |
| `RingList.Last` | src/core/list.c:42-51 | The last item, or none |
| `RingList.Next` | src/core/list.c:111-120 | The item after a given one, or none at the end |
| `RingList.Prev` | src/core/list.c:122-131 | The item before a given one, or none at the front |
| `RingList.Append` | src/core/list.c:53-65 | The list becomes items + [node], next and prev again mutually inverse; every list the head is not on is unchanged |
| `RingList.Prepend` | src/core/list.c:67-79 | The list becomes [node] + items; every list the head is not on is unchanged |
| `RingList.InsertBefore` | src/core/list.c:81-94 | The node goes right before the given item; every other list is unchanged |
| `RingList.InsertAfter` | src/core/list.c:96-109 | The node goes right after the given item; every other list is unchanged |
| `RingList.Unlink` | src/core/list.c:133-142 | The item leaves the list, the others keep their order, the node is detached |
| `RingList.Apart` | src/core/list.c:53-142 | Two lists with the head of one not on the other have no node in common: rings that share a node are the same ring |
| `RingList.NodeRemove` | src/core/list.c:168-177 | Given only the node, takes it out of whichever list holds it; a detached node stays as it is; every list that does not hold the node is unchanged |
| `RingList.MoveTo` | src/core/aio.c:501-506 | An item goes to the end of a list from wherever it is, on no list, on another or on the same one; all other lists are unchanged |
| `RingList.GrownLinks` | src/core/list.c:53-65 | The links after a splice are those of the ring with one more node |
| `RingList.ShrunkLinks` | src/core/list.c:133-142 | The links after an unlink are those of the ring with one node less |
| `Pollable.PackingRoundTrip` | src/core/pollable.c:13-17 | Two descriptors survive packing into 64 bits, and a packed pair is never the mark for no pair |
| `Pollable.RunKeeps` | src/core/pollable.c:41-96 | The invariants on pairs, calls and notifications hold in every interleaving of raise, clear and any number of getfd calls |
| `Pollable.AtRest` | src/core/pollable.c:41-96 | With no step in progress: raised with an installed pair implies a pending notification; every other pair ever opened has been closed; every finished call returned the installed pair, and every call that asked has finished so unless it could open no pair |
| `Pollable.InstalledStays` | src/core/pollable.c:84-90 | At most one pair is ever installed: once installed it stays |
| `Pollable.ReadableIff` | src/core/pollable.c:41-96 | At rest the installed pair is readable if and only if the last of the raises and clears was a raise, or the getfd call that installed it wrote its notification after a clear had finished and nothing was raised since |
| `Pollable.StaleNotice` | src/core/pollable.c:84-90 | A notification can outlive the clear: a run that ends with the pair readable and nothing raised |
| `Ctx.StepKeeps` | src/core/socket.c:1325-1455 | Every step of open, find, close, release, destroy and shutdown keeps the reference, table and list invariants |
| `Ctx.ReferencesCounted` | src/core/socket.c:1325-1455 | In every run c_ref is the number of references held, and every holder's context is alive |
| `Ctx.DestroyedOnce` | src/core/socket.c:1356-1388 | A context is destroyed at most once, and then neither the identifier table, a socket's list nor a thread refers to it |
| `Ctx.DestroysOnlyIdle` | src/core/socket.c:1367-1389 | Only a context with c_ref zero is destroyed: a closed one, or one the shutdown loop closes in the same step |
| `Ctx.FindIff` | src/core/socket.c:1325-1354 | In every run nni_ctx_find gives a reference to a context if and only if it is linked, not closed, and its socket is not closed (or the reference is for closing) |
| `Ctx.OpenRefusedIff` | src/core/socket.c:1432-1441 | In every run nni_ctx_open gives its context back if and only if the shutdown of the socket has begun |
| `Ctx.SocketsAsTold` | src/core/socket.c:733-842 | In every run a socket is closing, or closed, if and only if it was shut down, or closed |
| `Ctx.FoundIsOpen` | src/core/socket.c:1325-1354 | What is found is alive, not closed, and has the identifier asked for |
| `Ctx.MarkContexts` | src/core/socket.c:763-780 | The loop, which reads the next context before this one can leave the list, marks each listed context once |
| `Ctx.ShutdownMarks` | src/core/socket.c:763-780 | After the loop a context of the socket is closed and still listed if it has references, destroyed if not; other sockets' contexts are untouched |
| `Ctx.DrainsIff` | src/core/socket.c:763-788 | Over every run: with no reference left, the list that shutdown and close wait for is empty if and only if every context opened on the socket was marked since, by nni_ctx_close or by the shutdown loop |
| `Ctx.LateOpenStays` | src/core/socket.c:1432-1441 | A run that shows it: a context is referenced across the shutdown loop, another is opened after it and released by nni_ctx_open; from then on the list is never empty, and in the end the second context is on it, open and unreferenced, so shutdown's wait does not end |
| `Reap.StepKeeps` | src/core/reap.c:26-101 | Every step of nni_reap, the worker and nni_reap_sys_fini keeps the reaper's invariants |
| `Reap.PassFoundNothing` | src/core/reap.c:37-64 | At the end of a pass that found nothing every list is empty, although lists joined the chain meanwhile |
| `Reap.EachInOnePlace` | src/core/reap.c:26-91 | Each nni_reap call, as a ticket, is pending on a list, in the worker's batch, or done, in exactly one of them and once; rl_func is that of the list it was queued on (ReapNodes says when the pointers follow the tickets) |
| `Reap.ServedByItsList` | src/core/reap.c:74-91 | Over every run, on the events: the nni_reap call number t is on the list it was made for, in the batch of that list, or was served by the rl_func of that list, in one of them and once |
| `Reap.DrainMeansDone` | src/core/reap.c:93-101 | nni_reap_drain can return only when every list is empty, the worker has no node in hand, and every ticket taken so far was served exactly once, requeued ones included (ReapNodes.DrainServedAll for the pointers) |
| `Reap.NeverForgotten` | src/core/reap.c:62-70 | The worker never waits unwoken while a list has nodes; then reap_empty is set and nni_reap_drain can return |
| `Reap.BatchOrder` | src/core/reap.c:46-59 | A batch is served newest first, and whatever is queued on its list meanwhile is newer than all of it and waits for the next batch |
| `Reap.WorkerNeverStuck` | src/core/reap.c:26-72 | Until it exits the worker always has a step to take |
| `Reap.ExitsWhenTold` | src/core/reap.c:62-70 | Over every run: the worker exits only after nni_reap_sys_fini, is not left waiting once told, and at the end of a pass that found nothing exits if and only if it was told |
| `ReapNodes.QueueIff` | src/core/reap.c:86-88 | After nni_reap the rn_next chains still lead to exactly the calls that wait if and only if the item was not waiting already (queued more often than served), or its rn_next already equalled rl_nodes |
| `ReapNodes.WaitingIff` | src/core/reap.c:54-59 | An item has been queued more often than rl_func was called for it if and only if a call for it is on a list or in the batch |
| `ReapNodes.StepSame` | src/core/reap.c:26-101 | Each step of the pointer machine, with a safe nni_reap, is the step of the ticket machine of Reap |
| `ReapNodes.RunSame` | src/core/reap.c:26-101 | Every run of safe steps on the pointers is a run of tickets, so all of Reap's theorems hold of it |
| `ReapNodes.ServedAtMostOnce` | src/core/reap.c:54-59 | In such runs rl_func is called for an item at most as often as nni_reap was called for it |
| `ReapNodes.DrainServedAll` | src/core/reap.c:93-101 | In such runs nni_reap_drain can return only when rl_func was called for every item exactly as often as nni_reap was, every rl_nodes is NULL and the worker has nothing in hand |
| `ReapNodes.RequeueIsSafe` | src/core/reap.c:54-59 | rl_func may queue the very item it is called for: rn_next has been read already |
| `ReapNodes.QueuedTwice` | src/core/reap.c:86-88 | Queuing an item that heads its own list makes rn_next point to itself: after two nni_reap calls there are runs with any number of rl_func calls |

## Left out

- Msgq.Queue.Resize: stops at the moment the get index leaves the array; what the code reads from there on is not modelled.
- IdMap.Map.Set: values are never NULL; the code accepts NULL and counts it, while the cell then reads as free.
- Taskq.RunKeeps: the rules against preparing twice and against dispatching a listed task are part of what callers may do.
- AioSleep.StepKeeps: callers begin an operation on an aio only after its previous callback has started; one expire queue and sleeps only; other providers, several expire queues, nni_aio_fini with its wait for the expire thread, and the shutdown of the expire thread are not modelled.
- How nni_sleep_aio works out the deadline and `a_expire_ok` from its duration and the aio's timeout: both are arbitrary.
- The protocols of aio.c, taskq.c, pollable.c, reap.c and the context part of socket.c are state machines on values whose steps are the lock-held regions or atomic operations, not objects updated in place: with many threads it is the order of the steps that matters.
- Real threads, memory ordering and fairness: safety and the absence of lost wake-ups are proved, not that a step eventually happens.
- Wrap-around of the 32-bit counters of the identifier map and of 64-bit sizes; identifiers and sizes are unbounded, and the maximum identifier is below the last 64-bit value.
- Raising and clearing a pollable from two threads at once: the code's users do it under their own lock, and the model has one such thread.
- The pollables of a message queue are flags in `MsgqNotify`; their descriptors are the subject of `Pollable`.
- nni_id_get_min, nni_id_get_any, nni_id_map_foreach, the registry of identifier maps and the 32-bit allocation wrapper.
- Message headers, reference counts, protocol data and the 32-bit header helpers.
- nni_url_decode, nni_url_clone, nni_url_asprintf_port and nni_url_to_address.
- nni_sock_replace, the rest of socket.c, and dialers, listeners, pipes, devices, streams, statistics and options.
- nni_taskq_fini and starting threads: workers run for ever in the model.
- lmq.c: a simpler relative of the message queue.
