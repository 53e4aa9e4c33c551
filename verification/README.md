# VIO runtime: verified model

VIO is a coroutine and I/O runtime whose goals are exactly-once completion and
deterministic shutdown. This project models the state machines behind those goals and
proves them in Dafny for every input, every run and every interleaving. The operating
system (kernel, completion port, schedulers, hash-map iteration order) is an adversary:
its choices are arguments of the transition functions or are chosen
nondeterministically.

Each part has a value-level state machine, an invariant with one preservation lemma per
operation, theorems over whole runs, and, where the source updates fields in place, a
class whose methods are proved against the transition functions.

| part | files | main theorems |
|---|---|---|
| io_uring backend | `UringSpec`, `UringInvariant`, `UringRuns`, `UringIntents`, `UringAnswers`, `UringRefinement`, `UringBackend`, `KernelRing`, `RingBackend` | each accepted operation completes exactly once for every completion stream; cancel intent is neither lost nor duplicated; a closed handle stays closed through reuse; shutdown drains; without kernel submission the backend refines the simple one; wrapping ring positions; over the real ring, with failed enter calls, every public call is one step and leaves nothing pending |
| simple backend | `Operations`, `HandleRegistry`, `VirtualBackend` | each id in one place; stable completion order; generations |
| IOCP backend | `IocpAssociations`, `IocpSpec`, `IocpInvariant`, `IocpRuns`, `IocpAnswers`, `IocpBackend` | four indexes describe one set; native storage is released only by its packet; keys of closed handles never resolve again; closing tells exactly the right operations, in submission order; exactly once |
| timers | `LoopBudget`, `TimerSpec`, `TimerHeap`, `TimerTheorems` | pops agree with a sorted list; budget slices concatenate to one pop; handles name one timer across moves |
| shard | `Mailbox`, `ShardLoop` | no lost wakeup; what callers submitted and were told is accepted runs once, in order, before the loop exits; progress |
| semaphore and mutex | `AsyncWaiters`, `AsyncSemaphore`, `AsyncMutex` | permit ledger over the successes that callers get; mutual exclusion; no overtaking; every waiter resolved once |
| one-shot hand-offs | `TaskContinuation`, `WhenAny`, `Cancellation` | resumed, cancelled and called back exactly once in every interleaving |
| supporting cores | `ComputeExecutor`, `IovecChain` | live reservations always submit; the chain is a prefix of the buffers |

`dafny verify dfyconfig.toml` checks everything.

## How runs are modelled

- A step is what the source does under one lock, or one public call of a
  single-threaded object. Shared flags read without a lock are steps of their own.
- `PossibleRun` restricts events only to what callers and the system can do: a suspended
  operation is not awaited again, the scheduler runs jobs it was given, a new memory block has an
  address of its own, only the holder unlocks a mutex.
- History that the program does not store (what was granted, held, suspended, resumed or
  run) is written by the step that calls an operation, from the answer that the caller gets, or
  is read off the events of the run; no operation writes it and no branch reads it. So the
  theorems speak of what callers are told, and a lemma beside each operation (`SubmitAcceptsIff`,
  `AwaitAnswers`, `CancelMeans`, ...) says exactly when it gives which answer.

## Where the code decides otherwise

- Cancelling work that is still queued in the io_uring front end puts its completion
  before those that the fallback still holds. The refinement names this as its one extra
  visible step.
- A shard with an invalid budget can leave its loop without draining. `ShardLoops.LosesNoWorkIff`
  gives the exact condition on the configuration, and `ShardLoops.InvalidBudgetLosesWork` a
  run that loses work.
- `start` clears a stop request made before it; the shard model follows that.

## Model

| member | source | states |
|---|---|---|
| `UringRuns.StepKeepsInv` | `src/backends_io_uring_backend.cpp:690-882` | Every operation of the backend, for every answer of the kernel, keeps the invariant: the active ids are the disjoint union of queue, kernel operations, completions and fallback, each id once; queued work is on current handles; a kernel operation whose handle is not current, or after shutdown, carries the close mark; a cancel in flight is submitted and recorded |
| `UringRuns.RunKeepsInv` | `src/backends_io_uring_backend.cpp:690-882` | The invariant holds after every run |
| `UringRuns.Ledger` | `src/backends_io_uring_backend.cpp:690-882` | For every id and every run, accepted submissions minus drained completions is the change in its membership in the active set |
| `UringRuns.ExactlyOnce` | `src/backends_io_uring_backend.cpp:690-882` | From the empty backend, for every stream of completion entries (unknown ids, duplicates, stale acknowledgements): an id was accepted as often as drained, plus one exactly while it is active, and an active id is in exactly one place |
| `UringRuns.ShutdownDrains` | `src/backends_io_uring_backend.cpp:852-882` | After shutdown the queue is empty and every kernel operation is marked; once polls saw an entry for each of them, in any order and batching, one drain leaves no active id |
| `UringRuns.PollsAfterShutdown` | `src/backends_io_uring_backend.cpp:798-821` | Polls after shutdown remove every operation whose entry they see, add none, and keep the invariant |
| `UringInvariant.CloseKernelKeepsInv` | `src/backends_io_uring_backend.cpp:772-796` | Closing a handle in kernel mode keeps the partition and marks every kernel operation of the token before the token is retired |
| `UringInvariant.ObserveOneKeepsInv` | `src/backends_io_uring_backend.cpp:1822-1892` | Any single completion entry, known or not, moves at most one id from the kernel operations to the completions |
| `UringInvariant.FlushOneKeepsInv` | `src/backends_io_uring_backend.cpp:1563-1576` | Accepting, failing or refusing the first queued operation keeps each id in one place |
| `UringIntents.PollServesIntents` | `src/backends_io_uring_backend.cpp:1608-1648` | After a poll in which no cancel request is refused, also after shutdown, every kernel operation that was cancelled or whose handle was closed has a request made or still out; no poll adds an operation without one |
| `UringIntents.PollingServesIntents` | `src/backends_io_uring_backend.cpp:1608-1648` | Finitely many refused cancel requests are used up: after more polls than refusals every cancelled or closed kernel operation has a request made or still out |
| `UringIntents.AtMostOneCancelEach` | `src/backends_io_uring_backend.cpp:1546-1561` | In every run the kernel accepts at most one cancel request per operation that it accepted |
| `UringIntents.ClosedHandleStaysClosed` | `src/backends_io_uring_backend.cpp:325-349` | Once a token is closed, in every later state, even after the native handle is registered again: no submission on it is accepted, nothing queued is on it, its kernel operations are marked, and an uncancelled socket operation on it completes as closed whatever the kernel reports |
| `UringIntents.CloseRetiresToken` | `src/backends_io_uring_backend.cpp:772-796` | A successful close retires the token and completes what was queued on it as closed, in queue order |
| `UringIntents.CompletionMeans` | `src/backends_io_uring_backend.cpp:325-349` | Exactly when a kernel completion reports cancelled, closed, success or failure, and which count or handle it carries |
| `UringAnswers.SubmitAcceptsIff` | `src/backends_io_uring_backend.cpp:690-732` | A submission is accepted exactly if the backend is open, the ring offers the kind for the target, the id is new and not zero, the handle is current, the kernel limits are kept in kernel mode, and there is room; exhausted exactly if only room is missing, closed exactly when closed; accepted work is the last of the queue |
| `UringAnswers.CancelMeans` | `src/backends_io_uring_backend.cpp:734-770` | A cancel of queued work completes it with the given reason and takes it out; of kernel work it records the reason unless there is one, and the request unless it is refused; nothing else changes |
| `UringAnswers.CancelRefusals` | `src/backends_io_uring_backend.cpp:734-770` | A cancel succeeds exactly for work that is queued, in the kernel or in the fallback of an open backend that can cancel, with the code for each other case; a refused one changes nothing |
| `UringAnswers.StepIntents` | `src/backends_io_uring_backend.cpp:690-882` | Over every step the reason and the close mark of a kernel operation come only from a cancel, close or shutdown that reaches it, and the first reason stays |
| `UringAnswers.CancelReachesKernel` | `src/backends_io_uring_backend.cpp:1608-1648` | A user cancel of kernel work is not lost even if the kernel refuses it: after more polls than refusals the operation has completed, or its request is made and the first reason stands |
| `UringAnswers.FlushOneMeans` | `src/backends_io_uring_backend.cpp:1341-1441` | An accepted first operation is in the kernel without any intent; one whose enter call fails completes with that error; a refused one stays |
| `UringAnswers.EntryMeans` | `src/backends_io_uring_backend.cpp:1822-1892` | An entry of a kernel operation completes exactly it, with the result that its class gives; an acknowledgement only clears the cancel in flight; an unknown entry changes nothing |
| `UringAnswers.CloseAnswers` | `src/backends_io_uring_backend.cpp:772-882` | Exactly when a close or a shutdown is refused, and with which code; a refused one changes nothing |
| `UringAnswers.ShutdownMeans` | `src/backends_io_uring_backend.cpp:852-882` | Shutdown completes everything queued as closed, in order, and every kernel operation carries the close mark |
| `UringAnswers.DrainHandsOut` | `src/backends_io_uring_backend.cpp:823-840` | A drain hands out the oldest completions, as many as fit, and exactly their ids become free |
| `UringRefinement.SubmitSimulates` | `src/backends_io_uring_backend.cpp:690-732` | Without kernel submission an accepted submit is a submit of the simple backend, and a rejection that the simple backend would not make is only for missing support or a full queue |
| `UringRefinement.PollStutters` | `src/backends_io_uring_backend.cpp:1690-1716` | Without kernel submission a poll changes nothing that the simple backend shows |
| `UringRefinement.CloseSimulates` | `src/backends_io_uring_backend.cpp:772-796` | Flushing the queued work of a handle and closing it in the fallback equals closing it in the simple backend, with the same completions in the same order and the same result |
| `UringRefinement.ShutdownSimulates` | `src/backends_io_uring_backend.cpp:852-882` | Shutdown equals shutdown of the simple backend, completions in the same order |
| `UringRefinement.DrainSimulates` | `src/backends_io_uring_backend.cpp:823-840` | A drain hands out a prefix of what the simple backend has queued |
| `UringRefinement.CancelSimulates` | `src/backends_io_uring_backend.cpp:734-770` | A cancel is a step of the simple backend, except for work that is still queued, where it is the one extra visible step |
| `UringRefinement.CancelResultAgrees` | `src/backends_io_uring_backend.cpp:734-770` | A cancel of work that is no longer queued succeeds exactly when the simple backend's does |
| `UringRefinement.StepSimulates` | `src/backends_io_uring_backend.cpp:690-882` | Every step without kernel submission is a step of the simple backend, a stutter, or the cancel of queued work |
| `UringRefinement.RunSimulates` | `src/backends_io_uring_backend.cpp:690-882` | Every run without kernel submission is a run of the simple backend that hands out the same completions in the same order |
| `UringRefinement.FlushNeverFails` | `src/backends_io_uring_backend.cpp:1332-1339` | The fallback accepts everything a poll or close flushes, so the flush-failure branch is unreachable |
| `UringRefinement.AbsKeepsInv` | `src/backend.cpp:87-184` | The abstract state of the front end satisfies the invariant of the simple backend |
| `UringBackends.IoUringBackend.SubmitOperation` | `src/backends_io_uring_backend.cpp:690-732` | The checks in source order, their error codes, and the new state |
| `UringBackends.IoUringBackend.RequestCancellation` | `src/backends_io_uring_backend.cpp:1546-1561` | The test kernel refuses while it has failures left; otherwise flags and cancel id are set and the cancel is sent |
| `UringBackends.MarkOperations` | `src/backends_io_uring_backend.cpp:1456-1476` | The loop marks exactly the operations in scope and lists, once each, those without a cancel request |
| `UringBackends.CollectMissing` | `src/backends_io_uring_backend.cpp:1608-1625` | The loop lists exactly the operations with cancel or close intent and no request, each once |
| `UringBackends.IoUringBackend.RequestCancellationsFor` | `src/backends_io_uring_backend.cpp:1456-1489` | Marking and requesting equals the specification for some enumeration of the hash map; its unsupported branch is dead |
| `UringBackends.IoUringBackend.CancelOperation` | `src/backends_io_uring_backend.cpp:734-770` | Queued work completes as cancelled, a kernel operation keeps its first reason and gets a request, other ids go to the fallback; results as specified |
| `UringBackends.IoUringBackend.CompleteQueuedFor` | `src/backends_io_uring_backend.cpp:1928-1939` | The erasing loop completes exactly the work of the token, in order, and keeps the rest in order |
| `UringBackends.IoUringBackend.FlushQueuedFor` | `src/backends_io_uring_backend.cpp:1911-1926` | The erasing loop moves exactly the work of the token to the fallback, which accepts all of it |
| `UringBackends.IoUringBackend.CloseHandle` | `src/backends_io_uring_backend.cpp:772-796` | Result and new state of a close in both modes |
| `UringBackends.IoUringBackend.FlushToKernel` | `src/backends_io_uring_backend.cpp:1563-1576` | The batch loop submits the first operations of the queue up to the batch limit |
| `UringBackends.IoUringBackend.RetryMissing` | `src/backends_io_uring_backend.cpp:1608-1648` | The two loops request exactly the missing cancellations, each once, in some enumeration order |
| `UringBackends.IoUringBackend.ObserveCompletions` | `src/backends_io_uring_backend.cpp:1822-1892` | The loop observes the scripted entries up to the batch limit, in order |
| `UringBackends.IoUringBackend.PollKernelMode` | `src/backends_io_uring_backend.cpp:798-821` | A poll over the test kernel is a poll step of the specification |
| `UringBackends.IoUringBackend.PollFallbackMode` | `src/backends_io_uring_backend.cpp:1690-1716` | A poll without kernel submission flushes, takes completions up to the limit, and never fails |
| `UringBackends.IoUringBackend.DrainCompletions` | `src/backends_io_uring_backend.cpp:823-840` | Hands out a prefix of the completions and releases exactly their ids |
| `UringBackends.IoUringBackend.DrainFallback` | `src/backends_io_uring_backend.cpp:1894-1909` | The batched loop empties the fallback in order |
| `UringBackends.IoUringBackend.Shutdown` | `src/backends_io_uring_backend.cpp:852-882` | Marks and cancels everything, closes the fallback, completes the queue as closed |
| `KernelRings.UserDataRoundTrip` | `src/backends_io_uring_backend.cpp:234-259` | Operation and cancel entries decode to themselves and are never confused; exactly the ids below the tag are encodable |
| `KernelRings.SlotsDiffer` | `src/backends_io_uring_backend.cpp:462-477` | Positions less than a ring apart use different slots |
| `KernelRings.SlotAfterWrapped` | `src/backends_io_uring_backend.cpp:462-477` | Wrapping a 32-bit position does not change the slots reached from it, because the ring size divides the range |
| `KernelRings.DivisorsAreRingSizes` | `src/backends_io_uring_backend.cpp:462-477` | Every divisor of the position range, hence every power of two, is an admissible ring size |
| `KernelRings.KernelRing.Publish` | `src/backends_io_uring_backend.cpp:462-483` | An entry is published behind the pending ones and overwrites none of them, unless the ring is full, in which case nothing changes |
| `KernelRings.KernelRing.SubmitPendingOnce` | `src/backends_io_uring_backend.cpp:485-508` | The kernel reads a non-empty prefix of the pending entries in order and the pending count stays tail minus head, or nothing changes |
| `KernelRings.KernelRing.DropPending` | `src/backends_io_uring_backend.cpp:510-517` | Afterwards nothing is pending and tail equals head |
| `RingBackends.RingBackend.DiscardSubmitted` | `src/backends_io_uring_backend.cpp:292-299` | Drops exactly the reported number of entries from the front of the deque |
| `RingBackends.RingBackend.SettleUnsubmitted` | `src/backends_io_uring_backend.cpp:1650-1688` | The loop has the effect specified for the left-over entries, empties the deque, and counts the completions it made |
| `KernelRings.FailedEnterSettlesExactly` | `src/backends_io_uring_backend.cpp:1650-1688` | A failed enter completes each unsubmitted operation once, never with success: with its own cancellation, else closed if backend, mark or handle say so, else with the error of the enter call; it re-arms each unsubmitted cancel, and leaves every other operation, cancel id and completion as it was |
| `KernelRings.ToldApart` | `src/backends_io_uring_backend.cpp:1650-1688` | For an enter error that is neither closed nor cancelled, a left-over operation is told cancelled with a reason exactly if it has that reason, and closed exactly if it has none and backend, mark or handle say so |
| `RingBackends.RingBackend.Progress` | `src/backends_io_uring_backend.cpp:1578-1606` | The deque is what the ring holds; the kernel takes a prefix of it, exactly the rest is settled as unsubmitted, and afterwards both are empty |
| `RingBackends.RingBackend.FlushFront` | `src/backends_io_uring_backend.cpp:1341-1441` | Submitting the first queued operation is a flush step of the specification: refused exactly if there is no ring and none can be created, otherwise accepted, or completed with the error of the failed enter call; a settled ring is never full and is left settled |
| `RingBackends.RingBackend.EnsureRing` | `src/backends_io_uring_backend.cpp:1069-1084` | An existing ring stays; creating one may fail; nothing else changes |
| `RingBackends.RingBackend.FlushBatch` | `src/backends_io_uring_backend.cpp:1563-1576` | The batch loop is the flush of the specification; a refusal comes at the first operation and only while the kernel has nothing |
| `RingBackends.RingBackend.RequestCancellation` | `src/backends_io_uring_backend.cpp:1491-1544` | Requesting a cancel is the accepted or failed-enter step of the specification, refused exactly for an id that cannot be encoded, and leaves the ring empty |
| `RingBackends.RingBackend.RequestCancellationsFor` | `src/backends_io_uring_backend.cpp:1456-1489` | Marks everything in scope and requests what has no cancel request yet |
| `RingBackends.RingBackend.RetryMissing` | `src/backends_io_uring_backend.cpp:1608-1648` | Requests exactly the missing cancellations, each once, in some enumeration order |
| `RingBackends.RingBackend.ObserveKernel` | `src/backends_io_uring_backend.cpp:1718-1820` | Progress, retries and the entries up to the batch limit, in order; a failed enter for overflowed entries observes none |
| `RingBackends.RingBackend.Poll` | `src/backends_io_uring_backend.cpp:798-821` | Over the ring a poll, with failed enter calls and any completion entries, is one possible step of the specification, counts the new completions, and returns with nothing pending |
| `RingBackends.RingBackend.CancelOperation` | `src/backends_io_uring_backend.cpp:734-770` | Over the ring a cancel is one step of the specification, with its result, and returns with nothing pending |
| `RingBackends.RingBackend.CloseHandle` | `src/backends_io_uring_backend.cpp:772-796` | Over the ring a close is one possible step of the specification, with its result, and returns with nothing pending |
| `RingBackends.RingBackend.Shutdown` | `src/backends_io_uring_backend.cpp:852-882` | Over the ring a shutdown is one possible step of the specification, with its result, and returns with nothing pending |
| `VirtualBackends.CompletePendingKeepsCounts` | `src/backend.cpp:212-221` | Completing the work of a handle moves each selected id from pending to completions and keeps each id in one place |
| `VirtualBackends.CompleteReadyKeepsInv` | `src/backend.cpp:202-243` | Completing by readiness keeps each id in one place and queued work on current handles |
| `VirtualBackends.SubmitAcceptsIff` | `src/backend.cpp:87-108` | A submission is accepted exactly for a running backend, a new id that is not zero, a kind that the target has and a current handle, and then it is the last pending one |
| `VirtualBackends.CancelAcceptsIff` | `src/backend.cpp:110-127` | A cancel succeeds exactly for pending work of a running backend |
| `VirtualBackends.CloseMeans` | `src/backend.cpp:129-141` | A close takes exactly the work of the token out of the pending list, completes it as closed and retires the token |
| `VirtualBackends.ReadyMeans` | `src/backend.cpp:202-243` | Readiness takes exactly the socket reads and accepts, or writes and connects, of the token out of the pending list and completes them successfully |
| `VirtualBackends.StopMeans` | `src/backend.cpp:172-184` | Shutdown completes all pending work as closed, in order |
| `Operations.SelectedMeans` | `src/backend.cpp:223-243` | What a readiness event serves: read for socket reads and accepts, write for socket writes and connects |
| `Operations.PickedPlaces` | `src/backend.cpp:212-243` | What is taken and what stays both keep the order of the pending list |
| `VirtualBackends.VirtualBackend.SubmitOperation` | `src/backend.cpp:87-108` | Checks in order, error codes, and the new state |
| `VirtualBackends.VirtualBackend.CancelOperation` | `src/backend.cpp:110-127` | Reports whether the id is pending and changes nothing but a counter |
| `VirtualBackends.VirtualBackend.CompleteSelected` | `src/backend.cpp:212-243` | The loop is a stable partition: selected work completes in order, the rest stays in order |
| `VirtualBackends.VirtualBackend.Close` | `src/backend.cpp:129-141` | Retires a current token and completes its work as closed |
| `VirtualBackends.VirtualBackend.Ready` | `src/backend.cpp:202-210` | Completes the socket work that a readiness event of a current token serves |
| `VirtualBackends.VirtualBackend.Drain` | `src/backend.cpp:147-161` | Hands out a prefix of the completions and releases exactly their ids |
| `VirtualBackends.VirtualBackend.Shutdown` | `src/backend.cpp:172-184` | Completes all pending work as closed, once |
| `HandleRegistry.RetiredForever` | `src/native_handle_registry.cpp:5-37` | A closed token is never current again, even after its native handle is registered anew |
| `HandleRegistry.RegisterIsFresh` | `src/native_handle_registry.cpp:5-20` | A registration returns the one current token of its native handle, which no earlier state could have handed out |
| `HandleRegistry.CloseRetires` | `src/native_handle_registry.cpp:22-31` | Closing retires exactly the closed token |
| `HandleRegistry.NativeHandleRegistry.RegisterHandle` | `src/native_handle_registry.cpp:5-20` | Fails for zero and for an open handle; otherwise opens the next generation |
| `HandleRegistry.NativeHandleRegistry.Close` | `src/native_handle_registry.cpp:22-31` | Closes a current token and rejects every other |
| `TimerHeaps.TimerHeap.SiftUp` | `src/timer.cpp:112-121` | Restores heap order and index map when only the path above the entry was wrong, and keeps the timers |
| `TimerHeaps.TimerHeap.SiftDown` | `src/timer.cpp:123-144` | Restores heap order and index map when only the path below the entry was wrong, and keeps the timers |
| `TimerHeaps.TimerHeap.RepairAt` | `src/timer.cpp:146-156` | One direction suffices to restore the heap after a replaced entry |
| `TimerHeaps.TimerHeap.EraseAt` | `src/timer.cpp:158-169` | Removes exactly one timer; the heap stays ordered and the index an exact bijection |
| `TimerHeaps.TimerHeap.MoveFrom` | `src/timer.cpp:18-25` | The new heap has the timers and the owner id, the old one is empty under a fresh owner id |
| `TimerHeaps.TimerHeap.MoveAssign` | `src/timer.cpp:27-39` | As the move constructor; moving to itself changes nothing |
| `TimerHeaps.TimerHeap.Add` | `src/timer.cpp:179-191` | Adds exactly one timer under a new id |
| `TimerHeaps.TimerHeap.Cancel` | `src/timer.cpp:193-205` | Succeeds exactly for a handle of this heap that names a live timer, and removes exactly that timer |
| `TimerHeaps.TimerHeap.NextDeadline` | `src/timer.cpp:232-237` | The least deadline, and nothing exactly for an empty heap |
| `TimerHeaps.TimerHeap.CurrentDeadlineBatchSize` | `src/timer.cpp:78-86` | The size of the deadline group |
| `TimerHeaps.TimerHeap.NextReadyDeadlineAfter` | `src/timer.cpp:88-99` | The least ready deadline after the given one, if any |
| `TimerHeaps.TimerHeap.PlanReadyBatches` | `src/timer.cpp:51-76` | Plans the lowest ready deadlines up to the limit and counts their timers |
| `TimerHeaps.TimerHeap.PopDeadlineBatch` | `src/timer.cpp:171-177` | Pops exactly the group of the least deadline, in id order |
| `TimerHeaps.TimerHeap.PopReady` | `src/timer.cpp:207-216` | Returns exactly the timers due, sorted by deadline and id and as many as planned, and leaves exactly the rest; the front is never read of an empty heap |
| `TimerHeaps.TimerHeap.PopReadyWithin` | `src/timer.cpp:218-230` | Pops the lowest ready groups whole, as many as the budget allows, one unit each and as many timers as planned; the inner consume never fails |
| `TimerSpec.SlicesConcatenate` | `src/timer.cpp:218-230` | Budgeted pops at one time until nothing is ready return, concatenated, the unbudgeted result and leave the same timers |
| `TimerSpec.ReadyIsGroup` | `src/timer.cpp:51-76` | Planning all ready deadlines counts all ready timers |
| `TimerTheorems.PopReadyInSlices` | `src/timer.cpp:207-230` | Popping with fresh slices of any valid budget equals one unbudgeted pop |
| `TimerTheorems.HandlesNameOneTimer` | `src/timer.cpp:10-39` | Over every program of creations, moves, adds, cancels, pops, budgeted pops and destructions, a handle is issued once, names at most one timer of one heap, and a cancel removes exactly that timer or changes nothing |
| `TimerTheorems.CreateHeap` | `src/timer.cpp:15-16` | A real heap performs the creation of the world of heaps |
| `TimerTheorems.MoveConstructHeap` | `src/timer.cpp:18-25` | A real heap performs the move construction |
| `TimerTheorems.MoveAssignHeap` | `src/timer.cpp:27-39` | Real heaps perform the move assignment |
| `TimerTheorems.AddTimer` | `src/timer.cpp:179-191` | A real heap performs the add |
| `TimerTheorems.CancelTimer` | `src/timer.cpp:193-205` | A real heap performs the cancel |
| `TimerTheorems.PopTimers` | `src/timer.cpp:207-216` | A real heap performs the pop |
| `TimerTheorems.PopTimersWithin` | `src/timer.cpp:218-230` | A real heap performs the budgeted pop as a pop of whole deadline groups |
| `LoopBudgets.LoopBudgetSlice.Create` | `include/voris/io/loop_budget.hpp:27-33` | A slice exists exactly for a budget without zero limits |
| `LoopBudgets.LoopBudgetSlice.ConsumeTask` | `include/voris/io/loop_budget.hpp:35-37` | Succeeds exactly while budget remains and takes one unit |
| `LoopBudgets.LoopBudgetSlice.ConsumeTimer` | `include/voris/io/loop_budget.hpp:43-45` | Succeeds exactly while budget remains and takes one unit |
| `ShardLoops.StepKeepsInv` | `src/shard.cpp:26-175` | Every step of every thread keeps: the lock owner is the one locked thread and sees no stop; an iteration spends its budget exactly; what an idle iteration has looked at changes only with a signal |
| `ShardLoops.SubmitAnswers` | `src/shard.cpp:26-80` | A submission is refused exactly when a stop was requested or its lane is full; otherwise its work, and nothing else, joins the end of the lane that was asked for |
| `ShardLoops.SystemWorkFirst` | `include/voris/io/detail/mailbox.hpp:97-103` | The worker looks for user work only after it has found the system lane empty, and takes the oldest work of a lane |
| `ShardLoops.WorkIsConserved` | `src/shard.cpp:26-153` | In every interleaving, the work that callers submitted to a lane and were told is accepted, read off the calls, is what the worker ran from it, runs and has waiting, in that order |
| `ShardLoops.NoWakeupIsLost` | `include/voris/io/backend_wakeup.hpp:18-54` | In every interleaving, a worker parked without pending wakes while work or a stop request is there has some other thread between its push or flag and its wake |
| `ShardLoops.ExitRanEverything` | `src/shard.cpp:202-226` | When the loop has exited, everything that callers submitted and were told is accepted has run once, in the order of its lane, exactly if the loop drained or nothing was accepted; it skips the drain only for an invalid budget, and then nothing has run |
| `ShardLoops.LosesNoWorkIff` | `src/shard.cpp:202-226` | In all runs everything submitted and accepted has run by the time the loop has exited if and only if the budget is valid or the capacity is zero |
| `ShardLoops.ValidBudgetAlwaysDrains` | `src/shard.cpp:202-226` | With a valid budget the loop never leaves without draining |
| `ShardLoops.InvalidBudgetLosesWork` | `src/shard.cpp:95-99` | With an invalid budget a submitted continuation is lost: a concrete run |
| `ShardLoops.QuietWorkerFinishes` | `src/shard.cpp:202-226` | Once no thread is in a call, the started worker comes to rest by itself with everything submitted and accepted run in order: exited if stop was requested, parked if not |
| `Mailboxes.BoundedQueue.TryPush` | `include/voris/io/detail/bounded_queue.hpp:38-48` | First in, first out up to the capacity; a full queue counts saturating pressure |
| `Mailboxes.BoundedQueue.Pop` | `include/voris/io/detail/bounded_queue.hpp:50-62` | Takes the oldest item and resets the pressure |
| `Mailboxes.Mailbox.SubmitSystem` | `include/voris/io/detail/mailbox.hpp:36-38` | System work goes behind other system work and before all user work |
| `Mailboxes.Mailbox.PopNext` | `include/voris/io/detail/mailbox.hpp:97-103` | Takes the first waiting item, system work first |
| `Mailboxes.Mailbox.RunForBudget` | `include/voris/io/detail/mailbox.hpp:49-61` | Runs waiting items in order, one unit each, and stops early only when nothing waits, also when the work submits more; without that, exactly the first items that the budget allows |
| `Mailboxes.Mailbox.RunUntilIdle` | `include/voris/io/detail/mailbox.hpp:63-69` | Ends with everything accepted run, in the order of its queue, also when the work submits more |
| `IocpAssociations.PackRoundTrip` | `include/voris/io/backends/iocp_backend.hpp:67-85` | A packed key is not the wake sentinel and unpacks to itself; exactly the keys out of range and the sentinel pattern are rejected |
| `IocpAssociations.UnpackRoundTrip` | `include/voris/io/backends/iocp_backend.hpp:87-103` | A raw word that unpacks packs to itself |
| `IocpAssociations.StepKeepsInv` | `src/backends_iocp_backend.cpp:144-259` | Registration, with or without rollback, and closing keep: a slot is reusable exactly when its id is in the free list, once; open slots and the native-handle map are inverse; open slots carry exactly the current tokens |
| `IocpAssociations.RunKeepsInv` | `src/backends_iocp_backend.cpp:736-774` | The table invariant holds in every state of every run |
| `IocpAssociations.OpenHandlesResolve` | `src/backends_iocp_backend.cpp:261-296` | A token has a key exactly while it is current; the key packs, resolves to that token, and is the only one that does |
| `IocpAssociations.ClosedKeyNeverResolves` | `src/backends_iocp_backend.cpp:231-259` | The key of a closed handle resolves to nothing in every later state of the run |
| `IocpAssociations.CreateKeepsSpent` | `src/backends_iocp_backend.cpp:144-207` | A new association never gets a key that was spent by a close |
| `IocpAssociations.AssociationTable.CreateAssociation` | `src/backends_iocp_backend.cpp:144-207` | On a valid table the loop takes the last free id or appends a slot; its skipping and failing branches are dead and the only error is a full table |
| `IocpAssociations.AssociationTable.RollbackAssociation` | `src/backends_iocp_backend.cpp:209-229` | Frees the slot without a generation bump |
| `IocpAssociations.AssociationTable.Close` | `src/backends_iocp_backend.cpp:231-259` | Frees the slot with a bump at reuse, or retires it when its generations are used up |
| `IocpInvariant.StepKeepsInv` | `src/backends_iocp_backend.cpp:781-956` | Every step keeps: operations, order list, order index and address map describe the same set; active ids are storage and completions disjointly; open handles' operations carry the live key, those of closed handles the close mark and a spent key; the port is open exactly while needed |
| `IocpInvariant.RunKeepsInv` | `src/backends_iocp_backend.cpp:781-956` | The invariant holds after every run |
| `IocpInvariant.EraseKeepsOrder` | `src/backends_iocp_backend.cpp:498-512` | Erasing through the order index removes exactly the node of the operation |
| `IocpInvariant.MarkAllKeepsInv` | `src/backends_iocp_backend.cpp:339-407` | Closing or shutting down removes only operations that are not native, and marks everything else in scope |
| `IocpRuns.PacketEffect` | `src/backends_iocp_backend.cpp:420-444` | A packet completes exactly the one operation with its address and key; without such an operation it changes nothing |
| `IocpRuns.NativeStorageNeedsPacket` | `src/backends_iocp_backend.cpp:317-512` | Storage of a natively submitted operation is released only by a poll, with a packet of its address and key among the queued ones within the batch limit or among those taken from the port |
| `IocpRuns.ExactlyOnce` | `src/backends_iocp_backend.cpp:781-916` | Over every run each accepted operation is stored, waiting as a completion, or drained: exactly one of these, once |
| `IocpRuns.StoppedPortCloses` | `src/backends_iocp_backend.cpp:514-524` | After shutdown, packets for the remaining operations complete them all and close the port |
| `IocpRuns.ClosedHandleStaysClosed` | `src/backends_iocp_backend.cpp:457-496` | On a closed token, in every later state: nothing is accepted, its operations' keys resolve to nothing, and they complete as closed or by their own cancellation |
| `IocpRuns.CompletionMeans` | `src/backends_iocp_backend.cpp:457-496` | Exactly when a packet reports cancelled, closed, success or failure, and which count or handle it carries |
| `IocpAnswers.RegisterAnswers` | `src/backends_iocp_backend.cpp:736-779` | A registration succeeds exactly for a handle that is neither zero nor open, with a free or new slot and a successful system call, and gives the one current token; otherwise no token changes its currency |
| `IocpAnswers.SubmitAcceptsIff` | `src/backends_iocp_backend.cpp:781-812` | A submission is accepted exactly for a running backend, a new id that is not zero, a kind that the target has and a current handle; the refusal says closed exactly after shutdown |
| `IocpAnswers.SubmitStores` | `src/backends_iocp_backend.cpp:781-812` | Accepted work is stored without marks, with a key that resolves to its handle, after everything else in submission order |
| `IocpAnswers.CancelMeans` | `src/backends_iocp_backend.cpp:814-849` | A cancel of work that is not native completes it as cancelled; of native work it records the reason unless there is one, and the request unless the system call fails; nothing else changes |
| `IocpAnswers.CancelRefusals` | `src/backends_iocp_backend.cpp:814-849` | A cancel is refused as closed exactly after shutdown or a close of the handle, and as invalid exactly for an unknown id, and then changes nothing |
| `IocpAnswers.MarkAllMeans` | `src/backends_iocp_backend.cpp:339-407` | Of the operations in scope the native ones stay, marked, each with its cancel request unless the system call failed; exactly the others go and are told closed, in submission order; what is not in scope is untouched |
| `IocpAnswers.MarkAllAnswers` | `src/backends_iocp_backend.cpp:339-407` | A close or shutdown reports a failure exactly if a needed system call failed for something in scope |
| `IocpAnswers.CloseMeans` | `src/backends_iocp_backend.cpp:851-873` | A close is carried out exactly for a current token of a running backend, retires exactly that token, and its key resolves to nothing |
| `IocpAnswers.ShutdownMeans` | `src/backends_iocp_backend.cpp:939-956` | A shutdown stops the backend after marking everything, and the port stays open exactly while operations are left |
| `IocpAnswers.StepMarks` | `src/backends_iocp_backend.cpp:781-956` | Over every step the reason, the close mark and the cancel request of a stored operation come only from a call that reaches it, and the first reason stays |
| `IocpAnswers.PollReleasesIff` | `src/backends_iocp_backend.cpp:875-895` | A poll with nothing to hand out releases exactly the operations with a matching packet among the queued ones within the batch limit or among those taken from the port |
| `IocpAnswers.DrainHandsOut` | `src/backends_iocp_backend.cpp:897-916` | A drain hands out the oldest completions, as many as fit, and exactly their ids become free |
| `IocpBackends.IocpBackend.RegisterHandle` | `src/backends_iocp_backend.cpp:736-779` | The registration sequence with its rollbacks, for both outcomes of the system call |
| `IocpBackends.IocpBackend.SubmitOperation` | `src/backends_iocp_backend.cpp:781-812` | Checks in order, and the new storage with all four indexes |
| `IocpBackends.IocpBackend.EraseStorage` | `src/backends_iocp_backend.cpp:498-512` | Removes one operation from all indexes |
| `IocpBackends.IocpBackend.CancelOperation` | `src/backends_iocp_backend.cpp:814-849` | The first reason stays; work that is not native completes at once; native work gets one cancel request |
| `IocpBackends.IocpBackend.MarkRequested` | `src/backends_iocp_backend.cpp:339-407` | The two loops close the operations in scope in submission order and report the first failure |
| `IocpBackends.IocpBackend.CloseHandle` | `src/backends_iocp_backend.cpp:851-873` | Marks, retires the token, closes the association |
| `IocpBackends.IocpBackend.Shut` | `src/backends_iocp_backend.cpp:939-956` | Marks everything, stops, and closes the port if nothing is left |
| `IocpBackends.IocpBackend.ObservePacket` | `src/backends_iocp_backend.cpp:420-444` | The observation of one packet |
| `IocpBackends.IocpBackend.ObserveQueuedPackets` | `src/backends_iocp_backend.cpp:409-418` | The loop observes queued packets up to the batch limit, also when the port closes meanwhile |
| `IocpBackends.IocpBackend.PollPort` | `src/backends_iocp_backend.cpp:875-895` | A poll hands out what it has, or observes queued packets and then the port within one batch limit |
| `IocpBackends.IocpBackend.DrainCompletions` | `src/backends_iocp_backend.cpp:897-916` | Hands out a prefix of the completions, releases exactly their ids, and rejects an empty output |
| `AsyncSemaphores.StepKeepsInv` | `include/voris/io/async_semaphore.hpp:204-350` | Every operation keeps the permit ledger, the queue order, the bound, that waiting means no permits, and that exactly the suspended operations with a success have a permit reserved |
| `AsyncSemaphores.PermitsAreConserved` | `include/voris/io/async_semaphore.hpp:97-350` | In every run of a living semaphore: permits that are free, reserved, handed to callers as a success or lost to saturation add up to initial plus released; nothing is lost below the largest count; waiting operations mean no permits, stay within the bound and stand in joining order; whoever joined and got a success joined before everybody who still waits |
| `AsyncSemaphores.TryAcquireAnswers` | `include/voris/io/async_semaphore.hpp:169-181` | Succeeds exactly on a living semaphore with a permit, and otherwise changes nothing |
| `AsyncSemaphores.AwaitAnswers` | `include/voris/io/async_semaphore.hpp:83-117` | An awaited new operation succeeds exactly if there is a permit, is refused as exhausted exactly if there is none and the queue is full, waits at the end of the queue exactly if there is room and a scheduler, and fails as invalid otherwise; nobody else notices |
| `AsyncSemaphores.ReleaseAnswers` | `include/voris/io/async_semaphore.hpp:288-312` | A release gives a success and a scheduled resume to exactly the first operations of the queue and adds the rest to the permits up to the largest count |
| `AsyncSemaphores.ResumeAnswers` | `include/voris/io/async_semaphore.hpp:363-372` | A resumed caller is handed the result that its operation already has |
| `AsyncSemaphores.SuspendedWillResume` | `include/voris/io/async_semaphore.hpp:235-255` | No resume is lost: a suspended operation is queued or complete and with the scheduler |
| `AsyncSemaphores.DestroyResolvesQueued` | `include/voris/io/async_semaphore.hpp:314-335` | Destruction resolves exactly the queued operations with an error and schedules them |
| `AsyncSemaphores.StepSettles` | `include/voris/io/async_semaphore.hpp:38-46` | The first result of an operation is its only one, and it resumes at most once |
| `AsyncSemaphores.AsyncSemaphore.TryAcquirePermit` | `include/voris/io/async_semaphore.hpp:169-181` | Performs the step, in which the ledger counts a permit exactly if the answer is a success |
| `AsyncSemaphores.AsyncSemaphore.TryCompleteImmediate` | `include/voris/io/async_semaphore.hpp:204-233` | Completes at once with a permit or an error, or reports that the operation must wait |
| `AsyncSemaphores.AsyncSemaphore.AwaitAcquire` | `include/voris/io/async_semaphore.hpp:83-95` | Performs the step and returns the answer; the ledger counts a permit exactly if the caller is told a success |
| `AsyncSemaphores.AsyncSemaphore.HandOutPermits` | `include/voris/io/async_semaphore.hpp:288-312` | The loop gives one permit each to the first operations of the queue, touches no other, and adds the rest to the permits |
| `AsyncSemaphores.AsyncSemaphore.ReleasePermits` | `include/voris/io/async_semaphore.hpp:187-189` | A release hands out on a living semaphore and keeps the ledger |
| `AsyncSemaphores.AsyncSemaphore.AddPermitsSaturating` | `include/voris/io/async_semaphore.hpp:374-382` | Adds up to the largest count |
| `AsyncSemaphores.AsyncSemaphore.DetachOperation` | `include/voris/io/async_semaphore.hpp:257-286` | A destroyed operation leaves the queue, or gives its reserved permit back to the next |
| `AsyncSemaphores.AsyncSemaphore.ResumeOperation` | `include/voris/io/async_semaphore.hpp:363-372` | The job resumes an operation that is still suspended, once, and hands over its result, which the ledger counts if it is a success |
| `AsyncSemaphores.AsyncSemaphore.CloseState` | `include/voris/io/async_semaphore.hpp:314-335` | The loop resolves every queued operation |
| `AsyncSemaphores.AsyncSemaphore.Close` | `include/voris/io/async_semaphore.hpp:160-162` | Performs the destruction step on a valid semaphore |
| `AsyncMutexes.StepKeepsInv` | `include/voris/io/async_mutex.hpp:208-398` | Every operation keeps the meaning of the lock flag, the single reservation, the queue order and the bound |
| `AsyncMutexes.MutualExclusion` | `include/voris/io/async_mutex.hpp:208-398` | In every run a caller is told that it has the lock only while no caller that was told so has yet to unlock |
| `AsyncMutexes.LockIsOwnedOnce` | `include/voris/io/async_mutex.hpp:95-398` | In every run of a living mutex: locked exactly when a caller that was told it has the lock has yet to unlock or one operation has it reserved, never both; operations wait only while it is locked, within the bound and in joining order, and whoever joined and was served joined before everybody who still waits |
| `AsyncMutexes.TryLockAnswers` | `include/voris/io/async_mutex.hpp:168-181` | Succeeds exactly on a living mutex that nobody holds or has reserved, and otherwise changes nothing |
| `AsyncMutexes.AwaitAnswers` | `include/voris/io/async_mutex.hpp:81-119` | An awaited new operation succeeds exactly if the lock is free, is refused as exhausted exactly if it is not and the queue is full, waits at the end of the queue exactly if there is room and a scheduler, and fails as invalid otherwise; nobody else notices |
| `AsyncMutexes.UnlockAnswers` | `include/voris/io/async_mutex.hpp:287-310` | An unlock frees the lock, or reserves it for the front of the queue and schedules that one; nobody else notices |
| `AsyncMutexes.ResumeAnswers` | `include/voris/io/async_mutex.hpp:371-398` | A resumed caller is told a success exactly if the lock is reserved for it, and otherwise the error it already has |
| `AsyncMutexes.AbandonPassesOn` | `include/voris/io/async_mutex.hpp:261-285` | Abandoning a reserved lock passes it to the next operation in the queue, or frees it |
| `AsyncMutexes.DestroyResolvesWaiting` | `include/voris/io/async_mutex.hpp:312-343` | Destruction resolves exactly the queued and the reserved operations, with an error and a scheduled resume |
| `AsyncMutexes.StepSettles` | `include/voris/io/async_mutex.hpp:36-44` | The first result of an operation is its only one, and it resumes at most once |
| `AsyncMutexes.AsyncMutex.TryLockNow` | `include/voris/io/async_mutex.hpp:168-181` | Performs the step, in which the caller becomes the holder exactly if the answer is a success |
| `AsyncMutexes.AsyncMutex.UnlockNow` | `include/voris/io/async_mutex.hpp:187-193` | The holder hands the lock on or frees it |
| `AsyncMutexes.AsyncMutex.TransferOrUnlock` | `include/voris/io/async_mutex.hpp:287-310` | The loop reserves the lock for the front operation, which in a valid mutex can always resume, or frees it |
| `AsyncMutexes.AsyncMutex.AwaitLock` | `include/voris/io/async_mutex.hpp:81-93` | Performs the step and returns the answer; the caller becomes the holder exactly if it is told a success |
| `AsyncMutexes.AsyncMutex.ResumeOperation` | `include/voris/io/async_mutex.hpp:371-398` | The job completes a reserved operation and resumes it, once, with its result; the caller becomes the holder exactly if that is a success |
| `AsyncMutexes.AsyncMutex.DetachOperation` | `include/voris/io/async_mutex.hpp:261-285` | A destroyed operation leaves the queue, or hands its reserved lock on |
| `AsyncMutexes.AsyncMutex.CloseState` | `include/voris/io/async_mutex.hpp:312-343` | Revokes the reservation and resolves every queued operation |
| `TaskContinuations.ResumedExactlyOnce` | `include/voris/io/task.hpp:28-148` | In every interleaving at most one coroutine is told to suspend, only it is resumed and at most once, and exactly once by the time the child and its job are done, unless it was abandoned |
| `TaskContinuations.AnswersMean` | `include/voris/io/task.hpp:36-103` | Suspend exactly for a task that is not consumed, completed or detached, and then the awaiter is installed; ready exactly if not consumed and completed or detached; the publisher must notify exactly if a continuation is there; a claim takes it once |
| `TaskContinuations.FinishedTaskIsReady` | `include/voris/io/task.hpp:48-63` | In every run, awaiting a finished task never tells the awaiter to suspend |
| `TaskContinuations.WaitingIsNotForgotten` | `include/voris/io/task.hpp:28-148` | A coroutine that was told to suspend, was not abandoned and is not resumed yet is still installed and has the child or its resume job ahead of it |
| `TaskContinuations.DetachedIsNotResumed` | `include/voris/io/task.hpp:36-41` | After a detach nothing is resumed any more |
| `TaskContinuations.TaskContinuationState.InstallParent` | `include/voris/io/task.hpp:48-63` | Suspend, ready or already consumed, and the new state |
| `TaskContinuations.TaskContinuationState.PublishCompleted` | `include/voris/io/task.hpp:65-72` | Marks completion and reports whether a continuation must be scheduled |
| `TaskContinuations.TaskContinuationState.ClaimContinuation` | `include/voris/io/task.hpp:74-103` | Claims the continuation if it is still there |
| `WhenAnys.RunKeepsInv` | `include/voris/io/when_any.hpp:50-160` | The winner is the first to publish, and every reachable state keeps the invariant |
| `WhenAnys.RaceEndsOnce` | `include/voris/io/when_any.hpp:50-160` | In every interleaving the winner is the first to publish, read off the calls; losers are cancelled at most once and only after a winner is chosen; a parent that was told to suspend is resumed at most once and only with a winner; at the end exactly once each, unless it was abandoned |
| `WhenAnys.AnswersMean` | `include/voris/io/when_any.hpp:50-150` | A publication is told that it won exactly if it is first, and to notify exactly if a parent waits; a parent is told to suspend exactly if nobody has won and it was not abandoned; it is claimed once |
| `WhenAnys.WhenAnyState.SelectWinner` | `include/voris/io/when_any.hpp:51-66` | The first publication wins and learns whether a parent waits |
| `WhenAnys.WhenAnyState.Install` | `include/voris/io/when_any.hpp:90-100` | Installs the parent unless a winner is there or it was abandoned |
| `WhenAnys.WhenAnyState.PublishInvalidResult` | `include/voris/io/when_any.hpp:102-120` | Without a scheduler the awaiter fails the race unless it is decided |
| `WhenAnys.WhenAnyState.ClaimParent` | `include/voris/io/when_any.hpp:138-150` | Takes the parent at most once |
| `Cancellations.FirstReasonWins` | `src/cancellation.cpp:200-222` | In every run the reason is that of the first request, for good |
| `Cancellations.CallbacksRunOnce` | `src/cancellation.cpp:152-235` | In every run a registered callback runs at most once, with the reason of the first request, and not if it was unregistered before any request; a slot is registered exactly while it is in the list; once a request was made and nothing is left to run, every other callback ran exactly once, registered before or after the request |
| `Cancellations.AnswersMean` | `src/cancellation.cpp:152-235` | A request is told that it won exactly if it is the first, and then takes the whole list in order; a registration is told to call its callback at once exactly if there was a request, with the reason of the first |
| `Cancellations.StepIsFinal` | `src/cancellation.cpp:101-116` | That a slot was removed or has run never changes |
| `Cancellations.CancellationState.RegisterCallback` | `src/cancellation.cpp:152-179` | Joins the list, or is to run at once with the winning reason |
| `Cancellations.CancellationState.UnregisterCallback` | `src/cancellation.cpp:101-116` | Removes a registered slot and its list entry |
| `Cancellations.CancellationState.RequestCancellation` | `src/cancellation.cpp:200-222` | The first request takes all registered callbacks in order and clears the list; a later one changes nothing |
| `Cancellations.CancellationState.RunCallbacks` | `src/cancellation.cpp:228-232` | Each taken callback runs once with the winning reason, whatever the callbacks register and unregister meanwhile, and no other slot changes |
| `ComputeExecutors.LiveReservationSubmits` | `include/voris/io/compute_executor.hpp:105-194` | In every run: the reservations that callers got and still have are backed by places, queued plus reserved stays within capacity, the work whose submission was answered with success is what ran and what waits, in order, and submitting with a reservation succeeds exactly if it is live and the executor runs |
| `ComputeExecutors.CapacityAnswers` | `include/voris/io/compute_executor.hpp:105-138` | Submitting and reserving succeed exactly when the executor runs and a place is neither taken nor reserved, are refused as closed exactly during shutdown, and leave the queue alone when refused |
| `ComputeExecutors.ComputeExecutor.SubmitWork` | `include/voris/io/compute_executor.hpp:105-120` | Accepts within unreserved capacity; otherwise closed or exhausted |
| `ComputeExecutors.ComputeExecutor.TryReserveCapacity` | `include/voris/io/compute_executor.hpp:122-138` | Reserves one place within unreserved capacity |
| `ComputeExecutors.ComputeExecutor.SubmitWithReservation` | `include/voris/io/compute_executor.hpp:140-163` | Consumes the reservation and queues the work, or reports the error |
| `ComputeExecutors.ComputeExecutor.ReleaseReservation` | `include/voris/io/compute_executor.hpp:53-69` | Gives the place back unless shutting down |
| `ComputeExecutors.ComputeExecutor.RunUntilIdle` | `include/voris/io/compute_executor.hpp:165-186` | Ends with everything accepted run in order, also when the work uses the executor |
| `ComputeExecutors.ComputeExecutor.RequestShutdown` | `include/voris/io/compute_executor.hpp:188-194` | Shutdown voids all reservations |
| `IovecChains.Append` | `include/voris/io/detail/socket_io_limits.hpp:33-47` | Takes as much of a segment as the size limit allows, nothing exactly when it is empty or the plan is full |
| `IovecChains.BuildIovecChain` | `src/socket.cpp:77-101` | The chain covers a prefix of the concatenated buffers, only the last entry may be truncated and only by the size limit, and it stops early only at the count or size limit |

## Left out

- Registered buffers and files, capability probing and ring setup of io_uring: flat checks without deep state.
- The epoll and kqueue backends: thin event loops over the simple backend.
- System calls, memory mapping and buffer contents: only their outcomes appear. Interrupted enter calls that are repeated at once count as one call.
- Duplicating and closing the descriptor of an accepted connection in the real-ring completion path, and submitting and draining over the real ring, which do not reach it (the test-kernel class has them).
- Statistics counters (submitted, cancelled, wakes) are outside the io_uring refinement; shard metrics and scheduler lag are not modelled.
- Failed creation of a completion port, and raw port entries with the wake key or a malformed key, which the IOCP poll skips: packets are given decoded.
- Manual driving of a shard from outside its worker (`drain`, `run_one_loop_iteration`) and restarting it after its loop has exited.
- The worker loop of the shard is a step machine and not a class, because other threads act between its steps; only its mailbox is a class. A drain ends only once the work it runs stops submitting, which the mailbox class takes as a bound given from outside.
- Waiter records of the semaphore and the mutex are values in a map keyed by operation, not shared objects, so lifetime of the records themselves is not modelled.
- Out-of-memory and exception paths, and overflow of handle generations in the registry and of timer and owner ids: these are unbounded naturals.
- Unlocking a mutex by a non-holder: holding the lock is a precondition.
- Attribution of a stale completion or cancel to a later operation that reuses a drained id: exactly-once is stated per id.
- Channels, manual-reset events, the blocking executor, file and socket operations beyond the iovec chain, error formatting, and clocks: easy members or library threads.
