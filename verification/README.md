# Verified model of the wasivst core

wasivst runs Windows audio plugins in the browser: the browser talks over an emulated serial
line to a guest host program that drives the plugin, and on top of code taken over from
yabridge the plugin and host sides exchange requests over sockets, queue work between threads
and serialise plugin state. This project models the parts whose correctness is not visible in
any one function and proves it for all inputs, all runs or all interleavings:

- **The bounded concurrent queue** (`MpmcQueue`, `MpmcQueueCalls`, `MpmcQueueObject`). A transition system with any
  number of threads in which every atomic access and every access to a slot's storage is one
  step. An inductive invariant ties head, tail, every slot and every ticket in flight together, and
  every call of a run is tied to the code it runs, to what it returns and to when it can return.
  The object is the same queue as one thread sees it between calls, over an array.
- **The small vector** (`CellAlgorithms`, `SmallVector`). A class over arrays of cells that are raw,
  live or moved from, so that constructing twice, reading a moved-from element or losing a
  destructor call is visible. An argument is an outside value or an element of the same vector.
- **The threaded call protocols** (`MutualRecursion`, `MutualRecursionRuns`,
  `MutualRecursionProgress`, `AdHocSocket`, `AdHocSocketProgress`, `Framing`). Two step systems
  with whole-run properties: calls dispatched to the thread of the innermost fork, and requests
  over a primary socket under a try-lock or over sockets of their own; and what can and cannot
  block them.
- **The serial protocol** (`SerialProtocol`, `HostProtocol`, `WasiVst`, `SerialChannel`, `Vst2Host`,
  `BrowserSession`, `BrowserEffects`, `BrowserOverlap`).
  The browser's incremental parser and encoders, the host's readers, writers and frame loop, each
  as imperative code proved against functions on byte strings, and the theorem that the two ends
  understand each other however the bytes are cut and however sending and receiving interleave.
  The plugin is an arbitrary function.
- **The state streams** (`YaBStream`, `ClapStream`). A seekable buffer that refines an abstract file,
  and chunked transfer loops against hosts that move as few bytes as they like.

`Bytes` and `Common` hold bytes, little-endian integers, vector resizing and facts about products.

Assumptions. Memory is sequentially consistent and tickets do not wrap. A mutex excludes, a
promise hands over one value, `io_context::run` returns only when the guard is reset and the queue
is empty, and the caller of `handle` is not inside the `run` of the topmost context. A socket or
the serial line delivers bytes in order. A host stream's read delivers between one byte and what
was asked for, or reports its end. Floating-point values and text are opaque groups of bytes.

Where the code and its own comments differ, or a property one would expect does not hold, the
model follows the code:

- The comment at `src/common/communication/common.h:680-683` takes a call that throws after a
  refused connect for a sign that the other side no longer listens. It is one if and only if the
  other side had stopped listening by the time of the flag's test
  (`AdHocSocket.WhenSendThrows`), which a flag already set at the connect shows
  (`FlagAtConnectMeansNobodyListens`). From every other reachable state with a refused call there
  is a continuation in which it throws while the other side listens (`ThrowWhileListening`).
- A fork's context is on the stack for a moment before its work guard exists
  (`MutualRecursion.StackedBeforeGuarded`), so the stack is the set of contexts whose guard has
  not been *reset*; it agrees with "the guard is held" exactly for the forks past that moment
  (`StackIsTheLiveForks`).
- The documentation of the mutual recursion helper allows nested forks, and says nothing of forks
  by more than one thread. As long as one thread forks there is no deadlock
  (`MutualRecursionProgress.OneForkerNeverDeadlocks`); with two, a run in which each waits for
  ever for the other one to run its call is in `TwoForkersMayDeadlock`.
- `getParam` keeps one promise per parameter. All promises are resolved, each with its own value,
  if and only if no request is made while another for the same parameter is pending
  (`BrowserOverlap.AllResolvedIffNoOverlap`).
- Erasing an empty range, or inserting nothing, short of the end moves every later element onto
  itself. The contents survive exactly if the element type survives that
  (`SmallVector.SmallVector.EraseRange`, `InsertCopies`, `InsertRange`; a vector that loses its
  element in `ErasingNothingLosesAnElement` and `InsertingNothingLosesAnElement`).
- Shrinking a `YaBStream` leaves its position past the end, where a read reports a negative count
  (`YaBStream.InBoundsUnlessStranded`, `ReportedCount`; examples in `ResizeMayStrand` and
  `StrandedReads`). Its sizes pass through a 32-bit cast (`CopyIsTheTail`,
  `WritesBackEverything`; an example in `HugeTailIsLost`).
- The browser's length field for a process frame wraps at 2^32 (`HostProtocol.AudioArrivesWhole`;
  an example in `LongBlockIsLost`).

## Model

| member | source | states |
|---|---|---|
| MpmcQueue.StepThreadKeepsInv | src/include/rigtorp/MPMCQueue.h:174-267 | Every atomic step of every operation, in any interleaving, keeps the invariant that relates head, tail, each slot's turn and storage, each ticket in flight and what the finished calls returned |
| MpmcQueue.ReachableInv | src/include/rigtorp/MPMCQueue.h:129-267 | Every state that any schedule of any number of threads reaches satisfies that invariant |
| MpmcQueue.ConsumersGetTheirTicketsValue | src/include/rigtorp/MPMCQueue.h:174-267 | In every run the consumer of ticket n returns exactly the value the producer of ticket n was given, after that producer returned; no ticket is produced or consumed twice |
| MpmcQueue.NothingIsLost | src/include/rigtorp/MPMCQueue.h:174-267 | In every reachable state the value of a drawn producer ticket is with its producer, in the ticket's slot, with the ticket's consumer, or returned by that consumer |
| MpmcQueue.PushesFollowRealTime | src/include/rigtorp/MPMCQueue.h:174-208 | A push that returned before another began has the smaller ticket |
| MpmcQueue.PopsFollowRealTime | src/include/rigtorp/MPMCQueue.h:236-267 | A pop that returned before another began has the smaller ticket |
| MpmcQueue.SectionsAreExclusive | src/include/rigtorp/MPMCQueue.h:91-116 | At most one thread is in a slot's construct or move/destroy section; nothing is constructed over a live object, and only a live object, that of the same ticket, is moved from |
| MpmcQueue.RefusedPushSawFull | src/include/rigtorp/MPMCQueue.h:187-208 | If try_emplace returns false then at an instant of that call the value one lap before head had not been completely popped |
| MpmcQueue.RefusedPopSawUnpublished | src/include/rigtorp/MPMCQueue.h:246-267 | If try_pop returns false then at an instant of that call the value of the ticket at tail had not been published |
| MpmcQueue.PushRetryMeansProgress | src/include/rigtorp/MPMCQueue.h:190-207 | Every retry of the try_emplace loop is preceded, within that call, by another thread advancing head |
| MpmcQueue.PopRetryMeansProgress | src/include/rigtorp/MPMCQueue.h:247-266 | Every retry of the try_pop loop is preceded, within that call, by another thread advancing tail |
| MpmcQueue.PushLoadedAt | src/include/rigtorp/MPMCQueue.h:190-207 | A thread in the try_emplace loop on a value of head loaded it when head had that value, and has been in the loop on it since |
| MpmcQueue.PopLoadedAt | src/include/rigtorp/MPMCQueue.h:247-266 | The same for try_pop and tail |
| MpmcQueue.QuiescentShape | src/include/rigtorp/MPMCQueue.h:273-287 | With no operation in flight the stored values number head - tail, between zero and the capacity, and the slots of the tickets tail..head-1, and no others, hold them |
| MpmcQueue.OddTurnIffStored | src/include/rigtorp/MPMCQueue.h:91-96 | With no operation in flight a slot's turn is odd exactly when the slot holds the value of one of the tickets tail..head-1 |
| MpmcQueue.BlockedPushBeyondCapacity | src/include/rigtorp/MPMCQueue.h:175-244 | If every call in flight is stuck in its spin, an unpublished producer ticket lies at least a whole capacity beyond tail |
| MpmcQueue.NoDeadlock | src/include/rigtorp/MPMCQueue.h:175-244 | If every call in flight is stuck, either all are producers a capacity ahead of tail or all are consumers that head has not reached: producers and consumers never wait for each other |
| MpmcQueueCalls.CallRunsItsOperation | src/include/rigtorp/MPMCQueue.h:174-267 | In every run a call in progress is in the code of the operation that was called, on its own argument, and has returned nothing; a call that is over has returned exactly once, one of that operation's results |
| MpmcQueueCalls.EveryReturnMatchesItsCall | src/include/rigtorp/MPMCQueue.h:174-267 | Whatever any step of any run returns belongs to the latest call of that thread and is a result of the operation called, with the value it was called with: only emplace and try_emplace of v push v, and only pops pop |
| MpmcQueueCalls.OnlyTriesAreRefused | src/include/rigtorp/MPMCQueue.h:187-267 | Only try_emplace(v) is refused v, and only try_pop is refused a value; emplace and pop are never refused |
| MpmcQueueCalls.TriesNeverSpin | src/include/rigtorp/MPMCQueue.h:187-267 | A thread in a try_ call never waits in a spin |
| MpmcQueueCalls.CallsReturn | src/include/rigtorp/MPMCQueue.h:174-267 | From every reachable state a call in progress that runs alone returns, within seven of its own steps, a result of its operation if its slot is at the turn of its ticket, and never returns if it is not |
| MpmcQueueCalls.TriesReturn | src/include/rigtorp/MPMCQueue.h:187-267 | A try_ call in progress, however far it has come, returns within seven of its own steps if it runs alone |
| MpmcQueueCalls.StuckIffBlocked | src/include/rigtorp/MPMCQueue.h:175-244 | In every reachable state the threads whose step changes nothing are exactly those without a call and those spinning on a turn that is not their ticket's |
| MpmcQueueObject.Queue.Create | src/include/rigtorp/MPMCQueue.h:129-135 | A capacity of zero is refused, any other gives an empty queue |
| MpmcQueueObject.Queue.TryEmplace | src/include/rigtorp/MPMCQueue.h:187-208 | Appends exactly when fewer than capacity values are stored |
| MpmcQueueObject.Queue.TryPop | src/include/rigtorp/MPMCQueue.h:246-267 | Takes the oldest value exactly when there is one |
| MpmcQueueObject.Queue.Size | src/include/rigtorp/MPMCQueue.h:273-277 | The number of stored values |
| MpmcQueueObject.Queue.Destruct | src/include/rigtorp/MPMCQueue.h:163-168 | Destroys an object in exactly the slots of the remaining tickets and leaves no slot holding one |
| MpmcQueueObject.RoomShape | src/include/rigtorp/MPMCQueue.h:191-193 | The turn of the slot at head shows whether there is room, the turn of the slot at tail whether there is a value |
| SmallVector.GrowthIsEnough | src/include/llvm/small-vector.cpp:93-114 | Growth succeeds exactly when the request fits and the capacity is below the maximum, and gives more than before, at least the request, at least twice the old capacity unless that is beyond the maximum, and no more than what one of these needs |
| SmallVector.PushesAreAmortized | src/include/llvm/small-vector.h:432-436 | n pushes from empty, for any inline size, move fewer than 2n elements because of growth |
| SmallVector.SmallVector.Grow | src/include/llvm/small-vector.h:451-481 | Contents kept, all elements moved to fresh storage and the old cells destroyed; on failure nothing changes |
| SmallVector.SmallVector.Reserve | src/include/llvm/small-vector.h:681-684 | Contents kept and enough room, or a failure without effect |
| SmallVector.SmallVector.ReserveForParamAndGetAddress | src/include/llvm/small-vector.h:235-252 | Room for n more, and the address of the argument's value afterwards, even when it is an element that moved |
| SmallVector.SmallVector.PushBack | src/include/llvm/small-vector.h:432-436 | Appends the value the argument had on entry, also when it refers into the vector; cost as PushCost says |
| SmallVector.SmallVector.GrowAndEmplaceBack | src/include/llvm/small-vector.h:419-429 | Appends at growth from an argument that may be an element about to move |
| SmallVector.SmallVector.EmplaceBack | src/include/llvm/small-vector.h:974-981 | Appends the value constructed from the argument |
| SmallVector.SmallVector.Append | src/include/llvm/small-vector.h:713-717 | Appends n copies of the value the argument had on entry |
| SmallVector.SmallVector.AppendRange | src/include/llvm/small-vector.h:704-711 | Appends a range |
| SmallVector.SmallVector.GrowAndAssign | src/include/llvm/small-vector.h:408-416 | Replaces the contents by n copies of an argument that may be an element |
| SmallVector.SmallVector.Assign | src/include/llvm/small-vector.h:723-737 | Replaces the contents by n copies of the value the argument had on entry, growing, filling or shrinking |
| SmallVector.SmallVector.Clear | src/include/llvm/small-vector.h:627-630 | Empties the vector and destroys every element |
| SmallVector.SmallVector.Truncate | src/include/llvm/small-vector.h:662-666 | Keeps the first n elements and destroys the others |
| SmallVector.SmallVector.Resize | src/include/llvm/small-vector.h:668-679 | Cut to n, or extended with copies of the argument's value |
| SmallVector.SmallVector.EraseOne | src/include/llvm/small-vector.h:759-772 | Removes one element |
| SmallVector.SmallVector.EraseRange | src/include/llvm/small-vector.h:774-789 | Removes a range; the elements are intact if and only if the range is not empty, ends the vector or the type survives a move onto itself |
| SmallVector.SmallVector.InsertOne | src/include/llvm/small-vector.h:793-829 | Inserts the value the argument had on entry, also when it is an element that the shift moves |
| SmallVector.SmallVector.InsertCopies | src/include/llvm/small-vector.h:840-902 | old[..i] + n copies of the argument's value on entry + old[i..], in both shift cases, with or without growth, for arguments inside or outside; intact under the same if-and-only-if as EraseRange |
| SmallVector.SmallVector.InsertBehindGap | src/include/llvm/small-vector.h:863-883 | The shift case with at least as many elements behind the insertion point as new ones |
| SmallVector.SmallVector.InsertAcrossEnd | src/include/llvm/small-vector.h:885-901 | The shift case with more new elements than elements behind the insertion point |
| SmallVector.SmallVector.InsertRange | src/include/llvm/small-vector.h:908-967 | old[..i] + the range + old[i..], intact under the same if-and-only-if |
| SmallVector.ErasingNothingLosesAnElement | src/include/llvm/small-vector.h:774-789 | A vector of one element that an empty erase leaves with a moved-from element |
| SmallVector.InsertingNothingLosesAnElement | src/include/llvm/small-vector.h:840-967 | The same for an insert of no copies and of an empty range |
| SmallVector.SmallVector.AssignRemote | src/include/llvm/small-vector.h:607-615 | Takes over the other's heap cells; the other becomes small and empty |
| SmallVector.SmallVector.ResetToSmall | src/include/llvm/small-vector.h:148-152 | With nothing in the inline buffer the vector is small, empty, of capacity zero and valid |
| SmallVector.SmallVector.Swap | src/include/llvm/small-vector.h:1003-1040 | The contents are exchanged for every combination of representation, size and capacity |
| SmallVector.SmallVector.CopyAssign | src/include/llvm/small-vector.h:1043-1090 | Copied with the source unchanged, for every combination and for self-assignment |
| SmallVector.SmallVector.MoveAssign | src/include/llvm/small-vector.h:1093-1147 | Moved with the source emptied and both valid, for every combination; nothing on self-assignment |
| SmallVector.SmallVector.MoveAssignSameType | src/include/llvm/small-vector.h:1295-1311 | The same for vectors of one inline size, with the shortcut for no inline elements |
| MutualRecursion.StepKeepsInv | src/common/mutual-recursion.h:77-175 | Every step of fork, handle, maybe_handle and the sender keeps the invariant over contexts, calls, call stacks, context stack and mutex |
| MutualRecursion.ReachableInv | src/common/mutual-recursion.h:77-175 | It holds in every state any run reaches, for any number of threads and arbitrarily nested forks |
| MutualRecursion.ForkRunsEverything | src/common/mutual-recursion.h:77-123 | When a fork has returned, it returned exactly its fn's value, and every call dispatched to it ran exactly once, to its end, on the forking thread |
| MutualRecursion.NoCallIsAbandoned | src/common/mutual-recursion.h:158-175 | An unfinished dispatched call still has its fork ahead of it: queued in that context, or running in the frame directly above that fork, inside its run() |
| MutualRecursion.StackIsTheLiveForks | src/common/mutual-recursion.h:88-113 | Whenever the mutex is free the stack holds, once each, exactly the contexts whose guard has not been reset; being on the stack coincides with a held guard if and only if the fork is past making its guard |
| MutualRecursion.StackedBeforeGuarded | src/common/mutual-recursion.h:88-97 | A state with the mutex free and a context on the stack that has no guard yet |
| MutualRecursion.HandleRunsOnce | src/common/mutual-recursion.h:139-175 | handle ran its function exactly once, directly if and only if the stack was empty when the lock was taken, else on the thread of its target fork; maybe_handle never runs it itself |
| MutualRecursion.OneSenderInSection | src/common/mutual-recursion.h:109-115 | At most one sender is between locking and the end of its critical section |
| MutualRecursion.TopIsInnermost | src/common/mutual-recursion.h:171-171 | The last context on the stack is, of all contexts of its thread on the stack, the innermost fork |
| MutualRecursion.EraseKeepsOthers | src/common/mutual-recursion.h:111-113 | Erasing a context removes exactly it and keeps the others and their uniqueness |
| MutualRecursion.ErasePosition | src/common/mutual-recursion.h:111-113 | Erasing removes the found position and keeps the order of the rest |
| MutualRecursion.OuterForkMayFinishFirst | src/common/mutual-recursion.h:100-120 | A run in which the outer fork's context is erased from below the inner one while the outer run() is still executing |
| MutualRecursionRuns.HandleGoesToTheInnermostFork | src/common/mutual-recursion.h:158-175 | In every run a call of handle made while the stack is not empty is appended to the queue of the last context on the stack, and every other context on the stack that the same thread owns has a smaller depth |
| MutualRecursionRuns.HandleWithoutForks | src/common/mutual-recursion.h:139-166 | With an empty stack handle runs its function on the caller at once, and maybe_handle returns without running it |
| MutualRecursionRuns.CallsRunInOrder | src/common/mutual-recursion.h:100-171 | In every run the calls made while a context was last on the stack are exactly the calls its run() has begun, in the order in which they were made, followed by those in its queue |
| MutualRecursionRuns.ForkReturnsTheValueOfFn | src/common/mutual-recursion.h:99-122 | A fork that has returned gave back the very value with which its function returned at a step of the run |
| MutualRecursionProgress.GoesOnUnlessItWaits | src/common/mutual-recursion.h:77-175 | In every reachable state a thread with anything on its stack can take a step of its own if and only if it is not waiting for work in a fork, for its sender to end, for the mutex, or for a dispatched call |
| MutualRecursionProgress.OneForkerNeverDeadlocks | src/common/mutual-recursion.h:77-175 | In every run in which all forks, nested in any way, are made by one thread, some thread goes on as long as any thread has anything on its stack |
| MutualRecursionProgress.TwoForkersMayDeadlock | src/common/mutual-recursion.h:109-175 | A run of two forking threads after which, in every continuation, each waits for a call that only the other could run |
| AdHocSocket.StepKeepsInv | src/common/communication/common.h:637-831 | Every step of senders and of the receiving side keeps the invariant over lock, flag, sockets and messages |
| AdHocSocket.ReachableInv | src/common/communication/common.h:637-831 | It holds in every state any run of any number of concurrent calls reaches |
| AdHocSocket.EveryCallGetsItsOwnResponse | src/common/communication/common.h:1033-1036 | For a call that has returned there is a step of the run with which it was made, for some q, and one with which the other side, whose handler was given q for that call, sent back some r; this is the only exchange the other side had for the call, and r is what the call holds |
| AdHocSocket.OneExchangeOnPrimary | src/common/communication/common.h:652-664 | The primary socket carries at most one message: the request of the call holding the lock, or the answer to it |
| AdHocSocket.OneExchangeOnSecondary | src/common/communication/common.h:666-671 | All that was ever written to a secondary socket is its call's request and, exactly once answered, the answer; what is handled is that request, the other side has exactly one exchange for the call, and no two sockets belong to one call |
| AdHocSocket.NothingAfterTheExchange | src/common/communication/common.h:748-780 | Once a secondary socket's request is answered, no continuation of the run writes anything more to it |
| AdHocSocket.ActiveRequestsAreTheServedSockets | src/common/communication/common.h:748-780 | The map of active requests holds exactly the accepted, not yet joined connections under their request ids |
| AdHocSocket.WhenSendThrows | src/common/communication/common.h:672-700 | For every run that ends with a refused call: every continuation in which the call throws has the other side no longer listening, if and only if it has stopped listening already |
| AdHocSocket.FlagAtConnectMeansNobodyListens | src/common/communication/common.h:680-684 | If the flag was set at the refused connect, the other side no longer listens |
| AdHocSocket.ThrowWhileListening | src/common/communication/common.h:672-700 | From every reachable state with a refused call in which the other side has not stopped listening, some continuation has the call throw while the other side listens |
| AdHocSocket.WhenSendFallsBack | src/common/communication/common.h:684-695 | The blocking fallback is taken only by a call refused while nobody listened that finds sent_first_event_ still false |
| AdHocSocket.PrimaryExchangeSetsTheFlag | src/common/communication/common.h:653-664 | Once a call has returned from an exchange on the primary socket sent_first_event_ is set, in every continuation of the run |
| AdHocSocket.MayThrowWhileListening | src/common/communication/common.h:680-700 | A run in which a call throws while the other side is listening |
| AdHocSocketProgress.EveryCallCanReturn | src/common/communication/common.h:637-703 | From every reachable state in which the other side listens, at most fifteen possible steps take any given call to its end: it returns, or throws exactly if its own connect was refused and the flag is set |
| Framing.Socket.WriteObject | src/common/communication/common.h:136-154 | Appends an 8-byte length and the object's bytes |
| Framing.Socket.ReadObject | src/common/communication/common.h:186-213 | Takes exactly the first complete object, or blocks and takes nothing |
| Framing.FirstFrame | src/common/communication/common.h:186-213 | The first object of a stream is the one written first, whatever follows |
| Framing.ReadsWhatWasWritten | src/common/communication/common.h:136-213 | The reader gets exactly the written objects in order and nothing of an incomplete one |
| Framing.PartialFrameIsNoMessage | src/common/communication/common.h:186-213 | No proper beginning of a frame is taken for a message |
| Framing.FrameOnTheWire | src/common/communication/common.h:136-154 | The bytes of a frame: eight bytes of length, the lowest first, and the object |
| SerialProtocol.ParseOneIsStable | src/worklet/wasivst.js:135-173 | Once the front of the buffer decides what to do, more bytes never change the decision |
| SerialProtocol.ParseInTwo | src/worklet/wasivst.js:135-173 | Draining in two portions gives the messages and the rest of draining at once |
| SerialProtocol.ChunkingDoesNotMatter | src/worklet/wasivst.js:88-92 | The same messages and the same remaining buffer for any chunking of the same bytes |
| SerialProtocol.RestIsDrained | src/worklet/wasivst.js:135-173 | What a drain leaves holds no message and nothing to drop |
| SerialProtocol.MatrixRoundTrip | src/worklet/wasivst.js:175-191 | Decoding the rows written for a matrix gives the matrix back |
| SerialProtocol.ReplyIsParsed | src/host/ipc/serial-channel.cpp:81-108 | The parser recognises exactly a frame the host wrote, whatever follows it |
| SerialProtocol.BrowserGetsWhatHostWrote | src/host/ipc/serial-channel.cpp:81-108 | Any list of host frames, with stray bytes between them that match no tag, is parsed into exactly that list with nothing left over |
| SerialProtocol.RepliesOnTheWire | src/host/ipc/serial-channel.cpp:81-108 | The bytes of the host's three frames, with the numbers of their tags and every length byte by byte |
| WasiVst.WasiVST.OnSerialByte | src/worklet/wasivst.js:88-92 | One received byte has exactly the effect of the messages it completes |
| WasiVst.WasiVST.DrainAndDispatch | src/worklet/wasivst.js:135-173 | The loop terminates, dispatches exactly the messages of the parse in order, posts exactly the matrices among them and leaves exactly its rest in the buffer |
| WasiVst.WasiVST.DispatchLog | src/worklet/wasivst.js:155-168 | A log frame is taken when complete and not before, also when its second length has not arrived; the log is capped |
| WasiVst.WasiVST.DispatchParamResp | src/worklet/wasivst.js:148-154 | Resolves the pending promise of the id, if any, with the value, and forgets it |
| WasiVst.WasiVST.DecodeProcessResp | src/worklet/wasivst.js:175-191 | Posts the matrix that the frame's bytes encode |
| WasiVst.WasiVST.GetParam | src/worklet/wasivst.js:57-63 | The promise is pending under the id and the encoded request has been sent |
| WasiVst.WasiVST.SetParam | src/worklet/wasivst.js:54-56 | The encoded command has been sent |
| WasiVst.WasiVST.OnProcess | src/worklet/wasivst.js:118-122 | The encoded channel matrix has been sent |
| WasiVst.RequestIsAnswered | src/worklet/wasivst.js:57-63 | For any commands and any plugin, the first request for a pending parameter resolves its promise with the parameter's value after all commands sent before it |
| BrowserSession.SessionInv | src/worklet/wasivst.js:57-63 | In any interleaving of commands and received bytes the messages so far are the first of the plugin's answers, and every parameter request is resolved or pending with its own promise |
| BrowserSession.EveryRequestIsAnswered | src/worklet/wasivst.js:57-63 | A request whose reply has arrived byte by byte has its promise resolved with the parameter's value after the commands sent before it; any other is still pending |
| BrowserSession.AllArrivedAllResolved | src/worklet/wasivst.js:148-154 | When all the host's bytes have arrived every promise is resolved with its parameter's value |
| BrowserEffects.SessionSettles | src/worklet/wasivst.js:135-173 | At every instant of every interleaving the posted matrices are those received, the resolved promises are those of the answered requests in order with their own values, and exactly the others are pending |
| BrowserEffects.EverythingIsDelivered | src/worklet/wasivst.js:135-191 | When all the host's bytes have arrived, as many blocks are posted as were sent, the k-th being what the plugin made of the k-th block in the state the commands before it lead to; as many promises are resolved as requests were sent, in order, with the plugin's values; none is pending |
| BrowserOverlap.PossibleIffNoOverlap | src/worklet/wasivst.js:57-63 | Requests for one parameter never overlap if and only if none is made while the parameter has a pending promise |
| BrowserOverlap.AllResolvedIffNoOverlap | src/worklet/wasivst.js:57-63 | With overlapping requests allowed: when all bytes have arrived every request's promise is resolved with its own value if and only if no request was made while one for the same parameter was pending |
| BrowserOverlap.SomePromiseIsLost | src/worklet/wasivst.js:57-63 | A request made while another for the same parameter is pending leaves a promise that is never resolved |
| WasiVst.ByteByByte | src/worklet/wasivst.js:88-92 | Receiving byte by byte has the effects and leaves the buffer of receiving everything at once |
| WasiVst.LogKeepsTheLatest | src/worklet/wasivst.js:167-168 | Over any messages the log holds the most recent thousand entries in order |
| WasiVst.AudioIsPosted | src/worklet/wasivst.js:175-191 | Over any messages the matrices of the process responses are posted to the worklet, each once and in order |
| WasiVst.WasiVST.EncodeLoad | src/worklet/wasivst.js:202-210 | The bytes of a LOAD frame |
| WasiVst.WasiVST.EncodeProcess | src/worklet/wasivst.js:212-231 | Header and rows, padded with zeros or cut to the first channel's length |
| WasiVst.WasiVST.EncodeSetParam | src/worklet/wasivst.js:233-240 | The bytes of a SET_PARAM frame |
| WasiVst.WasiVST.EncodeGetParam | src/worklet/wasivst.js:242-247 | The bytes of a GET_PARAM frame |
| SerialChannel.SerialChannel.ReadBytes | src/host/ipc/serial-channel.cpp:20-23 | Exactly the next bytes, or the end-of-input exception |
| SerialChannel.SerialChannel.ReadLoadFrameBody | src/host/ipc/serial-channel.cpp:53-58 | The path and the rest of the input, or the exception exactly if the frame is incomplete |
| SerialChannel.SerialChannel.ReadProcessFrameBody | src/host/ipc/serial-channel.cpp:60-68 | Reads a PROCESS body as ReadFrame does and consumes exactly it |
| SerialChannel.SerialChannel.ReadSetParamFrameBody | src/host/ipc/serial-channel.cpp:70-75 | Reads a SET_PARAM body as ReadFrame does and consumes exactly it |
| SerialChannel.SerialChannel.ReadGetParamFrameBody | src/host/ipc/serial-channel.cpp:77-79 | Reads a GET_PARAM body as ReadFrame does and consumes exactly it |
| SerialChannel.SerialChannel.WriteProcessResp | src/host/ipc/serial-channel.cpp:81-89 | Writes the frame that the browser parses as this matrix |
| SerialChannel.SerialChannel.WriteGetParamResp | src/host/ipc/serial-channel.cpp:91-96 | Writes the frame that the browser parses as this value |
| SerialChannel.SerialChannel.WriteLog | src/host/ipc/serial-channel.cpp:98-108 | Writes a log frame with both texts cut to the 32-bit cast of their lengths |
| HostProtocol.CommandIsRead | src/host/ipc/serial-channel.cpp:60-79 | The host reads back each command the browser encodes, whatever follows it |
| HostProtocol.AudioArrivesWhole | src/worklet/wasivst.js:212-224 | The host gets all samples of a process frame if and only if their size is below 2^32 |
| HostProtocol.LongBlockIsLost | src/worklet/wasivst.js:212-224 | A block of 2^30 samples arrives without any |
| HostProtocol.DeinterleaveUndoesFlat | src/host/vst2/vst2-host.cpp:92-97 | Taking the flat samples apart gives the channels back |
| HostProtocol.FlatShape | src/host/ipc/serial-channel.cpp:60-68 | The samples of a frame are the rows one after another |
| HostProtocol.HostGetsWhatBrowserWrote | src/host/vst2/vst2-host.cpp:72-81 | The frame loop handles a browser stream as exactly its commands in order, giving the plugin the padded or cut channel matrix |
| HostProtocol.AnswersAreValid | src/host/vst2/vst2-host.cpp:83-115 | Everything the host answers to encodable commands can be framed |
| HostProtocol.EndToEnd | src/host/vst2/vst2-host.cpp:72-115 | For any commands and any plugin, and however the bytes are cut, the browser receives exactly the plugin's answers in order |
| HostProtocol.EachCommandIsServed | src/host/vst2/vst2-host.cpp:83-115 | For every list of commands and every i: from the state the commands before i lead to, a process command makes the plugin process its channels, padded or cut to the first one's length, once, and the browser's next message has a row per channel with the plugin's output samples where it has them and zeros elsewhere; a parameter set or asked for reaches the plugin, and the state afterwards is the plugin's |
| HostProtocol.ServedFromStartToEnd | src/host/vst2/vst2-host.cpp:72-81 | Before the first command the plugin is in its initial state, and after the last the browser has received everything |
| HostProtocol.StrayBytesAreReported | src/host/vst2/vst2-host.cpp:72-81 | Each byte that is none of the host's three tags is skipped alone and reported in one log frame, and changes nothing else |
| HostProtocol.CutCommandIsNotServed | src/host/ipc/serial-channel.cpp:20-79 | A command that the input breaks off anywhere is not carried out, and the loop ends |
| HostProtocol.ShortAudioEndsTheLoop | src/host/vst2/vst2-host.cpp:92-97 | A frame is answered if and only if it has the samples that its header promises |
| HostProtocol.CommandsOnTheWire | src/worklet/wasivst.js:202-247 | The bytes of the LOAD, SET_PARAM and GET_PARAM frames |
| HostProtocol.BlockOnTheWire | src/worklet/wasivst.js:212-231 | The bytes of a PROCESS frame; its length field counts those of the audio |
| HostProtocol.SampleOnTheWire | src/worklet/wasivst.js:223-229 | Sample s of channel c lies at place c * n + s of the audio |
| HostProtocol.SessionNeedsLoad | src/host/main.cpp:20-38 | There is a session if and only if the input begins with a LOAD frame whose plugin can be loaded |
| HostProtocol.WholeSession | src/host/main.cpp:20-38 | The same for a session from the LOAD frame on, with the host's greeting first |
| Vst2Host.Vst2Host.Run | src/host/vst2/vst2-host.cpp:72-81 | The loop ends in the state, and has sent the bytes, that the specification of the run gives |
| Vst2Host.Vst2Host.ProcessBlock | src/host/vst2/vst2-host.cpp:83-104 | The plugin processes the channel matrix once, its new state is kept, and the frame sent holds its output, padded with zeros or cut to the block's shape |
| Vst2Host.Vst2Host.Split | src/host/vst2/vst2-host.cpp:92-97 | The copied channel buffers are the rows of the samples |
| Vst2Host.HostMain | src/host/main.cpp:20-38 | LOAD, then the loop; nothing is sent if the session cannot start |
| Bytes.LittleEndianRoundTrip | src/host/ipc/serial-channel.cpp:41-45 | A number that fits its field survives being written and read |
| Bytes.LittleEndianTruncates | src/worklet/wasivst.js:220-222 | A store into a field keeps the number modulo the field's range |
| YaBStream.YaBStream.Read | src/common/serialization/vst3/bstream.cpp:142-164 | Delivers what a read of the abstract file delivers, with the reported count as the 32-bit cast |
| YaBStream.YaBStream.Write | src/common/serialization/vst3/bstream.cpp:166-187 | The abstract write: exactly the range replaced, a gap filled with zeros |
| YaBStream.YaBStream.Seek | src/common/serialization/vst3/bstream.cpp:189-212 | The abstract seek of each mode, clamped; an unknown mode changes nothing |
| YaBStream.YaBStream.SetStreamSize | src/common/serialization/vst3/bstream.cpp:228-231 | Cut or extended with zeros, the position left where it was |
| YaBStream.YaBStream.CopyOf | src/common/serialization/vst3/bstream.cpp:24-59 | The copy holds the captured tail and the source is as after a seek to its old position |
| YaBStream.YaBStream.WriteBack | src/common/serialization/vst3/bstream.cpp:106-121 | The target is the file with the buffer written at its position, through the 32-bit cast of the size |
| YaBStream.ReadInTwo | src/common/serialization/vst3/bstream.cpp:142-164 | Consecutive reads deliver what one longer read delivers |
| YaBStream.WriteInTwo | src/common/serialization/vst3/bstream.cpp:166-187 | Consecutive writes leave what one longer write leaves |
| YaBStream.ReadsBack | src/common/serialization/vst3/bstream.cpp:166-187 | A write is read back from where it was written |
| YaBStream.SeeksAgree | src/common/serialization/vst3/bstream.cpp:189-212 | Seeking from the position or from the end is seeking to that sum from the start, and a seek beyond an end of the file goes to that end |
| YaBStream.ReadsTheLast | src/common/serialization/vst3/bstream.cpp:142-212 | A seek to k bytes before the end and a read give the last k bytes |
| YaBStream.SeekAndBack | src/common/serialization/vst3/bstream.cpp:189-212 | A relative seek is undone by its opposite if and only if no end was in its way or it went from one end beyond the other |
| YaBStream.ResizeAndBack | src/common/serialization/vst3/bstream.cpp:228-231 | A change of size keeps the position and the common bytes and adds zeros; changing it back restores the file if and only if nothing but zeros was cut off |
| YaBStream.InBoundsUnlessStranded | src/common/serialization/vst3/bstream.cpp:142-231 | After any run the position is within the file unless some resize cut the file below it and only reads and seeks of unknown mode followed, or the run began past the end and did nothing else; if and only if |
| YaBStream.ResizeMayStrand | src/common/serialization/vst3/bstream.cpp:228-231 | A file whose position one resize leaves past its end |
| YaBStream.StrandedReads | src/common/serialization/vst3/bstream.cpp:149-161 | There a read delivers nothing and reports minus one, and copying does not restore the position |
| YaBStream.NonShrinkingRunsStayInBounds | src/common/serialization/vst3/bstream.cpp:142-231 | Runs that never shrink the file keep the position within it |
| YaBStream.ReportedCount | src/common/serialization/vst3/bstream.cpp:149-161 | A read reports the number of bytes it delivered if and only if the position is within the file or exceeds its end by a multiple of 2^32 |
| YaBStream.CopyIsTheTail | src/common/serialization/vst3/bstream.cpp:37-53 | The copy is the source from its position on if and only if that is shorter than 2^31 bytes or the unread rest is zeros |
| YaBStream.CopyRestoresPosition | src/common/serialization/vst3/bstream.cpp:55-59 | The source's position is restored if and only if it was within the file |
| YaBStream.WritesBackEverything | src/common/serialization/vst3/bstream.cpp:106-121 | Everything is written back if and only if it is shorter than 2^31 bytes |
| YaBStream.HugeTailIsLost | src/common/serialization/vst3/bstream.cpp:37-53 | A tail of 2^31 non-zero bytes is copied as zeros and not written back |
| YaBStream.HeaderStaysInPlace | src/common/serialization/vst3/bstream.cpp:111-121 | Whatever is written back, the bytes before the target's position stay |
| YaBStream.CopyThenWriteBack | src/common/serialization/vst3/bstream.cpp:37-121 | Copying a stream and writing the copy back changes none of its bytes |
| ClapStream.Stream.FromIstream | src/common/serialization/clap/stream.cpp:29-52 | The chunk loop terminates and collects exactly what the input stream still delivers, be it a host's or one of our own |
| ClapStream.Stream.WriteToStream | src/common/serialization/clap/stream.cpp:68-81 | Delivers exactly the buffer, however little the host takes per call |
| ClapStream.Stream.OstreamWrite | src/common/serialization/clap/stream.cpp:83-96 | Appends all bytes offered |
| ClapStream.Stream.IstreamRead | src/common/serialization/clap/stream.cpp:98-114 | Delivers the next unread bytes, as many as asked for or left |
| ClapStream.ReadsDeliverInOrder | src/common/serialization/clap/stream.cpp:98-114 | However reads are split, they deliver the unread bytes in order, none missing or twice |

## Left out

- Weak memory orders, wrap-around of tickets, alignment and padding of the queue; allocator failure.
- `emplace` and `pop` in the queue object: with no other thread they either behave as their `try_` forms or spin for ever; the transition system has them in full.
- MpmcQueueObject.Queue.TryEmplace: states one call between other calls, because concurrent calls are the transition system's subject.
- MpmcQueueObject.Queue.TryPop: the same.
- The vector's specialisation for trivially copyable types (`grow_pod`, by-value parameters): it copies bytes where this model moves elements, with the same contents.
- The rvalue overloads of `push_back` and `insert`, and ranges that point into the vector being changed, which the original forbids.
- Exceptions thrown by element constructors, and side effects of element destructors.
- Running a handler at once inside `asio::dispatch` when the caller is already inside the topmost context's `run`, which the documentation excludes.
- Fairness: progress is what can happen next, not what a scheduler must let happen. Spin-waiting in `close`.
- Shutdown of the sockets in the middle of an exchange, logging, thread priorities and buffer reuse.
- The per-type `serialize` functions: a serialised object is an opaque byte string.
- Framing.Socket.ReadObject: a blocked read is a result rather than a waiting thread.
- Plugin loading, the calls into the plugin, `fetch`, the emulator, the worklet and the service worker: a plugin is a function from state and input matrix to state and output matrix.
- Vst2Host.HostMain: has no VST3 branch; the VST3 host's frame loop is a stub that does not consume frame bodies.
- Waiting for the guest's first byte.
- WasiVst.RequestIsAnswered: starts from a fixed table of promises, because `BrowserSession` has requests and replies interleaved.
- BrowserSession.EveryRequestIsAnswered: has no overlapping `getParam` calls for one id; `BrowserOverlap` says what they lead to.
- Vst2Host.Vst2Host.ProcessBlock: a frame with fewer samples than its header promises makes the original read past their end; the model stops there.
- SerialChannel.SerialChannel.ReadProcessFrameBody: an audio length that is no multiple of four makes the original write past its buffer; the model keeps the whole samples.
- SerialProtocol.BrowserGetsWhatHostWrote: sizes are exact integers; JavaScript computes them in doubles, which are exact below 2^53.
- WasiVst.WasiVST.DispatchLog: entries carry no time stamp.
- The meaning of floating-point values and of UTF-8 text, and conversions between float and double.
- YaBStream.YaBStream.Seek: does not model overflow of the 64-bit position.
- The stream's file name, attributes and reference counting.
- YaBStream.YaBStream.WriteBack: the target is a stream of the same kind, and attributes are left out.
- YaBStream.YaBStream.CopyOf: the source is a stream of the same kind; other hosts' streams may answer differently.
