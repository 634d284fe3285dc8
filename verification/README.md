# Verified models of OpenDAL's bindings and of its concurrent writer

This project models, in Dafny, the parts of OpenDAL where several parties share state or where data passes through
buffers, and proves what holds in every run of them:

- the completion protocol of asynchronous operations in the .NET binding (submitting thread, native callback,
  cancellation) and the lifetime of their native tasks: `AsyncRegistry`, `AsyncProtocol`, `AsyncHost`, `TaskLifetime`;
- the reader handles and the listers of the asynchronous C++ binding: `AsyncHandles`, `ListerProtocol`;
- the core's reader, and on top of it the buffered `std::streambuf` of the C++ binding and the fill loop of the Go
  binding: `CoreReader`, `ReaderStreamBuf`, `GoReader`;
- the output and input streams of the .NET binding and their round trip: `OutputStream`, `InputStream`, `RoundTrip`;
- the construction of the foreign function context in the Go binding: `FfiContext`;
- the executor table of the .NET binding's native side: `ExecutorTable`;
- the core's task queue and the multipart writer on top of it: `ConcurrentTasks`, `MultipartWriter`.

`dafny verify dfyconfig.toml` checks everything.

## How the models are built

Concurrent code is a state machine: a `State`, the `Event`s that are its atomic steps, `Enabled` and `Apply`, and
`Exec` for whole runs. An invariant is proved of every step and then of every run, and the results are stated for
every reachable state. Schedulers, clocks and other parties are events, so every interleaving is covered.

Code that changes objects is a class whose methods are proved against a relation `Step` or against the events of a
state machine; the results are lemmas about runs of that relation. Exceptions and error returns are result values.
What the outside world decides (short reads, failing requests, chunk sizes, the moment at which a future is dropped) is
left open by `*` or `:|`, so a method's contract holds for every choice. Handles that must not be used after their
release carry this as a precondition that every caller is proved to meet.

## What the code does not promise, or does otherwise than described

- The registration on a cancellation token can outlive its operation. `RegistrationLeftBehindIff` gives the exact
  interleavings, `RegistrationCanBeLeftBehind` one of them, and `LateCancellationIsHarmless` shows that it does no harm.
- The comments of the native .NET side say that the callback is invoked exactly once. That holds on the default
  executor and on an executor whose handle is not freed (`ExactlyOnceAtRest`); a freed one can lose its tasks
  (`DropPossibleIff`, `CanBeDroppedIff`), and then a caller waits for ever (`FreedExecutorLosesTask`).
- C++ move assignment forgets the id it overwrites, and `delete_reader` gives up when the lock is taken, although its
  comment speaks of a blocking lock. `ExactAccounting` counts both; `CleanShutdownIff` says when nothing is left.
- An empty path in a listing looks like the end of the listing (`EndMarkIsSafeIff`), and after an error every further
  call does (`ErrorHidesTheRest`, `EndMarkSurvivesErrorsIff`).
- A read whose request cannot be opened uses its range up. The error is followed by what looks like the end of the
  file, in all three bindings: `FailedOpenLooksEmpty` in `GoReader`, `ReaderStreamBuf` and `InputStream`; the exact
  conditions are `ReadUntilEofIff` and `WholeFileIff`.
- `tellg` runs ahead after reads that fail over a filled buffer (`DriftIsExact`, `TellIsRightIff`), and relative seeks
  start from the wrong place while bytes are buffered (`RelativeSeekIsRightIff`, `RelativeSeekCanThrow`). A failed seek
  throws, so the test for `-1` in `seekoff` never fires.
- A .NET or C++ read that throws half-way has consumed bytes its caller never sees: `ExceptionLosesByte` in
  `ReaderStreamBuf` and `InputStream` are such runs, and `LossPossibleIff` says for which reads it can happen.
- The example in the documentation of Go's `Reader.Read` loops until a read of zero bytes without an error; the code
  reports `io.EOF` there, and the model follows the code.
- `ConcurrentTasks` documents `concurrent` as the maximum number of concurrent tasks, and says that finished tasks
  occupy slots. In the code finished tasks make room, `execute` starts a task whenever it could pop a finished one, and
  a task that failed for a while is started again: `LimitHoldsIff` and `PoliteLimitIff` say when the maximum holds.
- `MultipartWriter::write` panics after an `abort` and after every `close` of an upload that got as far as handing its
  last part over (`WritePanicsIff`, `WriteCanPanic`).
- A `close` that fails may have stored the object, and repeating it stores it again (`SurelyOneObjectIff`,
  `TwoObjectsCanBeMade`). What a `close` stores is not always all that was written (`StoredObjectIsRightIff`): repeated
  after a success it can replace the object by an empty one (`RepeatedCloseStoresNothing`), and after an `abort` it can
  complete an upload without parts (`MismatchIff`, `CloseAfterAbortCanSucceed`).
- The layer above the writer (core/core/src/layers/complete.rs:302-366) stops some of these runs: it lets go of the
  writer after an `abort` that succeeds, and after a `close` that succeeds and reports the expected length. Calls
  after an `abort` that failed, after a `close` that failed, and after a `close` that succeeded with another length
  reach the writer.

## Model

| member | source | states |
|---|---|---|
| `AsyncRegistry.RejectedDrawsAreFew` | bindings/dotnet/OpenDAL/AsyncState.cs:34-47 | Pigeonhole on the wrapping 64-bit counter: a run of rejected draws is at most one longer than the set of ids in use. |
| `AsyncRegistry.DrawnSetSize` | bindings/dotnet/OpenDAL/AsyncState.cs:36 | Up to 2^64 increments of the counter, across the wrap-around, draw as many different ids. |
| `AsyncRegistry.Registry.Register` | bindings/dotnet/OpenDAL/AsyncState.cs:30-48 | Terminates within (live registrations + 2) increments with the first id that is neither zero nor in use; adds exactly that entry and overwrites none. |
| `AsyncRegistry.Registry.TryTake` | bindings/dotnet/OpenDAL/AsyncState.cs:55-65 | Hands an entry over exactly if it is there, and removes it in the same step. |
| `AsyncProtocol.RunKeepsInv` | bindings/dotnet/OpenDAL/Operator.cs:1328-1528 | Every interleaving of submitters, callbacks and cancellations over any number of operations keeps the invariant of entries, phases, outcomes, releases, disposals and keys. |
| `AsyncProtocol.UndrawnKeyIsFree` | bindings/dotnet/OpenDAL/AsyncState.cs:36-46 | As long as the counter has not come round, an id just drawn is free, so `TryAdd` succeeds at once and no id is reused. |
| `AsyncProtocol.NoOrphanedTask` | bindings/dotnet/OpenDAL/AsyncState.cs:50-102 | In every reachable state a returned pending task is in the registry under its own id, or was taken out by a party that has its `TrySet` call still before it. |
| `AsyncProtocol.OutcomeHasItsCause` | bindings/dotnet/OpenDAL/Operator.cs:1432-1489 | In every reachable state a completed task holds the very value, a failed one the very error code and a faulted one the very exception that its own callback carried, and a canceled one was canceled on its own token; its entry is gone. |
| `AsyncProtocol.CallbackSettles` | bindings/dotnet/OpenDAL/Operator.cs:1444-1455 | The converse: behind a callback that found its state the task is completed with that value, failed with that code or faulted with that exception, or it was canceled before. |
| `AsyncProtocol.TerminalSafety` | bindings/dotnet/OpenDAL/Operator.cs:1435-1455 | Once set, an outcome never changes and its entry never comes back, in every continuation. |
| `AsyncProtocol.LateCancellationIsHarmless` | bindings/dotnet/OpenDAL/AsyncState.cs:83-88 | A cancellation after the outcome, also through a registration never disposed, changes neither the registry nor any outcome. |
| `AsyncProtocol.CallbackAtMostOnce` | bindings/dotnet/src/operator.rs:550-579 | A run contains at most one callback per operation; none if it was rejected or its task was dropped, and one if its result was released. |
| `TaskLifetime.ExactlyOnceAtRest` | bindings/dotnet/src/operator.rs:562-576 | An accepted operation at rest has called back exactly once unless its task was dropped, and on the default executor or one whose handle is not freed it has called back exactly once. |
| `TaskLifetime.DropPossibleIff` | bindings/dotnet/src/executor.rs:146-154 | A running task can be dropped if and only if its executor has a handle, that handle was freed, and no running call holds a clone. |
| `TaskLifetime.NoFreeNoDrop` | bindings/dotnet/src/executor.rs:105-119 | In every continuation without a free of its handle, an executor keeps its tasks. |
| `TaskLifetime.CanBeDroppedIff` | bindings/dotnet/src/executor.rs:146-154 | From any state on, a running task can be lost without a further free if and only if the handle of its executor is freed already. |
| `TaskLifetime.FreedExecutorLosesTask` | bindings/dotnet/src/executor.rs:146-154 | A concrete run with a free under a running task, after which the task of the caller pends in every continuation. |
| `AsyncProtocol.NativeResultReleasedOnce` | bindings/dotnet/OpenDAL/Operator.cs:1498-1528 | In every state of every run the native result was released once if its callback has ended, otherwise never, and was never read after that. |
| `AsyncProtocol.RejectedSubmissionStaysSilent` | bindings/dotnet/OpenDAL/Operator.cs:1335-1348 | After a rejected submission no callback ever comes; the entry the catch block removes is its own. |
| `AsyncProtocol.FailedBindingIsSilent` | bindings/dotnet/OpenDAL/Operator.cs:1336-1348 | A binding to a cancelable token can throw after any acceptance; the caller gets the exception, exactly its own entry is removed, and nothing else changes. |
| `AsyncProtocol.SilentCallback` | bindings/dotnet/OpenDAL/Operator.cs:1435-1438 | A callback that finds no state is possible, takes no state and sets no outcome, and releases its result once. |
| `AsyncProtocol.CanceledBeforeSubmission` | bindings/dotnet/OpenDAL/Operator.cs:1328-1334 | In every continuation a submission whose token was canceled before throws if it goes on, leaves no entry, and spawns nothing that could call back. |
| `AsyncProtocol.RegistrationLeftBehindIff` | bindings/dotnet/OpenDAL/AsyncState.cs:90-101 | A finished operation whose token was not canceled leaves a live registration exactly if the callback disposed before publication and the second check came before the outcome. |
| `AsyncProtocol.RegistrationCanBeLeftBehind` | bindings/dotnet/OpenDAL/AsyncState.cs:90-101 | A concrete run that ends with a completed task and a live registration. |
| `AsyncProtocol.OperationTakesFewSteps` | bindings/dotnet/OpenDAL/Operator.cs:1328-1528 | In every run an operation takes no more steps than a fixed bound that its state gives. |
| `AsyncProtocol.RestMeansDone` | bindings/dotnet/OpenDAL/Operator.cs:1328-1528 | An operation that can do no step has returned or thrown, and its task is complete unless its native half was dropped: no deadlock, no lost completion. |
| `AsyncProtocol.CancelRequestedIff` | bindings/dotnet/OpenDAL/AsyncState.cs:83-88 | In every run a token counts as canceled exactly if a cancellation was requested on it. |
| `AsyncProtocol.CanceledMeansDone` | bindings/dotnet/OpenDAL/AsyncState.cs:76-102 | An operation at rest whose token was canceled is complete, and canceled if its native half was dropped. |
| `AsyncProtocol.CancellationIsPossible` | bindings/dotnet/OpenDAL/AsyncState.cs:83-88 | In every reachable state a pending operation bound to its token can be canceled at once: the request and the three steps of its callback are possible and end in a canceled task without an entry. |
| `AsyncProtocol.DroppedTaskPendsForever` | bindings/dotnet/src/executor.rs:146-154 | Without a cancelable token, an operation whose task was dropped pends in every continuation and its entry stays; `TaskLifetime` reaches such a state. |
| `AsyncHost.BindTraceRuns` | bindings/dotnet/OpenDAL/AsyncState.cs:76-102 | The actions of an undisturbed `BindCancellation` are possible in the protocol one after the other, and lead to the stated end. |
| `AsyncHost.AsyncState.BindCancellation` | bindings/dotnet/OpenDAL/AsyncState.cs:76-102 | The method ends where its protocol actions end, for a token that cannot be canceled, one that is canceled already, a task that is complete, and the plain case; exactly a pending task on a canceled token is canceled by it. |
| `AsyncHost.CompleteAsyncState` | bindings/dotnet/OpenDAL/Operator.cs:1432-1456 | Takes the state out of the registry, disposes its registration exactly if that is published, and completes it with the value, the error code or the exception that the result carries unless it is complete; touches no other operation. |
| `AsyncHost.SettlingCallbackRuns` | bindings/dotnet/OpenDAL/Operator.cs:1432-1509 | The actions of an undisturbed callback that finds its state are possible in the protocol one after the other, and lead to the stated end. |
| `AsyncHost.SilentCallbackRuns` | bindings/dotnet/OpenDAL/Operator.cs:1435-1438 | A callback that finds no state only releases its result. |
| `AsyncHost.CompleteAsyncCallback` | bindings/dotnet/OpenDAL/Operator.cs:1498-1509 | On every path (live, gone, error, throwing conversion) the native result is released exactly once, after its last use; a state that is found is completed with the value, code or exception of the result, ends where its protocol actions end, and no other is touched. |
| `AsyncHost.NativeSide.SubmitAsync` | bindings/dotnet/src/operator.rs:1514-1558 | Accepts exactly if the operator is there, the executor is known, or the default one is set or can be built, the path is text, data is there where a length is given, and the callback is there; then exactly one task is spawned, with the caller's context, and otherwise none, with the error of the first failing check. |
| `AsyncHost.AcceptedIff` | bindings/dotnet/src/operator.rs:1514-1558 | After any run of the executor table, a submission is accepted if and only if its operator is not null, it names a live handle, or none and a default executor is set or can be built, its path is text, its data is not null where its length is positive, and its callback is not null. |
| `AsyncHost.BadExecutorIff` | bindings/dotnet/src/executor.rs:105-119 | After any run of the executor table, a submission fails at its executor if and only if it names one whose handle is not live, or none while no default one is set and none can be built. |
| `AsyncHost.OtherErrorsIff` | bindings/dotnet/src/operator.rs:1514-1558 | Each of the four other errors (operator, path, data, callback) comes if and only if its own check fails and the checks before it pass. |
| `AsyncHost.SubmitAsyncOperation` | bindings/dotnet/OpenDAL/Operator.cs:1328-1349 | The caller gets a task exactly if the token was not canceled, the options could be built, every argument passes its check and the token could be bound, and it is registered under the id it calls back with; in every other case the registry is as before, and a native task is left only behind a failed binding. |
| `AsyncHandles.Bridge.OperatorReader` | bindings/cpp/src/async.rs:245-263 | Issues the next id, which is not zero and not in use, and stores exactly the reader under it: the two events `Allocate` and `Insert`. |
| `AsyncHandles.Reach` | bindings/cpp/src/async.rs:285-292 | After any run, a read through a handle reaches the reader that its id was issued for exactly if the handle holds an id; how moves pass it on is `MoveHandsOver`. |
| `AsyncHandles.Reader.MoveFrom` | bindings/cpp/src/opendal_async.cpp:109-111 | The new handle holds the id of the old one, which holds none afterwards: the event `MoveConstruct`. |
| `AsyncHandles.Reader.Assign` | bindings/cpp/src/opendal_async.cpp:113-119 | The same for two different handles; self-assignment changes nothing: the event `MoveAssign`. |
| `AsyncHandles.Reader.Destroy` | bindings/cpp/src/opendal_async.cpp:121-129 | Removes exactly its own id from the storage, unless it holds none or does not get the lock: the event `Destruct`. |
| `AsyncHandles.MoveHandsOver` | bindings/cpp/src/opendal_async.cpp:109-119 | In every reachable state a move construction, and an assignment between different handles, makes the target reach exactly the reader that the source reached and the source reach none; no other handle and no stored reader is touched. |
| `AsyncHandles.WrapReachesIssued` | bindings/cpp/src/opendal_async.cpp:107 | A new handle reaches the reader that its id was issued for, and the other handles keep theirs. |
| `AsyncHandles.DestructDeletesOwn` | bindings/cpp/src/opendal_async.cpp:121-129 | A destructor that gets the lock deletes exactly the reader of its own handle; every other handle keeps its reader. |
| `AsyncHandles.RunKeepsInv` | bindings/cpp/src/async.rs:245-338 | In every run storage is exactly the owned ids, the ids not wrapped yet and the lost ids, these are disjoint, and no id has two owners. |
| `AsyncHandles.LostForever` | bindings/cpp/src/opendal_async.cpp:113-119 | A lost id stays in storage in every continuation, and lost ids are counted by the events that lose one. |
| `AsyncHandles.LosesIff` | bindings/cpp/src/opendal_async.cpp:113-129 | An event loses an id if and only if it assigns over another handle that holds one, or destroys such a handle without the lock. |
| `AsyncHandles.ExactAccounting` | bindings/cpp/src/opendal_async.cpp:107-129 | After any run a handle reaches the reader its id was issued for exactly if it holds an id, no two handles hold one id, and the size of storage is owned plus unwrapped ids plus one for each losing event. |
| `AsyncHandles.CleanShutdownIff` | bindings/cpp/src/async.rs:322-329 | With all handles destroyed, storage is empty exactly if no assignment overwrote an id and no delete was skipped. |
| `AsyncHandles.BothLeaksHappen` | bindings/cpp/src/opendal_async.cpp:113-129 | A concrete run that loses one reader by assignment and one by a busy lock. |
| `ListerProtocol.EachEntryOnceInOrder` | bindings/cpp/src/async.rs:302-338 | However calls interleave, fail, are dropped or race with a delete, entries go out in order, each in exactly one reply; without an error an end comes only after all of them, and behind an error every reply is an end or a refusal. |
| `ListerProtocol.EveryCallAnsweredOnce` | bindings/cpp/src/async.rs:302-320 | In every run a caller's lookups are its replies plus its dropped calls plus the call it has open: each call is answered once. |
| `ListerProtocol.YieldAnswers` | bindings/cpp/src/async.rs:311-318 | Told from the replies so far: a call inside the stream is answered with the entry that is next, or with the end if all are out or an error was answered; then the call is over and the lock free. |
| `ListerProtocol.RefusedIffDeleted` | bindings/cpp/src/async.rs:302-338 | In any run a call is refused as an invalid id if and only if the id was deleted before; a delete leaves calls under way as they were. |
| `ListerProtocol.SomeCallCanGoOn` | bindings/cpp/src/async.rs:302-320 | In every reachable state with open calls, one of them can be answered or take the lock. |
| `ListerProtocol.EmptyReplyIsRightIff` | core/core/src/types/list.rs:62-95 | An empty string in a reply means that everything was handed out if and only if it is not the path of an entry and every error before it came when all entries were out. |
| `ListerProtocol.NonEmptyPathsAreSafe` | bindings/cpp/src/async.rs:314-318 | Without empty paths the callers together see exactly the entries handed out, and without errors an empty string is the end. |
| `ListerProtocol.EndMarkIsSafeIff` | bindings/cpp/src/async.rs:315-316 | The empty string marks the end in every run in which the stream does not fail if and only if the listing has no empty path. |
| `ListerProtocol.EndMarkSurvivesErrorsIff` | core/core/src/types/list.rs:63-66 | It marks the end in every run, failing ones too, if and only if the listing has no entries at all. |
| `ListerProtocol.ErrorHidesTheRest` | core/core/src/types/list.rs:87-90 | The run for any listing: one call fails, the next is told the end, nothing was handed out. |
| `ReaderStreamBuf.ReadsRefineTheFile` | bindings/cpp/include/opendal.hpp:221-264 | Any mix of peeks, single-byte reads and block reads of any sizes, also with exceptions between, hands out the file's bytes in order, none twice, and none lost except those that a call had consumed when it threw. |
| `ReaderStreamBuf.WholeFileIff` | bindings/cpp/include/opendal.hpp:221-264 | Reading until a call says the end hands out the whole rest of the file if and only if no call had consumed bytes when it threw and none failed to open the request. |
| `ReaderStreamBuf.ThrowingReadUsesTheBuffer` | bindings/cpp/include/opendal.hpp:224-236 | A read that throws has used up all buffered bytes, so one that the buffered bytes can serve never throws. |
| `ReaderStreamBuf.LossPossibleIff` | bindings/cpp/include/opendal.hpp:224-236 | A read can lose bytes by an exception if and only if it asks for more than is buffered, and something is buffered or it asks for more than one byte where there is one. |
| `ReaderStreamBuf.SafeReadsGetTheFileIff` | bindings/cpp/include/opendal.hpp:221-264 | Over runs of reads that cannot lose bytes, with any exceptions between, the whole rest of the file comes if and only if no call failed to open the request. |
| `ReaderStreamBuf.ExceptionLosesByte` | bindings/cpp/include/opendal.hpp:224-236 | Three calls on a file of two bytes after which the second byte is lost. |
| `ReaderStreamBuf.FailedOpenLooksEmpty` | core/core/src/types/context/read.rs:160-204 | For any file that is not empty, the run of an exception and an end with nothing read. |
| `ReaderStreamBuf.DriftIsExact` | bindings/cpp/include/opendal.hpp:247-252 | Between seeks `tellg` runs ahead of the logical position by exactly the sum of the buffer lengths over the failing calls. |
| `ReaderStreamBuf.TellIsRightIff` | bindings/cpp/include/opendal.hpp:268-271 | `tellg` gives the logical position if and only if no call since the last seek failed over a filled buffer. |
| `ReaderStreamBuf.OvershootOfFailures` | bindings/cpp/include/opendal.hpp:241-256 | `n` failing calls in a row that move nothing, at the end of the file or by exceptions, put `tellg` ahead by exactly `n` times the length of the last buffer. |
| `ReaderStreamBuf.SeekSettles` | bindings/cpp/include/opendal.hpp:273-279 | A seek that succeeds empties the buffer, makes reader, `tellg` and logical position agree, and makes a spent reader usable again. |
| `ReaderStreamBuf.SeekFromBeginning` | bindings/cpp/include/opendal.hpp:273-285 | A seek to a position in the file lands there, and a `get` behind it that does not throw returns the byte at that position, or nothing at the end; any other position throws and changes nothing. |
| `ReaderStreamBuf.SeekFromEnd` | core/core/src/types/read/futures_async_reader.rs:139-143 | The same from the end of the file, for offsets from minus its length to zero. |
| `ReaderStreamBuf.PeekThenGet` | bindings/cpp/include/opendal.hpp:241-264 | The byte that a peek shows is the byte that is got next, and only getting moves. |
| `ReaderStreamBuf.RelativeSeekIsRightIff` | bindings/cpp/include/opendal.hpp:274 | A relative seek does what its caller means, landing or throwing, if and only if no buffered byte is unread or both its target and the place that many bytes behind it are outside the file. |
| `ReaderStreamBuf.RelativeSeekCanThrow` | bindings/cpp/include/opendal.hpp:274 | A seek that throws although its target is in the file. |
| `CoreReader.StdReader.ReadInto` | core/core/src/types/read/buffer_stream.rs:73-94 | Any number of the next bytes, or an error, which is counted; zero only at the end or from a reader whose request could not be opened since the last seek. |
| `CoreReader.StdReader.Seek` | core/core/src/types/read/futures_async_reader.rs:133-178 | Moves to the offset from the start, to the position plus the offset, or to the length plus the offset, if that lies within the file, and starts a new stream unless the target is at hand; otherwise fails and stays. |
| `CoreReader.StdReader.Open` | core/core/src/types/context/read.rs:160-204 | Opens the request once; a failure leaves the reader spent. |
| `ReaderStreamBuf.StreamBuf.Underflow` | bindings/cpp/include/opendal.hpp:241-256 | Shows the byte at the logical position without consuming it, or the end, or throws, which it does exactly if the reader failed; a failing call moves `tellg` by the buffer's length. |
| `ReaderStreamBuf.StreamBuf.Uflow` | bindings/cpp/include/opendal.hpp:258-264 | Consumes exactly the byte at the logical position, if there is one; throws exactly if the reader failed. |
| `ReaderStreamBuf.StreamBuf.Xsgetn` | bindings/cpp/include/opendal.hpp:221-239 | Terminates and stores exactly min(count, remaining) bytes from the logical position, where a spent reader has none remaining, or throws, which it does exactly if the reader failed and only after using up what is buffered. |
| `ReaderStreamBuf.StreamBuf.SeekOff` | bindings/cpp/include/opendal.hpp:266-280 | Tells; or seeks, from the start to the offset and from the end to the length plus the offset, or from the reader's own position, and drops the buffer; outside the file it throws and changes nothing. |
| `ReaderStreamBuf.StreamBuf.SeekPos` | bindings/cpp/include/opendal.hpp:282-285 | Lands exactly at the position if that is in the file; otherwise throws and stays. |
| `OutputStream.SplitsDoNotMatter` | bindings/dotnet/OpenDAL/OperatorOutputStream.cs:72-89 | Without flushes the native payloads depend on the concatenated data only. |
| `OutputStream.BlocksThrough` | bindings/dotnet/OpenDAL/OperatorOutputStream.cs:72-89 | The payloads and the buffered rest together are the data. |
| `OutputStream.WritesPerStream` | bindings/dotnet/OpenDAL/OperatorOutputStream.cs:135-145 | The payloads of n bytes are ceil(n / size) many, none is empty, and all but the last have full size. |
| `OutputStream.DisposedStreamSendsBlocks` | bindings/dotnet/OpenDAL/OperatorOutputStream.cs:72-185 | Every run of writes in any pieces that ends with a normal dispose sends exactly these payloads. |
| `OutputStream.Conservation` | bindings/dotnet/OpenDAL/OperatorOutputStream.cs:72-185 | In every run, sent plus buffered bytes are all bytes taken, also after failed flushes; a disposed stream has sent a prefix of them, and all if it was closed. |
| `OutputStream.NoSilentLoss` | bindings/dotnet/OpenDAL/OperatorOutputStream.cs:152-185 | The first dispose returns normally exactly if it closed the native writer, and then everything taken had been delivered. |
| `OutputStream.FlushDelivers` | bindings/dotnet/OpenDAL/OperatorOutputStream.cs:105-111 | Behind a flush that returned normally, in any run, the payloads sent are all bytes the stream ever took, and nothing waits in the buffer. |
| `OutputStream.OperatorOutputStream.Open` | bindings/dotnet/OpenDAL/OperatorOutputStream.cs:36-50 | A zero handle and a size that is not positive are refused, in that order; otherwise the stream is empty. |
| `OutputStream.OperatorOutputStream.FlushBuffered` | bindings/dotnet/OpenDAL/OperatorOutputStream.cs:135-145 | Sends the buffered bytes as one payload and empties the buffer, or keeps them all. |
| `OutputStream.OperatorOutputStream.Write` | bindings/dotnet/OpenDAL/OperatorOutputStream.cs:72-89 | Block-wise copying has the effect of putting in single bytes; it throws exactly if a native write failed, with a full buffer and a known part taken. |
| `OutputStream.OperatorOutputStream.Flush` | bindings/dotnet/OpenDAL/OperatorOutputStream.cs:105-111 | Sends the buffer before the native flush, which reaches all payloads; throws exactly if one of the two failed; refused when disposed. |
| `OutputStream.OperatorOutputStream.Dispose` | bindings/dotnet/OpenDAL/OperatorOutputStream.cs:152-185 | Frees the native writer once on every path, after the last native call; throws exactly if a native call failed; a second call does nothing. |
| `InputStream.ReadTakesTheFront` | bindings/dotnet/OpenDAL/OperatorInputStream.cs:64-95 | A read takes its bytes from the front of the chunks, and is short exactly if it meets an empty chunk or the end. |
| `InputStream.ThrowingReadLoses` | bindings/dotnet/OpenDAL/OperatorInputStream.cs:77-78 | A read that throws loses the bytes it had copied, fewer than it was asked for, and no others, unless the request could not be opened: then everything is lost. |
| `InputStream.ThrowLosesWholeChunks` | bindings/dotnet/OpenDAL/OperatorInputStream.cs:75-84 | The bytes it loses are all of the chunk at hand and whole chunks behind it, so one that the chunk at hand can serve never throws. |
| `InputStream.LossPossibleIff` | bindings/dotnet/OpenDAL/OperatorInputStream.cs:75-91 | A read can lose bytes by an exception if and only if it asks for more than the chunk at hand has left, and that has something left or the next chunk is not empty and too short; reads of one byte cannot. |
| `InputStream.ReadsFollowTheChunks` | bindings/dotnet/OpenDAL/OperatorInputStream.cs:64-95 | Over any run of reads of any sizes, throwing ones too, the bytes taken and the bytes left are the native chunks in order, as long as the request could be opened. |
| `InputStream.FailedOpenReturnsNothing` | core/core/src/types/context/read.rs:190-204 | If it could not, no read of the run ever takes a byte. |
| `InputStream.WholeFileIff` | bindings/dotnet/OpenDAL/OperatorInputStream.cs:64-95 | Reading until a read returns nothing returns everything if and only if no read had copied bytes when it threw and the request could be opened or there was nothing to read. |
| `InputStream.SafeReadsGetTheFileIff` | bindings/dotnet/OpenDAL/OperatorInputStream.cs:64-95 | Over runs of reads that cannot lose bytes, with any exceptions between, everything comes if and only if the request could be opened or there was nothing to read. |
| `InputStream.ExceptionLosesByte` | bindings/dotnet/OpenDAL/OperatorInputStream.cs:75-84 | Four reads of two chunks after which one byte is lost. |
| `InputStream.FailedOpenLooksEmpty` | bindings/dotnet/src/operator.rs:1244-1254 | For any file, the run of an exception and an end with nothing read. |
| `InputStream.ReadToEnd` | bindings/dotnet/OpenDAL/OperatorInputStream.cs:80-83 | Reading without exceptions until a read returns nothing returns everything, if no data follows an empty chunk. |
| `InputStream.EndIsReliableIff` | bindings/dotnet/OpenDAL/OperatorInputStream.cs:80-83 | That holds for all read sizes if and only if no data follows an empty chunk. |
| `InputStream.NativeStream.ReadNext` | bindings/dotnet/src/operator.rs:1233-1257 | The next chunk, an empty one after the last, or an error; an error in opening the request leaves only empty chunks. |
| `InputStream.OperatorInputStream.Open` | bindings/dotnet/OpenDAL/OperatorInputStream.cs:34-42 | A zero handle gives no stream. |
| `InputStream.OperatorInputStream.Read` | bindings/dotnet/OpenDAL/OperatorInputStream.cs:64-95 | Terminates and fills the span from what is ahead of the next empty chunk, or throws, which it does exactly if the native iterator failed and only when the chunk at hand is used up; refused when disposed. |
| `InputStream.OperatorInputStream.Dispose` | bindings/dotnet/OpenDAL/OperatorInputStream.cs:139-151 | Frees the native iterator once; reads are refused from then on. |
| `RoundTrip.RoundTrip` | bindings/dotnet/OpenDAL/OperatorOutputStream.cs:72-185 | For every buffer size, split into writes and flushes, cut into non-empty chunks and choice of read sizes, reading to the end returns what a closed output stream took, which is all that was written if no call failed. |
| `FfiContext.InitIsOrdered` | bindings/go/ffi.go:52-59 | In Go's order of package initialisation every variable comes once and after all it depends on. |
| `FfiContext.InitIsTheOrder` | bindings/go/ffi.go:52-59 | The order is the only one in which each variable is the earliest declared one that is ready when its turn comes, until none is ready. |
| `FfiContext.InitCompletesIff` | bindings/go/ffi.go:52-59 | Every variable is initialised if and only if the dependencies have no cycle. |
| `FfiContext.BuildSucceedsIff` | bindings/go/ffi.go:65-84 | Building the context succeeds exactly if the call interface of every variable can be prepared and its symbol is exported; otherwise it gives the error of the first variable for which that fails, the call interface before the symbol. |
| `FfiContext.EveryLookupSucceeds` | bindings/go/ffi.go:109-127 | For acyclic variables with distinct symbols every function in the finished context finds, at any depth of calls, every symbol it looks up, bound to its own variable and to the one library. |
| `FfiContext.LookupNeedsEarlierSymbol` | bindings/go/ffi.go:61-63 | A context holds a symbol exactly if its variable was registered before, so a closure misses what is registered later. |
| `FfiContext.LastRegistrationWins` | bindings/go/ffi.go:80-83 | Under every symbol the context holds the closure of the variable registered last with it. |
| `FfiContext.SharedSymbolIsShadowed` | bindings/go/ffi.go:61-63 | Of any two variables that share a symbol, the earlier one never gets its own closure. |
| `FfiContext.Loader.LoadSharedLibrary` | bindings/go/ffi.go:93-107 | A path gives the same library for ever once loaded; a failed attempt leaves no trace. |
| `FfiContext.Loader.NewContext` | bindings/go/ffi.go:109-127 | The loop computes the fold of all `withFFI` over one library, stopping at the first error. |
| `GoReader.Read` | bindings/go/reader.go:172-194 | Terminates within the buffer and returns consecutive bytes; short only at the end, with an error, or from a spent reader; a native error exactly if a native read failed; `io.EOF` exactly if a non-empty buffer got nothing without an error. |
| `GoReader.DataIsConsecutive` | bindings/go/reader.go:303-326 | Whatever errors come between, the calls return consecutive bytes of the file, none lost and none twice. |
| `GoReader.ReadUntilEofIff` | bindings/go/reader.go:172-194 | The calls up to an end of file return a prefix of the rest of the file, and all of it if and only if none of them failed to open the request. |
| `GoReader.FailedOpenLooksEmpty` | core/core/src/types/context/read.rs:160-204 | For any file that is not empty, the two calls that return an error and `io.EOF` and no byte. |
| `ExecutorTable.RunKeepsInv` | bindings/dotnet/src/executor.rs:82-154 | However threads race, every executor object is in one place at most, and tables, calls and answers agree. |
| `ExecutorTable.OneDefault` | bindings/dotnet/src/executor.rs:82-99 | All default lookups of a run give the same executor, and the last line of `default_executor` is never reached. |
| `ExecutorTable.ResolvesIffLive` | bindings/dotnet/src/executor.rs:105-119 | A handle resolves exactly if it was inserted and not freed since, and to the executor it was created for. |
| `ExecutorTable.ResolveAnswersIff` | bindings/dotnet/src/executor.rs:105-119 | After any run an idle thread that looks a handle up is answered with the executor the handle was created for, and holds a clone of it, if the handle is live, and is refused and holds none if not; nothing else changes. |
| `ExecutorTable.CreateFailsIff` | bindings/dotnet/src/executor.rs:122-138 | A creation fails exactly if it asks for no thread or no runtime could be built, and otherwise goes on with an executor of its own. |
| `ExecutorTable.CreationEndsWithHandle` | bindings/dotnet/src/executor.rs:122-138 | Its last step answers with the handle drawn for its executor, which is in the table and live from then on. |
| `ExecutorTable.DefaultIffSet` | bindings/dotnet/src/executor.rs:82-99 | The default is there exactly if some lookup of the run has reached its `set`. |
| `ExecutorTable.DefaultLookupAnswers` | bindings/dotnet/src/executor.rs:82-99 | Each step of a default lookup in every reachable state: answered at once if the default is set, fails exactly if no runtime could be built, else ends with its own executor if it is first, or with the one that was. |
| `ExecutorTable.ResolvedIsOwn` | bindings/dotnet/src/executor.rs:122-138 | What resolving a handle gave and what creating it gave are the same executor, across whole runs. |
| `ExecutorTable.LookupHandsOutItsAnswer` | bindings/dotnet/src/executor.rs:105-138 | A lookup leaves its thread holding a clone of the very executor it answered with, a creation leaves its executor in the table, and a failed call changes neither. |
| `ExecutorTable.AliveIff` | bindings/dotnet/src/executor.rs:30-34 | An executor lives exactly as long as it is the default, or its handle is not freed, or some call holds a clone. |
| `ExecutorTable.FreeKeepsClones` | bindings/dotnet/src/executor.rs:146-154 | Freeing leaves handed-out clones in place, and the executor lives on exactly if there is one. |
| `ConcurrentTasks.RunKeepsOrder` | core/core/src/raw/futures_util.rs:221-316 | Every run keeps the order of delivered, buffered and running inputs and the counter of finished tasks; a call waits only while there is a task, so neither `expect` fails and the counter does not underflow. |
| `ConcurrentTasks.FirstInFirstOut` | core/core/src/raw/futures_util.rs:186-316 | Whatever the order in which tasks finish, fail for a while and are retried, and whichever waiting calls are dropped, outputs come in the order of the accepted inputs, none lost and none twice, apart from inputs that `clear` has dropped. |
| `ConcurrentTasks.OutputsBelongToTheirInputs` | core/core/src/raw/futures_util.rs:206-316 | In every run each output is one that a task produced for that very input. |
| `ConcurrentTasks.RepliesAreThoseOfAQueue` | core/core/src/raw/futures_util.rs:221-316 | Each reply of `execute` and `next` is one that a plain queue would give, and everything in the background is invisible to the caller. |
| `ConcurrentTasks.RepliesIff` | core/core/src/raw/futures_util.rs:221-316 | When each reply comes: `execute` fails at once exactly on a broken queue or a failed direct task and is accepted exactly if there is room, `next` fails exactly on a broken queue, a waiting call fails exactly if the first task failed; a permanent failure met by a waiting call, and nothing else, breaks the queue. |
| `ConcurrentTasks.RunKeepsLength` | core/core/src/raw/futures_util.rs:193-197 | Never more than `concurrent + prefetch` tasks are in the queue. |
| `ConcurrentTasks.LimitHoldsIff` | core/core/src/raw/futures_util.rs:135-146 | At most `concurrent` tasks run at once in every run if and only if `prefetch` is zero or nothing runs concurrently. |
| `ConcurrentTasks.LimitCanBeExceeded` | core/core/src/raw/futures_util.rs:242-273 | For every other choice of the two limits, a run with more than `concurrent` running tasks. |
| `ConcurrentTasks.PoliteCallersStayWithinLimit` | core/core/src/types/read/buffer_stream.rs:222 | Callers that execute only when there is room stay within the limit, as long as no task fails for a while. |
| `ConcurrentTasks.PoliteLimitIff` | core/core/src/raw/futures_util.rs:255-262 | If tasks may fail for a while, such callers stay within the limit in every run if and only if `prefetch` is zero or nothing runs concurrently. |
| `ConcurrentTasks.PoliteCallerCanExceed` | core/core/src/raw/futures_util.rs:298-305 | For every other choice of the two limits, a run of such a caller with more than `concurrent` running tasks. |
| `ConcurrentTasks.Tasks.Execute` | core/core/src/raw/futures_util.rs:221-274 | Accepts exactly its own input or fails and leaves accepted and delivered inputs alone, whatever finishes meanwhile; it fails exactly if the queue was broken, its direct task or the first task failed, or its future was dropped. |
| `ConcurrentTasks.Tasks.Next` | core/core/src/raw/futures_util.rs:277-316 | Gives the output of the first accepted input not delivered yet, says it is drained exactly if there is none, or fails, which it does exactly if the queue was broken, the first task failed, or its future was dropped. |
| `ConcurrentTasks.Tasks.Clear` | core/core/src/raw/futures_util.rs:186-189 | What is not delivered is forgotten and the queue goes on as an empty one, also if canceled tasks still raise the counter. |
| `MultipartWriter.StoredObjectIsRightIff` | core/core/src/raw/oio/write/multipart_write.rs:211-307 | In any run of failed, dropped, repeated, closed and aborted calls, an object that a close makes the service store, also one that fails for its caller, consists of all bytes of all successful writes in order if and only if no earlier call left bytes behind: a close with a single request leaves the write it stored, an abort the write held back, and empty writes make no difference; the missing bytes are counted exactly. |
| `MultipartWriter.StoredPartsAreTheWritesIff` | core/core/src/raw/oio/write/multipart_write.rs:211-307 | The k-th part of a stored object is the k-th write not forgotten, with number k, if and only if no abort dropped a write that was held back. |
| `MultipartWriter.NothingForgottenIff` | core/core/src/raw/oio/write/multipart_write.rs:250-261 | The writer has forgotten no write if and only if no earlier close succeeded with a single request. |
| `MultipartWriter.CloseStoresOne` | core/core/src/raw/oio/write/multipart_write.rs:246-296 | A close that succeeds stores an object, each close stores at most one, and no earlier request is touched. |
| `MultipartWriter.OwnUploadOnly` | core/core/src/raw/oio/write/multipart_write.rs:211-307 | In any run every upload that was completed or aborted is the one upload of the writer, and the service had started it before. |
| `MultipartWriter.RepeatedCloseStoresNothing` | core/core/src/raw/oio/write/multipart_write.rs:250-261 | The run in which a second successful close replaces the object by an empty one. |
| `MultipartWriter.ObjectsCounted` | core/core/src/raw/oio/write/multipart_write.rs:246-296 | The service has made exactly one object for each close that stored one, and no other call makes any. |
| `MultipartWriter.ExactlyOneObjectIff` | core/core/src/raw/oio/write/multipart_write.rs:246-296 | After a close that succeeds there is exactly one object if and only if no earlier close had stored one, be it successful or carried out and reported as failed. |
| `MultipartWriter.SurelyOneObjectIff` | core/core/src/raw/oio/write/multipart_write.rs:246-296 | By the calls and their outcomes alone: after writes and then closes up to one that succeeds, every run with these calls has exactly one object if and only if the first close was that one. |
| `MultipartWriter.TwoObjectsCanBeMade` | core/core/src/raw/oio/write/multipart_write.rs:250-261 | The run in which a repeated close stores the object twice. |
| `MultipartWriter.MismatchIff` | core/core/src/raw/oio/write/multipart_write.rs:286-294 | The check of the part numbers fails only behind an abort, and there exactly if a part was handed over and not collected before. |
| `MultipartWriter.CloseAfterAbort` | core/core/src/raw/oio/write/multipart_write.rs:286-307 | Two writes, an abort that fails, and a close that finds a part missing. |
| `MultipartWriter.CloseAfterAbortCanSucceed` | core/core/src/raw/oio/write/multipart_write.rs:286-307 | A run in which a close after a failed abort completes the upload without parts although a write had succeeded. |
| `MultipartWriter.CloseAfterAbortCanBeRight` | core/core/src/raw/oio/write/multipart_write.rs:286-307 | A run in which a close after a failed abort stores the right object. |
| `MultipartWriter.WritePanicsIff` | core/core/src/raw/oio/write/multipart_write.rs:228 | In any run a write panics if and only if an earlier call aborted a started upload or closed one and handed its last part over, however that close ended. |
| `MultipartWriter.WriteCanPanic` | core/core/src/raw/oio/write/multipart_write.rs:228 | Runs of four calls that end in the panic, behind a failed close, a successful close and a failed abort. |
| `MultipartWriter.Writer.Write` | core/core/src/raw/oio/write/multipart_write.rs:211-244 | Holds its bytes back and hands the held part over with the next number, or fails and keeps what it held; it fails exactly if the service or the queue did; a start of the upload that fails may have been carried out. |
| `MultipartWriter.Writer.Close` | core/core/src/raw/oio/write/multipart_write.rs:246-296 | Stores at once what was never started as an upload; otherwise hands over, collects and completes, keeping what was collected when it fails, which it does exactly if the service or the queue did; the failed request may have been carried out. |
| `MultipartWriter.Writer.Abort` | core/core/src/raw/oio/write/multipart_write.rs:298-307 | Without an upload nothing happens; otherwise the held part and all that is not collected are gone whatever becomes of the request; it fails exactly if the request did. |

## Left out

- The core's services, layers (retry, timeout, logging), operators and paths: other code, mostly one mapping per service.
- The block and position writers and the multipart copy: the same pattern over `ConcurrentTasks` as the multipart writer.
- Capabilities, metadata, options, error codes, presigned requests and layer configuration in the bindings: copying field by field.
- Raw pointers, memory layouts and the foreign function calls themselves: only their order and their results are modelled.
- Build and release scripts, the website, and the bindings for other languages.
- A cancellation token shared by several operations: each operation has its own token here, and any number may be canceled at once.
- `TryTake` on an entry of another type than expected, which the source drops: every callback asks for the type that its own submission registered.
- A torn read of the `CancellationRegistration` field, which is a struct: publishing it is one step here.
- Poisoned and contended locks other than the `try_lock` of the destructors, and overflow of ids that are counted in `usize` or by 2^64 increments.
- Overflow of 64-bit offsets in C++ seeks, and concurrent use of one .NET stream or one C++ stream buffer.
- `Lister` handles of the C++ binding: line by line the code of `Reader` handles, so their table is modelled once.
- Which requests the service of the multipart writer sees for single parts: a finished part stands for the stored bytes of its input.
- CoreReader.StdReader.ReadInto: takes from the services that a read that fails on an opened request keeps its place, and that an opened request ends only at the end of its range.
- Readers with a chunk size: the three bindings open their readers without one, so there is one range and one request.
- Freeing an executor from one of its own threads, and the moment at which a runtime that shuts down drops its tasks: they may still call back until they are dropped.
- AsyncHost.AsyncState.BindCancellation: models the thread by itself; what other threads do between its steps is in `AsyncProtocol`.
- AsyncHost.NativeSide.SubmitAsync: leaves the table of executors as it is; that a lookup of the default executor sets it, and which clone a call holds, are events of `ExecutorTable`.
- AsyncRegistry.Registry.Register: models the loop without other threads; with them it is `UndrawnKeyIsFree`.
- RoundTrip.RoundTrip: takes from the core that the file holds what the native writer accepted and is read in chunks that are not empty.
