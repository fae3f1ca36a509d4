# A verified model of netdev

netdev lends the character device of one machine to another. A process calls a file
operation on a dummy device; the kernel queues a request, encodes it and hands it to a proxy
over netlink; the proxy forwards it over TCP to a peer, whose kernel performs it on the real
device and sends the reply the same way back; there it is matched to the waiting caller by its
sequence number. This project models that path in Dafny and proves what it is for. It needs
nothing but Dafny: `dafny verify dfyconfig.toml`.

The code departs from its evident intent in several places. Each departure is modelled as it
is written, next to the repaired form where that is a small change, and a lemma says exactly
when the two agree or what the written form leads to.

| module | what it is about |
|---|---|
| `Bytes`, `Protocol` | fixed-width integers as little-endian bytes, constants, netlink messages |
| `Codec` | the payload of a file-operation message, on byte sequences and on request objects |
| `PendingQueue` | the bounded queue of one open file, its search by number, its drain |
| `Execution` | the handlers of the server and `fo_execute`, for any device |
| `Calls` | the caller's side of each operation: a remote call against a direct one |
| `Framing` | length-prefixed packets over a byte stream with partial transfers |
| `Ledger` | sums of multisets, for the conservation arguments |
| `Rpc`, `RpcSafety`, `RpcResults`, `RpcFiles` | any number of callers and kernel threads as a step machine that may lose messages, its invariant, and what follows for callers, messages and open files |
| `RpcHistory` | what runs leave as it was: who called what, the counter, the order of messages |
| `RpcMemory`, `RpcWitness` | the memory of requests that is used again; runs in which a reply is lost or misdelivered |
| `OpenFiles` | open files by access id, and what two files with one id do to replies |
| `Relay`, `RelayRuns`, `RelayOrder` | two kernels and two proxies with the lock and the acknowledgements, and what comes after what |
| `Concurrent` | the step machine with a device behind it: concurrent calls against direct ones |
| `SeqNumbers` | increment and read of the sequence counter as two steps |
| `Minors`, `Registry` | the minor allocator, the table of devices, and how they agree |
| `Teardown`, `Refcount` | draining the open files of a dummy; the reference count over all runs |
| `Session`, `SessionEnd` | handshake and registration between the two proxies, and how long the devices last |

## Main results

- `RpcResults.CallersGetTheirOwnResult`: in every interleaving, whatever messages are lost, a
  call that is completed was executed exactly once, with its own request, and has what that
  execution answered. `OneMessageInOnePlace` is the conservation law behind it. What it needs
  is that no number is confused with what the memory of a new request holds from before;
  `RpcMemory.TimelyRunIsClean` derives that for recycled requests, and `OwnResultsIff` and
  `MisdeliveredIff` say exactly what happens without it. `LostIff` says when a caller is left
  blocked, and `RpcWitness` has a run for each.
- `Calls.ReadTransparent`, `WriteTransparent` and the others: a remote call is a direct call.
  `Concurrent.CallsAreDirectCalls` and `OrderIsRealTime` join the two: any number of concurrent
  callers see the device as if they had called it directly, one after another, in an order that
  agrees with real time.
- `RelayRuns.AckComesFirst`, `RelayOrder.LaterCallComesAfterAck`, `SoloNeverEaten` and `AnOperationCanBeEaten`: what the lock around
  the acknowledgements gives, and what it does not give to more than one operation at a time.
- `Refcount.FreedIsUnheldIff`, `Session.DummyPossibleIff`, `Minors.LiteralGetIff`,
  `Registry.IndexAgreement`, `Framing.LiteralExactIff`, `SeqNumbers.DistinctIff`: exact
  conditions under which the code as written does what it is meant to do.

## Model

| member | source | states |
|---|---|---|
| Bytes.LittleEndianRoundTrip | kernel/fo_comm.c:275-282 | a number survives being stored in a field of some width exactly when it fits it |
| Codec.EncodedIsDecodable | kernel/fo_comm.c:256-295 | whatever is encoded has the length its header announces, and id, return value and both sizes always arrive |
| Codec.RoundTrip | kernel/fo_comm.c:248-394 | arguments and data arrive exactly when the argument structure is there and not empty, or there is nothing to carry |
| Codec.FoSerialize | kernel/fo_comm.c:256-295 | the buffer is new, has exactly the computed length, and is the encoding of the request; with no arguments it stays zero after the header |
| Codec.FoDeserializeToReq | kernel/fo_comm.c:297-342 | header fields are replaced, bytes go over the start of the buffers at hand or into new ones, number, type and completion stay |
| Codec.FoDeserialize | kernel/fo_comm.c:344-394 | a new request whose content is the decoded payload |
| PendingQueue.LiteralIsRotatingIff | kernel/fo_access.c:91-125 | the search as written agrees with the one that keeps its stopper exactly when the match is at the head or there is none |
| PendingQueue.RotatingFindRemovesByKey | kernel/fo_access.c:91-125 | with unique numbers the rotating search returns the request with the number, removes it and nothing else, and the rest is a rotation of what it was |
| PendingQueue.FoAccess.ForeqAdd | kernel/fo_access.c:127-137 | the request is in the queue exactly if the lock was free and there was room; success is reported even when it was dropped |
| PendingQueue.FoAccess.ForeqFind | kernel/fo_access.c:91-125 | the loop as written stops after one element: result and queue are those of `LiteralFind` |
| PendingQueue.FoAccess.ForeqFindRotating | kernel/fo_access.c:91-125 | the loop with a stopper from an earlier round: result and queue are those of `RotatingFind`, putting back never overflows, at most one pop more than there are elements |
| PendingQueue.FoAccess.FreeQueue | kernel/fo_access.c:68-88 | the queue ends empty, and each request that was in it is completed once with -ENODATA |
| Execution.OpenFile.RecvLlseek | kernel/fo_recv.c:9-21 | device and request are as the operation leaves them; -1 exactly when the device has none |
| Execution.OpenFile.RecvRead | kernel/fo_recv.c:23-35 | a new buffer of the size asked for holds the bytes read; offset and result are in the arguments |
| Execution.OpenFile.RecvWrite | kernel/fo_recv.c:37-51 | the bytes sent are written; no data goes back |
| Execution.OpenFile.RecvUnlockedIoctl | kernel/fo_recv.c:57-65 | the operation is performed and -1 is returned all the same |
| Execution.OpenFile.RecvCompatIoctl | kernel/fo_recv.c:67-75 | device and arguments are as the operation leaves them |
| Execution.OpenFile.RecvOpen | kernel/fo_recv.c:81-102 | -1 exactly when the device cannot be opened |
| Execution.OpenFile.RecvFlush | kernel/fo_recv.c:104-114 | -1 exactly when the device has no flush |
| Execution.OpenFile.RecvRelease | kernel/fo_recv.c:116-122 | the result of closing is in the arguments |
| Execution.OpenFile.Dispatch | kernel/fo_comm.c:198-212 | whichever handler the table has, device, request and return value are those of its specification |
| Execution.OpenFile.FoExecute | kernel/fo_comm.c:177-246 | both reply branches keep pid, number and type and carry the specified payload; on failure the message goes back as it came and -ENODATA is returned |
| Calls.ExactRoundTrip | kernel/fo_comm.c:256-394 | a request with arguments is decoded as it was sent, an empty data buffer as NULL |
| Calls.ReplyFits | kernel/fo_comm.c:297-342 | the reply to every operation fits the buffers its caller supplied |
| Calls.FailureEchoes | kernel/fo_comm.c:235-237 | a missing or failing operation gives the caller -1 with unchanged arguments and data, whatever the handler did to its copy |
| Calls.SuccessDelivers | kernel/fo_comm.c:207-234 | a successful operation gives 0, the handler's arguments, and its data over the start of the caller's buffer |
| Calls.LlseekTransparent | kernel/fo_send.c:8-26 | a remote llseek is the device's llseek in state and result, or -1 if it has none |
| Calls.CompatIoctlTransparent | kernel/fo_send.c:130-148 | the same for compat_ioctl |
| Calls.UnlockedIoctlPerformedButFails | kernel/fo_send.c:111-129 | unlocked_ioctl changes the device, and the caller gets -1 and its own arguments back |
| Calls.ReadTransparent | kernel/fo_send.c:27-62 | a remote read gives the device's state, result, offset and bytes |
| Calls.WriteTransparent | kernel/fo_send.c:63-98 | a remote write gives the device's state, result and new offset in the arguments |
| Calls.OpenTransparent | kernel/fo_send.c:153-183 | a remote open leaves the device as its own open does and gives 0, or gives -1 and leaves it alone |
| Calls.FlushTransparent | kernel/fo_send.c:184-200 | state and result of the device's flush, or -1 if it has none |
| Calls.ReleaseTransparent | kernel/fo_send.c:201-217 | state and result of closing the device |
| Calls.OthersFail | kernel/fo_comm.c:198-212 | every operation but those eight leaves the device alone and gives -1 with arguments and data unchanged |
| Calls.FoSend | kernel/fo_comm.c:18-97 | on objects: refused with -EBUSY and no change if the device is not active, otherwise exactly the remote call |
| Calls.SendLlseek | kernel/fo_send.c:8-26 | what the calling process sees of llseek |
| Calls.SendRead | kernel/fo_send.c:27-62 | what it sees of read: the size limit, and otherwise result, offset and bytes of the device, for negative results too; -1 only if the process has no memory for the bytes |
| Calls.SendWrite | kernel/fo_send.c:63-98 | what it sees of write: device and result are the device's own, the offset never advances, a refusal or bytes that cannot be read show as -EIO |
| Calls.SendUnlockedIoctl | kernel/fo_send.c:111-129 | performed, and -1 |
| Calls.SendCompatIoctl | kernel/fo_send.c:130-148 | state and result of the device |
| Calls.SendOpen | kernel/fo_send.c:153-183 | what the process sees of open |
| Calls.SendFlush | kernel/fo_send.c:184-200 | what it sees of flush |
| Calls.SendRelease | kernel/fo_send.c:201-217 | what it sees of release |
| Calls.CopyToUser | kernel/fo_send.c:54-59 | what is left after copying as much as the process has memory for; for a negative count nothing is copied and the residue, held in a signed variable, is that count |
| Framing.ParseOfStream | daemon/conn.c:10-72 | reading packets off the stream gives the types, sizes and payloads sent, in order, with nothing left over |
| Framing.ParseIncremental | daemon/conn.c:277-315 | bytes that arrive later change nothing of what was read before |
| Framing.ArrivedIsInOrder | daemon/conn.c:277-315 | however partial sends and receives interleave, the packets in the bytes that have arrived are the first ones sent, and the rest gives the others |
| Framing.Connection.SendAll | daemon/conn.c:297-315 | each call asks for what is left or, as written, for what was sent so far, while bytes are missing; so exactly the message, or as written between size and max(size, 2 size - 2) bytes, running past the buffer |
| Framing.Connection.RecvAll | daemon/conn.c:277-295 | the same for receiving, and nothing is taken off the stream but what is returned |
| Framing.Connection.ConnSend | daemon/conn.c:10-39 | the whole frame or a failed connection |
| Framing.Connection.ConnRecv | daemon/conn.c:41-72 | a packet that is returned is the next one sent and not yet taken, whole, however the connection ends; a packet without payload is taken off the stream and reported as none |
| Framing.LiteralBound | daemon/conn.c:277-315 | the bounds on what the loop as written moves |
| Framing.LoopMovesLiteralTotal | daemon/conn.c:277-315 | the loops as written that succeed move what the bounds and the exact condition are about |
| Framing.LiteralExactIff | daemon/conn.c:277-315 | the loop as written moves exactly the message for every splitting if and only if it has at most two bytes |
| RpcSafety.WrapInjective | kernel/netdevmgm.c:293-300 | two increments less than 2^32 apart give different numbers |
| RpcSafety.KeyRoundTrip | kernel/fo_comm.c:161 | a number loses nothing on its way through the 32-bit header field |
| RpcSafety.SameNumberSameCall | kernel/fo_access.c:111 | two queued requests with one number are one request, unless one has no number of its own yet |
| RpcSafety.OwnerOf | kernel/fo_comm.c:72-88 | a message that is anywhere is the one its call waits for |
| RpcSafety.CompleteOutcome | kernel/fo_comm.c:152-175 | a reply that does not find a wrong request completes its own call or none, and touches no other |
| RpcSafety.DropKeeps | daemon/netlink.c:134-150 | losing any message keeps all of it: its call just waits |
| RpcSafety.RefuseKeeps | kernel/fo_comm.c:66-70 | so does a call that is refused because its number is zero, and whose request stays in the queue |
| RpcSafety.BaseKeeps | kernel/fo_comm.c:18-246 | every step but one that misdelivers a reply keeps: queues hold the pending requests once each, messages and executions balance, numbers in use differ |
| RpcSafety.NothingMisdelivered | kernel/fo_access.c:91-125 | while no request without a number holds one in use on its file, no search finds a wrong request |
| RpcSafety.StepKeeps | kernel/fo_comm.c:18-246 | every step that does not confuse a number with what memory held before keeps all of it |
| RpcResults.RunKeeps | kernel/fo_comm.c:18-246 | so does every such run, and no reply is misdelivered in it |
| RpcResults.KeptUntilMisdelivered | kernel/fo_comm.c:18-246 | with no assumption on memory, the same holds until the first misdelivery |
| RpcResults.CallersGetTheirOwnResult | kernel/fo_comm.c:18-246 | executed at most once; a completed call was executed once with its own request and has that answer; one not yet executed, or refused, has no execution |
| RpcResults.OwnResultsIff | kernel/fo_comm.c:152-175 | in any run, with no assumption on memory, all callers always have their own results exactly when no search finds a request that its reply does not answer |
| RpcResults.OneMessageInOnePlace | kernel/fo_comm.c:72-88 | a call waits for a message exactly if its message exists, and then it is in exactly one place |
| RpcResults.LostIff | kernel/fo_access.c:100-124 | a reply leaves its caller blocked exactly when its request is not at the head, as written, or found the queue full, with the stopper kept, or when the reply goes to another |
| RpcResults.MisdeliveredIff | kernel/fo_comm.c:57-66 | for either search, a reply completes a wrong call exactly when the search comes first to a request that has no number yet and whose memory holds the same |
| RpcMemory.RecycledHoldsOldNumber | kernel/fo_comm.c:40-57 | a new request holds what was in its memory: for recycled memory the number of the call that had it, which is a number |
| RpcMemory.RecycledIsCleanIff | kernel/fo_comm.c:40-57 | it is confused with no request in use exactly when none on its file has a number from a whole number of rounds of the counter away |
| RpcMemory.TimelyIsClean | kernel/fo_comm.c:40-66 | a request in the memory of one that has returned is confused with none, if the counter has not come round since |
| RpcMemory.TimelyRunIsClean | kernel/fo_comm.c:40-92 | so no number is confused in any run in which memory is recycled within one round of the counter |
| RpcMemory.RecycledMemoryIsHarmless | kernel/fo_comm.c:40-92 | and each caller has its own result there |
| RpcHistory.CallsAreBegun | kernel/fo_comm.c:47-57 | the calls of a run are those that it began, in order, each with its open file, operation and request |
| RpcHistory.CounterIsIncrements | kernel/fo_comm.c:66 | the counter goes up by one for every call that is numbered or refused |
| RpcHistory.MoveKeepsOrder | daemon/proxy.c:226-308 | what moves on was first at its station and is last at the next |
| RpcHistory.RefusedStaysQueued | kernel/fo_comm.c:66-95 | a refused call has returned, and its request stays in the queue unless the call frees the open file |
| RpcWitness.ARecycledRequestHoldsANumber | kernel/fo_comm.c:40-57 | there is a timely run in which a request without a number holds that of an earlier one |
| RpcWitness.AReplyCanBeLost | kernel/fo_access.c:100-137 | there is a run in which a reply is lost, as written and with the stopper kept |
| RpcWitness.AReplyCanBeMisdelivered | kernel/fo_comm.c:56-66 | there is a run, for either search, in which a call gets the result of another, from memory that held its number by chance |
| RpcFiles.ExecuteFindsFile | kernel/fo_comm.c:122-135 | every request but an open finds its open file on the server |
| RpcFiles.FilesAgree | kernel/fo_comm.c:122-145 | in every run that loses nothing the files usable at the client are open on the server, and those on the server are known to the client |
| RpcFiles.ReturnFrees | kernel/fo_comm.c:89-95 | after a release neither side keeps the file; a failed open leaves both, as written, and neither, if cleaned up |
| RpcFiles.NobodyStaysBlocked | kernel/fo_comm.c:85-88 | when nothing is lost and a call begins only with room for it, every blocked caller has a message that some step can move on |
| Concurrent.ServedIsDirect | kernel/fo_comm.c:177-246 | serving the request of a call and decoding the answer into its buffers is the remote call of `Calls` |
| Concurrent.OpenReachesDevice | kernel/fo_recv.c:81-102 | an open that is served leaves the device as its own open does, unless that fails |
| Concurrent.ReleaseReachesDevice | kernel/fo_recv.c:116-122 | and a release as its own release does |
| Concurrent.ServerCanAnswer | kernel/fo_comm.c:177-237 | whatever was sent to the server, it has an answer that continues the run |
| Concurrent.CallsAreDirectCalls | kernel/fo_comm.c:18-246 | with any number of callers, each completed call has exactly one place in the order of executions, and what it decodes and the device after it are those of the call made there alone |
| Concurrent.OrderIsRealTime | kernel/fo_comm.c:85-88 | a call completed before another begins comes before it in that order |
| SeqNumbers.SameNumberIff | kernel/netdevmgm.c:293-300 | two reads give the same number exactly when the increments between them are a multiple of 2^32 |
| SeqNumbers.ZeroIff | kernel/fo_comm.c:66-70 | a number is refused exactly when the increments before it are a multiple of 2^32 |
| SeqNumbers.DistinctIff | kernel/netdevmgm.c:293-300 | in any interleaving of increments and reads all numbers differ exactly when an increment separates any two reads |
| SeqNumbers.AtomicCallsAreDistinct | kernel/netdevmgm.c:293-300 | as one step, all calls get different numbers until the counter comes round |
| SeqNumbers.TwoCallersMeet | kernel/netdevmgm.c:297-298 | as written two threads can get the same number |
| Relay.NodeKeeps | kernel/netlink.c:79-112 | every step of one machine keeps the lock discipline and the order of its queue |
| Relay.PutKeeps | kernel/netlink.c:215-219 | a thread that sends under the lock comes after the acknowledgement of every message whose thread was woken |
| Relay.ConfirmedIff | daemon/netlink.c:121-156 | the message taken for the confirmation is the right one exactly when the proxy's queue was empty when the lock was taken |
| RelayRuns.StepKeeps | daemon/proxy.c:226-308 | every step of the two machines keeps each operation in exactly one place |
| RelayRuns.AckComesFirst | kernel/netlink.c:79-112 | in every run the acknowledgement of a request enters the queue before its reply, and those of completed replies before any later request |
| RelayOrder.LaterCallComesAfterAck | kernel/netlink.c:94-107 | in every run: if one call is completed and another begins after that, the request of the second enters the queue after the acknowledgement of the first one's reply |
| RelayOrder.ALaterCallCanBeSent | kernel/netlink.c:162-165 | there is a run with two such calls |
| RelayOrder.LineKeeps | daemon/proxy.c:226-308 | between a kernel and the other proxy nothing overtakes: what is put in comes last, what arrives was first, all else stays in line |
| RelayRuns.ConfirmationIff | daemon/netlink.c:121-156 | in every run a confirmation step finds a message, the right one exactly when nothing was waiting |
| RelayRuns.SoloNeverEaten | daemon/netlink.c:134-150 | with one operation at a time the confirmation is always the acknowledgement, no operation is taken for one, and no proxy leaves its loop |
| RelayRuns.ACallCanComplete | daemon/proxy.c:226-308 | there is a run with one operation at a time in which a call goes all the way and is completed |
| RelayRuns.SecondOperationIsEaten | daemon/netlink.c:134-150 | whenever a reply meets one waiting request at the client, the request is taken for the confirmation, and the proxy can then leave its loop |
| RelayRuns.AnOperationCanBeEaten | daemon/proxy.c:266-308 | there is a run with two calls in which that happens |
| Minors.GetGivesFree | kernel/netdevmgm.c:254-279 | a minor that is given was free, and no other cell changes |
| Minors.LiteralGetIff | kernel/netdevmgm.c:254-279 | with the mark in order the scan as written gives a proper minor exactly when one is free, and leaves the array exactly when none is |
| Minors.LiteralPutKeepsMarkIff | kernel/netdevmgm.c:237-252 | the loop without a break keeps the mark in order exactly when another minor is returned, or at most one above 0 stays in use below it |
| Minors.StoppingPutKeepsMark | kernel/netdevmgm.c:237-252 | with the break it always does |
| Minors.RefusedOnlyWhenFull | kernel/netdevmgm.c:237-279 | with both repairs, after any sequence of calls, everything above the mark is free and a call is refused only when all 32 are held |
| Minors.NoMinorTwice | kernel/netdevmgm.c:237-279 | over any sequence of calls, repaired or not, the minors in use are those that somebody holds, and the next one given has no holder |
| Minors.LiteralRefusesEarly | kernel/netdevmgm.c:237-279 | as written five calls lead to a refusal with 29 minors free |
| Minors.MinorTable.GetMinor | kernel/netdevmgm.c:254-279 | the loop on the array is `Get`, with or without the repair |
| Minors.MinorTable.PutMinor | kernel/netdevmgm.c:237-252 | the loop on the array is `Put`, with or without the repair |
| Minors.MinorTable.FindPid | kernel/netdevmgm.c:281-290 | the pid in the cell, or -1 if the lock was taken |
| OpenFiles.FindAcc | kernel/netdevmgm.c:215-235 | the loop over the bucket gives the first file with the id |
| OpenFiles.FoundIffNewest | kernel/netdevmgm.c:215-235 | a reply finds its request exactly when the request's file is the newest with its access id; for an older one it finds nothing |
| Registry.LookupIsSearch | kernel/netdevmgm.c:194-213 | looking in one bucket finds a device exactly if the whole table has one with the pid |
| Registry.IndexAgreement | kernel/fo_send.c:162 | from a minor by its pid one gets back to its device exactly when that is the newest of its process, and always with one registration for each |
| Registry.AddedIs | kernel/netdevmgm.c:117-119 | a registration adds one device, is found first, and disturbs no other pid |
| Registry.RemovedIs | kernel/netdevmgm.c:313-318 | removing takes that device and no other |
| Registry.UniqueStays | kernel/netdevmgm.c:68-127 | pids stay unique exactly when the new one has no device |
| Registry.Manager.Find | kernel/netdevmgm.c:194-213 | the loop over the bucket is the lookup |
| Registry.Manager.CreateDummy | kernel/netdevmgm.c:68-127 | a dummy is listed under its pid and owns the minor it got; a failed creation keeps the minor |
| Registry.Manager.CreateServer | kernel/netdevmgm.c:129-181 | a server device is listed and takes no minor |
| Registry.Manager.FindDestroy | kernel/netdevmgm.c:302-321 | the device found is taken out, and its minor returned if destroying it succeeds |
| Registry.Manager.FindByMinor | kernel/fo_send.c:162 | with unique pids the device of a minor is the one that owns it |
| Teardown.DummyDevice.Enter | kernel/fo_comm.c:33-57 | an inactive device refuses; an active one takes the request if there is room, and it is nowhere else |
| Teardown.DummyDevice.DestroyAllAcc | kernel/netdevmgm.c:342-365 | every pending request of every open file is completed once with -ENODATA, all queues and the table are empty, each file's reference is dropped |
| Teardown.DummyDevice.DestroyDummy | kernel/netdevmgm.c:367-400 | the same, the device refuses from then on, and the last test is made on what is left |
| Teardown.DummyDevice.DestroyDummyLiteral | kernel/netdevmgm.c:342-400 | as written the thread waits for its own lock exactly when a file is open; only the first file's requests are completed |
| Refcount.BalancedKeeps | kernel/netdevmgm.c:302-426 | every step keeps the counter at the number of holders, plus leaks, less double releases |
| Refcount.CounterIsHolders | kernel/netdevmgm.c:302-426 | in every run the counter is table membership, open files and threads inside fo_send and fo_recv, off by exactly the early exits less the files destroyed twice |
| Refcount.OpenFilesAre | kernel/fo_access.c:35-61 | in every run a file is open exactly if the last step that concerns it opened it, rather than released, destroyed or drained it |
| Refcount.LeaveDrops | kernel/fo_comm.c:89-95 | leaving fo_send drops its reference, and a release its file and that reference too; while the device is listed the file was still there |
| Refcount.UnlistedRefuses | kernel/netdevmgm.c:313-371 | in every run a device that is not listed any more lets nobody in |
| Refcount.FreedIff | kernel/netdevmgm.c:370-397 | unregistering frees exactly when the references that remain, leaked ones included, are at most what the last test tolerates |
| Refcount.FreedIsUnheldIff | kernel/netdevmgm.c:192-213 | a freed device is held by nobody in all runs exactly when the last test tolerates no reference, and a thread that finds the device has its reference at once |
| Refcount.FreedUnderALookup | kernel/fo_comm.c:114-120 | if it has not, there is a run, whatever the test tolerates, in which the device is freed between the two and the thread goes on with it |
| Refcount.LeakedIsNeverFreed | kernel/fo_comm.c:125-134 | with more leaks than are tolerated the device is never freed |
| Refcount.IdleIsFreedIff | kernel/fo_comm.c:125-134 | an idle device is freed when unregistered, in all runs, exactly when early exits drop their reference |
| Refcount.AsWritten | kernel/netdevmgm.c:381-387 | as written both fail: freed while held in some run, with any tolerance, and idle but kept in another |
| Session.NameIsNoVersion | daemon/conn.c:161-177 | a device name that arrives in place of the version is never accepted as one |
| Session.StepKeeps | daemon/conn.c:74-274 | every step of either proxy, failures included, keeps what was sent and read in order |
| Session.RemoteComesFirst | daemon/conn.c:194-274 | in every run a dummy is registered only after the remote device was, and after success was sent |
| Session.DummyPossibleIff | daemon/conn.c:74-192 | some run reaches a dummy exactly when the versions agree or the error returns are not repaired |
| Session.ReplyIsReadIff | daemon/conn.c:217-274 | the reply to a registration is read as meant, whatever lies in memory, exactly when the name has three characters or more |
| SessionEnd.DevicesGoWithProxies | daemon/proxy.c:103-113 | in every run in which nothing is killed or misunderstood, the dummy is held exactly while the client's proxy serves it, and the remote device from its registration until its proxy ends |
| SessionEnd.RegisteredIsHeld | daemon/conn.c:231-262 | a kernel has a device from its registration, whether or not the proxy learns of it, until the proxy unregisters; a killed proxy leaves its device |
| SessionEnd.RemoteCanStay | daemon/conn.c:267-270 | as written one failed send is enough for the remote device to stay for good |
| SessionEnd.LoopsAreSetUp | daemon/proxy.c:141-156 | in every run a proxy that serves has its device, and the server's has sent the reply, of the size of the registration |
| SessionEnd.LongNamesAreConfirmed | daemon/conn.c:217-235 | in every run a client that reads the reply to its registration goes on to the dummy, whatever lies in memory, if the name has three characters or more |

## Where the model follows the intent

These are repairs the model makes or offers; everything else is as written.

- `Framing.Connection`: `ConnSend` and `ConnRecv` use the corrected length (`size - bytes` in
  daemon/conn.c:291 and :311); the loops have both forms.
- `Rpc`: the sequence number is taken in one step (`SeqNumbers` has the two-step form); the
  queue search has both forms; the request is queued before it is numbered, as written; the reply of the server is sent and a
  released file destroyed in one step (kernel/fo_comm.c:237-244).
- `Rpc.Config.cleansOpen`: as written a failed open leaves the file on both sides, because
  kernel/fo_comm.c:144 tests for -1 while fo_execute returns -ENODATA, and because
  ndfo_send_open keeps its own.
- `Teardown.DummyDevice.DestroyDummy`: the lock of the file table is taken once; the literal
  form is `DestroyDummyLiteral`.
- `Refcount.Config`: the tolerance of the last test, the early exits of fo_recv, and whether
  finding a device and taking its reference is one step are parameters; as written they are
  1, leaking, and two steps.
- `Minors.Get` and `Minors.Put`: each with and without its repair.
- `Session.Config.repaired`: whether what the handshake finds wrong ends the session.

## Left out

- Calls.FoSend: takes one call from sending to return, without queue, number, reference count and failing sends; those are in `Rpc`, `Refcount` and `Teardown`.
- Concurrent.CallsAreDirectCalls: an operation of the device itself, with fo_execute around it, is one step; handlers that overlap inside a device are as atomic as the device makes them.
- Framing.Connection.ConnSend: is whole before the other side receives; interleaved partial transfers are in `ArrivedIsInOrder`.
- RpcResults.CallersGetTheirOwnResult: assumes of the callers that an access id has one open file (the kernel does not see to it; `OpenFiles.FoundIffNewest` says what happens to replies otherwise) and is used between open and release, and of the counter fewer than 2^32 increments while a request is pending.
- RpcSafety.RefuseKeeps: the memory of a refused request, freed while a pointer to it is still queued, is not used again.
- RpcFiles.FilesAgree: not for runs that lose messages or refuse a number; a refused release leaves the file on the server.
- RpcFiles.NobodyStaysBlocked: says that a step is possible, not that it is taken; scheduling is not modelled.
- RelayRuns.AckComesFirst: a proxy holds one message at a time and netlink messages are never refused; failed sends and lost connections are not steps.
- Refcount.CounterIsHolders: draining a dummy is one step, and what a thread reads from memory that is already freed is not modelled; netlink_recv, which uses the lock of the device it finds and takes no reference, is not among the holders.
- Session.RemoteComesFirst: a send that fails delivers nothing, and a crash on a NULL message is the end of that proxy.
- Registry.Manager.FindDestroy: whether destroying the device itself succeeds is a parameter; `Teardown` and `Refcount` say when it does.
- Trylock failures: the ones that change a result are parameters named `available`; ndmgm_get_minor releases its write lock as a read lock when the mark is 32, and fo_acc_free_queue its lock not at all on failure.
- fo_recv tests the device it found with IS_ERR, which NULL passes; the device is taken to exist.
- Allocation failures, and the labels that serve only them.
- The reply flags other than NLM_F_ACK and NLM_F_REQUEST, and padding of netlink messages.
- MSG_PEEK and the two-step receive of the proxy's netlink socket; netlink keeps message boundaries.
- Unloading of the module (ndmgm_end), cdev and class registration, reference counts of the kernel's own objects.
- Operations that only return -1 or -EIO: poll, mmap, aio, splice and the like; in the handler table they are missing or failing.
- Fork, signals, select, the configuration reader, and the control socket of the proxies.
- The echo and version messages from a proxy to its own kernel.
