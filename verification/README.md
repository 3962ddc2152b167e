# A verified model of liburing's ring protocols

liburing is the user-space half of a protocol between an application and the kernel.
They share a submission ring, a completion ring and rings of provided buffers, all of
them indexed by wrapping unsigned counters and power-of-two masks. This project models
those rings, the library code that works on them and two programs that depend on them,
and proves what every interleaving with the kernel keeps.

The kernel is an environment. What it may do is written as explicit steps, or as
parameters of the operation during which it does it, and every theorem is over all of
them. Counters are 32-bit or 16-bit words as in the code, each tied to an unbounded
position; memory is bytes where the layout matters (buffer entries, ancillary data,
the copied file).

| module | what it models |
|---|---|
| `Common`, `Words` | error numbers; words, masks, powers of two |
| `WeakRing` | one shared ring under weak memory ordering, for submission and completion alike |
| `SubmissionQueue` | `get_sqe`, `flush_sq`, `sq_ready`, `sq_space_left` in place |
| `SqPoll` | the wakeup handshake with a polling thread that sleeps |
| `CompletionRing` | what the kernel posts, overflow, and one look at the ring |
| `WaitLoop` | the loop of `_io_uring_get_cqe` |
| `Stopping` | the entries at which a look stops, and the exact conditions of the wait loop |
| `Delivery`, `Drain`, `Batch` | what an application receives over any sequence of calls |
| `CompletionQueue` | the completion side in place, loops included |
| `BufRing` | the provided-buffer ring, byte by byte |
| `Cmsg` | the received-message accessors and the ancillary-data walk |
| `Echo`, `EchoServer` | examples/io_uring-udp.c: who owns which buffer, and the server itself |
| `Copy`, `CopyLoop`, `CopyRun`, `Copier` | examples/io_uring-cp.c: requests, one completion, all runs, and `copy_file` itself |
| `Setup` | sizes and memory layout of the rings |
| `RingFd` | the ring's descriptor and its registered index |

Main results:

- `WeakRing.FaithfulIffOrdered`: the consumer receives exactly what was published, in
  order and once each, over all runs, if and only if tail and head are both stored with
  release ordering or the consumer runs on the producer's thread.
- `SqPoll.NoLostWakeupIffFence`: no interleaving leaves the polling thread asleep with
  work to do, if and only if the fence before the flag is read is there.
- `WaitLoop.WaitContract`, `GetCqeAccounts`, `Stopping.NothingMeansErrorIff`,
  `NotPositiveIff`, `EndsIff`: the result, the accounting and the termination of the wait
  loop, with exact conditions on every ring.
- `Delivery.DeliversWhatWasPosted`, `Drain.DrainDeliversEverything`: filtering, overflow,
  order and completeness of delivery; `Drain.HonestIffExtArg`: when -EAGAIN can be trusted.
- `Batch.BatchIsSinglesIff`, `MixedDelivers`: when a batch is the same as single peeks, and
  what any mix of both delivers.
- `BufRing.AppendsInOrder`, `PutLeavesTheRest`, `TailLeavesEntries`: the buffer ring is a
  queue although its tail lies inside its first entry.
- `Echo.ServerConserves`: every buffer has one owner and there is one receive, in every
  continuing run; the handlers of `EchoServer` keep the same balance, which is what
  entitles them to write into the buffer ring and the messages of their sends.
- `CopyRun.CopiedIff` and `Copier.Copier.CopyFile`: a copy that returns 0 is the whole
  file if and only if no batch submit failed and the last loop saw no short write.

Some claims one would expect do not hold of the code. For each there is a lemma with an
input and a lemma with the exact condition:

- `io_uring_buf_ring_available` counts wrongly once the 16-bit tail has wrapped past the
  head (`BufRing.AvailableAfterWrap`, `AvailableIffNotWrapped`).
- `copy_file` returns 0 after a failed batch submit or a short write in its last loop
  (`CopyRun.FailedBatchCopiesNothing`, `ShortDrainLosesAByte`, `CopiedIff`).
- `_io_uring_get_cqe` can return a positive value and no completion to a caller that had
  something to submit (`Stopping.SubmitterMayGetNothing`, `NothingMeansErrorIff`).
- without extended arguments its loop can be kept going by internal timeouts
  (`Stopping.TimeoutsKeepLooping`, `EndsIff`), and -EAGAIN can hide a completion
  (`Drain.AgainMayHide`, `HonestIffExtArg`).
- `io_uring_peek_batch_cqe` shows internal timeouts that single peeks hide
  (`Batch.BatchShowsTimeout`, `BatchIsSinglesIff`).
- the ancillary-data walk does not advance when the address and the aligned length wrap
  (`Cmsg.WalkMayNotMove`, `AdvancesIffNoWrap`).
- the memory that `io_uring_alloc_huge` sets aside need not hold 128-byte SQEs or the ring
  header (`Setup.WideSqesOverrun`, `WideSqesFitIff`, `HeaderOverrun`, `HeaderFitsIff`).

## Model

| member | source | states |
|---|---|---|
| `WeakRing.ReserveDecides` | src/include/liburing.h:1406-1428 | the wrapping 32-bit test succeeds exactly if the head that was loaded, however old, leaves room |
| `WeakRing.HandedOutIsUnaliased` | src/include/liburing.h:1419-1425 | the entry handed out shares no cell with any entry handed out and not yet given back, for 64- and 128-byte entries |
| `WeakRing.CellInRange` | src/setup.c:338-347 | the consumer, going through the index array, reads the cell the producer addressed |
| `WeakRing.ApplyDrain` | src/include/liburing/barrier.h:63-72 | stores leaving the buffer in any order allowed per location keep the producer's own view |
| `WeakRing.PublishKeeps` | src/queue.c:204-218 | flushing publishes every entry handed out, with its contents at that moment |
| `WeakRing.EstimateCovers` | src/queue.c:219-230 | the returned count is exact for the head loaded, covers everything unconsumed, never exceeds the ring, and is 0 only if nothing is pending |
| `WeakRing.ReadReturnsPublished` | src/queue.c:209-218 | a load that takes effect at any later time returns what was published for that position |
| `WeakRing.StoreHeadKeeps` | src/include/liburing.h:302-313 | giving entries back keeps the invariant: reads issued before the head store still belong to entries that are held |
| `WeakRing.StepKeeps` | src/include/liburing/barrier.h:63-78 | every step of either party, drains and delayed loads included, keeps the invariant |
| `WeakRing.RunKeeps` | src/include/liburing.h:1406-1428 | so does every run, across counter wrap |
| `WeakRing.RunIsFaithful` | src/queue.c:204-231 | in every run each consumed position was read once, in order, and returned the published contents; no more than a ring is outstanding |
| `WeakRing.TailOvertakesContents` | src/queue.c:211-217 | without the release of the tail, a run in which the consumer reads a stale entry |
| `WeakRing.HeadOvertakesLoads` | src/include/liburing.h:302-313 | without the release of the head, a run in which an entry is refilled under the consumer's reads, for any ring size |
| `WeakRing.FaithfulIffOrdered` | src/queue.c:209-218 | all runs are faithful if and only if both indices are released or the consumer is on the same thread |
| `WeakRing.CodeIsFaithful` | src/queue.c:214-217 | the orderings that the flags select make every run of both rings faithful, with and without SQPOLL |
| `SubmissionQueue.SubmissionQueue.constructor` | src/include/liburing.h:121-132 | a freshly mapped ring satisfies the invariant |
| `SubmissionQueue.SubmissionQueue.GetSqe` | src/include/liburing.h:1406-1428 | succeeds exactly if fewer than `ring_entries` entries are outstanding for the head loaded; the entry is unaliased; otherwise nothing changes |
| `SubmissionQueue.SubmissionQueue.FlushSq` | src/queue.c:204-231 | everything handed out is published; the result bounds what is unconsumed and is 0 only if all of it is consumed |
| `SubmissionQueue.SubmissionQueue.SqReady` | src/include/liburing.h:1218-1232 | the exact number of entries not given back, for the head loaded |
| `SubmissionQueue.SubmissionQueue.SqSpaceLeft` | src/include/liburing.h:1237-1240 | zero exactly when the next `GetSqe` on that head fails |
| `SqPoll.SubmitArithmetic` | src/queue.c:204-231 | the 32-bit room test and estimate mean what they say at any position |
| `SqPoll.RecheckKeeps` | src/queue.c:17-40 | a thread that goes to sleep after its own check leaves nothing unconsumed that the application will not notice |
| `SqPoll.StepKeeps` | src/queue.c:17-40 | every step of the two-party store-buffer machine keeps the handshake invariant |
| `SqPoll.RunKeeps` | src/queue.c:368-388 | so does every interleaving |
| `SqPoll.WithoutFenceLosesWakeup` | src/queue.c:27-31 | an interleaving that loses a wakeup when the fence is missing |
| `SqPoll.NoLostWakeupIffFence` | src/queue.c:17-40 | over all interleavings, no wakeup is lost if and only if the fence is there |
| `CompletionRing.AvailableIsCount` | src/include/liburing.h:1262-1265 | the 32-bit difference is the number of unconsumed completions, and the masked head is the oldest |
| `CompletionRing.PostsKeep` | src/queue.c:42-46 | posting, to the ring or behind it, extends the kernel's stream by exactly the arrivals, in order |
| `CompletionRing.FlushKeeps` | src/queue.c:149-156 | flushing the overflow reorders nothing and leaves some only behind a full ring |
| `CompletionRing.AdvanceKeeps` | src/include/liburing.h:302-313 | advancing over posted completions keeps the ring |
| `CompletionRing.LookResult` | src/include/liburing.h:1344-1365 | one turn either skips exactly one internal timeout or stops with the stated result |
| `CompletionRing.PeekResult` | src/include/liburing.h:1331-1371 | a peek passes over internal timeouts only and returns the oldest visible completion, an expired timeout's error, or nothing with an empty ring; with extended arguments it skips nothing |
| `WaitLoop.GetCqeAccounts` | src/queue.c:113-122 | the values of the successful enters and the final `submit` add up to the initial one |
| `WaitLoop.EntersAtMostOnce` | src/queue.c:82-110 | with a timeout, or nothing to submit or wait for, there is at most one enter and two turns suffice |
| `WaitLoop.LoopReturnsOldest` | src/queue.c:62-133 | a completion that is returned is the oldest unconsumed visible one |
| `WaitLoop.WaitContract` | src/queue.c:135-147 | with nothing to submit, 0 means a completion and no completion means a negative result, through every path |
| `WaitLoop.EnterRing` | src/queue.c:113-115 | an enter, with or without a flush, consumes nothing and adds exactly what the kernel posts to the stream of completions, in order |
| `Stopping.PeekFinds` | src/include/liburing.h:1344-1365 | an entry in the ring that stops a look is found, whatever arrives meanwhile: a completion, or the error of a failed internal timeout |
| `Stopping.PeekFindsNothing` | src/include/liburing.h:1344-1365 | without one, and with arrivals going behind an overflow, a look empties the ring and returns nothing |
| `Stopping.TurnFlushes` | src/queue.c:82-122 | a turn that waits or has nothing else to do, on a ring with an overflow: a failure, or the start of the overflow is in the ring |
| `Stopping.SubmitterMayGetNothing` | src/queue.c:116-128 | a kernel against which a submitter always gets a positive result, and no completion with it exactly when the condition below fails |
| `Stopping.NothingMeansErrorIff` | src/queue.c:62-133 | on every ring, no completion means an error against every kernel if and only if there is nothing to submit, or the ring holds something that stops a look, or the caller waits and the part of the overflow that fits shows a completion first |
| `Stopping.NeverEmptyHandedExtArg` | src/queue.c:62-133 | with extended arguments: nothing to submit, a non-empty ring, or a wait and an overflow |
| `Stopping.NotPositiveIff` | src/queue.c:125-132 | on every ring, the result is never positive against every kernel if and only if there is nothing to submit or the ring holds something that stops a look |
| `Stopping.TimeoutsKeepLooping` | src/queue.c:70-129 | for every number of turns, a kernel that keeps the loop going although no enter is in vain |
| `Stopping.EndsInTime` | src/queue.c:70-129 | the bound on the number of turns: 2, or `submit + 2`, or linear in the distance to the first stop and `submit` |
| `Stopping.EndsIff` | src/queue.c:70-129 | on every ring, if no successful enter is in vain, the loop is bound to end if and only if there are extended arguments, a timeout, nothing to submit or wait for, or something outstanding that stops a look |
| `Delivery.FetchResult` | src/include/liburing.h:1377-1397 | peek and wait return the oldest visible completion or a negative error, and pass over nothing else |
| `Delivery.DeliversWhatWasPosted` | src/include/liburing.h:1331-1384 | over any calls, what is delivered is what was posted, in order, without exactly the internal timeouts; with extended arguments, all of it |
| `Drain.VisibleIsFetched` | src/queue.c:82-98 | if the oldest outstanding completion may be shown it is returned, from the ring or from the overflow |
| `Drain.AgainMeansDrained` | src/queue.c:82-94 | on every ring, -EAGAIN means that ring and overflow were empty when the call began, or an internal timeout came next; with extended arguments, that they were empty |
| `Drain.DrainDeliversEverything` | src/queue.c:42-51 | peek and seen until -EAGAIN delivers ring and overflow in posting order, once each, up to the end or the next internal timeout; with extended arguments, everything |
| `Drain.AgainMayHide` | src/queue.c:82-94 | without extended arguments, for any ring size, -EAGAIN with a completion in the overflow |
| `Drain.HonestIffExtArg` | src/queue.c:82-94 | -EAGAIN means that nothing is left to show, on every ring and against every kernel whose enters succeed, if and only if there are extended arguments |
| `Drain.QuietDrainIff` | src/queue.c:70-133 | once the kernel stops posting, n rounds deliver the next n completions of ring and overflow if and only if none is an internal timeout |
| `Batch.PeekBatch` | src/queue.c:172-197 | the count is bounded by the request and the ring; short only if the ring has no more or had nothing at the first look; 0 only if it had nothing |
| `Batch.CheckOverflow` | src/queue.c:188-197 | on an empty ring: all that is asked for or there is, after a flush, if the kernel shows overflow or pending work, and 0 otherwise |
| `Batch.BatchShowsPosted` | src/queue.c:175-185 | a batch shows the next stretch of what was posted, across 32-bit wrap, for both entry sizes |
| `Batch.SinglesShowBatch` | src/include/liburing.h:1377-1384 | single rounds show the same stretch of a ring and leave the same ring |
| `Batch.FirstSingleFlushes` | src/queue.c:82-122 | the first single peek of an empty ring flushes the overflow as a batch does |
| `Batch.BatchIsSinglesIff` | src/queue.c:162-198 | from the ring before either call, for any count and with the overflow path: batch and advance equal as many single rounds, in what they show and in the ring they leave, if and only if no internal timeout is among them; with extended arguments, always |
| `Batch.BatchShowsTimeout` | src/queue.c:174-185 | a ring whose only entry a batch returns and a peek hides |
| `Batch.MixedDelivers` | src/queue.c:162-198 | any mix of peeks, waits and batches delivers what was posted, in order, once each, but for internal timeouts; with extended arguments, all of it |
| `Batch.CountingUp` | src/queue.c:180-183 | counting a 32-bit head up to `head + count` takes exactly `count` steps |
| `CompletionQueue.CompletionQueue.CqReady` | src/include/liburing.h:1262-1265 | the number of unconsumed completions |
| `CompletionQueue.CompletionQueue.CqAdvance` | src/include/liburing.h:302-313 | the new state, and the invariant |
| `CompletionQueue.CompletionQueue.PeekCqe` | src/include/liburing.h:1331-1371 | the loop refines the recursive specification, state and all results |
| `CompletionQueue.CompletionQueue.CountBatch` | src/queue.c:172-197 | the loop that checks for overflow at most once refines its specification |
| `CompletionQueue.CompletionQueue.FillBatch` | src/queue.c:175-183 | fills exactly the first `n` places with the right addresses and touches no other |
| `CompletionQueue.CompletionQueue.PeekBatchCqe` | src/queue.c:162-198 | count, addresses and new state |
| `CompletionQueue.CompletionQueue.DecideTurn` | src/queue.c:82-128 | every branch of the body after the look refines its specification |
| `CompletionQueue.CompletionQueue.TakeTurn` | src/queue.c:70-129 | one turn of the loop refines its specification |
| `CompletionQueue.CompletionQueue.GetCqe` | src/queue.c:62-133 | the whole loop refines its specification, for every list of kernel rounds |
| `BufRing.EntryOfPut` | src/include/liburing.h:1446-1456 | an entry that was written decodes to what was written |
| `BufRing.PutLeavesTheRest` | src/include/liburing/io_uring.h:653-674 | writing an entry, entry 0 included, changes no other entry and not the overlaid tail |
| `BufRing.TailLeavesEntries` | src/include/liburing/io_uring.h:660-674 | writing the tail changes no addr, len or bid |
| `BufRing.AddressesSlot` | src/include/liburing.h:1451-1451 | the masked sum of the 16-bit tail and an offset is the slot of that position, across wrap |
| `BufRing.AddKeeps` | src/include/liburing.h:1446-1456 | an add replaces exactly one slot |
| `BufRing.AdvanceKeeps` | src/include/liburing.h:1463-1469 | an advance keeps the ring and every slot |
| `BufRing.AppendsInOrder` | src/include/liburing.h:1443-1469 | k adds at offsets 0 to k - 1 show the kernel nothing; advance(k) appends exactly those k, in order, behind what was waiting |
| `BufRing.PicksOldest` | src/include/liburing.h:1458-1469 | the kernel takes the oldest buffer and leaves the rest |
| `BufRing.AvailableIffNotWrapped` | src/include/liburing.h:1493-1505 | the count is exact if and only if the 16-bit tail has not wrapped past the head |
| `BufRing.AvailableAfterWrap` | src/include/liburing.h:1504-1504 | one buffer waiting, and a count of -65535 |
| `BufRing.BufferRing.constructor` | src/include/liburing.h:1438-1441 | an empty queue in the mapped memory |
| `BufRing.BufferRing.IndexOf` | src/include/liburing.h:1451-1451 | the index computed from the bytes of the tail is the slot |
| `BufRing.BufferRing.AddBuf` | src/include/liburing.h:1446-1456 | the bytes in place refine the abstract add |
| `BufRing.BufferRing.AdvanceTail` | src/include/liburing.h:1463-1469 | the bytes in place refine the abstract advance |
| `BufRing.StoreEntry` | src/include/liburing.h:1453-1455 | three field stores leave exactly the encoded entry, and the two reserved bytes alone |
| `Cmsg.PayloadEndsBufferIff` | src/include/liburing.h:831-894 | for all lengths, sums that wrap included, payload start plus payload length is the end of the buffer if and only if the buffer validates |
| `Cmsg.AlignIs` | src/include/liburing.h:867-872 | the masked alignment is rounding up to eight, modulo 2^64 |
| `Cmsg.AdvancesIffNoWrap` | src/include/liburing.h:863-875 | the next header lies further on if and only if the sum does not wrap |
| `Cmsg.WalkMayNotMove` | src/include/liburing.h:867-872 | a length for which the next header is the same header |
| `Cmsg.NextIsInside` | src/include/liburing.h:870-875 | a header that is returned lies wholly in the control area |
| `Cmsg.WalkIsBounded` | src/include/liburing.h:846-876 | for any contents, without wrap, at most `controllen / sizeof(struct cmsghdr)` headers, all but the first checked to be inside |
| `Cmsg.DecodesOne` | src/include/liburing.h:857-876 | a message decodes from its encoding |
| `Cmsg.WalkReturnsMessages` | src/include/liburing.h:846-876 | walking the encoding of any nonempty list returns that list |
| `Echo.KernelKeeps` | examples/io_uring-udp.c:381-397 | no step of the kernel changes who owns how much |
| `Echo.RingHasRoom` | examples/io_uring-udp.c:210-215 | the ring has a free entry for every buffer in the server's hands |
| `Echo.RecycleKeeps` | examples/io_uring-udp.c:210-225 | recycling the buffer in hand restores the balance, and never into a full ring |
| `Echo.AddRecvKeeps` | examples/io_uring-udp.c:194-208 | an ended receive becomes exactly one queued receive |
| `Echo.ProcessRecvKeeps` | examples/io_uring-udp.c:227-315 | on every branch that goes on, the buffer received is recycled or handed to one send |
| `Echo.ProcessKeeps` | examples/io_uring-udp.c:317-323 | processing any completion restores the balance or ends the run |
| `Echo.TakeFirst` | examples/io_uring-udp.c:390-396 | taking the completion at the front moves what it owns into the server's hands |
| `Echo.OneOwnerEach` | examples/io_uring-udp.c:47-89 | each id is in exactly one place |
| `Echo.HeldIsNotSending` | examples/io_uring-udp.c:292-311 | a buffer in the server's hands has no send queued or running |
| `Echo.RunKeeps` | examples/io_uring-udp.c:381-397 | over every interleaving of kernel and server that continues |
| `Echo.InitialBalanced` | examples/io_uring-udp.c:81-86 | the filled pool is balanced, with one receive still to be queued |
| `Echo.ServerConserves` | examples/io_uring-udp.c:377-397 | from the start of the program: each buffer in one place and one receive armed, queued or awaiting processing |
| `EchoServer.FillPool` | examples/io_uring-udp.c:81-86 | the loop and the advance offer every buffer, in order, with its own address |
| `EchoServer.EchoServer.constructor` | examples/io_uring-udp.c:91-117 | the server starts with the balanced pool |
| `EchoServer.EchoServer.RecycleBuffer` | examples/io_uring-udp.c:210-215 | appends the buffer to the kernel's queue and overwrites nothing |
| `EchoServer.EchoServer.GetFreeSqe` | examples/io_uring-udp.c:179-192 | a free entry, after at most one submit, or failure |
| `EchoServer.EchoServer.ArmReceive` | examples/io_uring-udp.c:194-208 | one more queued receive, or failure |
| `EchoServer.ReplyIsPayload` | examples/io_uring-udp.c:292-305 | the reply is exactly the payload received, and its name lies before it in the buffer |
| `EchoServer.EchoServer.SendBack` | examples/io_uring-udp.c:289-313 | a queued send with its message recorded, or failure if no entry is free; no queued or running send loses its message |
| `EchoServer.EchoServer.FinishReceive` | examples/io_uring-udp.c:240-313 | the branches refine their specification and keep the balance |
| `EchoServer.EchoServer.ProcessReceive` | examples/io_uring-udp.c:227-315 | a new receive first if the old one ended, then the branches |
| `EchoServer.EchoServer.ProcessCompletion` | examples/io_uring-udp.c:317-323 | dispatch on the user data, as specified, and the balance restored |
| `EchoServer.EchoServer.ProcessNext` | examples/io_uring-udp.c:391-395 | the completion at the front is dealt with, once |
| `EchoServer.EchoServer.ProcessBatch` | examples/io_uring-udp.c:391-395 | the balance after every completion of a batch |
| `EchoServer.EchoServer.GiveBack` | examples/io_uring-udp.c:396-396 | advancing gives back exactly the processed completions |
| `EchoServer.EchoServer.OneTurn` | examples/io_uring-udp.c:382-396 | one turn of the loop keeps the balance |
| `EchoServer.EchoServer.EventLoop` | examples/io_uring-udp.c:381-397 | so does the loop, until it gives up |
| `EchoServer.EchoServer.Serve` | examples/io_uring-udp.c:377-397 | so does the program from the first receive on |
| `Copy.MovedSane` | examples/io_uring-cp.c:65-78 | bytes moved by the kernel leave the buffer holding the block up to where it got |
| `Copy.StoredAccounted` | examples/io_uring-cp.c:107-117 | a write changes the output only inside its own block, and exactly as far as it got |
| `Copy.KernelKeeps` | examples/io_uring-cp.c:65-78 | every kernel step, in any order and of any length, keeps the invariant |
| `Copy.OnePlace` | examples/io_uring-cp.c:188-223 | each request in flight has exactly one SQE or CQE, or is running, or in hand |
| `Copy.RoomInSq` | examples/io_uring-cp.c:137-153 | SQEs, running requests, CQEs and the one in hand add up to the requests in flight |
| `Copy.QueueReadKeeps` | examples/io_uring-cp.c:80-105 | a new read covers the next block of the file and no other |
| `Copy.RequeueKeeps` | examples/io_uring-cp.c:65-78 | queueing the request in hand again keeps the invariant |
| `Copy.FreeKeeps` | examples/io_uring-cp.c:219-222 | freeing it does too, and takes it out of every ring |
| `CopyLoop.RetryKeeps` | examples/io_uring-cp.c:189-195 | a request is repeated unchanged after -EAGAIN |
| `CopyLoop.RestKeeps` | examples/io_uring-cp.c:199-208 | after a short transfer exactly the missing part is asked for |
| `CopyLoop.TurnKeeps` | examples/io_uring-cp.c:214-218 | a finished read becomes a write of the same bytes, and `write_left` and the counters follow |
| `CopyLoop.FreeMain` | examples/io_uring-cp.c:219-222 | a write is freed only when its whole block is in the output |
| `CopyLoop.HandleKeeps` | examples/io_uring-cp.c:188-223 | every completion restores all equations, or stops the program exactly on an error other than -EAGAIN |
| `CopyLoop.SqeForRequeue` | examples/io_uring-cp.c:69-70 | the SQE that is asserted is there |
| `CopyLoop.SqeForRead` | examples/io_uring-cp.c:89-93 | an SQE is free whenever a read is started |
| `CopyLoop.DrainFree` | examples/io_uring-cp.c:228-244 | the last loop keeps "every freed block is complete" exactly as long as its completions are full |
| `CopyLoop.WholeIffFull` | examples/io_uring-cp.c:227-246 | after the last loop the output is the input if and only if they all were |
| `CopyLoop.AbandonedIsNotWhole` | examples/io_uring-cp.c:155-161 | after a failed batch submit the output is never the whole input |
| `CopyRun.StepValid` | examples/io_uring-cp.c:119-247 | every step of program or kernel keeps the invariant of its phase |
| `CopyRun.ReachableValid` | examples/io_uring-cp.c:119-247 | it holds in every state of every run |
| `CopyRun.MainLoopBalance` | examples/io_uring-cp.c:126-153 | `write_left` is `insize` plus the `first_len` of the reads in flight; at most QD requests, each in one place |
| `CopyRun.CqHasRoom` | examples/io_uring-cp.c:188-223 | the completion ring never overflows in the main loop, although entries are marked as seen only after the next submit |
| `CopyRun.QueuedIsStable` | examples/io_uring-cp.c:65-78 | no step of any run changes direction, offset, address or length of a request that is queued or running |
| `CopyRun.NoWrongByte` | examples/io_uring-cp.c:119-247 | no run ever writes a byte that differs from the input |
| `CopyRun.InHandFits` | examples/io_uring-cp.c:65-78 | in every run, `assert(sqe)` holds and no counter underflows |
| `CopyRun.NextReadFits` | examples/io_uring-cp.c:137-153 | in every run a read below the bound finds an SQE and continues where the last block ended |
| `CopyRun.CopiedIff` | examples/io_uring-cp.c:155-247 | a finished run has copied the file if and only if no batch submit failed and every drained completion was full |
| `CopyRun.FailedBatchCopiesNothing` | examples/io_uring-cp.c:155-161 | a run that returns 0 and has written nothing |
| `CopyRun.ShortDrainLosesAByte` | examples/io_uring-cp.c:228-244 | a run without a failed submit that returns 0 and has lost a byte |
| `Copier.Copier.constructor` | examples/io_uring-cp.c:126-127 | the initial state of a run |
| `Copier.Copier.Submit` | examples/io_uring-cp.c:156-156 | the kernel's steps during a call, in order |
| `Copier.Copier.WaitCqe` | examples/io_uring-cp.c:170-172 | an error, or the oldest completion, which stays in the ring |
| `Copier.Copier.PeekCqe` | examples/io_uring-cp.c:173-179 | an error, nothing if there is nothing, or the oldest completion, which stays in the ring |
| `Copier.Copier.FinishOff` | examples/io_uring-cp.c:188-223 | a completion is handled, its request submitted and only then marked as seen |
| `Copier.Copier.QueuePrepped` | examples/io_uring-cp.c:65-78 | one more SQE, for that request, within the ring |
| `Copier.Copier.QueueRead` | examples/io_uring-cp.c:80-105 | a new request and its SQE, or no change if memory or the ring is exhausted |
| `Copier.Copier.StartOne` | examples/io_uring-cp.c:138-152 | a step of a run; refused only if `malloc` fails |
| `Copier.Copier.QueueReads` | examples/io_uring-cp.c:137-153 | stops only at the end of the file, at QD requests, or when `malloc` fails |
| `Copier.Copier.QueueBatch` | examples/io_uring-cp.c:136-161 | one submit for all new reads, and none without |
| `Copier.Copier.Redirect` | examples/io_uring-cp.c:188-222 | the branches of the main loop refine their specification |
| `Copier.Copier.HandleOne` | examples/io_uring-cp.c:188-223 | as a step of a run |
| `Copier.Copier.ProcessCompletions` | examples/io_uring-cp.c:166-224 | waits once, then peeks; every exit is a state of a run |
| `Copier.Copier.Drain` | examples/io_uring-cp.c:228-246 | returns 0 only when every counted write has been waited out |
| `Copier.Copier.MainLoop` | examples/io_uring-cp.c:129-225 | ends with nothing left to ask for, or because a batch submit failed while a read was in flight |
| `Copier.Copier.CopyFile` | examples/io_uring-cp.c:119-247 | never a wrong byte; on a return of 0 the output is the input if and only if all batch submits succeeded and all drained completions were full |
| `Setup.FlsBounds` | src/setup.c:15-20 | the number of significant bits |
| `Setup.RoundupIsLeast` | src/setup.c:22-25 | the least power of two not below the argument |
| `Setup.SizesAreLeast` | src/setup.c:27-60 | accepted sizes are least powers of two covering the clamped requests, with sq at most 32768 and sq <= cq <= 65536 |
| `Setup.TooSmallIff` | src/setup.c:50-52 | the completion ring is too small if and only if a power of two covers it and not the submission ring |
| `Setup.RefusedIff` | src/setup.c:27-60 | exactly when -EINVAL is returned |
| `Setup.AlignIsLeast` | src/setup.c:220-228 | the mask expression is the least multiple of the page size not below its argument |
| `Setup.MemoryFits` | src/setup.c:220-228 | the areas fit the bytes reported, which are a positive `int` and a multiple of the page size |
| `Setup.AllocHuge` | src/setup.c:205-289 | both areas disjoint and inside mapped or caller memory on every branch; exactly when it fails, and with which error |
| `Setup.WideSqesFitIff` | src/setup.c:220-221 | the area sized for 64-byte SQEs holds 128-byte ones if and only if the 64-byte ones fill less than a page |
| `Setup.WideSqesOverrun` | src/setup.c:220-221 | 64 entries and 4096-byte pages, where it does not |
| `Setup.HeaderFitsIff` | src/setup.c:222-228 | the bytes reported have room for the 320-byte ring header if and only if the last page of the ring area has |
| `Setup.HeaderOverrun` | src/setup.c:222-228 | 256 completions and 4096-byte pages, where they have none |
| `Setup.PlaceRings` | src/setup.c:379-398 | rings placed one after another are packed, and the first that is not placed does not fit or is refused |
| `Setup.PackedApart` | src/setup.c:386-389 | any two rings of one buffer are inside it and disjoint in all their areas |
| `Setup.FillSqArray` | src/setup.c:338-347 | slot i selects SQE i |
| `Setup.CqBytes` | src/setup.c:508-513 | the least multiple of 64 that holds the completions and the ring header |
| `Setup.NPagesIsLeast` | src/setup.c:494-499 | the least power of two of pages, less than twice the pages needed |
| `Setup.RingsSizeBounds` | src/setup.c:503-522 | two least powers of two of pages; at least both sizes, less than twice their page-rounded sum |
| `RingFd.NextKeeps` | src/register.c:260-313 | each call keeps the invariant of flags, index and descriptor |
| `RingFd.RunKeeps` | src/register.c:260-313 | so does every run |
| `RingFd.AnswerIff` | src/register.c:11-24 | a registration call gets through if and only if there is a handle left |
| `RingFd.HandlesAreLive` | src/register.c:11-24 | while registered, every enter and register call names a live handle, also without a descriptor; otherwise if and only if the descriptor is there |
| `RingFd.ClosedOnce` | src/setup.c:444-451 | the descriptor is closed at most once, and exactly once by the end if there was one |
| `RingFd.UnregisterUndoesRegister` | src/register.c:283-299 | unregistering restores every field; after a close in between, no handle is left |
| `RingFd.Ring.constructor` | src/setup.c:350-356 | both kinds of ring start in the invariant |
| `RingFd.Ring.CallRegister` | src/register.c:11-24 | the kernel's own answer while the ring is registered or its descriptor is open, and -EBADF exactly when neither is left |
| `RingFd.Ring.RegisterRingFd` | src/register.c:260-280 | refines its specification |
| `RingFd.Ring.UnregisterRingFd` | src/register.c:283-299 | refines its specification |
| `RingFd.Ring.CloseRingFd` | src/register.c:301-313 | refines its specification, and closes only what is open and still reachable through the index |
| `RingFd.Ring.QueueExit` | src/setup.c:444-452 | the descriptor has been closed exactly once, if there was one |

## Left out

- System calls, inline assembly and page-size probing: `enter`, `register`, `mmap` and `malloc` are parameters or steps of the environment.
- The `io_uring_prep_*` setters: straight assignments to an SQE; an entry's contents are arbitrary here.
- `__io_uring_submit_timeout`, the path of `io_uring_wait_cqes` for kernels without extended arguments: its timeout SQE appears only as the completion that is filtered.
- `__io_uring_submit` with `getevents` or `wait_nr`: only the decision to enter and to wake is modelled, in `SqPoll` and `WaitLoop`.
- Mapping and unmapping (`io_uring_mmap`, the unmapping part of `io_uring_queue_exit`, `ring_dontfork`) and the retry without an SQ array.
- The remaining wrappers in src/register.c, probes, eventfd toggling, the nolibc helpers and file registration.
- The other examples and the tests.
- Kernel internals: request execution, links, cancellation and timers are nondeterministic.
- Setup.AllocHuge: stated for page sizes up to 2^28, far above any in use.
- EchoServer.EchoServer.EventLoop: the bytes of names and payloads are not modelled, only where they lie, who owns the buffer and which message a send has.
- Copier.Copier.QueuePrepped: an SQE is the id of its request; direction, offset, address and length are those of the record, which `CopyRun.QueuedIsStable` shows not to change while the SQE is queued or running.
- Copy.RequeueKeeps: request ids are never reused, unlike the addresses that `malloc` returns; freed requests stay in the list so that the output can be accounted for.
- Aliasing between the records and arrays of the C code is not modelled: the shared cells of a ring and the requests of the copy program are values of a field.
