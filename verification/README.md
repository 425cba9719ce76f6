# Verified model of an RDMA shared-memory layer

The repository lets clients copy large ranges to and from the memory of servers, and lets clients and servers call
each other, by RDMA. What is hard in it is how threads, queue pairs, completions and fixed message slots interact.
This project models that logic and proves what it keeps, in every interleaving.

The network card is an abstract actor. It keeps one queue of requests for each queue pair and executes each queue in
order. It reads the source of a request when the request executes, not when it is posted, and it completes signalled
requests. Memory is a map of bytes or messages, and each copy and each RDMA write is one step. Code that runs
concurrently is a state machine over its steps: `Enabled` and `Apply` give one step, `Run` and `Exec` a whole run.
Code that one thread runs alone is a class with methods and loops. Fields described as history are read by no step.

## Files

| file | content |
|---|---|
| `Wrappers.dfy`, `Memory.dfy`, `Messages.dfy` | optional values; byte memories and one memcpy; message kinds |
| `PartSplit.dfy` | how a large range is divided among the transfer workers |
| `Transfer.dfy` | the bulk transfer engine as a state machine: caller, workers, polling queues, NIC, one completion queue |
| `TransferSafety.dfy`, `TransferSteps.dfy` | its invariant, and that each step keeps it |
| `TransferRuns.dfy` | whole runs: a call is one memcpy, runs refine sequential calls, round trip |
| `TransferCount.dfy` | conservation of completions, whoever takes whose completion |
| `TransferAny.dfy`, `TransferLive.dfy` | what runs keep whichever completions polls take and whatever calls leave over: the polling handshake; every schedule returns |
| `TransferAsWritten.dfy`, `TransferLeftovers.dfy` | polls that take the first completion, as the code has it, and calls that return the wrong bytes |
| `TransferEchoes.dfy`, `TransferExactly.dfy` | what requests left posted do to later calls; exactly which calls are one memcpy, and exactly which keep their pools safe |
| `TransferBytes.dfy` | what a call does byte by byte and step by step, with the sizes written out |
| `SharedCq.dfy`, `AfterCalls.dfy` | one completion queue for several servers; a client that makes remote calls and transfers in any order |
| `ChunkLoop.dfy` | the two chunk loops as loops over arrays |
| `Addressing.dfy` | memory layout, message slots, the 32-bit immediate |
| `RpcServer.dfy`, `RpcServerSafety.dfy`, `RpcSlots.dfy`, `RpcTests.dfy`, `RpcCredits.dfy`, `RpcProgress.dfy` | calls between servers: the protocol, its invariant, who may write a slot, test traffic, receive credits, progress |
| `RpcTrace.dfy`, `RpcPosts.dfy` | what these calls carry, where, and in which order, read from the steps of a run; the batch writes that post their requests |
| `RpcClient.dfy`, `RpcClientTrace.dfy` | calls of a client, with resends and late replies; what becomes of each kind of message, and the accounts of each server |
| `Signalling.dfy` | selective signalling in the batch calls |
| `QueueMonitor.dfy` | the blocking queue under a mutex and a condition variable |
| `Connections.dfy`, `ConnectLoops.dfy`, `CqAssign.dfy` | identifiers, peers and queue pairs; the loops that connect; completion queues and workers |
| `BlockBitmap.dfy`, `Allocator.dfy` | the bitmap, its scan, and the block allocator |

`dafny verify dfyconfig.toml` checks everything.

## Where the code departs from its intent

* **Division of a range** (src/net/RdmaSocket.cpp:882 and 982). The rule for the last part is written for four
  workers, but there are two (include/RdmaSocket.hpp:35). The model takes the number of workers as a parameter.
  `PartSplit.TilesIff`, `PartSplit.CoversAllIff` and `PartSplit.TwoWorkersIff` say exactly when the parts follow one
  another and when they reach the whole range. The content theorems speak of the part that is reached.
* **Whose completion a poll takes** (src/net/RdmaSocket.cpp:1148-1150). A client has one completion queue for all its
  queue pairs, and a poll takes whichever completion is first. The content theorems (`TransferSteps`, `TransferRuns`)
  hold for runs in which a poll takes the poller's own completion (policy `Own`), whatever completions of other queue
  pairs the queue holds. In the code a poll can take another completion and leave its own request posted, so later
  calls begin with requests posted and completions left over, in any number (`Transfer.Between`). For the code as it
  is, with two workers, and every such state:
  * `TransferExactly.CopiesRightIff`: a call is one memcpy in every schedule if and only if it is below 4 MiB and
    nothing is outstanding; or it is empty and every write that is posted sends back what reads of its lane have
    fetched; or it is a read of at most 1 MiB, what is outstanding is posted on its lane, and has fetched or fetches
    the same bytes.
  * `TransferExactly.PoolSafeIff`: it keeps its pools safe if and only if it is empty, or nothing is posted on its
    lane and it is a write of at most 1 MiB, or is below 4 MiB with nothing outstanding at all.
  * The first remote call of a client leaves one signalled request outstanding for good. `AfterCalls` runs transfers
    and remote calls in any order: `AfterCalls.TransfersAfterCalls` gives both conditions for every transfer before
    and after the first remote call.

  The polling handshake, counting and termination hold for every policy and whatever was left over.
* **Resends** (src/net/client.cpp:163-175). A client resends after a timeout and never compares task ids.
  `RpcClient.ResendIff` says exactly which resends do harm: those of a call that another one can follow.
* **Several servers on one completion queue** (src/net/RdmaSocket.cpp:232-241). The polls of the calls to one server
  may take the completions of another. `SharedCq.SufficesIff` shows that the send queues are always large enough if
  and only if the client has at most three servers. Transfers, which poll the same queue, do not change the bound
  (`AfterCalls.SendQueueBound`).
* **Data region** (src/net/MemoryManager.cpp:36-38). The start of the data is computed from the start of the receive
  slots. `Addressing.DataOverlapsRecvIff` says exactly which blocks and slots share bytes.
* **Completion queues** (src/net/RdmaSocket.cpp:223-228). With a single completion queue the index of a client's
  queue is outside the array; `CqAssign.RdmaSocket.Connect` states both cases.
* **Bitmap storage** (include/BlockBitmap.h:26). One byte is allocated whatever the number of blocks. The class has
  the bytes it needs; `Allocator.OneByteSufficesIff` says when one byte is enough.
* **Bitmap guard** (src/net/BlockBitmap.cpp:14 and 23). The block number just past the end passes the guard. `Set` and
  `Clear` return `PastEnd` for it.
* **Bitmap scan** (src/net/BlockBitmap.cpp:31-64). More than 64 blocks are refused before the scan. As written the
  scan itself never returns a result: it spins on a taken bit, or takes its own spinlock again before returning.
  `Bitmap.BlockBitmap.ScanAsWritten` characterises every outcome. `GetAvailableBlocks` is the scan with these faults
  repaired. Both leave marked what a failing request has marked.
* **Freeing** (src/net/MemoryManager.cpp:149). An address is passed where a block number is needed.
  `Allocator.FreeAsWrittenIff` says exactly when this frees the blocks that were meant: for no block at all, or for
  block 0 of a region at address 0. `FreeMemoryBlocks` is the repaired form.

## Premises

* The user buffer of a bulk transfer does not overlap the staging pools, the ranges exist, and the 32-bit part size
  does not overflow (`Transfer.Admissible`). One caller uses the engine at a time, and makes no remote call while a
  transfer is in progress. All its transfers go to one server, so that a lane has one queue pair.
* Connections are reliable and execute requests in order.
* Worker ids of a server are distinct and below 8 (`RpcServer.IsTid`), and each worker has one call under way.
* Task ids of a client and identifiers of nodes do not wrap around. Task ids of a server do wrap in the model.
* Completions report success. In `Signalling` one server is alone on the completion queue; `SharedCq` has any number.
  The NIC makes progress while a thread spins.

## Model

| member | source | states |
|---|---|---|
| PartSplit.PartsTile | src/net/RdmaSocket.cpp:878-887 | for 1 to 4 workers the parts are contiguous, start 4 KB-aligned, and end at a prefix that misses less than one 4 KB block for each worker |
| PartSplit.TilesIff | src/net/RdmaSocket.cpp:876-887 | for every addressable size whose products do not overflow: the parts follow one another, aligned, up to less than one block for each worker, if and only if the share of a worker fits 32 bits, or there are four workers and the cut share is not negative |
| PartSplit.PartsDisjoint | src/net/RdmaSocket.cpp:878-887 | no two parts overlap and all lie in the covered prefix |
| PartSplit.PartOf | src/net/RdmaSocket.cpp:978-987 | every covered byte lies in some part |
| PartSplit.CoversAllIff | src/net/RdmaSocket.cpp:882 | the parts reach the whole range if and only if there are four workers or the size is a multiple of the number of workers times 4096 |
| PartSplit.TwoWorkersIff | src/net/RdmaSocket.cpp:976-987 | for every size below 2^63 and two workers: the parts are exactly the range if and only if it is below 4 GiB and a multiple of 8 KB |
| TransferSteps.StepInv | src/net/RdmaSocket.cpp:868-1039 | every step of the caller, a worker or the NIC keeps the invariant: where each task and chunk is, what each pool holds, which bytes have arrived |
| TransferRuns.CallIsMemcpy | src/net/RdmaSocket.cpp:968-991 | when a call returns, both memories are what one memcpy of the covered range leaves, staging pools aside |
| TransferRuns.RunsRefineSequential | src/net/RdmaSocket.cpp:868-1039 | any schedule of any number of calls has the effect of the same calls done one memcpy after another |
| TransferRuns.RoundTrip | src/net/RdmaSocket.cpp:868-991 | writing a range and reading it back into another buffer returns the bytes written, for every size and schedule |
| TransferRuns.RunPools | src/net/RdmaSocket.cpp:919-924 | in every run in which polls take their own completions, a pool is copied into or out of only while no request that uses it is posted |
| TransferRuns.ReturnsQuiet | src/net/RdmaSocket.cpp:888-904 | whenever no call is in progress, every worker spins, nothing is queued or posted, and no completion of a lane is left over |
| TransferAny.StepOutline | src/net/RdmaSocket.cpp:868-1039 | whichever completions polls take and whatever was left over, every step keeps the outline of a call: tasks reach their workers, posted requests exist and use the pool of their lane, the signal counts finished workers |
| TransferAny.StepPosts | src/net/RdmaSocket.cpp:921-1011 | a step of a call posts no request outside the remote range of the call |
| TransferAny.RunHandshake | src/net/RdmaSocket.cpp:888-904 | in every run of any number of calls, whichever completions polls take: a queue holds at most one task and is not pushed while it is popped, the signal counts the finished workers, no task is read after its call has returned, and every address touched exists |
| TransferAny.NoTaskLeft | src/net/RdmaSocket.cpp:868-891 | in every run no task of a call is left when it has returned |
| TransferAny.ChunksCeiling | src/net/RdmaSocket.cpp:914-915 | the chunk loop makes size over 1 MiB rounds, rounded up |
| TransferAny.StepLeft | src/net/RdmaSocket.cpp:868-1039 | every step of a call is exactly one of the steps it has left |
| TransferLive.AnyProgress | src/net/RdmaSocket.cpp:1145-1150 | whichever completions polls take, while a call is in progress some step of it is possible |
| TransferLive.RunFed | src/net/RdmaSocket.cpp:1145-1150 | when polls take their own completions, a thread that polls always has a request of its lane posted or a completion of it to take, whatever was left over |
| TransferLive.BeginLeft | src/net/RdmaSocket.cpp:868-891 | the number of steps of a call, from its size, the number of workers and the requests it finds posted |
| TransferLive.CallReturns | src/net/RdmaSocket.cpp:868-933 | whichever completions polls take and whatever was left over: a run inside a call is never longer than that number, has returned when it has that length, can be continued until then, and is shorter only by the requests it leaves unexecuted |
| TransferBytes.CallCopies | src/net/RdmaSocket.cpp:868-991 | for every size and every schedule in which polls take their own completions: exactly the first n bytes at the destination are the source's and all other bytes but those of the pools are as before; n is the size below 4194304 or for four workers, and otherwise the size rounded down to a multiple of 4096 for each worker |
| TransferBytes.PostedRequest | src/net/RdmaSocket.cpp:906-924 | each request posted for lane l is between mm + 4096 + l * 1048576 and the next bytes of the range, at most 1048576 of them |
| TransferBytes.SmallLength | src/net/RdmaSocket.cpp:871-874 | the number of steps of a call below 4 MiB in closed form |
| TransferBytes.CountersWrap | include/global.h:239-255 | the counters of the polling queue and of the signal wrap around at 8 and 16 bits |
| TransferBytes.SignalCounts | src/net/RdmaSocket.cpp:875-932 | in every run the signal counts the activations that have ended since the last division of a range, modulo 2^16 |
| TransferBytes.CompletionsInOrder | src/net/RdmaSocket.cpp:1145-1150 | as the code polls, completions are taken in the order in which the NIC added them |
| TransferCount.Conservation | src/net/RdmaSocket.cpp:922-923 | in every run, whoever takes whose completion, requests posted and not polled equal the threads that poll plus what was outstanding at the start |
| TransferCount.NoIdlePoller | src/net/RdmaSocket.cpp:1145-1150 | no thread polls with nothing outstanding |
| TransferCount.NothingLeftOver | src/net/RdmaSocket.cpp:1011-1012 | when no thread polls, exactly as much is outstanding as at the start |
| TransferAsWritten.OneLaneRuns | src/net/RdmaSocket.cpp:1145-1150 | with one lane in use and nothing outstanding at the start, the first completion is always the poller's own, so the content theorems apply to the code as it is |
| TransferLeftovers.ReturnsWrong | src/net/RdmaSocket.cpp:906-1039 | as written and with two workers, every large call, every write that finds something outstanding and every read that finds something outstanding elsewhere than on its lane has a schedule that returns without having copied the range, wherever memory shows it |
| TransferEchoes.ExecutedHolds | src/net/RdmaSocket.cpp:922-924 | when every write of a lane sends back what its reads have fetched, executing its requests changes no remote byte and leaves in the pool the latest fetched bytes |
| TransferEchoes.EchoesRight | src/net/RdmaSocket.cpp:906-933 | an empty call beside such lanes, and a small read whose range the requests of its lane fetch, are one memcpy in every schedule |
| TransferExactly.CopiesRightIff | src/net/RdmaSocket.cpp:868-1039 | as written, with two workers and in every state that calls can leave behind: a call is one memcpy in every schedule and memory exactly in the states of `FindsRight`: nothing outstanding and below 4 MiB, or the cases of `TransferEchoes.EchoesRight` |
| TransferExactly.PoolSafeIff | src/net/RdmaSocket.cpp:868-1039 | as written, with two workers and in every state that calls can leave behind: a call keeps its pools safe in every schedule if and only if it is empty, or nothing is posted on its lane and it is a write of at most 1 MiB or below 4 MiB with nothing outstanding |
| AfterCalls.TransfersAfterCalls | src/net/client.cpp:115-179 | in every run of any number of transfers and remote calls, between transfers as many signalled requests are outstanding as servers were ever called, and both conditions for the next transfer follow: before the first remote call the size below 4 MiB, after it only empty transfers and repeated reads can be right |
| AfterCalls.SendQueueBound | src/net/RdmaSocket.cpp:1050-1080 | with k servers, between transfers at most 32 k + 31 requests to each hold a place in its send queue, although transfers poll the same completion queue |
| AfterCalls.DeliveryPossible | src/net/RdmaSocket.cpp:1072-1073 | every posted request of a remote call can execute at any time |
| ChunkLoop.RdmaSocket.OutboundHamal | src/net/RdmaSocket.cpp:993-1039 | run alone: the remote range becomes the source bytes and nothing else changes but the pool, the byte count grows by the size, the signal by one, in the expected number of rounds |
| ChunkLoop.RdmaSocket.InboundHamal | src/net/RdmaSocket.cpp:906-933 | the same for reading: the buffer becomes the remote bytes, the remote memory is unchanged |
| ChunkLoop.RdmaSocket.PollCompletion | src/net/RdmaSocket.cpp:1145-1166 | the spin ends once the NIC has executed the one posted request, and takes its completion |
| ChunkLoop.RdmaSocket.WriteChunk | src/net/RdmaSocket.cpp:1004-1012 | one round of the write loop through the pool |
| ChunkLoop.RdmaSocket.ReadChunk | src/net/RdmaSocket.cpp:922-924 | one round of the read loop through the pool |
| Addressing.SlotAddresses | src/net/MemoryManager.cpp:34-38 | the address of every slot by node and worker, of the metadata and of the data, in bytes |
| Addressing.SlotsDisjoint | src/net/MemoryManager.cpp:78-99 | send, receive and client slots are pairwise disjoint and lie before the metadata |
| Addressing.ClientSlotIff | src/net/MemoryManager.cpp:97-99 | a client's slot stays within the client slots if and only if its identifier is among the first 24 |
| Addressing.ImmRoundTrip | src/net/server.cpp:70-78 | node and offset survive the immediate, which is taken for an unlock only for offsets from 0xFFF0 |
| Addressing.EndToEnd | src/net/client.cpp:119-144 | the responder looks in the slot that the sender wrote, and the reply lands where the sender polls |
| Addressing.DataOverlapsRecvIff | src/net/MemoryManager.cpp:34-38 | client and server agree on the start of the data, and exactly which data blocks share bytes with which receive slots |
| Addressing.RecvSlotsOverwritten | src/net/MemoryManager.cpp:36-38 | every receive slot but the first starts inside a data block |
| RpcServerSafety.SlotsPrivate | src/net/MemoryManager.cpp:78-95 | calls of different threads share no slot |
| RpcServerSafety.StepInv | src/net/server.cpp:57-183 | every step keeps the invariant: each request is in exactly one place, and its slots hold the request and then the reply |
| RpcServerSafety.ReturnsOwnReply | src/net/client.cpp:157-178 | in every run a call that returns copies out the reply with its own task id, after it was answered exactly once |
| RpcServerSafety.AnsweredOnce | src/net/server.cpp:131-183 | in every run each request is answered at most once, and only the outstanding one may be unanswered |
| RpcServerSafety.ServedAsSent | src/net/server.cpp:82-117 | the message that a responder serves is the one its caller sent, whole |
| RpcTrace.Counter | src/net/client.cpp:116 | in every run the next task id of a node is 1 plus the number of calls it has begun, modulo 2^32 |
| RpcTrace.IdsDiffer | src/net/client.cpp:116 | two of fewer than 2^32 calls of a node never have the same task id |
| RpcTrace.PreparedAsGiven | src/net/client.cpp:124-139 | right after a call has begun, the send slot of its thread holds the given kind and path under that task id |
| RpcTrace.PrepareWrites | src/net/client.cpp:136-139 | a call that begins writes that slot and the kind in its receive slot, and no other memory |
| RpcTrace.ServedIsLastCall | src/net/server.cpp:66-117 | in every run what a responder serves is the message that the last call of the thread named by the immediate was given, and that call was to this server |
| RpcTrace.ReturnsAnswer | src/net/client.cpp:157-178 | in every run a call that returns was given a test message and copies out the answer under its own task id |
| RpcTrace.BegunOrOver | src/net/client.cpp:147-157 | a call that has begun is over if and only if its message is Disconnect, UpdateMeta or ExtentReadEnd; otherwise its next step posts one request to its server |
| RpcTrace.UnansweredLost | src/net/server.cpp:103-145 | each request that is taken up and is no test message costs its server one receive for good |
| RpcTrace.WiresInOrder | src/net/RdmaSocket.cpp:1041-1086 | each connection is a queue: what is on it is what was posted, by addresses and immediates, in order, without what has executed |
| RpcTrace.CqsInOrder | src/net/server.cpp:57-66 | responders take up requests in the order in which they arrived |
| RpcPosts.BatchPosts | src/net/client.cpp:157 | the requests and replies of the protocol are those that one batch write of one request posts |
| RpcSlots.SlotsOwned | src/net/server.cpp:131-183 | while a call is under way its slots change only by the one step that its phase names, whatever all others do |
| RpcTests.TestsAnsweredExactlyOnce | src/net/server.cpp:145-183 | with test messages only nothing is dropped and every request that is not on its way was answered exactly once |
| RpcProgress.NeverWaitsForNothing | src/net/client.cpp:157-161 | with test messages, the next step of a call under way is enabled, or that of the wire or responder it is queued at |
| RpcProgress.CallsReturn | src/net/server.cpp:57-183 | with test messages and without new calls, a schedule is never longer than a fixed number of steps, at most 65 for each server, and all calls have returned when it has that length |
| RpcCredits.CreditsConserved | src/net/RdmaSocket.cpp:620-622 | for each pair of servers, in every run: posted receives, requests waiting or in service, and requests dropped total 128 |
| RpcCredits.ReceiveAlwaysPosted | src/net/server.cpp:180-182 | with one call for each worker at least 119 receives stay posted, so a request never finds the queue empty, and a reply consumes none |
| RpcClient.NeverFromTheFuture | src/net/client.cpp:162-178 | in every run, with any resends and late replies, the returned task id is at most that of the call |
| RpcClient.ResendIff | src/net/client.cpp:115-179 | in every run of at most n calls in which only those numbered in a set resend, every call returns its own task id, if and only if no call of the set can be followed by another |
| RpcClient.OwnReplyUntilResend | src/net/client.cpp:162-178 | in every run the returned task id is the call's own as long as no earlier call resent |
| RpcClient.NextCallReturnsOldReply | src/net/client.cpp:163-175 | for every call that may resend and that another one follows, a run in which the next call returns the reply to it |
| RpcClient.ReceivesConserved | src/net/server.cpp:66-121 | at every server and in every run receives, requests arrived or in service, and requests dropped total 128 |
| RpcClient.TestsNeverStarve | src/net/RdmaSocket.cpp:591-594 | with test messages and no resends nothing is dropped, at most one copy is under way, and at least 126 receives stay posted |
| RpcClientTrace.BegunOrOver | src/net/client.cpp:147-157 | a client's call that has begun is over if and only if its message is Disconnect, UpdateMeta or ExtentReadEnd; otherwise its next step posts one request to its server and changes nothing else |
| RpcClientTrace.Accounts | src/net/server.cpp:57-183 | in every run: what is on its way to a server, arrived, on its way back, still posted and dropped, from the numbers of steps alone; the poller drops Malloc, Scan and Expire, and answers Test only |
| RpcClientTrace.StepWrites | src/net/client.cpp:133-139 | who writes the buffer of the client and the slot at the server, and what |
| RpcClientTrace.OnlyTestsReturn | src/net/server.cpp:145-183 | as long as no earlier call resent, only a call with a test message can return, or one that looks like a reply itself |
| Signalling.RequestsTold | src/net/RdmaSocket.cpp:1056-1074 | opcode, addresses, immediate and signal of the k-th request of each kind of call |
| Signalling.RequestsAt | src/net/RdmaSocket.cpp:1050-1078 | what each request of a call is: addresses, opcode, and a signal at every 32nd value of the counter |
| Signalling.BuffersDisjointIff | src/net/RdmaSocket.cpp:743-751 | the requests of one call use disjoint local buffers if and only if a buffer is not longer than 4096 bytes, or 8 for reads |
| Signalling.Closed | src/net/RdmaSocket.cpp:739-755 | after the first post exactly one signalled request more was posted than polled |
| Signalling.AtMost63 | src/net/RdmaSocket.cpp:1050-1080 | at most 63 requests hold a place in the send queue, and exactly at which counter values 63 do |
| Signalling.SelfWaitIff | src/net/RdmaSocket.cpp:1052-1055 | a poll can wait for a request of its own call if and only if calls can be larger than 32 |
| Signalling.Endpoint.PollCompletion | src/net/RdmaSocket.cpp:1145-1166 | the spin ends when a posted signalled request is not polled, and takes the completions in order |
| Signalling.Endpoint.Build | src/net/RdmaSocket.cpp:843-859 | every poll in the loop finds a request of an earlier call to wait for, and the list is what the call asks for |
| Signalling.Endpoint.Batch | src/net/RdmaSocket.cpp:1041-1086 | a call of 1 to 24 requests fits the send queue, appends exactly its requests, each with the opcode, addresses, immediate and signal of the source, and leaves one signalled request not polled |
| SharedCq.HeldBound | src/net/RdmaSocket.cpp:232-241 | with k servers on one completion queue at most 32 k + 31 requests to each hold a place in its send queue |
| SharedCq.SufficesIff | include/RdmaSocket.hpp:32-34 | in every run the requests fit the send queues of 128 if and only if there are at most three servers |
| SharedCq.PollIsFed | src/net/RdmaSocket.cpp:1052-1055 | a poll in a call finds a completion, or posted requests still to execute |
| SharedCq.Leftover | src/net/RdmaSocket.cpp:1145-1150 | when everything posted has executed, one completion is left over for each server that was called |
| QueueMonitor.FirstInFirstOut | include/global.h:230-251 | in every run the popped items followed by the queued ones are the pushed ones |
| QueueMonitor.TakenInOrder | include/global.h:230-251 | in every run the queue holds the items of the pushes, in order, without those taken, and the pops have returned the first of them |
| QueueMonitor.ThreadsAccounted | include/global.h:230-251 | calls begun are those that have ended and the threads inside, and each pop that has ended has taken exactly one item |
| QueueMonitor.NoLostWakeUp | include/global.h:246-251 | while a consumer waits there are at most as many items as pending notifications and woken consumers |
| QueueMonitor.NeverStuck | include/global.h:230-238 | a consumer that waits beside an item is never stuck: a thread inside the queue can go on |
| QueueMonitor.Drains | include/global.h:230-251 | left alone, the threads inside reach a state without a consumer waiting beside an item, in a bounded number of steps |
| Connections.IdsDistinct | src/net/RdmaSocket.cpp:378-388 | in every run, failures included, identifiers of clients are distinct and above those of the servers |
| Connections.FiledUnderOwnId | src/net/RdmaSocket.cpp:571-599 | every server files a party under the identifier that the party has itself, and no entry is ever overwritten |
| Connections.EndsAgree | src/net/RdmaSocket.cpp:390-431 | when both ends have filed a connection, their queue pairs match by number and index: three for a client, two between servers |
| Connections.Filed | src/net/RdmaSocket.cpp:571-699 | from an attempt on, each side for which it succeeded has filed its own queue pairs and the numbers it was told, under the identifier of the other side |
| Connections.ClientConnected | src/net/RdmaSocket.cpp:657-699 | a client that connected to a server without a failure is filed at both ends from then on |
| Connections.IdsInOrder | src/net/RdmaSocket.cpp:378-388 | server 1 gives out n + 1, n + 2, and so on, one for each exchange of identifiers |
| Connections.FailureEnds | src/net/RdmaSocket.cpp:601-627 | a party makes no attempt after one that failed on its side, and a client begins with server 1, once |
| ConnectLoops.LoopsRefine | src/net/RdmaSocket.cpp:601-627 | every run of the loops over the configuration, in any orders, is a run of the connection model: no party tries a server twice |
| ConnectLoops.OneAttemptPerPair | src/net/RdmaSocket.cpp:604-606 | when two servers try to connect, the higher one opens and neither has tried the other before |
| ConnectLoops.LoopConnects | src/net/RdmaSocket.cpp:601-627 | a server that has gone through its loop without a failed attempt is connected both ways to every lower server |
| ConnectLoops.ClientConnects | src/net/RdmaSocket.cpp:657-699 | a client that has gone through its loop without a failed attempt is connected both ways to every server |
| ConnectLoops.LoopGoesOn | src/net/RdmaSocket.cpp:601-699 | a loop goes on until its end unless an attempt failed; a client connects to all but server 1 in it, a server to those below itself |
| Connections.PairsConnected | src/net/RdmaSocket.cpp:601-627 | when no attempt between servers fails, a pair that was attempted is connected both ways |
| CqAssign.RdmaSocket.CreateQueuePair | src/net/RdmaSocket.cpp:216-241 | the completion queue of a queue pair, and when the index is outside the array |
| CqAssign.RdmaSocket.Connect | src/net/RdmaSocket.cpp:390-397 | the queue pairs of a client share one completion queue, those of a server use the first, and with a single queue a client's index is outside the array |
| CqAssign.CqInRange | src/net/RdmaSocket.cpp:223-231 | with at least two queues a client's is never the first and exists |
| CqAssign.CqsInTurn | src/net/RdmaSocket.cpp:223-228 | with q queues client m gets queue 1 + m % (q - 1) |
| CqAssign.LoadsBalanced | src/net/RdmaSocket.cpp:223-228 | after any number of clients the loads of the workers but worker 0 differ by at most one, and worker 0 has none |
| Bitmap.SetInserts | src/net/BlockBitmap.cpp:18 | writing a bit is inserting one block, all other bits kept |
| Bitmap.ClearRemoves | src/net/BlockBitmap.cpp:27 | clearing a bit is removing one block, all other bits kept |
| Bitmap.WritesRefineEdits | src/net/BlockBitmap.cpp:13-29 | any sequence of set and clear calls agrees with the set |
| Bitmap.MembersDetermineBytes | src/net/BlockBitmap.cpp:13-29 | bitmaps with the same members are the same bytes |
| Bitmap.BlockBitmap.constructor | include/BlockBitmap.h:25-28 | a new bitmap is empty and has a byte for each eight blocks |
| Bitmap.BlockBitmap.Set | src/net/BlockBitmap.cpp:13-20 | which block numbers are refused, which one writes past the end, and otherwise which byte becomes which value |
| Bitmap.BlockBitmap.Clear | src/net/BlockBitmap.cpp:22-29 | the same for clearing |
| Bitmap.BlockBitmap.ScanAsWritten | src/net/BlockBitmap.cpp:31-64 | for every bitmap and number, which of the outcomes happens: refusal above 64, no result for 0, and otherwise what a request has marked when it spins or takes its lock again; for a bitmap of no blocks, for which the source still allocates one byte, the scan is said to leave the storage |
| Bitmap.BlockBitmap.GetAvailableBlocks | src/net/BlockBitmap.cpp:31-64 | the repaired scan finds and marks exactly the first free blocks, and fails exactly when too few are free |
| Bitmap.ScanFinds | src/net/BlockBitmap.cpp:39-58 | what it finds was free, is in the bitmap, ascends, and skips no free block |
| Bitmap.ScanSucceedsIff | src/net/BlockBitmap.cpp:51-63 | it finds the number asked for if and only if as many blocks are free, and otherwise all of them |
| Allocator.OneByteSufficesIff | include/BlockBitmap.h:25-28 | the single byte that the source allocates holds all blocks if and only if the data size is below 4 |
| Allocator.MemoryManager.AllocateMemoryBlocks | src/net/MemoryManager.cpp:115-137 | success returns the addresses of the first free blocks and marks them; failure leaves them marked |
| Allocator.MemoryManager.FreeMemoryBlocks | src/net/MemoryManager.cpp:139-161 | the repaired form frees exactly the blocks that the addresses name, and reports addresses outside |
| Allocator.MemoryManager.FreeAsWritten | src/net/MemoryManager.cpp:139-161 | as written it frees the blocks whose numbers are the addresses |
| Allocator.FreeAsWrittenIff | src/net/MemoryManager.cpp:149 | it frees the blocks that the addresses name if and only if there are none, or only block 0 of a region at address 0 |
| Allocator.FreeAsWrittenFreesNothing | src/net/MemoryManager.cpp:149 | it frees nothing if and only if every address is beyond the block numbers |
| Allocator.BlocksTile | src/net/MemoryManager.cpp:129 | every byte of the data region is in exactly one block of 4096 bytes |
| Allocator.BlocksDisjoint | src/net/MemoryManager.cpp:129 | the ranges of different blocks are disjoint |
| Allocator.FreeUndoesAlloc | src/net/MemoryManager.cpp:115-161 | the addresses of an allocation name exactly its blocks, so freeing them restores the set of taken blocks |
| Allocator.BitmapIsLiveAndLeaked | src/net/MemoryManager.cpp:115-161 | after every history the bitmap is the disjoint union of the live allocations and what failing requests left marked |
| Allocator.RefinesLiveIff | src/net/MemoryManager.cpp:124-126 | the bitmap is exactly the set of live blocks if and only if no request of the history asked for more than was free while something was free |
| Allocator.AllocReleaseRestores | src/net/MemoryManager.cpp:115-161 | an allocation that succeeds and is freed at once leaves the heap as it was |

## Left out

* ibverbs calls, devices, memory registration, queue pair attributes and their destruction: foreign library. Sockets
  and the exchange of metadata: one atomic swap that may fail, followed by failures on either side.
* Shared memory, memset, cache flushes, fences and the C++ memory model: steps are atomic.
* Time: the resend timeout is a step that may happen at any moment. Time costs, `WriteTest`, `NotifyPerformance` and
  logging are not part of this model.
* The raw read and write branches inside `ProcessRequest` (src/net/server.cpp:152-168): the enclosing branch is taken
  for test messages only, so they are never reached. `ProcessLocalRequest` does nothing.
* The number of bytes of a reply (`sizeReceiveBuffer`): a message is its kind, task id and path, and a reply covers
  them. The trimming of lengths in `ContractSendBuffer` and `ContractReceiveBuffer` is constant or not called.
* A server's own completions of signalled writes, which its worker takes from the same queue and ignores.
* `Client::BlockAlloc`, `BlockWrite`, `IndexWrite` and `RangeCover`: the server does nothing for their messages.
* Drivers and configuration files: the number of servers is a parameter.
* The bounds of the table of peers (1000 entries) and of the client slots (24) are not enforced by the code;
  identifiers beyond the slots are the subject of `Addressing.ClientSlotIff`.
* TransferRuns.CallIsMemcpy: for runs in which a poll takes the poller's own completion; what the code does without
  that premise is the subject of `TransferExactly`.
* TransferExactly.CopiesRightIff: transfers of one client to several servers, whose queue pairs would share the pools.
* RpcServerSafety.StepInv: the responder reads a slot and overwrites it in one step; by `RpcSlots.SlotsOwned` nobody
  else writes the slot in between. In `RpcClient`, where a resent request can arrive in between, these are separate
  steps.
* Signalling.Endpoint.Batch: clients only, for a server never polls in these calls; a post that fits the send queue
  is taken to succeed.
* RpcClient.OwnReplyUntilResend: one client at a time; other clients use other slots and receives, and only delay the
  worker they share.
* RpcServerSafety.ReturnsOwnReply: a thread that waits for a reply is taken to be another thread than the worker that
  answers, so that waiting does not keep a server from answering.
* Connections.IdsDistinct: identifiers before the 16-bit counter wraps around.
* ChunkLoop.RdmaSocket.InboundHamal: one thread alone; the concurrent form is in the transfer state machine.
* Bitmap.BlockBitmap.ScanAsWritten: platforms where `char` is signed.
