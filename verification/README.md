# Banana, verified

Banana is a C++ service framework: concurrent queues, message channels between
threads, a one-shot event reactor, byte streams with partial I/O, and servers
built from them. This project models its concurrent protocols as step machines
whose steps are the atomic loads, stores, critical sections, system calls and
callbacks of the code, and proves what holds over every run of them. Code that
works on one object step by step is modelled as a class whose methods are proved
against the functions the step machines use.

How the parts build on each other:

- `Ring` is the circular array of both queues. `LockedRing` puts a mutex and two
  condition variables around it, for any number of threads. `Mailbox` composes
  that monitor with an eventfd semaphore into the mailbox of an
  `InteractiveTask`, and shows that a mailbox is a FIFO channel that never
  blocks its receiver and always drains.
- `WaitFree` is the lock-free single-producer/single-consumer buffer over a
  release/acquire memory: loads of the other side's index may be stale, and a
  slot read may return any write not yet hidden from the reader. `Announce`
  composes it with an eventfd into the hand-over of accepted connections.
  `Modular` is the index arithmetic.
- `Service` is the whole server around map-reduce: fds that are closed and
  reused, connection maps, FIFO mailboxes, pool tasks that keep connections
  alive, and the counting and folding of results. `Progress` shows that it comes
  to rest and that every request is then answered. `Maxima` and `Text` are the
  computation and the request format, with the serial program as reference.
- `Clients` is the server as its clients and the kernel see it: its state over
  whole runs in terms of what was accepted, sent and removed, what may happen
  next, and that nobody who was accepted is forgotten.
- `Composition` puts the real mailboxes of `Mailbox` into the server of
  `Service`, where a mailbox is a plain sequence, and shows that every run of
  the two together is a run of the server. `Benchmark` goes from the client's
  joined paths through the server to the number its serial loop computes.
- `StreamIo` is one socket with partial transfers; `Echo` runs the echo
  connection on it against a reference function of the whole input.
- `HashMap`, `Startup`, `Reactor`, `Singleton` and `Simulator` are the striped
  map with its waiters, the startup barrier and round robin, the one-shot
  callback slots, double-checked locking, and the load generator's stop
  condition.

Runs are action sequences: `Runnable(s, acts)` says that each action is enabled
when its turn comes, `Exec(s, acts)` is the state they lead to. A theorem about
`Exec(s, acts)` from an initial state is a theorem about every interleaving. Where
a state keeps a history, such as what has been put, a theorem says what it is in
terms of the actions alone; and where a theorem is about what cannot happen,
another one says which steps every thread can always take.

Where the code does less than one might expect, the model follows the code:

- A queue with one slot can hold nothing; a putter and a getter then wait for
  each other forever. `LockedRing.StickingNeedsOneSlot` shows that this is the
  only size for which that can happen.
- The assertion on `asyncGet` in `onNewConMsg` needs the eventfd read to bring
  along the notifier's stores. `Announce.FailsWithoutSync` shows that it holds
  if and only if it does.
- `firstCome_` is never reset, so a later reply on a connection is the maximum
  over all bodies accepted on it so far (`Service.CountsAndReplies`).
  `Service.LaterReplies` is the exact condition under which it is the answer to
  its own body all the same, and `Service.SecondReplyMayBeWrong` the runs in
  which it is not. `Service.AnswerIsSerialMax` is about the first request.
- A refused `asyncPut` or `asyncGet` of the wait-free buffer means that it was
  full or empty if and only if the index it loaded was up to date
  (`WaitFree.RefusalMeansFullOrEmpty`); `WaitFree.StaleRefusals` shows that stale
  loads do refuse calls that had room, or something to take.
- The receiver asserts that each eventfd read yields 1. `Mailbox.MisreadsIff`
  shows that this rests on EFD_SEMAPHORE for every queue of more than one message.
- The echo connection ignores the results of its async calls. Bodies of 0 bytes,
  of negative length or of 1021 to 1024 bytes silence it, and longer lengths are
  skipped. `Echo.EchoOf` says so for every input, and `Echo.FramesComeBack`
  gives the exact lengths for which frames come back.
- Splitting a joined list loses an empty last path. `Text.SplitUndoesJoin` is
  the exact condition.
- `insert` of the striped map wakes one thread of the bucket, whatever key it
  waits for. `HashMap.InsertMissesIff` is the exact condition under which an
  insert can leave a thread asleep beside its key: that one thread sleeps for the
  key and another sleeps in the same bucket. `HashMap.LoneWaitersAreWoken` is the
  consequence for runs with at most one sleeper per bucket, and
  `HashMap.TwoWaitersMayMiss` says how long the other one sleeps.
- `enableEvent` re-arms an event without its callback. `Reactor.EnableIsSafeIff`
  is the exact condition, and `Reactor.EnableAfterFire` a run that violates it.
- `asyncPut` of the locked queue falls off its end without returning a value on
  success; the model returns true there, as intended.

`dafny verify dfyconfig.toml` checks everything.

## Model

| member | source | states |
|---|---|---|
| `Ring.FullAndEmpty` | multi-threading/ConcurrentRingBuffer.h:36-71 | the index tests mean full (size - 1 stored) and empty, in both directions |
| `Ring.PutAppends` | multi-threading/ConcurrentRingBuffer.h:40-41 | storing at the head appends to the stored sequence, across the wrap |
| `Ring.DropRemovesFront` | multi-threading/ConcurrentRingBuffer.h:62-63 | reading at the tail and advancing removes exactly the oldest element |
| `Ring.ConcurrentRingBuffer.constructor` | multi-threading/ConcurrentRingBuffer.h:18-22 | a new block is empty |
| `Ring.ConcurrentRingBuffer.PutSection` | multi-threading/ConcurrentRingBuffer.h:45-53 | refused exactly when size - 1 are stored, otherwise appends |
| `Ring.ConcurrentRingBuffer.GetSection` | multi-threading/ConcurrentRingBuffer.h:68-77 | refused exactly when empty, otherwise returns and removes the oldest |
| `LockedRing.StepKeepsInv` | multi-threading/ConcurrentRingBuffer.h:33-77 | every critical section, notified or spurious wakeup keeps FIFO contents and the wakeup promise |
| `LockedRing.QueueIsFifo` | multi-threading/ConcurrentRingBuffer.h:33-77 | in every run of any mix of sync and async calls, what was got is a prefix of what was put, at most size - 1 behind |
| `LockedRing.SleepersAreCovered` | multi-threading/ConcurrentRingBuffer.h:33-77 | no lost wakeup: a thread sleeps un-notified beside items (or free slots) only while at least as many others are notified |
| `LockedRing.CallsAreDone` | multi-threading/ConcurrentRingBuffer.h:33-77 | in every reachable state a put with room stores its argument as the newest element, a get with something stored hands out the oldest, the thread is free and one sleeper of the other side is woken; otherwise nothing is stored or handed out, and the thread sleeps exactly if the call is synchronous; at the call and on resuming alike |
| `LockedRing.PuttersCarryTheirs` | multi-threading/ConcurrentRingBuffer.h:33-43 | in every run a blocked putter still carries the argument of its own last call |
| `LockedRing.CallsAreEnabled` | multi-threading/ConcurrentRingBuffer.h:33-77 | a thread that is not blocked may call, and a woken one may always resume |
| `LockedRing.WokenComeThrough` | multi-threading/ThreadPool.cpp:55-71 | for any number of putters and getters, when no more calls come: resuming is bounded, every thread that left stored or took one element, and who still sleeps finds nothing stored, or no room |
| `LockedRing.StickingNeedsOneSlot` | multi-threading/ConcurrentRingBuffer.h:33-66 | a putter and a getter can be stuck together with nobody notified if and only if the size is 1 |
| `Mailbox.StepKeepsInv` | multi-threading/InteractiveTask.cpp:87-114 | every sender and receiver step keeps queue length = eventfd counter + senders owing a write + receiver holding a token |
| `Mailbox.TakeSleepsIff` | multi-threading/InteractiveTask.cpp:94-97 | the receiver falls asleep in its get exactly when nothing is stored |
| `Mailbox.TakeSucceeds` | multi-threading/InteractiveTask.cpp:91-97 | after reading the eventfd the blocking get always finds the oldest message |
| `Mailbox.MailboxIsSafe` | multi-threading/InteractiveTask.cpp:53-114 | for any number of senders and every run: the balance above, the receiver never sleeps, each value read from the eventfd is 1, the counter never overflows, messages are handled in queue order at most once |
| `Mailbox.MisreadsIff` | utils/Utils.cpp:26-30 | the assertion that a read yields 1 can fail if and only if the eventfd is not a semaphore and the queue holds more than one message |
| `Mailbox.MailboxRunsMonitor` | multi-threading/InteractiveTask.cpp:108-114 | every run of senders and receiver is a run of the locked queue with the same arguments |
| `Mailbox.EachMayMove` | multi-threading/InteractiveTask.cpp:87-114 | every thread that is not asleep may take its next step, whatever the others do |
| `Mailbox.StepIsChannelStep` | multi-threading/InteractiveTask.cpp:87-114 | from outside, every step of every thread appends one message, removes the oldest, or changes nothing |
| `Mailbox.NeverStranded` | multi-threading/InteractiveTask.cpp:87-114 | unless everything is delivered, some thread can move, even if senders sleep on a full queue |
| `Mailbox.DrainDescends` | multi-threading/InteractiveTask.cpp:87-114 | every draining step uses up work, so draining ends |
| `Mailbox.DrainDelivers` | multi-threading/InteractiveTask.cpp:87-114 | once senders stop, every complete run handles all messages and releases every blocked sender with its message handled |
| `Mailbox.InteractiveTask.NotifyMsg` | multi-threading/InteractiveTask.cpp:108-114 | appends the message and announces it, unless the queue is full |
| `Mailbox.InteractiveTask.OnMessage` | multi-threading/InteractiveTask.cpp:87-100 | takes the oldest message for one token and re-arms |
| `WaitFree.ReadIsDetermined` | multi-threading/WaitFreeConcurrentRingBuffer.h:49 | among all writes a slot read might return under weak memory, only the oldest outstanding element qualifies |
| `WaitFree.StepKeepsInv` | multi-threading/WaitFreeConcurrentRingBuffer.h:31-58 | every load (however stale), slot access and store keeps the indices equal to positions modulo the size within one lap |
| `WaitFree.QueueIsFifo` | multi-threading/WaitFreeConcurrentRingBuffer.h:31-58 | in every interleaving with any stale loads, what has been put is the arguments of the puts that came to their end, what has been got is the first of them, one for each get that came to its end, at most size - 1 behind |
| `WaitFree.SlotsDoNotRace` | multi-threading/WaitFreeConcurrentRingBuffer.h:38-49 | conflicting slot accesses are always ordered by what the threads have acquired, and the two threads are never at the same slot |
| `WaitFree.ProducerMayStep` | multi-threading/WaitFreeConcurrentRingBuffer.h:31-41 | whatever the consumer does, the producer may begin a put or take the next step of one, and a load may return any value not older than the last one seen |
| `WaitFree.ConsumerMayStep` | multi-threading/WaitFreeConcurrentRingBuffer.h:43-52 | the same for the consumer; in particular the slot read always has a value to return |
| `WaitFree.CallsAreWaitFree` | multi-threading/WaitFreeConcurrentRingBuffer.h:31-52 | in every interleaving a call is over after four further steps of its own thread |
| `WaitFree.RefusalMeansFullOrEmpty` | multi-threading/WaitFreeConcurrentRingBuffer.h:33-48 | a call is refused exactly when its snapshot shows full (empty), and then the buffer really was full (empty) at the load if and only if the load was up to date |
| `WaitFree.StaleRefusals` | multi-threading/WaitFreeConcurrentRingBuffer.h:33-48 | runs that refuse a put with room, or a get with something stored, exist if and only if the size is at least 2 |
| `WaitFree.SoloPut` | multi-threading/WaitFreeConcurrentRingBuffer.h:31-41 | an uninterrupted put is a run of the machine and succeeds exactly when there is room |
| `WaitFree.SoloGet` | multi-threading/WaitFreeConcurrentRingBuffer.h:43-52 | an uninterrupted get is a run of the machine and yields the oldest element if there is one |
| `WaitFree.WaitFreeConcurrentRingBuffer.AsyncPut` | multi-threading/WaitFreeConcurrentRingBuffer.h:31-41 | on the array: appends or refuses, and matches a run of the step machine |
| `WaitFree.WaitFreeConcurrentRingBuffer.AsyncGet` | multi-threading/WaitFreeConcurrentRingBuffer.h:43-52 | on the array: removes the oldest or refuses, and matches a run of the step machine |
| `Announce.GetKeepsInv` | network/NetWorkService.cpp:95-100 | after a token is read, even a stale load shows a message, so the asserted asyncGet succeeds |
| `Announce.HandoverIsSafe` | network/NetWorkService.cpp:78-109 | in every interleaving the assertion holds, the messages that arrive are the first of those the notifier passed, in order, and whenever the worker is in its loop and a message is stored, the eventfd is readable or about to be written |
| `Announce.NotifierCanMove` | network/NetWorkService.cpp:78-89 | whatever the worker does, a notifier that owes no write may begin a put or go on with it |
| `Announce.EachMayMove` | network/NetWorkService.cpp:78-109 | the steps at the eventfd wait for nothing but their own turn |
| `Announce.NeverStranded` | network/NetWorkService.cpp:78-109 | unless everything is delivered, some thread can move; in particular a worker inside its get always can |
| `Announce.DrainDelivers` | network/NetWorkService.cpp:78-109 | once nothing more is announced, every complete run is bounded and ends with all messages taken and the worker back in its loop with the handler armed |
| `Announce.FailsWithoutSync` | network/NetWorkService.cpp:95-100 | the assertion can fail if and only if eventfd reads do not bring the writers' stores |
| `Service.HandleNewKeeps` | network/NetWorkService.cpp:35-42 | a new connection meets no entry under its fd and no stale result for that fd behind its announcement |
| `Service.HandleDoneKeeps` | network/NetWorkService.cpp:44-56 | looking a result's handle up finds the connection that asked for it or nothing, and keeps the routing invariant |
| `Service.RunTaskKeeps` | examples/MapReduceServer/MapReduceConnection.cpp:130-150 | a result is enqueued while its connection, and so its fd, is still held |
| `Service.DropTaskKeeps` | examples/MapReduceServer/MapTask.h:29-33 | letting go of the connection only after the result was enqueued keeps the routing invariant |
| `Service.ReleaseKeeps` | network/Stream.cpp:30-39 | removing a connection and closing its fd when nothing holds it keeps the routing invariant |
| `Service.StepKeepsInv` | examples/MapReduceServer/MapReduceConnection.cpp:37-148 | every step of every thread keeps ownership of fds, mailbox order, the books of each connection, and that no missing result is lost |
| `Service.NoCrossTalk` | examples/MapReduceServer/MapReduceConnection.cpp:145-148 | over every run with fds closed and reused, a result reaches the very connection that asked for it, or none |
| `Service.KeysNeverCollide` | network/NetWorkService.cpp:67-71 | in every run an open fd is a key in at most one worker's map, and adding a connection never meets an existing entry in any of them |
| `Service.RemovalAndReuse` | network/Connection.cpp:33-38 | in every run removing by handle takes out the connection's own entry and no other, and when nothing holds the connection any more its fd is in no map and may be accepted again |
| `Service.FoldIsSerial` | examples/MapReduceServer/MapReduceConnection.cpp:40-50 | with a result for every file, in whatever order they came, and no file without numbers, the folded value is the maximum over all numbers of all files |
| `Service.CountsAndReplies` | examples/MapReduceServer/MapReduceConnection.cpp:37-104 | taskCount_ is the number of results not yet handled, each still on its way; never more replies than requests; every reply is the maximum over all files of the bodies accepted by then |
| `Service.SettledIsAnswered` | examples/MapReduceServer/MapReduceConnection.cpp:37-104 | after any number of requests, once nothing is on its way, the last reply came after the last request and is the maximum over all files of all of them |
| `Service.AnswerIsSerialMax` | examples/MapReduceServer/MapReduceConnection.cpp:37-104 | a first request gets at most one reply, it is the serial maximum over its files, and it has been sent once nothing is on its way |
| `Service.LaterReplies` | examples/MapReduceServer/MapReduceConnection.cpp:40-49 | a reply answers the body it follows if and only if no number of an earlier body on the connection exceeds all of its numbers |
| `Service.SecondReplyMayBeWrong` | examples/MapReduceServer/MapReduceConnection.cpp:40-49 | for any two numbers, a run in which they are asked for in turn and the second reply is the larger of both |
| `Service.MapReduceConnection.OnMessage` | examples/MapReduceServer/MapReduceConnection.cpp:37-61 | counts down, folds, and answers exactly when the count reaches 0 |
| `Service.MapReduceConnection.OnBody` | examples/MapReduceServer/MapReduceConnection.cpp:90-104 | posts and counts one task per path: the i-th new file of the connection is that of the i-th path, each has its task in the pool, nothing else changes, and this is a run of the machine; a non-empty body posts at least one |
| `Service.NetWorkService.AddNewConnection` | network/NetWorkService.cpp:67-71 | inserts under the fd, leaves an existing entry alone and says which |
| `Service.NetWorkService.RemoveConnection` | network/NetWorkService.cpp:73-76 | erases exactly that key |
| `Service.NetWorkService.OnNewConnect` | network/NetWorkService.cpp:35-42 | in a sound state the key is free, so the insert whose result is ignored succeeds, and the object goes on showing its worker of the state |
| `Service.NetWorkService.OnConnectionMsg` | network/NetWorkService.cpp:44-56 | in a sound state the lookup by fd finds the very connection that asked, and nothing only if that one has left the map; the result goes to what was found |
| `Service.NetWorkService.OnDestroy` | network/Connection.cpp:33-38 | in a sound state removal by fd removes the connection's own entry and no other |
| `Progress.RestIsEmpty` | examples/MapReduceServer/MapReduceConnection.cpp:90-148 | when no thread can move, no callback runs, no message waits and no map task is left |
| `Progress.RequestIsAnswered` | examples/MapReduceServer/MapReduceConnection.cpp:37-148 | at rest, a connection still in its map has a reply after its last request, the maximum over all its files; after one request it has exactly one, the serial maximum |
| `Progress.DrainIsBounded` | examples/MapReduceServer/MapReduceConnection.cpp:37-148 | from every reachable state the server comes to rest after boundedly many steps of its own |
| `Clients.StateIsHistory` | network/Stream.cpp:30-39 | in every run the open fds are those accepted and not closed since, the requests of a connection are the bodies its client sent, and a connection stays in its map until it is removed itself |
| `Clients.ClientsMayAct` | network/NetAcceptService.cpp:54-62 | in every reachable state any closed fd may be accepted, an accepted one announced to any worker, and a registered connection of a free worker may get any body or go |
| `Clients.NobodyIsForgotten` | network/NetWorkService.cpp:35-42 | at rest every fd accepted and not closed belongs to a live connection of its own, which is in its map unless removed |
| `Composition.MailboxesRefine` | multi-threading/InteractiveTask.cpp:87-114 | with bounded mailboxes, blocked senders and spurious wakeups in place of sequences, every run is still a run of the server, and each mailbox holds what the sequence says |
| `Composition.TakeIsMatched` | network/NetWorkService.cpp:33-60 | a receiver with its token and a free worker can always take the oldest message, as the step of both machines |
| `Composition.StoreIsMatched` | multi-threading/InteractiveTask.cpp:108-114 | a sender with a message the server can append stores it in that step if there is room, and otherwise sleeps with it |
| `Composition.ResumeIsMatched` | multi-threading/InteractiveTask.cpp:108-114 | and so does a woken sender that slept with it |
| `Composition.OthersAreMatched` | multi-threading/InteractiveTask.cpp:87-114 | steps that concern one machine alone are taken by it alone |
| `Composition.NoCrossTalk` | network/NetWorkService.cpp:44-56 | with the real mailboxes too, the oldest result in a mailbox reaches the connection that asked, or none |
| `Composition.RepliesAreRight` | examples/MapReduceServer/MapReduceConnection.cpp:37-104 | with the real mailboxes too, every reply is the maximum over all files of the bodies accepted by then |
| `Benchmark.BenchmarkTest` | examples/MapReduceServer/BenchmarkTest.cpp:48-88 | for non-empty, space-free paths of files with numbers: the serial loop computes the largest number in these files, the text sent splits into these paths, and in every run of the server that is at rest after the text was sent, the client has been told exactly that number |
| `Maxima.Reduce` | examples/MapReduceServer/MapReduceConnection.cpp:152-155 | one of its arguments, and at least both |
| `Maxima.MapFunction` | examples/MapReduceServer/MapReduceConnection.cpp:135-144 | the maximum of the file, or the uninitialised value for a file without numbers |
| `Maxima.SerialMax` | examples/MapReduceServer/BenchmarkTest.cpp:48-66 | the maximum over all files, compared with 0 as well if the first file has no number |
| `Maxima.MaxOfMaxima` | examples/MapReduceServer/MapReduceConnection.cpp:152-155 | the largest of the files' maxima is the maximum of all numbers |
| `Text.Split` | utils/Utils.cpp:16-23 | one token per delimiter, and a last one only if the rest is not empty |
| `Text.JoinPaths` | examples/MapReduceServer/BenchmarkTest.cpp:79-88 | paths separated, not terminated, by single spaces |
| `Text.SplitUndoesJoin` | utils/Utils.cpp:16-23 | for delimiter-free paths, splitting the joined text gives the list back if and only if it is empty or its last path is not |
| `Text.JoinUndoesSplit` | utils/Utils.cpp:16-23 | for every text, joining the tokens gives it back minus at most one trailing delimiter |
| `StreamIo.RecvStarts` | network/Stream.cpp:161-173 | accepted exactly for a callback, 1..1024 bytes and a reactor that takes the handler, and then nothing has been received yet; a refused call arms nothing |
| `StreamIo.RecvIsFree` | network/Stream.cpp:46-76 | the kernel may deliver any part of what is awaited, a retry, an error or the end |
| `StreamIo.ReadAdvances` | network/Stream.cpp:43-93 | each event adds its bytes in place, or ends the receive with exactly the bytes asked for or with an error |
| `StreamIo.ReceiveIsExact` | network/Stream.cpp:43-93 | for every schedule an accepted receive completes at most once, successfully only with exactly the n stream bytes, after at most n transfers |
| `StreamIo.SendStarts` | network/Stream.cpp:175-188 | accepted exactly for a callback, up to 1024 bytes and a reactor that takes the handler, with the whole message still to go; a refused call arms nothing |
| `StreamIo.SendIsFree` | network/Stream.cpp:99-123 | the kernel may take any part of what is left, ask for a retry or fail |
| `StreamIo.WriteAdvances` | network/Stream.cpp:95-139 | each event takes a prefix of what is left, or ends the send |
| `StreamIo.SendIsExact` | network/Stream.cpp:95-139 | for every schedule an accepted non-empty send emits a prefix of the message and completes at most once, successfully exactly when all of it has left |
| `StreamIo.Stream.AsyncRecvBytes` | network/Stream.cpp:161-173 | the fields follow the function above; the send side is untouched |
| `StreamIo.Stream.AsyncSendBytes` | network/Stream.cpp:175-188 | the fields follow the function above; the receive side is untouched |
| `StreamIo.Stream.RecvOnePack` | network/Stream.cpp:43-93 | the fields follow the function above; the send side is untouched |
| `StreamIo.Stream.SendOnePack` | network/Stream.cpp:95-139 | the fields follow the function above; the receive side is untouched |
| `Echo.DecodeUndoesEncode` | examples/ConcurrenceSimulateServer/ClientConnection.cpp:26-29 | the length prefix survives the round trip for every 32-bit int |
| `Echo.EncodeUndoesDecode` | examples/ConcurrenceEchoServer/ConcurrentConnection.cpp:41-59 | the prefix sent back is byte for byte the one received |
| `Echo.EncodeIsLittleEndian` | examples/ConcurrenceSimulateServer/ClientConnection.cpp:26-29 | the four bytes are the digits of the length to base 256, lowest first, in two's complement |
| `Echo.RecvCompleteCases` | examples/ConcurrenceEchoServer/ConcurrentConnection.cpp:25-64 | what is asked of the stream after an error, a short or too large length, a length, and a body, including the requests the stream refuses |
| `Echo.SendCompleteCases` | examples/ConcurrenceEchoServer/ConcurrentConnection.cpp:66-81 | after a send the next length is read, after an error the connection goes down |
| `Echo.StepKeepsInv` | examples/ConcurrenceEchoServer/ConcurrentConnection.cpp:25-81 | every partial read, write, retry and failure keeps: output so far followed by what is owed is the reference |
| `Echo.ChunkingIsInvisible` | examples/ConcurrenceEchoServer/ConcurrentConnection.cpp:25-81 | for every input and every schedule the output is a prefix of the reference, and all of it whenever the connection is quiet |
| `Echo.TransfersAreBounded` | network/Stream.cpp:43-139 | at most two transfers per input byte, and a connection that is up and not quiet can always make another |
| `Echo.EnvironmentIsFree` | network/Stream.cpp:43-139 | while the connection is up, an armed side may be given any part of what it asks for, a retry or a failure |
| `Echo.FramesComeBack` | examples/ConcurrenceEchoServer/ConcurrentConnection.cpp:33-63 | a sequence of frames is echoed unchanged if and only if every body has 1 to 1020 bytes |
| `Echo.ConcurrentConnection.StartReadOrWriteInService` | examples/ConcurrenceEchoServer/ConcurrentConnection.cpp:12-23 | the connection asks for a length |
| `Echo.ConcurrentConnection.RecvCompleteCallback` | examples/ConcurrenceEchoServer/ConcurrentConnection.cpp:25-64 | the object takes the step of the connection function used in the theorems |
| `Echo.ConcurrentConnection.SendCompleteCallback` | examples/ConcurrenceEchoServer/ConcurrentConnection.cpp:66-81 | the object takes the step of the connection function used in the theorems |
| `HashMap.LookupRefines` | multi-threading/ConcurrentHashMap.h:20-31 | a lookup in the key's bucket is a lookup in the union of all buckets |
| `HashMap.InsertRefines` | multi-threading/ConcurrentHashMap.h:46-57 | insert adds an absent key to the plain map, never overwrites, and keeps every key in its bucket |
| `HashMap.EraseRefines` | multi-threading/ConcurrentHashMap.h:59-64 | erase removes exactly that key from the plain map |
| `HashMap.UpdatesCommute` | multi-threading/ConcurrentHashMap.h:46-64 | updates of different keys commute, whatever their buckets |
| `HashMap.ConcurrentHashMap.Find` | multi-threading/ConcurrentHashMap.h:20-31 | finds what the plain map holds |
| `HashMap.ConcurrentHashMap.InsertKey` | multi-threading/ConcurrentHashMap.h:46-57 | the object refines the plain map's insert-if-absent |
| `HashMap.ConcurrentHashMap.EraseKey` | multi-threading/ConcurrentHashMap.h:59-64 | the object refines the plain map's erase |
| `HashMap.StepRefines` | multi-threading/ConcurrentHashMap.h:33-64 | in every step an insert adds an absent key to the plain map, an erase removes its key, and waiting changes nothing |
| `HashMap.WaitFindWaits` | multi-threading/ConcurrentHashMap.h:33-44 | in every run a thread in waitFind waits for the key it asked for, and whenever it looks it leaves exactly if that key is in the plain map, with the value found there |
| `HashMap.OthersLeaveItThere` | multi-threading/ConcurrentHashMap.h:33-64 | no step but its own resuming makes a thread leave; only an insert or a spurious wakeup wakes one, and only the one named |
| `HashMap.CallsAreEnabled` | multi-threading/ConcurrentHashMap.h:33-64 | a free thread may call, a woken one resume, and an update may always run |
| `HashMap.InsertMissesIff` | multi-threading/ConcurrentHashMap.h:46-57 | an insert can leave a thread asleep beside its key if and only if before it one thread sleeps for that key and another sleeps in the same bucket |
| `HashMap.UncrowdedRunsMissNone` | multi-threading/ConcurrentHashMap.h:33-57 | in every run in which no insert meets that condition, no thread sleeps beside its key |
| `HashMap.LoneWaitersAreWoken` | multi-threading/ConcurrentHashMap.h:33-57 | in every run with at most one thread asleep per bucket, however many are woken, no thread sleeps beside its key |
| `HashMap.OversleptStays` | multi-threading/ConcurrentHashMap.h:33-57 | a thread asleep beside its key stays so in every run without a new key in the bucket, a spurious wakeup of it, or the erasure of its key |
| `HashMap.TwoWaitersMayMiss` | multi-threading/ConcurrentHashMap.h:33-57 | from any state with two sleepers in a bucket, inserting the key of one and waking the other leaves the first asleep beside its key through every run of that kind |
| `Startup.AcceptAfterWorkers` | network/TcpServer.cpp:37-51 | in every interleaving each worker has its eventfd and armed mailbox before accepting starts, and a posted worker always finds a thread |
| `Startup.StartupIsInOrder` | multi-threading/InteractiveTask.cpp:24-45 | in every interleaving workers are posted, taken and waited for one by one and in order, waiting begins after all are posted, and each worker has executed exactly its first statements |
| `Startup.EachMayMove` | network/TcpServer.cpp:37-66 | startup waits only for a thread and for registrations |
| `Startup.StartupCompletes` | network/TcpServer.cpp:22-66 | startup is bounded and can only end accepting, with all workers looping and exactly the pool-sized remainder of threads free |
| `Startup.NetAcceptService.NextServiceIndex` | network/NetAcceptService.cpp:64-70 | the successor modulo the number of workers |
| `Startup.NetAcceptService.Assign` | network/NetAcceptService.cpp:54-70 | consecutive connections go to consecutive workers |
| `Startup.EveryWorkerHasATurn` | network/NetAcceptService.cpp:64-70 | among any n consecutive connections each of n workers gets one |
| `Startup.NoWorkerHasTwoTurns` | network/NetAcceptService.cpp:64-70 | and none gets two |
| `Reactor.StepKeepsInv` | network/LibeventReactor.cpp:55-209 | every add, remove, disable and fire keeps: a pending event has a callback, and a registration is in one slot or has fired once |
| `Reactor.DispatchIsSafe` | network/LibeventReactor.cpp:188-209 | in every run the dispatcher's assertions hold and no registration fires twice |
| `Reactor.LastAddedFires` | network/LibeventReactor.cpp:75-112 | in every run an event is dispatched to the handler last added for its fd and direction, and may occur exactly while adding it was the last thing done with them |
| `Reactor.QuietAfterRemove` | network/LibeventReactor.cpp:154-176 | after removal nothing fires for that fd and direction until a handler is added again |
| `Reactor.EnableIsSafeIff` | network/LibeventReactor.cpp:114-132 | enabling keeps dispatch safe if and only if the slot's callback has not been consumed |
| `Reactor.EnableAfterFire` | network/LibeventReactor.cpp:114-132 | add, fire, enable leaves an event pending without a callback |
| `Reactor.EventSlots.AddEventHandler` | network/LibeventReactor.cpp:75-110 | arms one slot with the new callback and touches no other fd |
| `Reactor.EventSlots.RemoveEventHandler` | network/LibeventReactor.cpp:154-176 | disarms and frees one slot and touches no other fd |
| `Reactor.EventSlots.OnEvent` | network/LibeventReactor.cpp:188-209 | hands out the slot's callback once and touches no other fd |
| `Singleton.OneInstance` | multi-threading/MessageCenter.cpp:15-29 | for any number of threads, stale first loads included, at most one instance is created and all callers return it |
| `Singleton.FirstLoad` | multi-threading/MessageCenter.cpp:17-18 | once the instance is published, an up-to-date first load returns it at once, whoever holds the mutex; a load that misses it leads to the mutex |
| `Singleton.EveryCallerReturns` | multi-threading/MessageCenter.cpp:15-29 | every run is bounded, and one that can go no further has every caller back with the one instance |
| `Simulator.DeclaredMeansAll` | examples/ConcurrenceSimulateServer/ClientConnection.cpp:80-109 | the shared count is the sum of the clients' echoes, never exceeds clients x messages, and "all received" is declared exactly when every client has all of its echoes |
| `Simulator.EndIsDeclared` | examples/ConcurrenceSimulateServer/ClientConnection.cpp:80-109 | as long as echoes come, every run is bounded and ends with everything received and declared |
| `Simulator.EachMayCount` | examples/ConcurrenceSimulateServer/ClientConnection.cpp:80-109 | until then clients do not wait for each other |

## Left out

- System calls, libevent, files and logging: they appear as choices of the environment (bytes transferred, retry, error, pending events, semaphore counter), not as code.
- `addEventHandler` failing when a partial transfer is continued, or inside the echo connection: there the model has it succeed; the accept listener is not modelled.
- Progress.DrainIsBounded: mailboxes and the pool queue are unbounded there, so a worker blocked on a full pool queue while pool threads are blocked on its full mailbox, which the code does not rule out, is not modelled. `Composition` carries what is proved about safety over to bounded mailboxes, not what is proved about progress.
- Mailbox.InteractiveTask.NotifyMsg: one attempt of the blocking put on the object; that a sender sleeps on a full queue and resumes is in the step machine of `Mailbox`.
- Service.NoCrossTalk: a connection is destroyed in one step some time after its last reference goes; destruction during one of its own callbacks is not modelled.
- Progress.RequestIsAnswered: the value of a reply is promised only if every file holds a number; a client that has gone gets no promise beyond Service.CountsAndReplies; a file that cannot be opened ends the original program.
- The four answer bytes of a map-reduce reply: replies are the integer itself; its encoding is that of `Echo.Encode`.
- Shutdown: `__stop`, unregistering, closing the eventfd and `destroyReactor`.
- The non-reactor receive loop of `InteractiveTask::start` beyond one turn, and the endless loop of `ThreadPool::threadEntry`: a turn is a step of `Mailbox` or `LockedRing`.
- `MessageCenter` sending by name, `getTaskRef` and `asyncSendMsgTo`; registration is the insert of `HashMap`.
- `Connector`, the codecs, `ServiceManager`, `SelectEventReactor` and the storage example: stubs, or system-call branching with no property of their own.
- Simulator.DeclaredMeansAll: assumes that only the counted clients are connected, as the program does; clocks and the content of messages are not modelled.
- Object lifetimes below the level of "who holds a reference", thread naming and durations.
