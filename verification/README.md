# The core of libzmq 4.0.7, verified

This project models the parts of the vendored ZeroMQ library in which threads, queues and
buffers have to agree, and proves that they do. The C API and the C++ wrapper around it are thin; what can
go wrong is below them:

* **Pipes.** Two ends exchange messages through two queues and close each other down with a handshake of
  asynchronous commands. `PipeEnd` gives every operation of one end as a function, `PipePair` lets two
  ends and two command channels run in any order, `PipeSafety`, `PipeClose`, `PipeDelay`, `PipeFlow` and
  `PipeDelivery` prove what holds over every run, and `PipeObject` has the mutable objects, each method proved to do what the function says.
* **Ownership.** `Own` is one `own_t` object, `OwnTree` a tree of unboundedly many of them with FIFO
  inboxes, `OwnSafety` the proof that shutdown is safe and `OwnLive` the proof that it completes.
* **Subscriptions.** `Window` is the compacted child table of both tries, `MTrie` and `Trie` the tries
  themselves as linked nodes on the heap, refined to a map of pipe sets and to a multiset of topics.
* **Publishing.** `PipeArray` and `Distribution` hold the pipes of a distributor in one array of nested groups,
  `Publisher` gives the runs of a publishing socket, `PublisherHistory` tells their outcome by
  the events alone, and `XPub` the socket as an object that takes those steps.
  `Messages` counts the references of shared message contents.
* **The wire.** `Wire` and `Frames` say what a byte stream means when it is read in one go, for ZMTP 1.0 and
  for ZMTP 2.0/3.0; `Decoder`, `Encoder` and `Engine` work incrementally with any sizes of buffers and reads, and `Link`
  joins them. `Metadata` is the property list of the handshake.
* **Round robin.** `RoundRobin` proves fairness once for the fair queue (`FairQueue`) and the load balancer
  (`LoadBalancer`).
* **Threads.** `Mailbox` is the mailbox over the lock-free queue at the level of single atomic operations;
  `Reaper` and `Context` are the end of a context.

Three promises do not hold of the code as they stand. They are kept as the code has them, with the input that shows
it and the exact condition under which they do hold: a hiccup that crosses a terminate discards the delimiter
the other end waits for, and it waits until it gives up (`DelimiterAhead`, `HiccupLosesDelimiter`, `LostUntilGivenUp`,
`GivingUpCloses`); a pipe attached with an implicit subscription is not
announced upstream (`AttachInStep`, `ImplicitSubscriptionIsMissed`); and when a pipe goes in the middle of
a message from another one, the rest of that message may be taken from, or given to, a third (`HeadAfterLeft`,
`HeadIsLost`).

Integers are unbounded where the source counts (sequence numbers, reference counts, messages), and explicit where
their width matters (bytes, lengths on the wire, the range of `size_t`). Environment choices are parameters of an
operation: which pipes accept a write, how many bytes a read brings, which socket has nothing left to wait for.

Check everything with `dafny verify dfyconfig.toml`.

## Model

| member | source | states |
|---|---|---|
| `PipeSafety.HandshakeIsSafe` | zeromq/zeromq4-x-4.0.7/src/pipe.cpp:237-410 | for every interleaving of two pipe ends, hiccups included: no assertion fails, no queue freed by its reader is written, nothing is sent to a deallocated end, each end sends at most one pipe_term and one pipe_term_ack |
| `PipeSafety.NoQueueLeaks` | zeromq/zeromq4-x-4.0.7/src/pipe.cpp:303-338 | once both ends are gone, every queue ever made in either direction was freed and no command is left |
| `PipeSafety.RunKeepsInv` | zeromq/zeromq4-x-4.0.7/src/pipe.cpp:218-410 | the invariant behind both, over whole runs: an automaton reads each command channel as a legal rest of the handshake |
| `PipeClose.DelimiterAhead` | zeromq/zeromq4-x-4.0.7/src/pipe.cpp:262-301 | in every run, an end waiting for the delimiter has it ahead in its inbound queue if and only if no hiccup was on its way to the peer when the peer terminated, and none was sent afterwards |
| `PipeClose.TerminatedAt` | zeromq/zeromq4-x-4.0.7/src/pipe.cpp:345-410 | every run in which an end has asked for termination has a move at which it did, so the condition always has a moment to refer to |
| `PipeClose.WaitingHasDelimiter` | zeromq/zeromq4-x-4.0.7/src/pipe.cpp:262-301 | without hiccups it always has it ahead |
| `PipeClose.DrainBounded` | zeromq/zeromq4-x-4.0.7/src/pipe.cpp:262-457 | while reading and delivering, a measure falls with every step, so closing takes a bounded number of steps |
| `PipeClose.ClosingFinishes` | zeromq/zeromq4-x-4.0.7/src/pipe.cpp:262-457 | when nothing more can be read or delivered, the pipe is untouched, closed on both ends, or one end waits for a delimiter that a hiccup discarded |
| `PipeClose.ClosingWithoutHiccups` | zeromq/zeromq4-x-4.0.7/src/pipe.cpp:345-410 | without hiccups a pipe that left the active state ends up deallocated on both ends |
| `PipeClose.HiccupLosesDelimiter` | zeromq/zeromq4-x-4.0.7/src/pipe.cpp:237-260 | a run of five events in which a hiccup crosses a terminate: nothing is in flight, nothing can be read, and one end waits for a delimiter that was discarded |
| `PipeClose.LostUntilGivenUp` | zeromq/zeromq4-x-4.0.7/src/pipe.cpp:345-410 | from any reachable state in which the delimiter is lost, every run keeps it lost and the pipe half closed until the waiting end calls terminate without delay |
| `PipeClose.GivingUpCloses` | zeromq/zeromq4-x-4.0.7/src/pipe.cpp:371-376 | when it does call that, as a socket does for each of its pipes when it shuts down, every maximal drain ends with both ends deallocated |
| `PipeClose.CrossedIsReached` | zeromq/zeromq4-x-4.0.7/src/pipe.cpp:459-482 | the state that run starts from is reachable: a hiccup on one side, a terminate on the other |
| `PipeDelay.PromptAnswer` | zeromq/zeromq4-x-4.0.7/src/pipe.cpp:262-274 | an active end without delay that is asked to terminate acknowledges at once and lets go of its outbound queue |
| `PipeDelay.NeverWaits` | zeromq/zeromq4-x-4.0.7/src/pipe.cpp:262-343 | over whole runs: an end that was active and without delay never waits for a delimiter, whatever either end does |
| `PipeDelay.PromptPairCloses` | zeromq/zeromq4-x-4.0.7/src/pipe.cpp:262-338 | when both ends are without delay and either was told to terminate, delivering commands alone deallocates both, though nobody reads |
| `PipeDelay.AckSentExactly` | zeromq/zeromq4-x-4.0.7/src/pipe.cpp:262-457 | an acknowledgement is sent on four occasions and no other: asked while not an active end with delay, acknowledged before it was asked, the awaited delimiter read, waiting given up |
| `PipeDelay.NoAckBeforeDelimiter` | zeromq/zeromq4-x-4.0.7/src/pipe.cpp:262-301 | over whole runs: an active end with delay does not acknowledge before it reads the delimiter, unless it is itself told to terminate or not to delay |
| `PipeDelay.DelimiterFirst` | zeromq/zeromq4-x-4.0.7/src/pipe.cpp:66-84 | the same from the creation of a pipe: delay is the default |
| `PipeDelay.TerminateIsHeard` | zeromq/zeromq4-x-4.0.7/src/pipe.cpp:345-410 | after terminate a request is out, once, unless the peer's request came first |
| `PipeFlow.HighWatermarkHolds` | zeromq/zeromq4-x-4.0.7/src/pipe.cpp:166-193 | in every run without hiccup, messages written minus messages the peer reported read never exceed the high watermark, nor do messages in transit |
| `PipeFlow.BlockedWriterIsWoken` | zeromq/zeromq4-x-4.0.7/src/pipe.cpp:139-235 | a blocked writer has an activate_write with a larger count on its way, or the reader still has more than hwm - lwm messages to read; when the reader has read everything it is always the former |
| `PipeFlow.DeliveryInOrder` | zeromq/zeromq4-x-4.0.7/src/pipe.cpp:139-216 | what was read is a prefix of the whole messages written; read, flushed and unflushed parts together are exactly what was written |
| `PipeFlow.NothingLostAtDelimiter` | zeromq/zeromq4-x-4.0.7/src/pipe.cpp:445-457 | a reader stops at the delimiter only after it has read every message written before |
| `PipeFlow.LaterPartsAccepted` | zeromq/zeromq4-x-4.0.7/src/pipe.cpp:166-193 | while the pipe is active, the later parts of a message whose first part was accepted are accepted |
| `PipeFlow.LaterPartsReadable` | zeromq/zeromq4-x-4.0.7/src/pipe.cpp:139-164 | a reader in the middle of a message finds the next part |
| `PipeDelivery.LwmValue` | zeromq/zeromq4-x-4.0.7/src/pipe.cpp:416-443 | the low watermark is 1024 below a high one above 2048, and otherwise half of it, rounded up |
| `PipeDelivery.MsgsAreWholes` | zeromq/zeromq4-x-4.0.7/src/pipe.cpp:152-157 | the count of messages is that of the last parts which carry no identity |
| `PipeDelivery.AcceptsBelowWatermark` | zeromq/zeromq4-x-4.0.7/src/pipe.cpp:166-193 | in every run without hiccup, an active end accepts a part if and only if it has no high watermark or fewer messages than that were written and not reported read |
| `PipeDelivery.AcceptedIsWritten` | zeromq/zeromq4-x-4.0.7/src/pipe.cpp:181-193 | an accepted part follows all earlier ones, and the last part completes its message |
| `PipeDelivery.RollbackDrops` | zeromq/zeromq4-x-4.0.7/src/pipe.cpp:195-206 | in every run, a rollback drops the unfinished message and changes nothing else |
| `PipeDelivery.FlushedIsRead` | zeromq/zeromq4-x-4.0.7/src/pipe.cpp:113-216 | in every run without hiccup: after a flush and the delivery of its commands, a reader that still reads gets every whole message written, a part with each read |
| `PipeDelivery.HiccupTakesBack` | zeromq/zeromq4-x-4.0.7/src/pipe.cpp:237-260 | in every run: after a hiccup arrives the writer may write again, its old queue is freed, and the messages in it that were never read no longer count as written |
| `PipeObject.Ypipe.Write` | zeromq/zeromq4-x-4.0.7/src/ypipe.hpp:73-82 | an item joins the incomplete tail, which becomes complete with its last item |
| `PipeObject.Ypipe.Unwrite` | zeromq/zeromq4-x-4.0.7/src/ypipe.hpp:90-97 | takes back items of the incomplete tail only |
| `PipeObject.Ypipe.Flush` | zeromq/zeromq4-x-4.0.7/src/ypipe.hpp:102-125 | complete items become visible; false exactly when the reader slept, and it is awake then |
| `PipeObject.Ypipe.CheckRead` | zeromq/zeromq4-x-4.0.7/src/ypipe.hpp:128-149 | false exactly when nothing is visible, and the reader sleeps then |
| `PipeObject.Ypipe.Read` | zeromq/zeromq4-x-4.0.7/src/ypipe.hpp:153-164 | the first visible item |
| `PipeObject.Pipe.constructor` | zeromq/zeromq4-x-4.0.7/src/pipe.cpp:66-84 | a fresh end is active, with its low watermark computed from the high one |
| `PipeObject.Pipe.CheckRead` | zeromq/zeromq4-x-4.0.7/src/pipe.cpp:113-137 | true exactly when the end may read and a part is visible; a delimiter at the front ends the inbound stream instead, and an empty queue puts the reader to sleep |
| `PipeObject.Pipe.Read` | zeromq/zeromq4-x-4.0.7/src/pipe.cpp:139-164 | the next part, counting whole messages and crediting the writer every lwm of them; a delimiter ends the inbound stream |
| `PipeObject.Pipe.CheckWrite` | zeromq/zeromq4-x-4.0.7/src/pipe.cpp:166-179 | true exactly when the end is active, not blocked and below the high watermark; at the watermark the writer is blocked |
| `PipeObject.Pipe.Write` | zeromq/zeromq4-x-4.0.7/src/pipe.cpp:181-193 | the part joins the outbound queue if the check allows it, and whole messages are counted |
| `PipeObject.Pipe.Rollback` | zeromq/zeromq4-x-4.0.7/src/pipe.cpp:195-206 | the loop removes exactly the unfinished message, and its assertion holds when that consists of parts with the more flag |
| `PipeObject.Pipe.Flush` | zeromq/zeromq4-x-4.0.7/src/pipe.cpp:208-216 | activate_read is sent exactly when the reader slept and the peer may still read |
| `PipeObject.Pipe.ProcessActivateRead` | zeromq/zeromq4-x-4.0.7/src/pipe.cpp:218-224 | an end that may still read is readable again, and not otherwise |
| `PipeObject.Pipe.ProcessActivateWrite` | zeromq/zeromq4-x-4.0.7/src/pipe.cpp:226-235 | the peer's count is taken over, and a blocked active writer is unblocked |
| `PipeObject.Pipe.ProcessHiccup` | zeromq/zeromq4-x-4.0.7/src/pipe.cpp:237-260 | the drain loop empties the old outbound queue, gives back the counts of whole messages and the new queue takes its place |
| `PipeObject.Pipe.ProcessPipeTerm` | zeromq/zeromq4-x-4.0.7/src/pipe.cpp:262-301 | active with delay waits for the delimiter; without it, or with the delimiter already read, acknowledges; after an own request acknowledges too; the outbound queue is let go of exactly when acknowledging |
| `PipeObject.Pipe.ProcessPipeTermAck` | zeromq/zeromq4-x-4.0.7/src/pipe.cpp:303-338 | acknowledges a peer whose request crossed, drains the inbound queue in a loop and frees it |
| `PipeObject.Pipe.ProcessDelimiter` | zeromq/zeromq4-x-4.0.7/src/pipe.cpp:445-457 | the end of the inbound stream: noted while active, acknowledged while waiting for it |
| `PipeObject.Pipe.SetNoDelay` | zeromq/zeromq4-x-4.0.7/src/pipe.cpp:340-343 | the end no longer waits for the delimiter: the flag is cleared, and nothing else changes |
| `PipeObject.Pipe.Terminate` | zeromq/zeromq4-x-4.0.7/src/pipe.cpp:345-410 | all seven cases: a request at most once, an immediate acknowledgement when waiting is given up, and otherwise rollback, delimiter and flush on the outbound queue |
| `PipeObject.Pipe.Hiccup` | zeromq/zeromq4-x-4.0.7/src/pipe.cpp:459-482 | a new inbound queue takes the place of the old one and its number goes to the peer, in the active state only |
| `OwnSafety.TreeIsSafe` | zeromq/zeromq4-x-4.0.7/src/own.cpp:55-199 | in every run of an unbounded tree of objects over FIFO mailboxes: no assertion fails, no command is sent to or handled by a deallocated object, none is on the way to one, and an object dies only after its whole subtree died and every child's acknowledgement was taken |
| `OwnSafety.FinishedIsIdle` | zeromq/zeromq4-x-4.0.7/src/own.cpp:183-199 | when check_term_acks destroys an object, its inbox is empty, no announced command is outstanding and every child it ever launched has acknowledged |
| `OwnSafety.SubtreeDead` | zeromq/zeromq4-x-4.0.7/src/own.cpp:147-162 | death of an object implies death along every path below it |
| `OwnSafety.NextOk` | zeromq/zeromq4-x-4.0.7/src/object.cpp:62-163 | every event keeps the invariant: the phase of each child agrees with its owner's inbox, owned set and acknowledgement count |
| `OwnLive.RequestServed` | zeromq/zeromq4-x-4.0.7/src/own.cpp:87-108 | a request of an owned child that a live owner takes from its inbox before terminating is served: the child gets one term, and the owner waits for one acknowledgement more |
| `OwnLive.TermChildServed` | zeromq/zeromq4-x-4.0.7/src/own.cpp:82-85 | the same when the owner asks for it itself |
| `OwnLive.RequestIgnored` | zeromq/zeromq4-x-4.0.7/src/own.cpp:89-100 | a request is ignored exactly while terminating or for a child not owned |
| `OwnLive.AskTermHeard` | zeromq/zeromq4-x-4.0.7/src/own.cpp:124-140 | terminate starts a root, and sends the request of any other object to its owner |
| `OwnLive.ShutdownCompletes` | zeromq/zeromq4-x-4.0.7/src/own.cpp:147-199 | in every run of an unbounded tree: when no command is left to deliver and no outside event to wait for, every object that was told to terminate is deallocated, and its whole subtree |
| `Own.Object.IncSeqnum` | zeromq/zeromq4-x-4.0.7/src/own.cpp:55-59 | one more command announced |
| `Own.Object.HandleSeqnum` | zeromq/zeromq4-x-4.0.7/src/own.cpp:61-68 | one more command processed, and the object is destroyed if that was the last thing to wait for |
| `Own.Object.HandleTermReq` | zeromq/zeromq4-x-4.0.7/src/own.cpp:87-108 | a request is ignored while terminating or for an unknown child; else the child is disowned and asked to terminate |
| `Own.Object.HandleOwn` | zeromq/zeromq4-x-4.0.7/src/own.cpp:110-122 | a child that comes too late is asked to terminate at once |
| `Own.Object.HandleTerm` | zeromq/zeromq4-x-4.0.7/src/own.cpp:147-162 | the loop over the children sends term to each once and waits for as many acknowledgements |
| `Own.Object.HandleTermAck` | zeromq/zeromq4-x-4.0.7/src/own.cpp:169-181 | one acknowledgement less to wait for |
| `Own.Object.RegisterTermAcks` | zeromq/zeromq4-x-4.0.7/src/own.cpp:164-167 | more acknowledgements to wait for |
| `Own.Object.CheckTermAcks` | zeromq/zeromq4-x-4.0.7/src/own.cpp:183-199 | destroyed, with an acknowledgement to the owner, exactly when terminating with nothing to wait for |
| `Own.Object.Terminate` | zeromq/zeromq4-x-4.0.7/src/own.cpp:124-140 | a root starts at once and sends term to each of its children once, any other object asks its owner, a repeated call does nothing |
| `Window.Insert` | zeromq/zeromq4-x-4.0.7/src/mtrie.cpp:80-146 | a child at an unused byte: the window grows over it from empty, from a single node, to the right or to the left, and keeps every other child, the counter and used ends |
| `Window.Extend` | zeromq/zeromq4-x-4.0.7/src/mtrie.cpp:81-128 | the four ways to grow keep all children in their place |
| `Window.PruneMtrie` | zeromq/zeromq4-x-4.0.7/src/mtrie.cpp:314-378 | a child is removed and the table trimmed or turned into a single node; every other child stays, and the zmq_asserts on the way hold |
| `Window.PruneTrie` | zeromq/zeromq4-x-4.0.7/src/trie.cpp:157-249 | the same for the variant that takes the survivor from the other end of the table |
| `Window.CompactSwept` | zeromq/zeromq4-x-4.0.7/src/mtrie.cpp:236-278 | after a sweep that cleared slots anywhere, the table shrinks to the range in use |
| `MTrie.Node.Add` | zeromq/zeromq4-x-4.0.7/src/mtrie.cpp:67-147 | the trie is a map from topics to non-empty sets of pipes; the pipe joins the set of the topic, and the result tells whether the topic had none |
| `MTrie.Node.RmTopic` | zeromq/zeromq4-x-4.0.7/src/mtrie.cpp:286-382 | the pipe leaves the set of the topic; the result is true if and only if the last one left, or the topic is an inner node without pipes or the root |
| `MTrie.Node.RmPipe` | zeromq/zeromq4-x-4.0.7/src/mtrie.cpp:159-279 | the pipe leaves every set; the callbacks are exactly the topics that lost their last pipe, with the right bytes, once each, in lexicographic order |
| `MTrie.Node.Match` | zeromq/zeromq4-x-4.0.7/src/mtrie.cpp:384-425 | signals a pipe if and only if it is subscribed to some prefix of the data |
| `MTrie.Node.Inhabited` | zeromq/zeromq4-x-4.0.7/src/mtrie.cpp:427-430 | a node that is not redundant leads to a subscription |
| `MTrie.Node.Barren` | zeromq/zeromq4-x-4.0.7/src/mtrie.cpp:427-430 | a redundant node leads to none |
| `Trie.Node.Add` | zeromq/zeromq4-x-4.0.7/src/trie.cpp:56-133 | the trie is a multiset of topics; true exactly at the step from none to one |
| `Trie.Node.Rm` | zeromq/zeromq4-x-4.0.7/src/trie.cpp:135-251 | one occurrence less, true exactly at the step from one to none; an absent topic changes nothing |
| `Trie.Node.Check` | zeromq/zeromq4-x-4.0.7/src/trie.cpp:253-285 | true if and only if some stored topic is a prefix of the data |
| `Trie.Node.Apply` | zeromq/zeromq4-x-4.0.7/src/trie.cpp:295-329 | visits every stored topic exactly once, in lexicographic order |
| `Topics.IncreasingDistinct` | zeromq/zeromq4-x-4.0.7/src/trie.cpp:323-328 | a list in lexicographic order names no topic twice |
| `PipeArray.Array.PushBack` | zeromq/zeromq4-x-4.0.7/src/array.hpp:104-109 | appended, with back-indices right |
| `PipeArray.Array.Swap` | zeromq/zeromq4-x-4.0.7/src/array.hpp:122-129 | two positions exchanged, with back-indices right, also for equal positions |
| `PipeArray.Array.Erase` | zeromq/zeromq4-x-4.0.7/src/array.hpp:111-120 | the last item takes the place of the erased one, with back-indices right |
| `PipeArray.Array.Index` | zeromq/zeromq4-x-4.0.7/src/array.hpp:136-139 | the stored back-index is the position |
| `Distribution.Dist.Attach` | zeromq/zeromq4-x-4.0.7/src/dist.cpp:39-55 | a pipe attached in the middle of a message is eligible but not active |
| `Distribution.Dist.Match` | zeromq/zeromq4-x-4.0.7/src/dist.cpp:57-70 | an eligible pipe joins the matching group; in the middle of a message one that is not active takes the slot of an active pipe, and the groups stay nested if and only if an active pipe was left unmarked |
| `Distribution.Dist.Unmatch` | zeromq/zeromq4-x-4.0.7/src/dist.cpp:72-75 | no pipe matches |
| `Distribution.Dist.PipeTerminated` | zeromq/zeromq4-x-4.0.7/src/dist.cpp:77-95 | the pipe leaves every group and no other pipe does |
| `Distribution.Dist.Activated` | zeromq/zeromq4-x-4.0.7/src/dist.cpp:97-109 | a passive pipe becomes eligible, and active between messages |
| `Distribution.Dist.Write` | zeromq/zeromq4-x-4.0.7/src/dist.cpp:181-195 | a refusal takes the pipe out of all three groups, by three swaps |
| `Distribution.Dist.Distribute` | zeromq/zeromq4-x-4.0.7/src/dist.cpp:134-174 | ends, and offers the part to each pipe that matched at the start exactly once, despite the swaps; exactly the refusing ones become passive |
| `Distribution.Dist.SendToMatching` | zeromq/zeromq4-x-4.0.7/src/dist.cpp:117-132 | the same, and at the end of a message every eligible pipe is active |
| `Distribution.Dist.ViewNested` | zeromq/zeromq4-x-4.0.7/src/dist.hpp:80-96 | matching, active and eligible pipes are nested, and active is eligible between messages |
| `XPub.XPub.XAttachPipe` | zeromq/zeromq4-x-4.0.7/src/xpub.cpp:39-52 | the pipe joins, with an implicit subscription if asked for, and then every message waiting in it is handled in order, as steps of the publisher runs below |
| `XPub.XPub.XReadActivated` | zeromq/zeromq4-x-4.0.7/src/xpub.cpp:54-83 | every message waiting in the pipe is handled in order, as steps of the publisher runs below |
| `XPub.XPub.ReadOne` | zeromq/zeromq4-x-4.0.7/src/xpub.cpp:58-82 | subscription, unsubscription or user message, with the events queued for the user |
| `XPub.XPub.XPipeTerminated` | zeromq/zeromq4-x-4.0.7/src/xpub.cpp:105-113 | the pipe and its subscriptions are gone, and an unsubscription is queued for each topic it alone had |
| `XPub.XPub.QueueUnsubs` | zeromq/zeromq4-x-4.0.7/src/xpub.cpp:177-191 | an unsubscription is queued for every callback, in order |
| `XPub.XPub.XSend` | zeromq/zeromq4-x-4.0.7/src/xpub.cpp:121-144 | the part is offered to exactly the pipes that the publisher runs say, once each, and those that refuse it are dropped from the message |
| `XPub.XPub.MarkMatching` | zeromq/zeromq4-x-4.0.7/src/xpub.cpp:115-128 | marks exactly the eligible pipes subscribed to a prefix of the part |
| `XPub.XPub.XWriteActivated` | zeromq/zeromq4-x-4.0.7/src/xpub.cpp:85-88 | a pipe that had refused a message is eligible again, but gets no part of the message in progress |
| `XPub.XPub.XSetsockopt` | zeromq/zeromq4-x-4.0.7/src/xpub.cpp:90-103 | accepted if and only if the option is ZMQ_XPUB_VERBOSE with a non-negative int; then duplicate subscriptions are forwarded from now on or not; any other call changes nothing |
| `XPub.XPub.XRecv` | zeromq/zeromq4-x-4.0.7/src/xpub.cpp:151-170 | the oldest queued message with its flags, or none; nothing is lost from the log |
| `Publisher.ForwardedIsExact` | zeromq/zeromq4-x-4.0.7/src/xpub.cpp:54-113 | in every run of an XPUB socket without implicit subscriptions, verbose or not, replaying the forwarded events as set insert and remove gives exactly the topics with a live subscriber |
| `Publisher.ForwardedIsNearlyExact` | zeromq/zeromq4-x-4.0.7/src/xpub.cpp:39-113 | with implicit subscriptions it is right for every topic but the empty one, which may be missing |
| `Publisher.AttachInStep` | zeromq/zeromq4-x-4.0.7/src/xpub.cpp:39-47 | attaching a pipe with an implicit subscription keeps the replay exact if and only if the empty topic had a subscriber before |
| `Publisher.ImplicitSubscriptionIsMissed` | zeromq/zeromq4-x-4.0.7/src/xpub.cpp:46-47 | the smallest run in which the replay misses a subscription |
| `Publisher.NoRepeatedNews` | zeromq/zeromq4-x-4.0.7/src/xpub.cpp:69-74 | a socket that is not verbose forwards a subscription, once, exactly when the replay does not hold it |
| `Publisher.UnsubNews` | zeromq/zeromq4-x-4.0.7/src/xpub.cpp:64-74 | an unsubscription is forwarded, once, exactly if it takes the last subscriber away, or is the needless one below |
| `Publisher.GoneNews` | zeromq/zeromq4-x-4.0.7/src/xpub.cpp:105-113 | when a pipe goes, unsubscriptions are queued for exactly the topics that lose their last subscriber, once each, in order |
| `Publisher.NeedlessNews` | zeromq/zeromq4-x-4.0.7/src/mtrie.cpp:287-298 | an unsubscription from a topic that nobody subscribed to is forwarded if and only if a longer topic has a subscriber, changes no subscription, and leaves the replay exact |
| `PublisherHistory.PresentHistory` | zeromq/zeromq4-x-4.0.7/src/dist.cpp:39-95 | in every run, the distributor holds the pipes that were attached and have not gone since |
| `PublisherHistory.GroupsHistory` | zeromq/zeromq4-x-4.0.7/src/dist.cpp:39-195 | in every run, a pipe is eligible if and only if it was attached or became writable and since then neither went away nor refused a part offered to it; it is active if and only if that was so before the message in progress |
| `PublisherHistory.SubsHistory` | zeromq/zeromq4-x-4.0.7/src/xpub.cpp:39-113 | in every run, a pipe is held for a topic if and only if it subscribed to it, by a message or implicitly, and neither unsubscribed nor went away since |
| `PublisherHistory.FirstPart` | zeromq/zeromq4-x-4.0.7/src/xpub.cpp:121-132 | in every run, told by its events alone: the first part of a message is offered to exactly the pipes that can take messages and are subscribed to a prefix of it |
| `PublisherHistory.UserMessages` | zeromq/zeromq4-x-4.0.7/src/xpub.cpp:76-80 | in every run, the user messages queued are those received, in order |
| `PublisherHistory.VerboseForwardsAll` | zeromq/zeromq4-x-4.0.7/src/xpub.cpp:69-74 | while a socket is verbose, the subscriptions queued are those received, in order, repeats included |
| `PublisherHistory.VerboseHistory` | zeromq/zeromq4-x-4.0.7/src/xpub.cpp:90-103 | in every run, a socket is verbose if and only if it was told to be and not told otherwise since |
| `PublisherHistory.NothingForwarded` | zeromq/zeromq4-x-4.0.7/src/xpub.cpp:69-113 | a socket other than XPUB queues user messages only |
| `Publisher.LaterParts` | zeromq/zeromq4-x-4.0.7/src/xpub.cpp:121-144 | a later part is offered to exactly the pipes that took the first one and since then neither went away nor refused a part, whatever was attached, activated or subscribed in between |
| `Publisher.RunGood` | zeromq/zeromq4-x-4.0.7/src/xpub.cpp:39-144 | every run keeps the groups nested, nothing marked between messages and every subscriber attached |
| `Messages.Store.InitSize` | zeromq/zeromq4-x-4.0.7/src/msg.cpp:49-73 | a short message in the handle, a long one in a new content with one handle that does not claim to share it |
| `Messages.Store.Close` | zeromq/zeromq4-x-4.0.7/src/msg.cpp:115-146 | frees the content exactly when the last handle goes; no other message changes; a closed handle is refused |
| `Messages.Store.Move` | zeromq/zeromq4-x-4.0.7/src/msg.cpp:148-167 | the message changes handles; the content of the target is released |
| `Messages.Store.Copy` | zeromq/zeromq4-x-4.0.7/src/msg.cpp:169-197 | both handles show the bytes; a handle copied to itself ends up closed; every count is right |
| `Messages.Store.AddRefs` | zeromq/zeromq4-x-4.0.7/src/msg.cpp:270-288 | references reserved ahead of the handles that will hold them |
| `Messages.Store.RmRefs` | zeromq/zeromq4-x-4.0.7/src/msg.cpp:290-318 | references given back; false, with the content freed, exactly when none is left; a message that is not shared is closed |
| `Messages.Store.Distribute` | zeromq/zeromq4-x-4.0.7/src/dist.cpp:134-174 | for any pattern of refusals: every accepting pipe has the message, no other message changed, counts are right, and the content is freed exactly when nobody took it and nobody else held it |
| `Messages.SoundMeans` | zeromq/zeromq4-x-4.0.7/src/msg.hpp:90-103 | the invariant kept by all operations: no dangling handle, no content without a handle, each content freed at most once, an unshared one has one handle, the counter of a shared one is its number of handles |
| `Wire.RoundTrip` | zeromq/zeromq4-x-4.0.7/src/wire.hpp:71-94 | 64-bit values are read back as written |
| `Wire.RoundTripBack` | zeromq/zeromq4-x-4.0.7/src/wire.hpp:71-94 | and bytes are written back as read |
| `Wire.PutIsDigits` | zeromq/zeromq4-x-4.0.7/src/wire.hpp:71-81 | the shifts are the big-endian digits of the value |
| `Wire.MostSignificantFirst` | zeromq/zeromq4-x-4.0.7/src/wire.hpp:83-94 | the first byte is the most significant one |
| `Wire.GetIsValue` | zeromq/zeromq4-x-4.0.7/src/wire.hpp:83-94 | the shifts are the big-endian value of the bytes |
| `Decoder.Decoder.constructor` | zeromq/zeromq4-x-4.0.7/src/v2_decoder.cpp:34-44 | starts at the beginning of a frame |
| `Decoder.Decoder.V1SizeReady` | zeromq/zeromq4-x-4.0.7/src/v1_decoder.cpp:52-87 | goes on with the long length, the flags, or fails exactly where the one-shot reader does |
| `Decoder.Decoder.V1LongReady` | zeromq/zeromq4-x-4.0.7/src/v1_decoder.cpp:89-129 | the same for the eight-byte length |
| `Decoder.Decoder.V1FlagsReady` | zeromq/zeromq4-x-4.0.7/src/v1_decoder.cpp:131-140 | takes the more flag and goes on with the body |
| `Decoder.Decoder.V2FlagsReady` | zeromq/zeromq4-x-4.0.7/src/v2_decoder.cpp:52-68 | takes the flags and goes on with the short or the long length |
| `Decoder.Decoder.V2SizeReady` | zeromq/zeromq4-x-4.0.7/src/v2_decoder.cpp:70-96 | goes on with the body or fails exactly where the one-shot reader does |
| `Decoder.Decoder.V2LongReady` | zeromq/zeromq4-x-4.0.7/src/v2_decoder.cpp:98-134 | the same for the eight-byte length |
| `Decoder.Decoder.MessageReady` | zeromq/zeromq4-x-4.0.7/src/v2_decoder.cpp:136-142 | the bytes of the frame seen so far are a complete frame, with this message |
| `Decoder.Decoder.GetBuffer` | zeromq/zeromq4-x-4.0.7/src/decoder.hpp:68-86 | the caller may read straight into the message when at least a buffer of it is missing |
| `Decoder.Decoder.Decode` | zeromq/zeromq4-x-4.0.7/src/decoder.hpp:116-133 | what it returns and how much it takes is what reading the frame in one go says about the bytes seen |
| `Decoder.Decoder.DecodeInPlace` | zeromq/zeromq4-x-4.0.7/src/decoder.hpp:94-114 | the same for bytes that the caller put in place |
| `Engine.Drain` | zeromq/zeromq4-x-4.0.7/src/stream_engine.cpp:232-245 | messages, error and rest of a buffer are those of the one-shot reader |
| `Engine.InEvent` | zeromq/zeromq4-x-4.0.7/src/stream_engine.cpp:189-245 | the same whether a read goes through the buffer or straight into the message |
| `Engine.Receive` | zeromq/zeromq4-x-4.0.7/src/stream_engine.cpp:189-245 | for every stream and every choice of read sizes, the messages, the error and the unfinished frame are those of reading the stream in one go, and what is left over holds no whole frame |
| `Frames.ReadInPieces` | zeromq/zeromq4-x-4.0.7/src/decoder.hpp:94-133 | reading in two pieces is reading the second together with what the first left over |
| `Frames.LimitIgnoresForm` | zeromq/zeromq4-x-4.0.7/src/v2_decoder.cpp:70-115 | a size is accepted or refused alike in its short and in its long form, by the limit alone, in both versions |
| `Frames.FlagMasks` | zeromq/zeromq4-x-4.0.7/src/v2_protocol.hpp:29-35 | more, large and command are the bits 1, 2 and 4 of the flags |
| `Frames.V2HeaderBytes` | zeromq/zeromq4-x-4.0.7/src/v2_encoder.cpp:36-60 | the bytes written for a header of ZMTP 2.0: flag bits, and the size in one byte or, from 256 on, in eight |
| `Frames.V1HeaderBytes` | zeromq/zeromq4-x-4.0.7/src/v1_encoder.cpp:43-65 | the bytes written for a header of ZMTP 1.0: one more than the size, in one byte or as 255 and eight, then the flags |
| `Frames.V2HeaderSays` | zeromq/zeromq4-x-4.0.7/src/v2_decoder.cpp:52-134 | flags and size read from a header of ZMTP 2.0 are those its bytes say |
| `Frames.V1HeaderSays` | zeromq/zeromq4-x-4.0.7/src/v1_decoder.cpp:52-140 | flags and size read from a header of ZMTP 1.0 are those its bytes say |
| `Frames.V2HeaderRefused` | zeromq/zeromq4-x-4.0.7/src/v2_decoder.cpp:52-134 | EMSGSIZE exactly for a size over the user's limit or the machine's, as soon as the size is there, and no other error |
| `Frames.V1HeaderRefused` | zeromq/zeromq4-x-4.0.7/src/v1_decoder.cpp:52-129 | EPROTO exactly for a length of zero, EMSGSIZE exactly for a size over the limits, as soon as the length is there |
| `Frames.HeaderRoundTrip` | zeromq/zeromq4-x-4.0.7/src/v1_encoder.cpp:43-65 | flags and length are read back from the header written for a message, whatever follows |
| `Frames.StreamRoundTrip` | zeromq/zeromq4-x-4.0.7/src/v2_encoder.cpp:36-67 | reading the frames of a list of messages gives the messages, with their flags, up to the first one over the limit, which gives EMSGSIZE |
| `Encoder.Encoder.V1MessageReady` | zeromq/zeromq4-x-4.0.7/src/v1_encoder.cpp:43-65 | the bytes of the header |
| `Encoder.Encoder.V2MessageReady` | zeromq/zeromq4-x-4.0.7/src/v2_encoder.cpp:36-60 | the bytes of the header |
| `Encoder.Encoder.BodyReady` | zeromq/zeromq4-x-4.0.7/src/v2_encoder.cpp:62-67 | the bytes of the body |
| `Encoder.Encoder.LoadMsg` | zeromq/zeromq4-x-4.0.7/src/encoder.hpp:123-128 | what is pending is the frame of the message |
| `Encoder.Encoder.Encode` | zeromq/zeromq4-x-4.0.7/src/encoder.hpp:67-121 | what is handed out, copied or not, and what is still pending make up what was pending; a buffer that is not full means the message is finished; there is progress |
| `Encoder.OutEvent` | zeromq/zeromq4-x-4.0.7/src/stream_engine.cpp:265-290 | a batch is the next bytes of the frames, messages are loaded only into a free encoder, and each load gives bytes at once |
| `Encoder.Transmit` | zeromq/zeromq4-x-4.0.7/src/stream_engine.cpp:258-315 | the batches together are exactly the frames of the messages |
| `Link.Carry` | zeromq/zeromq4-x-4.0.7/src/stream_engine.cpp:189-315 | sender and receiver together, with any buffer sizes and read sizes: every message arrives with its flags and bytes, in order, up to the first over the receiver's limit |
| `Metadata.ParseMetadata` | zeromq/zeromq4-x-4.0.7/src/mechanism.cpp:75-124 | the loop computes the recursive reading of a list of properties |
| `Metadata.PropertyBytes` | zeromq/zeromq4-x-4.0.7/src/mechanism.cpp:59-73 | the bytes written for a property with a name and a value of one byte each |
| `Metadata.AcceptedIsSuccess` | zeromq/zeromq4-x-4.0.7/src/mechanism.cpp:59-124 | a list written by add_property is read back as written; so is one with a last property broken off after its name or after its length |
| `Metadata.SuccessIsAccepted` | zeromq/zeromq4-x-4.0.7/src/mechanism.cpp:75-124 | those are the only inputs on which parsing succeeds |
| `RoundRobin.Fairness` | zeromq/zeromq4-x-4.0.7/src/fq.cpp:71-113 | over runs with pipes attached, activated and going, the current one included: a pipe that stays ready is passed over by at most as many complete messages of others as there are pipes before it, fewer than there are active pipes, and one more for each pipe that joins |
| `RoundRobin.DeactivateWait` | zeromq/zeromq4-x-4.0.7/src/fq.cpp:101-104 | skipping a pipe never makes another one wait longer, although the last active pipe jumps the queue |
| `RoundRobin.CurrentGone` | zeromq/zeromq4-x-4.0.7/src/fq.cpp:44-57 | when the current pipe goes, the pipe that was last active is served next, or the first one if the current pipe was the last |
| `RoundRobin.GoneWait` | zeromq/zeromq4-x-4.0.7/src/fq.cpp:44-57 | a pipe that goes lengthens another's wait if and only if that one was last active and the one that goes sat strictly between the first slot and the current one |
| `RoundRobin.JoinedWait` | zeromq/zeromq4-x-4.0.7/src/fq.cpp:37-64 | a pipe that joins lengthens another's wait by one at most |
| `RoundRobin.SettleFinds` | zeromq/zeromq4-x-4.0.7/src/fq.cpp:78-105 | nothing is served if and only if no active pipe is ready |
| `RoundRobin.PartsTogether` | zeromq/zeromq4-x-4.0.7/src/fq.cpp:37-113 | over whole runs: from the first part of a message to its last, every part comes from the same pipe, whatever pipes are attached, activated or, outside the case of `HeadIsLost`, go in between |
| `RoundRobin.HeadAfterLeft` | zeromq/zeromq4-x-4.0.7/src/fq.cpp:44-57 | when another pipe goes, the current one stays current if and only if it is not the last active one, or the first slot is the one vacated |
| `RoundRobin.HeadIsLost` | zeromq/zeromq4-x-4.0.7/src/lb.cpp:55-60 | a run from the empty ring: three pipes are attached, two messages are served, and when the second pipe goes in the middle of a message from the third, the next part is taken from the first |
| `FairQueue.Fq.RecvPipe` | zeromq/zeromq4-x-4.0.7/src/fq.cpp:71-113 | serves the first ready pipe of the round robin and moves on at the end of a message; its assertion holds if announced parts are there |
| `FairQueue.Fq.HasIn` | zeromq/zeromq4-x-4.0.7/src/fq.cpp:115-137 | true if and only if a message is unfinished or an active pipe is ready |
| `FairQueue.Fq.Attach` | zeromq/zeromq4-x-4.0.7/src/fq.cpp:37-42 | the pipe becomes the last active one |
| `FairQueue.Fq.Activated` | zeromq/zeromq4-x-4.0.7/src/fq.cpp:59-64 | the pipe becomes the last active one |
| `FairQueue.Fq.PipeTerminated` | zeromq/zeromq4-x-4.0.7/src/fq.cpp:44-57 | the pipe leaves the array, the other active ones stay |
| `LoadBalancer.Lb.SendPipe` | zeromq/zeromq4-x-4.0.7/src/lb.cpp:76-127 | serves the first writable pipe of the round robin, or drops the rest of a message whose pipe has gone |
| `LoadBalancer.Lb.HasOut` | zeromq/zeromq4-x-4.0.7/src/lb.cpp:129-150 | true if and only if a message is unfinished or an active pipe is writable |
| `LoadBalancer.Lb.Attach` | zeromq/zeromq4-x-4.0.7/src/lb.cpp:38-42 | the pipe becomes the last active one |
| `LoadBalancer.Lb.Activated` | zeromq/zeromq4-x-4.0.7/src/lb.cpp:64-69 | the pipe becomes the last active one |
| `LoadBalancer.Lb.PipeTerminated` | zeromq/zeromq4-x-4.0.7/src/lb.cpp:44-62 | the pipe leaves the array; the rest of a message begun on it will be dropped |
| `Mailbox.RunInv` | zeromq/zeromq4-x-4.0.7/src/mailbox.cpp:48-84 | the invariant of the mailbox and its lock-free queue under every interleaving of atomic operations |
| `Mailbox.WokenReads` | zeromq/zeromq4-x-4.0.7/src/mailbox.cpp:58-84 | the read after a successful wait finds a command, and taking back a signal never blocks |
| `Mailbox.NoLostWakeUp` | zeromq/zeromq4-x-4.0.7/src/mailbox.cpp:48-56 | a sleeping receiver with a command in the queue has a signal pending, or a sender about to send one |
| `Mailbox.WrittenIsReceived` | zeromq/zeromq4-x-4.0.7/src/mailbox.cpp:58-84 | between two sends, a receiver that is not asleep gets the next command written, if there is one |
| `Mailbox.SignalsBounded` | zeromq/zeromq4-x-4.0.7/src/mailbox.cpp:61-69 | more than one signal only between a failed read and signaler.recv, and never more than two |
| `Mailbox.ReceivedInOrder` | zeromq/zeromq4-x-4.0.7/src/ypipe.hpp:128-164 | commands are received in the order written, and only when flushed |
| `Mailbox.SwapFailsOnlyAsleep` | zeromq/zeromq4-x-4.0.7/src/ypipe.hpp:102-125 | the compare-and-swap of flush fails if and only if the reader sleeps |
| `Reaper.ShutdownIsSafe` | zeromq/zeromq4-x-4.0.7/src/reaper.cpp:96-127 | in every run the reaper is stopped at most once and done at most once, and when it is done every socket was destroyed, every reaped command processed, and nothing is left on the way to it |
| `Reaper.ContextIsEmpty` | zeromq/zeromq4-x-4.0.7/src/ctx.cpp:150-159 | the list of sockets is empty when terminate receives done |
| `Reaper.SlotsConserved` | zeromq/zeromq4-x-4.0.7/src/ctx.cpp:281-327 | a slot is free, and then once, or belongs to a socket of the context, and then to one |
| `Reaper.SocketCreated` | zeromq/zeromq4-x-4.0.7/src/ctx.cpp:232-307 | in every run, a context that is not terminating creates a socket of a known type if and only if it has fewer than the maximum, with a new number, and leaves the others their slots |
| `Reaper.RunInv` | zeromq/zeromq4-x-4.0.7/src/socket_base.cpp:1031-1048 | the invariant behind these: the reaper's count is that of the sockets being reaped and those whose end it has not taken note of |
| `Context.Context.CreateSocket` | zeromq/zeromq4-x-4.0.7/src/ctx.cpp:232-307 | a slot of its own for a new socket; none once terminating, when slots ran out, or for an unknown type, which gives the slot back; the first call fills the list of slots |
| `Context.Context.DestroySocket` | zeromq/zeromq4-x-4.0.7/src/ctx.cpp:309-327 | the slot is free again, and the reaper is told to stop exactly for the last socket of a terminating context |
| `Context.Context.BeginTerminating` | zeromq/zeromq4-x-4.0.7/src/ctx.cpp:132-147 | at the first call every socket is told to stop, once each, and the reaper is exactly if there are none; a repeated call tells nobody |
| `Context.ReaperThread.ProcessStop` | zeromq/zeromq4-x-4.0.7/src/reaper.cpp:96-106 | done is sent exactly when no socket is counted |
| `Context.ReaperThread.ProcessReap` | zeromq/zeromq4-x-4.0.7/src/reaper.cpp:108-114 | the socket is counted, even if it is gone by then |
| `Context.ReaperThread.ProcessReaped` | zeromq/zeromq4-x-4.0.7/src/reaper.cpp:116-127 | done is sent exactly at the last socket of a stopping reaper |

## Left out

- The C API, the `zmq/` wrapper, sockets other than XPUB, sessions, pollers, TCP, IPC and PGM transports, address resolution, monitor events and the option switches: operating-system calls or flat code.
- CURVE, PLAIN and NULL mechanisms beyond the metadata list: they depend on libsodium or are linear exchanges.
- Conflated pipes, `set_hwms` during a run and wrap-around of counters.
- Allocation failure: `alloc_assert` aborts, and the decoders' `ENOMEM` path is not modelled.
- Handlers of one pipe end, of one object and of the context under its lock are single steps; only the mailbox, the queue below it and the reaper's `destroy_socket` followed by `send_reaped` are split further. Memory ordering weaker than sequential consistency and reuse of addresses in the compare-and-swap of `ypipe_t` are not modelled.
- `yqueue_t` and its chunk recycling: the queue is a sequence, and positions in it are numbered for ever.
- Every object of the ownership tree has an inbox of its own; in the source the objects of a thread share a mailbox, which allows fewer interleavings. A `term_req` that comes before its `own` is ignored by the code (own.cpp:95-100), and so in the model.
- PipeFlow.HighWatermarkHolds: for runs without hiccup, because `process_hiccup` takes back counts of messages that were never counted; the same for the other members of `PipeFlow` and for those of `PipeDelivery` about writing and reading.
- Messages.Store.Distribute: one loop is proved for the three kinds of message in three members; `init_data` with a free function is the same content with another deallocator.
- RoundRobin.Fairness: for runs in which no pipe goes that makes the waiting one wait longer; `GoneWait` gives the exact condition.
- MTrie.Node.RmTopic: requires what the assertion at mtrie.cpp:292 demands, that a pipe which unsubscribes from a topic with subscribers is one of them.
- PublisherHistory.FirstPart: for legal runs; that a pipe becomes writable only after it refused a message is the guarantee of `pipe_t` (pipe.cpp:226-235), and which subscriptions are waiting in a pipe is a parameter.
- Encoder.Encoder.Encode: the bytes are values; that the caller has sent a batch before the encoder overwrites the buffer it points into is not modelled.
- Termination of a context with pending inproc connections (ctx.cpp:108-114), and what a socket does on `stop`, which only interrupts blocking calls; that each is sent one is modelled.
- The destructors of the tries, and `pipes` of a node as an ordered set: the order of signals within one node is left open.
