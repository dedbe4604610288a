# Verified models of the cwipc queues, pipelines and buffers

This project models the concurrent and stateful core of the cwipc point cloud suite and proves what
that code is relied on for:

- **The lock-free queue and its semaphore** (`cwipc_codec`). `BlockRing` is a circle of circular
  buffers as plain values. `SpscQueue` runs one producer and one consumer as a step machine, one
  access to shared memory a step, in every interleaving. `ReaderWriterQueue` is the same queue as
  the objects and arrays that the code updates in place, for one thread at a time, with
  `RingCapacity` (how much fits) and `BitTricks` (the 64-bit masking and rounding) below it.
  `Semaphore` is the lightweight semaphore with its timeout repair loop, and `BlockingQueue`
  composes the two machines; `SpscCapacity` is the capacity guarantee against a running consumer.
  `SpscCalls`, `SemaphoreCalls` and `BlockingCalls` say what whole calls do, and `BlockingProgress`
  when they come back.
- **The threaded encoder** (`cwipc_codec`). `EncoderPipeline` is one encoder with its two worker
  threads, its result slot and its closing protocol, `EncoderCalls` what its calls do; `RoundRobin`
  deals clouds out to n of them, and `RoundRobinProgress` says when another result can be copied.
- **Capturing** (`cwipc_kinect`). `CaptureHandover` is the hand-over between the control thread, the
  cameras' processing threads and the consumers, `CaptureProgress` and `CaptureRequests` say when it
  goes on and what a request leads to, and `PlaybackSync` is the synchronisation of recordings.
- **Depth erosion** (`cwipc_realsense2`): `DepthErosion`.
- **Point clouds** (`cwipc_util`): `PacketFormat` is the byte format, `PointCloud` the two
  representations and the allocation counters as values, `CloudObjects` the objects themselves, and
  `CloudLibrary` the exported functions over all objects that share the counters.

The concurrent parts are state machines: a `Run` is a sequence of states joined by actions of any
thread in any order, and a theorem speaks of every state of every run. A thread waiting for a
condition is a step that is not enabled. State fields that a comment calls history variables record
what happened and are read by no step. Code that one thread runs over its own objects is written as
classes and methods, each proved equal to a function on values, about which the properties are
proved.

Where a name or a comment and the code differ the models follow the code: the playback search "no
earlier than" a timestamp takes a strictly later frame (`cwipc_kinect/src/K4APlaybackCamera.cpp:117`,
`:129`), and waiting for a camera's point cloud does not always end with a valid one
(`cwipc_kinect/src/K4ABaseCamera.hpp:194-200`). A camera's thread that makes no cloud of its frameset
never raises its done flag; nor does one that is given a null frameset, which a successful capture
leaves to a second camera with the sync master's serial (`PlaybackSync.TwoMasters`). With the
assertion at `cwipc_kinect/src/K4ABaseCamera.hpp:185` compiled out, as modelled here, both end the
session (`CaptureProgress.StallHappens`, `NullFramesetStalls`), and `CaptureProgress.WaitEndsIff` and
`CyclePublishesIff` say that these are the only ways: the wait can end, and the cycle publish, if and
only if every dispatch passed a frameset on and no camera's thread has failed since. A queue asked
for 2^63 elements or more gets one block without room for any (`ReaderWriterQueue.InitialBlocks`), and
a packet of 2^31 points or more is written short (`PointCloud.CopiedAll`).

## Model

| member | source | states |
|---|---|---|
| `SpscQueue.Fifo` | cwipc_codec/src/readerwriterqueue.h:286-377 | in every interleaving the values dequeued are a prefix of the values enqueued, and the rest are the segments of the blocks from the front block to the tail block |
| `SpscQueue.StepRefinesQueue` | cwipc_codec/src/readerwriterqueue.h:544-645 | every step of either thread is one atomic enqueue, one atomic dequeue of the oldest value, or nothing |
| `SpscQueue.AssertionsHold` | cwipc_codec/src/readerwriterqueue.h:573-603 | the producer never reuses a block that still holds elements and the consumer never moves on to an empty block (the asserts at 352, 417, 468 and 589) |
| `SpscQueue.NothingMeansEmpty` | cwipc_codec/src/readerwriterqueue.h:309-374 | a dequeue or peek that reports nothing read the front block's tail at a moment of its own call when the whole queue was empty |
| `SpscCalls.EnqueueOutcome` | cwipc_codec/src/readerwriterqueue.h:552-645 | of every call, in every interleaving: it is refused exactly when it found the next block to be the front block and was not allowed to allocate or got no memory; it appends its value, and nothing else, exactly when it is not refused; and it adds a block, of twice the largest size up to the maximum, exactly when it succeeds after finding the next block to be the front block |
| `SpscCalls.DequeueOutcome` | cwipc_codec/src/readerwriterqueue.h:286-425 | a dequeue removes what it returns and nothing else, and that is the value enqueued after all those removed before; a peek removes nothing |
| `SpscQueue.RefusedSawFull` | cwipc_codec/src/readerwriterqueue.h:552-630 | a refused enqueue, running against a consumer, read the tail block's front at a moment of its own call when that block was full, so the queue was not empty then, and was refused because it then was not allowed to allocate or found no memory |
| `SpscCapacity.RefusedSawEnough` | cwipc_codec/src/readerwriterqueue.h:552-637 | a queue built for `size` elements refuses an enqueue, in any interleaving and after any growth, only when it held at least `size` at some moment of the call |
| `SpscCapacity.BuiltWide` | cwipc_codec/src/readerwriterqueue.h:116-151 | what the constructor reserves is enough for that |
| `SpscQueue.PeekIsOldest` | cwipc_codec/src/readerwriterqueue.h:385-425 | what a finished peek points at is the value the next dequeue takes, whatever the producer does meanwhile |
| `SpscQueue.WaitFree` | cwipc_codec/src/readerwriterqueue.h:286-645 | neither thread waits for the other: its next step is always possible, and at most 13 of its own steps end the operation |
| `SpscQueue.CanBegin` | cwipc_codec/src/readerwriterqueue.h:235-286 | a thread outside an operation can begin one, whatever the other thread does |
| `SpscQueue.NextInv` | cwipc_codec/src/readerwriterqueue.h:286-645 | the ring invariant holds after every step: full blocks strictly between front and tail, empty ones outside, safe stale copies, and what each thread's registers still say |
| `SpscQueue.ProducerStable` | cwipc_codec/src/readerwriterqueue.h:552-624 | what the producer knows survives every step of the consumer |
| `SpscQueue.ConsumerStable` | cwipc_codec/src/readerwriterqueue.h:286-370 | what the consumer knows survives every step of the producer |
| `Semaphore.CounterAtLeastMinusOne` | cwipc_codec/src/atomicops.h:654-663 | the signaller's assertion: the counter never falls below -1 |
| `Semaphore.TokensConserved` | cwipc_codec/src/atomicops.h:585-663 | tokens granted are successful waits plus tokens available; no timeout loses or invents one |
| `Semaphore.AtMostOnePost` | cwipc_codec/src/atomicops.h:605-630 | the kernel count plus a post in flight is at most 1, and 0 while the waiter is outside the kernel phase |
| `Semaphore.FailureMeansNoToken` | cwipc_codec/src/atomicops.h:617-651 | a wait fails only at a moment at which no token is there |
| `Semaphore.NoLostWakeup` | cwipc_codec/src/atomicops.h:605-613 | a waiter in the kernel has a post coming exactly when a token was granted that nobody took |
| `Semaphore.RepairWaitsForPost` | cwipc_codec/src/atomicops.h:619-630 | in the repair loop a granted token is untaken; its post is there exactly when the signaller is not about to make it, and then two steps end the loop with the token |
| `SemaphoreCalls.WaitEndsIff` | cwipc_codec/src/atomicops.h:585-648 | from any moment of any run at which no post is under way, a wait ends within a bounded number of its own steps, two for `tryWait`, and with a token if and only if one is to be had |
| `SemaphoreCalls.TimeoutRepaired` | cwipc_codec/src/atomicops.h:605-630 | a sleeping wait can time out at any moment, and unless a post is under way three more steps bring it back, with the token if one had been granted that nobody took |
| `SemaphoreCalls.WaitOutcome` | cwipc_codec/src/atomicops.h:585-651 | a wait takes one token when it succeeds and none when it fails; `tryWait` neither spins nor sleeps, and a wait without time to wait does not sleep |
| `SemaphoreCalls.SignalOutcome` | cwipc_codec/src/atomicops.h:654-663 | `signal(n)` grants n tokens |
| `BlockingQueue.CreditedDequeueSucceeds` | cwipc_codec/src/readerwriterqueue.h:862-904 | after each successful semaphore wait the inner dequeue succeeds, with the next value in order |
| `BlockingQueue.WaitDequeueDelivers` | cwipc_codec/src/readerwriterqueue.h:862-904 | an untimed wait returns with an element, and the element that any dequeue returns is the last one removed, the next in order |
| `BlockingCalls.DequeueOutcome` | cwipc_codec/src/readerwriterqueue.h:862-904 | of every call: it returns the element it has taken out and takes out nothing else; it comes back empty-handed exactly when its last wait failed, which an untimed one never does |
| `BlockingCalls.ReturnedInOrder` | cwipc_codec/src/readerwriterqueue.h:862-904 | what the calls of a run return, in order, is what was enqueued, every value once and none skipped, but for one taken out and about to be returned |
| `BlockingCalls.EnqueueOutcome` | cwipc_codec/src/readerwriterqueue.h:785-842 | what an enqueue reports is whether its value is in the queue; it reports a failure exactly when it found the next block to be the front block and was not allowed to allocate or got no memory |
| `BlockingCalls.SleepsAsAsked` | cwipc_codec/src/readerwriterqueue.h:862-904 | `try_dequeue` neither spins nor sleeps, a timed wait sleeps with its own timeout, and not at all when that is zero |
| `BlockingProgress.ComesBackIff` | cwipc_codec/src/readerwriterqueue.h:862-930 | while no enqueue is under way, the consumer's call can come back by its own steps if and only if it is not an untimed wait at an empty queue |
| `BlockingProgress.CanEnqueue` | cwipc_codec/src/readerwriterqueue.h:785-842 | from every state of every run, given memory, the producer can enqueue any value by its own steps |
| `BlockingProgress.CanBegin` | cwipc_codec/src/readerwriterqueue.h:862-930 | a consumer at rest can begin any operation |
| `BlockingQueue.PeekIsOldest` | cwipc_codec/src/readerwriterqueue.h:921-930 | what a finished peek reports is the element the next dequeue removes |
| `BlockingQueue.TokensCountElements` | cwipc_codec/src/readerwriterqueue.h:785-842 | the elements held are the free tokens, a token just taken, and an element whose signal is due |
| `BlockingQueue.GivesUpOnlyWhenEmpty` | cwipc_codec/src/readerwriterqueue.h:894-904 | a timed or non-waiting dequeue gives up only when the queue holds nothing but an element not signalled yet |
| `BlockingQueue.SizeApproxExact` | cwipc_codec/src/readerwriterqueue.h:946-951 | `size_approx` is the length when neither thread is inside an operation |
| `BlockRing.ContentsAdvanceFront` | cwipc_codec/src/readerwriterqueue.h:340-358 | leaving an empty front block loses nothing |
| `BlockRing.ContentsEmpty` | cwipc_codec/src/readerwriterqueue.h:309-332 | the queue is empty exactly when both threads are at the same, empty block |
| `ReaderWriterQueue.Queue.constructor` | cwipc_codec/src/readerwriterqueue.h:105-162 | an empty working queue for `size` elements if and only if `size` is below 2^63: one block, or enough maximal blocks with a spare one, all with power-of-two sizes; from 2^63 on one block of no size |
| `ReaderWriterQueue.InitialBlocks` | cwipc_codec/src/readerwriterqueue.h:116-128 | in 64-bit arithmetic, one block of the least size that fits, or, from twice the maximal block size on, as few maximal blocks as fit `size` even when one of them takes nothing; the block size is 0 exactly from 2^63 on, and there is no block exactly when the doubled maximum wraps around and `size` is at least 3 |
| `ReaderWriterQueue.Queue.InnerEnqueue` | cwipc_codec/src/readerwriterqueue.h:536-645 | appends the element, or refuses exactly when no slot is free and no block can be had, and then at least `size` elements are held; a new block, of the next size, is added exactly when no slot is free; every block keeps a power-of-two size |
| `ReaderWriterQueue.Queue.EnqueueBeyond` | cwipc_codec/src/readerwriterqueue.h:571-637 | the same for an enqueue that finds the tail block full: next block, new block, or refusal |
| `ReaderWriterQueue.Queue.NewBlockSize` | cwipc_codec/src/readerwriterqueue.h:606-612 | blocks grow by doubling and stay powers of two |
| `ReaderWriterQueue.Queue.TryDequeue` | cwipc_codec/src/readerwriterqueue.h:286-377 | removes and returns the oldest element, or nothing exactly when the queue is empty |
| `ReaderWriterQueue.Queue.Pop` | cwipc_codec/src/readerwriterqueue.h:427-490 | removes the oldest element if there is one |
| `ReaderWriterQueue.Queue.Peek` | cwipc_codec/src/readerwriterqueue.h:385-425 | the element `TryDequeue` would remove, leaving the queue as it is |
| `ReaderWriterQueue.Queue.SizeApprox` | cwipc_codec/src/readerwriterqueue.h:494-507 | walking the circle counts exactly the elements held |
| `ReaderWriterQueue.Queue.MaxCapacity` | cwipc_codec/src/readerwriterqueue.h:518-528 | the slots of all blocks, at least `size` |
| `ReaderWriterQueue.FillFromEmpty` | cwipc_codec/src/readerwriterqueue.h:518-528 | from any empty state exactly `max_capacity()` calls of `try_enqueue` in a row succeed |
| `RingCapacity.RefusedIffNoSlot` | cwipc_codec/src/readerwriterqueue.h:571-637 | no slot is free exactly when the tail block is full and the next one is the front block |
| `RingCapacity.RefusalMeansEnough` | cwipc_codec/src/readerwriterqueue.h:117-124 | a ring built for `size` that refuses holds at least `size` elements, also after growth |
| `BitTricks.CeilToPow2` | cwipc_codec/src/readerwriterqueue.h:655-667 | on 64-bit words, the least power of two that is at least x for 1 <= x <= 2^63, and 0 otherwise |
| `BitTricks.SmearStep` | cwipc_codec/src/readerwriterqueue.h:659-664 | each shift-and-or doubles the number of leading ones |
| `BitTricks.MaskIncrements` | cwipc_codec/src/readerwriterqueue.h:557 | `(i + 1) & sizeMask` is the next index of the block |
| `BitTricks.MaskCounts` | cwipc_codec/src/readerwriterqueue.h:494-507 | `(tail - front) & sizeMask` counts the elements, wrapped around or not |
| `EncoderPipeline.CollectedInOrder` | cwipc_codec/src/cwipc_codec.cpp:201-215 | what `copy_data` returns are encodings of fed clouds, strictly in feeding order, each cloud at most once, for every interleaving and every failure |
| `EncoderPipeline.NothingLostBeforeTheSlot` | cwipc_codec/src/cwipc_codec.cpp:247-337 | clouds past the filter followed by clouds before it are the clouds fed; only a failing stage drops the cloud it holds, and that ends it |
| `EncoderCalls.FeedOutcome` | cwipc_codec/src/cwipc_codec.cpp:166-174 | a feed puts its own cloud, and nothing else, in line, unless it saw the encoder closed or failed |
| `EncoderCalls.ClosedTakesNothing` | cwipc_codec/src/cwipc_codec.cpp:166-171 | once the flag is down and no feed is past its check, no further cloud is taken |
| `EncoderCalls.CollectOutcome` | cwipc_codec/src/cwipc_codec.cpp:201-215 | with a buffer that is too small, or nothing in the slot, `copy_data` changes nothing; otherwise it empties the slot and hands out the encoding of the last cloud stored |
| `EncoderCalls.NeverWaits` | cwipc_codec/src/cwipc_codec.cpp:166-215 | neither `feed` nor `copy_data` ever waits |
| `EncoderPipeline.NoSleepAfterClose` | cwipc_codec/src/cwipc_codec.cpp:82-101 | once both null wake-ups were tried, each worker has ended or can take its next step |
| `EncoderPipeline.WorkersEnd` | cwipc_codec/src/cwipc_codec.cpp:103-144 | once the flag is down both workers together make at most ten more steps |
| `EncoderPipeline.CloseReturns` | cwipc_codec/src/cwipc_codec.cpp:86-100 | so the joins of `close` open |
| `EncoderCalls.WokenStops` | cwipc_codec/src/cwipc_codec.cpp:247-285 | a worker that takes a null wake-up stops, and none is woken before the flag is down |
| `EncoderCalls.CloseCanReturn` | cwipc_codec/src/cwipc_codec.cpp:82-101 | from every state of every run `close` can return, by the workers' and its own steps, even if every stage fails and wake-ups are refused wherever they can be |
| `EncoderPipeline.EncoderFollowsTile` | cwipc_codec/src/cwipc_codec.cpp:128-143 | a tile filter thread that ends leaves an encoder thread that ends or is awake |
| `RoundRobin.CopiesInOrder` | cwipc_codec/src/cwipc_codec.cpp:392-449 | the k-th copy returns the encoding of the k-th cloud fed, made by the encoder whose turn it was after the clouds dealt to it before |
| `RoundRobin.CopySucceeds` | cwipc_codec/src/cwipc_codec.cpp:438-449 | a copy made after `available` with a buffer of the announced size always succeeds |
| `RoundRobin.NeverOverwritten` | cwipc_codec/src/cwipc_codec.cpp:317-334 | an encoder thread always finds the result slot empty |
| `RoundRobin.NeverStuck` | cwipc_codec/src/cwipc_codec.cpp:392-406 | while a cloud is outstanding the next encoder has its result ready or a worker that can step |
| `RoundRobinProgress.AvailableReports` | cwipc_codec/src/cwipc_codec.cpp:408-436 | `available` reports a result exactly when the slot of the next encoder holds one, and that, with the size announced, is the encoding of the next cloud in order |
| `RoundRobinProgress.CopyComesIff` | cwipc_codec/src/cwipc_codec.cpp:392-449 | from every state of every run: without a further feed, some continuation copies another result if and only if a cloud is outstanding or being fed |
| `RoundRobinProgress.FeedIff` | cwipc_codec/src/cwipc_codec.cpp:392-396 | a feed can begin exactly when none is under way and fewer than n clouds are outstanding |
| `RoundRobinProgress.FeedOutcome` | cwipc_codec/src/cwipc_codec.cpp:392-396 | a feed hands over its own cloud and nothing else |
| `RoundRobin.Outstanding` | cwipc_codec/src/cwipc_codec.cpp:392-396 | every encoder has at most one cloud outstanding; the one fed next has none when there is room, and the one read next has one when any is outstanding |
| `CaptureHandover.FlagsExclude` | cwipc_kinect/src/K4ABaseCapture.hpp:640-659 | `want_new` and `fresh` are never both true, and a fresh cloud is there |
| `CaptureHandover.HandedOverOnce` | cwipc_kinect/src/K4ABaseCapture.hpp:272-301 | clouds completed are clouds delivered, in order, plus the fresh one; none is completed or delivered twice |
| `CaptureHandover.NothingOverwritten` | cwipc_kinect/src/K4ABaseCapture.hpp:609-617 | the control thread finds no merged cloud when it stores the next one |
| `CaptureHandover.RequestNeverLost` | cwipc_kinect/src/K4ABaseCapture.hpp:272-301 | a waiting consumer's request is posted or answered, or another consumer has its trailing request still to make |
| `CaptureProgress.WaitingConsumer` | cwipc_kinect/src/K4ABaseCapture.hpp:272-301 | a waiting consumer can take a fresh cloud, or another's trailing request can be made, or the control thread has the request and can go on or awaits a camera at work, unless no cloud will come of a camera or the control thread has stopped and a camera has met the end of its stream |
| `CaptureProgress.StoppedAtEnd` | cwipc_kinect/src/K4ABaseCapture.hpp:551-563 | the control thread stops of its own accord only when some camera has met the end of its stream |
| `CaptureRequests.RequestPublishesIff` | cwipc_kinect/src/K4ABaseCapture.hpp:540-648 | with any number of cameras, some continuation of a posted request publishes a cloud if and only if no camera has met the end of its stream |
| `CaptureRequests.WaitingServedIff` | cwipc_kinect/src/K4ABaseCapture.hpp:272-301 | and a consumer waiting on that request can be served if and only if that is so |
| `CaptureRequests.EndOfStreamEnds` | cwipc_kinect/src/K4ABaseCapture.hpp:551-577 | a capture that meets the end of a stream is the last one |
| `CaptureRequests.CallsRequest` | cwipc_kinect/src/K4ABaseCapture.hpp:650-659 | both calls of a consumer leave a request posted or a cloud fresh |
| `CaptureRequests.ConsumerProceeds` | cwipc_kinect/src/K4ABaseCapture.hpp:254-301 | a consumer can begin either call, and go on in it whenever the mutex is free, except that `get_pointcloud` waits for a fresh cloud |
| `CaptureProgress.EndedStreamStarves` | cwipc_kinect/src/K4ABaseCapture.hpp:551-563 | once the control thread has seen the end of a stream, a waiting consumer waits until `stop` |
| `CaptureHandover.NoFrameDropped` | cwipc_kinect/src/K4ABaseCamera.hpp:184-194 | what is put into the one-slot queue is what the camera captured, the queue is empty at every `try_enqueue`, and the camera gives the frameset up |
| `CaptureHandover.CloudsOfTheirCycle` | cwipc_kinect/src/K4ABaseCapture.hpp:599-645 | delivered cloud k is the in-order concatenation of what every camera made of its frameset of cycle k, and every camera had one |
| `CaptureHandover.CapturedUsedOnce` | cwipc_kinect/src/K4ABaseCapture.hpp:571-645 | every successful capture goes into exactly one cloud, in order |
| `CaptureRequests.CloudsOfCaptures` | cwipc_kinect/src/K4ABaseCapture.hpp:571-645 | delivered cloud k is made of the framesets that the k-th successful capture gave |
| `CaptureRequests.EndedThreadLeaves` | cwipc_kinect/src/K4ABaseCamera.hpp:443-450 | at the end of its stream a camera's thread takes at most two more steps |
| `CaptureRequests.NullFramesetLeaves` | cwipc_kinect/src/K4ABaseCamera.hpp:456-459 | a thread that takes a null frameset leaves for good |
| `CaptureProgress.ControlHeldUp` | cwipc_kinect/src/K4ABaseCapture.hpp:540-648 | the control thread is held up only by a missing request, by a camera that has this cycle's frameset in its slot or in work, or by one of which no cloud will come |
| `CaptureProgress.WaitEnds` | cwipc_kinect/src/K4ABaseCapture.hpp:625-628 | from a wait for a camera of which a cloud can come, at most two steps of that camera's thread let the control thread go on |
| `CaptureProgress.WaitEndsIff` | cwipc_kinect/src/K4ABaseCamera.hpp:184-200 | some continuation of the run ends the wait if and only if this cycle's dispatch gave the camera a frameset and its thread has not failed since |
| `CaptureProgress.CyclePublishesIff` | cwipc_kinect/src/K4ABaseCapture.hpp:599-645 | once all cameras are dispatched, some continuation publishes the cycle's cloud if and only if every camera was given a frameset and no camera's thread has failed since |
| `CaptureProgress.BarrenIff` | cwipc_kinect/src/K4ABaseCamera.hpp:448-500 | no cloud comes of a dispatch exactly when it passed a null frameset on or the camera's thread has failed since |
| `CaptureProgress.StallHappens` | cwipc_kinect/src/K4ABaseCamera.hpp:484-500 | a run from the start, with one camera and one consumer, in which the first frameset fails |
| `CaptureProgress.NullFramesetStalls` | cwipc_kinect/src/K4ABaseCamera.hpp:456-459 | another, in which a successful capture left the camera without a frameset |
| `CaptureProgress.PlaybackFits` | cwipc_kinect/src/K4APlaybackCapture.cpp:142-177 | a capture of recordings is one of the captures of the hand-over; a successful one gives every camera a frameset if and only if no camera but the reference is a sync master |
| `CaptureProgress.BarrenStalls` | cwipc_kinect/src/K4ABaseCapture.hpp:609-628 | a camera of whose dispatch no cloud comes ends the session: nothing more is completed or delivered, and waiting consumers keep waiting |
| `CaptureHandover.MergedCloud.Merge` | cwipc_kinect/src/K4ABaseCapture.hpp:661-693 | clears the cloud and appends the cameras' points in order; the size is the one reserved |
| `PlaybackSync.Synchronised` | cwipc_kinect/src/K4APlaybackCapture.cpp:142-177 | after a successful capture the reference has taken its next good frame and every other non-master camera holds a strictly later one: the frame it held, or else the first such frame in the rest of its recording |
| `PlaybackSync.WaitMeaning` | cwipc_kinect/src/K4APlaybackCamera.cpp:22-39 | exactly when a camera keeps its frame, takes the first wanted one, or has none, and where it then stands in its recording |
| `PlaybackSync.NextValidMeaning` | cwipc_kinect/src/K4APlaybackCamera.cpp:57-113 | the next valid frame is the first good one; failing, the camera has read past a failed read or to the end of the recording, which alone raises the end flag |
| `PlaybackSync.SearchLaterMeaning` | cwipc_kinect/src/K4APlaybackCamera.cpp:124-138 | the search finds the first later frame, and fails exactly when the recording ends or fails before one, where it then stands |
| `PlaybackSync.CaptureSucceeds` | cwipc_kinect/src/K4APlaybackCapture.cpp:142-177 | a capture succeeds if and only if the reference has a next good frame and every other non-master camera has a frame later than that one, held or still to come |
| `PlaybackSync.OthersSucceed` | cwipc_kinect/src/K4APlaybackCapture.cpp:164-176 | the second loop succeeds if and only if every camera it asks has a frame for the reference time |
| `PlaybackSync.WaitSucceeds` | cwipc_kinect/src/K4APlaybackCamera.cpp:22-39 | a camera answers other than zero if and only if it has such a frame |
| `PlaybackSync.CaptureLeaves` | cwipc_kinect/src/K4APlaybackCapture.cpp:142-177 | a successful capture has met no end of a stream; the cameras it leaves without a frame are the sync masters other than the reference |
| `PlaybackSync.CaptureReadsEnd` | cwipc_kinect/src/K4APlaybackCapture.cpp:142-177 | a capture raises a camera's end flag only when it has read its recording to the end, and lowers none |
| `PlaybackSync.TwoMasters` | cwipc_kinect/src/K4ABaseCamera.hpp:57 | the input: two cameras with the master's serial, of which the second is left without a frame |
| `PlaybackSync.FramesUsedOnce` | cwipc_kinect/src/K4ABaseCamera.hpp:184-194 | over any rounds, successful or not, a camera's frames are used in recording order and never twice |
| `PlaybackSync.PlaybackCamera.CaptureNextValidFrame` | cwipc_kinect/src/K4APlaybackCamera.cpp:57-113 | takes the first good frame, or has read up to a failed read or the end of the recording and raised the end flag only there; terminates |
| `PlaybackSync.PlaybackCamera.CaptureFrameNoEarlierThan` | cwipc_kinect/src/K4APlaybackCamera.cpp:115-139 | computes `LaterFrame` and terminates |
| `PlaybackSync.PlaybackCamera.WaitForCapturedFrameset` | cwipc_kinect/src/K4APlaybackCamera.cpp:22-39 | computes `Wait` |
| `PlaybackSync.PlaybackCapture.CaptureAllCameras` | cwipc_kinect/src/K4APlaybackCapture.cpp:142-177 | computes `CaptureAll` on the cameras' states |
| `DepthErosion.ErodeDepth` | cwipc_realsense2/src/RS2BaseCamera.cpp:783-823 | in place, for all deltas: a pixel is zero afterwards exactly when it was or the original had a zero in its row within `x_delta` or in its column within `y_delta`; every other pixel is unchanged |
| `PacketFormat.ParsePacket` | cwipc_util/src/cwipc_util.cpp:695-709 | a packet parses back to the points, timestamp and cell size it was written from, if and only if there are fewer than 2^31 points |
| `PacketFormat.ParsedIsPacket` | cwipc_util/src/cwipc_util.cpp:695-709 | an accepted packet is the encoding of what is read from it, up to the bytes that are not looked at |
| `PacketFormat.HeaderFields` | cwipc_util/include/cwipc_util/api.h:59-66 | the fields of the 32-byte header are where the struct has them |
| `PacketFormat.PointFields` | cwipc_util/include/cwipc_util/api.h:88-96 | the fields of a 16-byte point are where the struct has them |
| `PacketFormat.PacketLayout` | cwipc_util/include/cwipc_util/api.h:59-96 | a packet byte by byte: the tag, the magic number with its least significant byte first, and the fields of point k from byte 32 + 16 * k on |
| `PacketFormat.DecodeEncodedPoints` | cwipc_util/include/cwipc_util/api.h:88-96 | points survive the 16-byte encoding, in order |
| `PacketFormat.TruncationCaught` | cwipc_util/src/cwipc_util.cpp:702-709 | the conversion to a 32-bit count is caught by the size check exactly when it changes the count |
| `PointCloud.PacketRoundTrip` | cwipc_util/src/cwipc_util.cpp:685-729 | reading back what `copy_packet` wrote gives the same points, timestamp and, unless it is negative, cell size; refused exactly from 2^31 points on |
| `PointCloud.CopiedAll` | cwipc_util/src/cwipc_util.cpp:236-247 | all points are written exactly below 2^31 of them, and a packet with fewer points than its header announces is refused when it is read |
| `PointCloud.RepresentationsAgree` | cwipc_util/src/cwipc_util.cpp:226-290 | a cloud of either kind, the same after conversion and its PCL-only copy give the same packet |
| `PointCloud.CopyKeeps` | cwipc_util/src/cwipc_util.cpp:114-118 | a shallow copy of a cloud of either kind has its points, timestamp and cell size, and holds its PCL cloud and nothing else; the original is at most converted |
| `PointCloud.ConversionKeeps` | cwipc_util/src/cwipc_util.cpp:120-147 | conversion keeps every field of every point; the tile becomes the `a` field |
| `PointCloud.CellsizeReplaced` | cwipc_util/src/cwipc_util.cpp:173-209 | setting the cell size twice is setting it the second time; nothing else changes but that a raw cloud is converted |
| `PointCloud.NewCloud` | cwipc_util/src/cwipc_util.cpp:102-111 | a new cloud has the points and the timestamp it was given and cell size zero |
| `PointCloud.NegativeMeans` | cwipc_util/src/cwipc_util.cpp:173-175 | the comparison of a cell size with zero, on its bits |
| `PointCloud.AllocationsBalance` | cwipc_util/src/cwipc_util.cpp:89-163 | over any sequence of operations allocations minus deallocations are the objects holding a PCL cloud, respectively a raw buffer, so nothing dangles exactly when none does |
| `PointCloud.NextBalanced` | cwipc_util/src/cwipc_util.cpp:323-374 | every operation keeps both balances and keeps every object well formed |
| `PointCloud.LoadBalances` | cwipc_util/src/cwipc_util.cpp:329-354 | `from_points` keeps the raw balance exactly when the object holds no buffer yet |
| `PointCloud.FreeIdempotent` | cwipc_util/src/cwipc_util.cpp:356-367 | freeing twice is freeing once; no points are left, the timestamp and the cell size are |
| `CloudObjects.PointCloud.CopyPacket` | cwipc_util/src/cwipc_util.cpp:252-290 | size query, refusal of a buffer of another size, or the packet written in place and nothing else; the whole packet if and only if there are fewer than 2^31 points |
| `CloudObjects.PointCloud.CopyUncompressed` | cwipc_util/src/cwipc_util.cpp:226-250 | the bytes of as many points as a 32-bit integer counts in the caller's buffer, and that count, or an error that leaves the buffer untouched |
| `CloudObjects.PointCloud.Convert` | cwipc_util/src/cwipc_util.cpp:120-147 | the conversion keeps every point and counts one allocation, or fails and changes nothing |
| `CloudObjects.PointCloud.FromPoints` | cwipc_util/src/cwipc_util.cpp:329-354 | takes a copy of the points and drops an older PCL cloud from the count, also when it holds points already; a disagreement of the sizes changes nothing, a failed allocation loses the buffer |
| `CloudObjects.PointCloud.AccessPcl` | cwipc_util/src/cwipc_util.cpp:403-409 | converts once, and never fails on a well-formed cloud |
| `CloudObjects.PointCloud.SetCellsize` | cwipc_util/src/cwipc_util.cpp:173-209 | stores the size, or a guess from the points for a negative one |
| `CloudObjects.PointCloud.ShallowCopy` | cwipc_util/src/cwipc_util.cpp:323-327 | a PCL-only copy with the points, timestamp and cell size of the original, which is converted on the way and otherwise unchanged |
| `CloudObjects.PointCloud.Free` | cwipc_util/src/cwipc_util.cpp:356-367 | counts what it held and holds nothing afterwards |
| `CloudLibrary.Library.FromPcl` | cwipc_util/src/cwipc_util.cpp:643-660 | one more object, and the counters still in balance with all objects |
| `CloudLibrary.Library.FromPoints` | cwipc_util/src/cwipc_util.cpp:662-683 | a new object exactly when the sizes agree and there is memory; otherwise nothing has changed |
| `CloudLibrary.Library.FromPacket` | cwipc_util/src/cwipc_util.cpp:685-729 | a new object with the contents of the packet exactly when it parses and there is memory; otherwise nothing has changed |
| `CloudLibrary.Library.ShallowCopy` | cwipc_util/src/cwipc_util.cpp:735-737 | one more object, with the points, timestamp and cell size of the original, which keeps its own; no other object has changed |
| `CloudLibrary.Library.Free` | cwipc_util/src/cwipc_util.cpp:731-733 | the object holds nothing, no other object has changed, and the counters are still in balance |
| `CloudLibrary.Library.SetCellsize` | cwipc_util/src/cwipc_util.cpp:747-749 | a step of the library that keeps the balance |
| `CloudLibrary.Library.CopyPacket` | cwipc_util/src/cwipc_util.cpp:767-769 | a step that keeps the balance, with the packet of the object in the buffer when one is written, whole if and only if there are fewer than 2^31 points |
| `CloudLibrary.Library.DanglingAllocations` | cwipc_util/src/cwipc_util.cpp:420-430 | the number of objects still holding a PCL cloud plus those still holding raw points; zero exactly when every object handed out holds neither |

## Left out

- Weak memory: fences, acquire and release orders and cache-line padding. The step machines are sequentially consistent.
- The queue's move constructor and assignment, its reentrancy guards, and element construction and destruction; a failed block allocation in the constructor, which ends the program.
- `pop` in the step machine: it makes the same shared accesses as `try_dequeue`, except that it does not read the element.
- What a queue built for 2^63 elements or more does when it is used, and a semaphore counter beyond 64 bits.
- ReaderWriterQueue.Queue.constructor: not for a maximal block size of 2^63 with sizes from 3 to 2^63 - 1, for which the code starts without a block (`ReaderWriterQueue.InitialBlocks`); and the byte size of a block, which `make_block` (`cwipc_codec/src/readerwriterqueue.h:732-733`) computes without a check, is taken to fit a word.
- The platform semaphores: the kernel semaphore is a counter whose waits may fail or time out at any time. A negative timeout also covers a kernel wait that is interrupted. `signal(0)` is never issued.
- The new block's link in the step machine is set in the same step as its other private fields, before anything can reach the block.
- In sequential use the second look of a dequeue at the front block, after it saw another tail block, never finds anything, so the class goes on to the next block directly; the step machine has both looks.
- The queues between the encoder's threads and the cameras' are atomic first-in-first-out sequences, as `SpscQueue.StepRefinesQueue` and `SpscQueue.RefusedSawFull` justify for one producer; at closing time the encoder's queue has two producers, which the code does not protect against and the model does not either.
- EncoderPipeline.CollectedInOrder: the codec is a function of the clouds it encoded before and the cloud at hand; its bit stream, its groups of pictures and the replacement of an empty cloud by one black point are not modelled. The unthreaded mode of `feed` is not modelled.
- RoundRobin.CopiesInOrder: assumes that no stage fails, nobody closes, at most n clouds are outstanding and the reader follows `available`; `copy_data` that fails still moves on to the next encoder, so without these the order is lost.
- A `feed` that overlaps the end of `close` may take the unthreaded branch, as `m_use_threads` is read after the alive flag (`cwipc_codec/src/cwipc_codec.cpp:178`); in the model a feed that saw the flag up always enqueues.
- An `enqueue` between the encoder's threads that fails for lack of memory: the cloud would be lost without a trace, as the code does not look at the result.
- Wake-ups of callers of the encoder's `available(true)`: the flags they wait for are set without the mutex.
- The answer of `pointcloud_available`, which is the fresh flag at the consumer's step `ACheck`.
- `CaptureHandover` covers one session; `stop`, restart, the Orbbec copy of the protocol, and the RealSense capturer, which keeps its merged cloud after handing it over, are not part of it. Capturing and point cloud generation are outcomes and functions given from outside; metadata, new timestamps and skeletons are left out.
- PlaybackSync.Synchronised: of several cameras configured as sync master only the first is captured, as in the code; the others are then without a frame (`PlaybackSync.CaptureLeaves`). Seeking and the synchronisation at start are left out.
- DepthErosion.ErodeDepth: integer overflow of a coordinate plus a delta and a failed allocation of the copy are left out.
- PointCloud.PacketRoundTrip: floats are bit patterns and the guess of a cell size from the distances of points is any non-negative value.
- A PCL cloud is shared between shallow copies by pointer; as a value it cannot be changed under another holder. Metadata, the API version checks, and packets shorter than a header, which the code reads past, are left out. No allocation of 2^63 bytes or more is taken to succeed, so a negative point count is always refused.
- A second `from_points` on an object of `CloudLibrary`, which no exported function makes; `PointCloud.LoadBalances` says what it does to the counters.
- Vendor SDKs, PCL, image codecs, JSON configuration, logging, sockets, windows, Python wrappers, command-line tools, per-point filters and floating-point geometry.
