# A verified model of the reactor library

The library is a multi-threaded network framework in the reactor style: event loops over epoll,
buffers and connections, timers, a TCP server, an asynchronous logger, a thread pool and an
nginx-style memory pool. This project models its stateful parts in Dafny and proves what holds of
them over every history, run or interleaving.

`dafny verify dfyconfig.toml` checks everything.

## How the model is built

| file | modules | what it models |
|---|---|---|
| `MemoryPoolSpec.dfy`, `MemoryPoolOps.dfy`, `MemoryPoolHistory.dfy`, `MemoryPoolBehaviour.dfy`, `MemoryPool.dfy` | one module each | the memory pool: page layout and invariant; `malloc`, `freeMemory`, `resetPool` as functions on addresses; every history of calls; what each call does field by field, and that memory is recycled; the linked lists walked and updated in place |
| `Buffer.dfy` | `Buffer` | the network buffer: index arithmetic with its `int` truncation, and the array moved and grown in place |
| `TcpConnection.dfy` | `ConnState`, `ConnSpec`, `TcpConnection` | the send path of a connection over a `Buffer` |
| `EventLoop.dfy` | `EventLoop` | the task queue and the eventfd wakeup, interleaved with any number of foreign threads |
| `TimerQueue.dfy`, `TimerLives.dfy` | `TimerSpec`, `TimerQueue`, `TimerLives` | the ordered timer set and the one-shot timerfd; which timers are created, survive and stay |
| `Poller.dfy` | `Poller`, `EPollPoller` | channel registration against the kernel's interest set |
| `TcpServer.dfy` | `TcpServer` | the life of connections across base loop and io loops |
| `AsyncLogging.dfy` | `AsyncLogging` | the rotating log buffers between front end and back end |
| `ThreadPool.dfy` | `ThreadPool` | workers, `enqueue` and the destructor |
| `LogStream.dfy` | `Decimal`, `LogStream` | the fixed log buffer and the in-place integer formatter |

Parts that one thread runs are given twice: as functions on values, about which the theorems are
proved, and as a class whose methods have the source's loops and field updates and are proved to
compute those functions. Protocols between threads are state machines: `Possible` says when a step
can happen, `Step` what it does, and `Run` is any finite sequence of such steps. System calls are
parameters of the steps, free within their contracts.

### Readings of the source that the model fixes

- `posix_memalign` reports success with 0 (POSIX.1-2017). `mallocSmallNode` tests it that way;
  `createPool` and `mallocLargeNode` test for the opposite, which would make every success a failure.
  The model uses the first sense throughout.
- The memory of a fresh page is zero: `quote_`, `failed_` and the head page's `next_` are read
  without having been written.
- Structure sizes are those of the LP64 data model: `Pool` 24, `SmallNode` 32, `LargeNode` 24 bytes.
- A log buffer stands for the characters before its write position. `length()` returns the capacity,
  so the file receives an image of the whole buffer; the theorems follow the payload.

### Where a promise does not hold, and exactly when it does

- `ensureWritableBytes` cuts its length to a 32-bit `int`. It makes room if and only if
  `Buffer.RoomFor` holds; every length within `int` that the vector can hold satisfies it
  (`EnsureMakesRoom`, `EnsureFailsBeyondInt`).
- A task queued by the owner before `loop()` sends no wakeup. The loop can sleep on it during its
  first poll, as long as no other thread has queued anything, and at no other time
  (`LostWakeupIff`, `LostWakeupExample`).
- `shutdown` may run on any thread and tests the state before it sets it. When the connection is
  closed in between with bytes waiting, it is later half-closed with those bytes unsent
  (`LateSetHalfClosesUnsent`). The send path keeps its promise exactly in the runs where each set
  finds the connection up or its buffer empty (`PromiseKeptIff`).
- `getExpired` is strict. An alarm handled when the clock has not passed the earliest timer, and no
  other alarm is set, leaves the queue without an alarm, and only then (`AlarmSetIff`,
  `HandledOnTheDotStalls`).
- A mask with EPOLLHUP and EPOLLPRI but not EPOLLIN is handled as a close and as a read, and breaks
  the order of callbacks unless the read fails, and only such a mask does (`DispatchInOrderIff`).
- A `shutdown` that sets the state of a connection closed since the test revives it. A queued send
  that then leaves data to write registers the dead channel, and its next close or read is a second
  Down or a late message (`LateShutdownSecondDown`). Callbacks are in order exactly in the runs in
  which no event closes or reads after a Down, or closes and reads at once (`CallbacksInOrderIff`);
  that no such send happens, or that every set comes in time, is enough (`QuietIsOrderly`,
  `InTimeIsOrderly`).
- Two channels that exist at once on one descriptor make an `epoll_ctl` illegal; registration is
  legal exactly when the descriptor is not occupied (`LegalIff`, `SharedDescriptorRefused`).
- A log line as long as a buffer is dropped; a non-empty line survives exactly when it is shorter
  (`LineConservedIff`, and over whole runs `LinesConservedIff`).

## Model

| member | source | states |
|---|---|---|
| MemoryPoolSpec.CreatedInv | src/memory/MemoryPool.cc:6-24 | a newly created pool satisfies the whole layout invariant |
| MemoryPoolSpec.ComparisonNeverNegative | src/memory/MemoryPool.cc:149-158 | the signed difference compared as unsigned is never negative: the aligned `last_` never passes `end_`, so the test means "fits" |
| MemoryPoolSpec.QuoteBounded | src/memory/MemoryPool.cc:112-112 | a page never carries more than 254 live regions (252 on the head page), so the 32-bit count cannot wrap |
| MemoryPoolSpec.CarveInv | src/memory/MemoryPool.cc:147-160 | carving from a page that fits keeps chain, pages, disjointness, counts and block ownership |
| MemoryPoolSpec.AppendInv | src/memory/MemoryPool.cc:96-132 | linking a fresh page at the tail and carving from it keeps the same invariant |
| MemoryPoolOps.LiveApart | src/memory/MemoryPool.cc:134-164 | two live regions never overlap, on one page or on two |
| MemoryPoolOps.Attribution | src/memory/MemoryPool.cc:191-196 | the inclusive test `small <= p <= end_` holds of a live pointer for its own page and for no other |
| MemoryPoolOps.SmallMallocGrants | src/memory/MemoryPool.cc:134-164 | a small request adds exactly one region, or fails with nothing changed because the system refused a page |
| MemoryPoolOps.LargeMallocInv | src/memory/MemoryPool.cc:50-93 | a large request keeps the invariant, whether a header is reused, carved, or refused; on failure the state is the old one, the block having been freed |
| MemoryPoolOps.FreeFindsRegion | src/memory/MemoryPool.cc:176-215 | `freeMemory` of a live small pointer reaches the page it came from and no large block |
| MemoryPoolOps.FreeSmallEffect | src/memory/MemoryPool.cc:196-211 | freeing removes exactly that region and lowers the count by one; the page is rewound, its failures forgotten and `current_` set to the head exactly if nothing is left on the page |
| MemoryPoolOps.FreeInv | src/memory/MemoryPool.cc:176-215 | `freeMemory` keeps the invariant for every live pointer, for null and for addresses foreign to the pool |
| MemoryPoolOps.ResetInv | src/memory/MemoryPool.cc:217-240 | `resetPool` keeps the invariant and leaves exactly the pages held from the system |
| MemoryPoolOps.ClientsApart | src/memory/MemoryPool.cc:134-164 | no two allocations held by clients overlap, small or large |
| MemoryPoolOps.ClientsAvoidHeaders | src/memory/MemoryPool.cc:50-131 | every allocation is 16-aligned and clear of all page headers and of the large headers stored in pages |
| MemoryPoolHistory.MallocRefines | src/memory/MemoryPool.cc:134-164 | `malloc` refines a plain allocator: null and no change, or one aligned allocation disjoint from all others is added |
| MemoryPoolHistory.MallocFailsIff | src/memory/MemoryPool.cc:50-164 | `malloc` returns null if and only if the size is zero or the system refuses something that is needed: the block of a large request, or a page when no header is free and no page from `current_` on fits; the state is then unchanged |
| MemoryPoolHistory.FreeRefines | src/memory/MemoryPool.cc:176-215 | `freeMemory(p)` removes exactly the allocation at `p` from what clients hold |
| MemoryPoolHistory.ResetRefines | src/memory/MemoryPool.cc:217-240 | `resetPool` takes all allocations back, keeps the chain, and holds only pages |
| MemoryPoolHistory.HeaderPageNeverRewound | src/memory/MemoryPool.cc:196-209 | a page that holds a large header is not rewound by any client's free |
| MemoryPoolHistory.ChainGrowsAtTail | src/memory/MemoryPool.cc:147-163 | the chain changes only by appending the new page, exactly when no page from `current_` on fits and the system offers one |
| MemoryPoolHistory.SkipsBehindExhausted | src/memory/MemoryPool.cc:114-131 | `current_` moves right behind the last page on the way that had failed five times, or stays |
| MemoryPoolHistory.HistoryInv | src/memory/MemoryPool.cc:6-240 | every state of every history of well-behaved calls satisfies the invariant |
| MemoryPoolHistory.HistoryRefinesLedger | src/memory/MemoryPool.cc:134-240 | call by call, every history equals a ledger of allocations that knows nothing of pages |
| MemoryPoolHistory.HistorySafe | src/memory/MemoryPool.cc:134-240 | in every history: allocations disjoint and aligned, `quote_` equals the live count and is at most 254, the chain has no repetition and contains `current_` |
| MemoryPoolBehaviour.SmallMallocPlaces | src/memory/MemoryPool.cc:147-160 | a small request is served at the aligned end of the first page from `current_` on that fits; `last_` moves right behind it, the count grows by one, and nothing else changes |
| MemoryPoolBehaviour.SmallMallocAppends | src/memory/MemoryPool.cc:96-132 | when no page fits, the new page serves it right behind its header, and of the old pages exactly those passed on the way to the tail have failed once more |
| MemoryPoolBehaviour.LargeMallocReuses | src/memory/MemoryPool.cc:59-72 | a large block goes to the first free one of at most five headers, with its address and size, and nothing else changes |
| MemoryPoolBehaviour.LargeMallocPushes | src/memory/MemoryPool.cc:79-93 | otherwise a header is allocated like a small request and put in front of the list |
| MemoryPoolBehaviour.FreeRecycles | src/memory/MemoryPool.cc:191-215 | the whole state after freeing a small region: the page rewound completely when it was the last one there, only the count lowered otherwise |
| MemoryPoolBehaviour.FreeLargeEmptiesHeader | src/memory/MemoryPool.cc:178-190 | the whole state after freeing a large block: the block given back, its header emptied and kept in the list |
| MemoryPoolBehaviour.ResetRewinds | src/memory/MemoryPool.cc:217-240 | `resetPool` rewinds every page, forgets the large list and starts at the head |
| MemoryPoolBehaviour.HistoryRecycles | src/memory/MemoryPool.cc:134-240 | in every history a page from which nothing is held offers all of its room again |
| MemoryPoolBehaviour.FirstAllocation | src/memory/MemoryPool.cc:6-24 | a new pool serves any request of at most 4032 bytes at offset 64 without asking the system |
| MemoryPoolBehaviour.FreedIsReused | src/memory/MemoryPool.cc:134-215 | allocating, freeing and allocating again returns the same address |
| MemoryPool.MemoryPool.CreatePool | src/memory/MemoryPool.cc:6-24 | the fields after creation are those of `Created` |
| MemoryPool.MemoryPool.Malloc | src/memory/MemoryPool.cc:134-164 | the walk from `current_` computes `Malloc` and grants a disjoint allocation |
| MemoryPool.MemoryPool.MallocSmallNode | src/memory/MemoryPool.cc:96-132 | computes `AppendPage` |
| MemoryPool.MemoryPool.LinkAtTail | src/memory/MemoryPool.cc:114-131 | the loop counts a failure on each page passed, moves `current_`, and links at the true tail |
| MemoryPool.MemoryPool.MallocLargeNode | src/memory/MemoryPool.cc:50-93 | the bounded search for a free header and the fallback compute `LargeMalloc` |
| MemoryPool.MemoryPool.Calloc | src/memory/MemoryPool.cc:166-174 | same allocation as `malloc`, every byte of it cleared, and no byte of any other allocation changed |
| MemoryPool.MemoryPool.FreeMemory | src/memory/MemoryPool.cc:176-215 | both list walks compute `Free`; clients lose exactly `p` |
| MemoryPool.MemoryPool.ResetPool | src/memory/MemoryPool.cc:217-240 | both loops compute `Reset`, freeing each large block once |
| MemoryPool.MemoryPool.DestroyPool | src/memory/MemoryPool.cc:26-48 | every block obtained from the system is freed, each while it was still held |
| Buffer.EnsureMakesRoom | src/net/Buffer.cc:92-115 | `ensureWritableBytes(len)` makes room if and only if `RoomFor` holds, for every length |
| Buffer.EnsureWithinInt | src/net/Buffer.cc:92-115 | within `int`: enough room changes nothing, room together with the gap in front moves the content to index 8, otherwise the array grows to exactly what is needed |
| Buffer.EnsureFailsBeyondInt | src/net/Buffer.cc:92-115 | a request of 2^32 bytes on a fresh buffer returns without making room |
| Buffer.CompactionMovesDown | src/net/Buffer.cc:103-114 | the compaction branch implies `readerIndex_ > 8`, and then leaves room for the request |
| Buffer.GrowthBounded | src/net/Buffer.cc:103-106 | growing happens only when the result is below 8 plus twice the new content |
| Buffer.RunSizeBounded | src/net/Buffer.cc:19-138 | over every run of append, retrieve and readFd the size stays within 8 plus the larger of the initial size and twice the largest content |
| Buffer.Buffer.constructor | src/net/Buffer.cc:72-76 | a new buffer is empty and has the requested space |
| Buffer.Buffer.SlideDown | src/net/Buffer.cc:109-113 | the overlapping forward copy preserves the content |
| Buffer.Buffer.EnsureWritableBytes | src/net/Buffer.cc:92-115 | for every length: refused exactly when the vector would become too long, room is made if and only if `RoomFor` holds, and the content is unchanged unless the vector is cut off in front of the write index |
| Buffer.Buffer.Append | src/net/Buffer.cc:79-85 | the content is the old content followed by the bytes, or unchanged when the vector cannot grow |
| Buffer.Buffer.Retrieve | src/net/Buffer.cc:122-133 | a prefix of the given length is dropped, or everything, and then both indices are back at 8 |
| Buffer.Buffer.RetrieveAsString | src/net/Buffer.cc:153-159 | within the content, the result followed by the new content is the old content; beyond it, the result starts with the content and the buffer is empty |
| Buffer.Buffer.ReadFd | src/net/Buffer.cc:19-57 | the delivered bytes are appended in order however they split over the two parts; an error changes nothing |
| Buffer.Buffer.FindCrlf | src/net/Buffer.cc:6-10 | the first CR LF of the content, or none exactly when there is none |
| ConnSpec.RunKeeps | src/net/TcpConnection.cc:91-261 | in every run in which each set of `shutdown` finds the connection up or nothing unsent: conservation, the promise, and what makes it inductive |
| ConnSpec.PromiseKeptIff | src/net/TcpConnection.cc:91-261 | test and set of `shutdown` being two steps: all along a run, write interest is on exactly while the connection is up and bytes wait, a half-closed connection that is up has nothing unsent, and an asked-for shutdown is done or has bytes to wait for, if and only if every set finds the connection up or an empty buffer |
| ConnSpec.StepKeepsIff | src/net/TcpConnection.cc:91-271 | of all steps, exactly a set on a connection that is down with bytes unsent breaks that promise |
| ConnSpec.LateSetHalfClosesUnsent | src/net/TcpConnection.cc:152-168 | a run in which it does: half-closed while disconnecting, with every accepted byte unsent and write interest off |
| ConnSpec.WireThenBuffer | src/net/TcpConnection.cc:91-261 | in every run, late sets included: wire followed by output buffer is, in order, every payload not rejected as disconnected or broken |
| ConnSpec.WireIsTaken | src/net/TcpConnection.cc:91-261 | in every run the wire is what the kernel took, event by event: of a payload only when nothing waits in front of it, of the buffer only while it is watched for |
| ConnSpec.RunState | src/net/TcpConnection.cc:152-271 | in every run the state is the one the events lead to, every set of `shutdown` has a passed test of its own, and every queued `shutdownInLoop` a set of its own |
| ConnSpec.WireGrows | src/net/TcpConnection.cc:91-261 | what the kernel has taken stays a prefix of what it takes later |
| ConnSpec.FinishedMeansFlushed | src/net/TcpConnection.cc:162-168 | under the same condition, a half-close of a connection that is still up happens with every accepted byte on the wire, and nothing is accepted after it |
| ConnSpec.DrainFinishes | src/net/TcpConnection.cc:231-250 | while disconnecting, the write that empties the buffer is exactly the one that half-closes |
| ConnSpec.FinishesIff | src/net/TcpConnection.cc:162-168 | a connection is half-closed by exactly two steps: a queued `shutdownInLoop` with nothing being written, and the draining write of a disconnecting connection |
| ConnSpec.QueuedExactly | src/net/TcpConnection.cc:107-141 | exactly the callbacks each step queues: completion once, when the kernel takes the whole payload at once or all that waits, and high water once, on crossing the mark |
| ConnSpec.CompleteIff | src/net/TcpConnection.cc:236-244 | completion is queued if and only if it is asked for and the kernel has taken the last waiting byte, directly or from the buffer |
| ConnSpec.CompleteMeansFlushed | src/net/TcpConnection.cc:107-118 | completion is queued only when everything accepted is on the wire |
| ConnSpec.HighWaterOnCrossing | src/net/TcpConnection.cc:133-141 | high-water is queued exactly when the buffer crosses the mark upwards, with its new size |
| TcpConnection.TcpConnection.constructor | src/net/TcpConnection.cc:14-42 | a new connection is connecting with nothing accepted |
| TcpConnection.TcpConnection.SendInLoop | src/net/TcpConnection.cc:91-148 | computes `ConnSpec.SendInLoop` on the buffer and keeps the invariant, for every payload whose unwritten rest the buffer can make room for |
| TcpConnection.TcpConnection.HandleWrite | src/net/TcpConnection.cc:224-261 | computes `ConnSpec.HandleWrite` and keeps the invariant |
| TcpConnection.TcpConnection.ShutdownInLoop | src/net/TcpConnection.cc:162-168 | half-closes exactly when nothing waits to be written, and keeps the invariant of a connection that is disconnecting or down |
| TcpConnection.TcpConnection.RunShutdown | src/net/TcpConnection.cc:152-168 | the queued `shutdownInLoop` is the `ShutdownRun` step and keeps the invariant |
| TcpConnection.TcpConnection.ShutdownTest | src/net/TcpConnection.cc:154-154 | passes exactly on a connected connection; nothing a user sees changes |
| TcpConnection.TcpConnection.ShutdownSet | src/net/TcpConnection.cc:156-158 | sets the state whatever has happened since the test, and keeps the promise if and only if the connection is up or nothing is unsent |
| TcpConnection.TcpConnection.ConnectEstablished | src/net/TcpConnection.cc:171-185 | a connecting connection becomes connected |
| TcpConnection.TcpConnection.HandleClose | src/net/TcpConnection.cc:263-271 | the connection is down and watches nothing; accepted bytes stay accounted for |
| TcpConnection.TcpConnection.ConnectDestroyed | src/net/TcpConnection.cc:188-197 | a connected connection goes down, others are left |
| EventLoop.RunFifo | src/net/EventLoop.cc:113-155 | under all interleavings executed, rest of the batch and queue are exactly the functors handed to `queueInLoop`, in lock order; what has run is a prefix of them |
| EventLoop.EnqueuedGrows | src/net/EventLoop.cc:113-155 | the order of arrival and of execution is never revised |
| EventLoop.BatchIsFixed | src/net/EventLoop.cc:137-155 | from swap to end the functors run are the ones swapped out, whatever is queued meanwhile |
| EventLoop.RoundRunsAll | src/net/EventLoop.cc:137-155 | when a round ends, exactly the functors handed over before its swap have run, and those handed over since then wait |
| EventLoop.CounterIsUnread | src/net/EventLoop.cc:51-134 | the eventfd counter is the number of wakeups since it was last read |
| EventLoop.NoLostWakeup | src/net/EventLoop.cc:51-155 | if the owner queues nothing before `loop()`, no reachable poll has work queued, a zero counter and no producer about to wake it |
| EventLoop.LostWakeupIff | src/net/EventLoop.cc:51-155 | in every run, at every moment: a wakeup is lost if and only if the loop is in its first poll, the owner queued something before `loop()` and no other thread has queued anything |
| EventLoop.AwakeAfterPoll | src/net/EventLoop.cc:51-155 | once a poll has returned, work queued always has a wakeup on its way, whatever was queued before `loop()` |
| EventLoop.LostWakeupExample | src/net/EventLoop.cc:113-124 | a run of two steps that does so |
| TimerSpec.InsertSorted | src/time/TimerQueue.cc:117-132 | insertion keeps the set ordered by time, then address |
| TimerSpec.InsertHead | src/time/TimerQueue.cc:117-132 | the head after insertion is due at the earlier of the two times, which is what `earliestChanged` reports |
| TimerSpec.ExpiredExactly | src/time/TimerQueue.cc:103-114 | the entries taken are exactly those due strictly before now |
| TimerSpec.HandleReadRuns | src/time/TimerQueue.cc:158-174 | one `handleRead` runs exactly the timers due strictly before now, once each, in order |
| TimerSpec.HandleReadArmsIff | src/time/TimerQueue.cc:135-174 | handling a fired alarm leaves the queue with its next alarm if and only if nothing waits, another alarm is set, or the earliest timer is due strictly before now |
| TimerSpec.HandledOnTheDotStalls | src/time/TimerQueue.cc:103-174 | handled at exactly its time, a lone timer does not run and no alarm is left |
| TimerSpec.HandleReadPlaced | src/time/TimerQueue.cc:135-174 | after `handleRead`, with callbacks adding timers at addresses old or new, every timer is in the queue once under its own expiration |
| TimerSpec.RunSound | src/time/TimerQueue.cc:55-174 | in every run, alarms handled early and addresses of deleted timers given out again: every timer queued once under its own expiration, no callback early, every restart counted |
| TimerSpec.RunKeeps | src/time/TimerQueue.cc:55-174 | if no alarm is handled too early, the alarm is also set for the earliest timer or has fired |
| TimerSpec.AlarmSetIff | src/time/TimerQueue.cc:103-174 | a queue that holds timers has its alarm all along a run if and only if no alarm is handled too early |
| TimerSpec.AfterDeadlineIsPrompt | src/time/TimerQueue.cc:103-174 | handling every alarm at a clock reading strictly after its deadline is never too early |
| TimerSpec.TimersOnSchedule | src/time/Timer.h:24-28 | in every run, a timer that has run j times since it was added stands under exactly start + j * delta, no callback ran early, and the alarm covers the timer unless one was handled too early |
| TimerLives.AddTimerCreates | src/time/TimerQueue.cc:48-64 | adding creates the timer asked for, repeating exactly for a positive interval, with the interval in whole microseconds, queues it, and changes no other |
| TimerLives.HandleReadSurvivors | src/time/TimerQueue.cc:135-156 | handling an alarm deletes exactly the due timers that do not repeat; a due repeating one moves on by exactly its interval and is queued again |
| TimerLives.HandleReadCreates | src/time/TimerQueue.cc:158-174 | every timer that a callback adds is there afterwards, as asked for |
| TimerLives.EmptyLeavesAlarm | src/time/TimerQueue.cc:149-153 | when no timer is left after an alarm was handled, the timerfd has not been touched |
| TimerLives.RepeatingStays | src/time/TimerQueue.cc:135-156 | in every run a repeating timer, once added, is in every later state |
| TimerSpec.ArmedAfterHandling | src/time/TimerQueue.cc:135-174 | after every handled alarm, none having been handled too early, a non-empty queue has its alarm set for its minimum |
| TimerQueue.TimerQueue.InsertTimer | src/time/TimerQueue.cc:117-132 | ordered insertion, reporting whether the earliest time changed |
| TimerQueue.TimerQueue.ResetTimerfd | src/time/TimerQueue.cc:67-89 | the alarm never goes off before its timer is due nor less than 100 microseconds from now, and no later than one of the two demands |
| TimerQueue.TimerQueue.AddTimerInLoop | src/time/TimerQueue.cc:55-64 | computes `AddTimer` and keeps the invariant |
| TimerQueue.TimerQueue.GetExpired | src/time/TimerQueue.cc:103-114 | splits the set at the first entry not before now |
| TimerQueue.TimerQueue.ResetTimers | src/time/TimerQueue.cc:135-156 | the loop computes `Reset`, which restarts exactly the repeating timers and re-arms for the head |
| TimerQueue.TimerQueue.HandleRead | src/time/TimerQueue.cc:158-174 | computes `HandleRead` with the timers its callbacks add, handled at any time; keeps the invariant if and only if it is handled promptly |
| Poller.SetEventsLegalIff | src/net/EPollPoller.cc:79-105 | from a faithful mirror, a change is legal exactly when the channel is registered or its descriptor is free, and the mirror stays faithful |
| Poller.LegalIff | src/net/EPollPoller.cc:65-105 | over every sequence of calls with any descriptors, all `epoll_ctl` calls were legal if and only if no call registered a channel on a descriptor that another one occupied; the kernel then mirrors the channels |
| Poller.SharedDescriptorRefused | src/net/EPollPoller.cc:79-105 | two channels on one descriptor: the second ADD is refused |
| Poller.EmptyMaskIff | src/net/EPollPoller.cc:79-105 | a channel is registered with an empty mask exactly when it was idle and is told to stay idle |
| Poller.RunKeeps | src/net/EPollPoller.cc:65-105 | every sequence of enable, disable, remove, creation and destruction keeps mirror, table and legality, as long as channels that exist at the same time have distinct descriptors |
| Poller.KernelMirrorsChannels | src/net/EPollPoller.cc:65-105 | in every run: added exactly when in the kernel's set, with its mask and channel; deleted implies empty mask; in the table exactly when not new; no `epoll_ctl` failed |
| Poller.ChannelIsHistory | src/net/EPollPoller.cc:65-105 | in every sequence of calls each channel has exactly the descriptor, mask and registration state that the calls gave it |
| Poller.DescriptorReused | src/net/EPollPoller.cc:65-105 | when a channel is removed and destroyed, a new one on the same descriptor can be created and is registered with its mask, legally |
| EPollPoller.EPollPoller.UpdateChannel | src/net/EPollPoller.cc:79-105 | computes `Update` |
| EPollPoller.EPollPoller.RemoveChannel | src/net/EPollPoller.cc:65-77 | computes `Remove` and keeps the invariant |
| EPollPoller.EPollPoller.EnableEvents | src/net/Channel.h:46-48 | adds to the mask, updates the registration, keeps the invariant |
| EPollPoller.EPollPoller.DisableEvents | src/net/Channel.h:47-50 | takes from the mask, updates the registration, keeps the invariant |
| TcpServer.RunKeeps | src/net/TcpServer.cc:58-114 | in every run of orderly steps each connection is in one phase of its life, with exactly the tasks of that phase queued |
| TcpServer.CallbacksInOrderIff | src/net/TcpServer.cc:58-114 | the callbacks of all connections are in order all along a run if and only if no event closes and reads at once, and no event closes or reads on a connection that has had its Down |
| TcpServer.QuietIsOrderly | src/net/TcpConnection.cc:91-148 | with no event that closes and reads at once, it suffices that no send leaves data to write on a connection revived by a late `shutdown`: no closed connection is then registered again |
| TcpServer.InTimeIsOrderly | src/net/TcpConnection.cc:152-160 | that is so when no `shutdown` sets the state of a connection that has gone down: none is revived |
| TcpServer.SetRevivesIff | src/net/TcpConnection.cc:152-160 | setting the state revives a connection if and only if it has gone down since the test |
| TcpServer.TestPassesIff | src/net/TcpConnection.cc:152-154 | a `shutdown` goes on to set the state if and only if its test finds the connection connected |
| TcpServer.DestroyUnregisters | src/net/TcpConnection.cc:188-197 | destruction comes after the Down, takes the channel out of the interest set and is noted once |
| TcpServer.CallbacksInOrder | src/net/TcpConnection.cc:171-271 | in every run of orderly steps: one Up before anything else, messages, at most one Down and no message after it, then one destruction |
| TcpServer.TableIsAccurate | src/net/TcpServer.cc:84-114 | `connections_` holds exactly the connections that have had no Down or whose removal waits in the base loop's queue; none of them is destroyed |
| TcpServer.TasksCanRun | src/net/TcpServer.cc:96-114 | every queued task can run: its connection is known |
| TcpServer.DispatchInOrderIff | src/net/Channel.cc:67-109 | one event on a connection being served keeps its callbacks in order if and only if it does not close and read at once |
| TcpServer.DispatchLog | src/net/Channel.cc:67-109 | what one event adds to the callbacks: a Down if it closes, then a message or a Down if it reads |
| TcpServer.EventAfterDownIff | src/net/Channel.cc:67-109 | one event on a connection that has had its Down, destroyed or not, keeps its callbacks in order if and only if it neither closes nor reads |
| TcpServer.LateShutdownSecondDown | src/net/TcpConnection.cc:152-160 | a run from the start that gives a connection two Downs: a late set, a send that registers the dead channel, and a close as its one disorderly step |
| AsyncLogging.LinesConservedIff | src/logger/AsyncLogging.cc:46-137 | at every moment of every run, written, batch, full buffers and current buffer concatenate to the lines appended, in lock order, if and only if every line was shorter than a buffer or empty; what is written is then a prefix |
| AsyncLogging.LineConservedIff | src/logger/FixedBuffer.h:29-40 | a line is conserved if and only if it is empty or shorter than a buffer |
| AsyncLogging.RotatesIff | src/logger/AsyncLogging.cc:46-70 | a buffer is rotated exactly when the line would not leave a free byte in it; the line then starts an empty buffer and the spare is used up |
| AsyncLogging.RunNoneFull | src/logger/AsyncLogging.cc:46-137 | in every run no buffer is filled to its last byte |
| AsyncLogging.RoundWritesAll | src/logger/AsyncLogging.cc:90-113 | when a round has written its batch, the file has received exactly the lines appended before its swap |
| AsyncLogging.BackEndNeverStuck | src/logger/AsyncLogging.cc:84-137 | in every state the back end has a step; both refills take from a non-empty vector |
| AsyncLogging.SparesAreEmpty | src/logger/AsyncLogging.cc:96-104 | at every swap both spares are there and empty, and the front end gets empty buffers |
| AsyncLogging.RunKeeps | src/logger/AsyncLogging.cc:46-137 | in every interleaving an absent second buffer implies a full one, and nothing appended is lost |
| ThreadPool.TasksStartInOrder | src/base/ThreadPool.h:32-85 | what workers run, then the queue, are in order exactly the tasks handed to `enqueue` before the stop |
| ThreadPool.NoStrandedTask | src/base/ThreadPool.h:42-83 | a task enqueued and not started has an unparked worker or a notification on its way |
| ThreadPool.NothingLeftBehind | src/base/ThreadPool.h:47-51 | once a worker has returned, the pool was stopped and every task handed to it before was started |
| ThreadPool.SleepsUntilWoken | src/base/ThreadPool.h:41-46 | a worker that went to sleep sleeps until it is woken |
| ThreadPool.NotificationsOwed | src/base/ThreadPool.h:69-85 | every task enqueued owes one notification; what is owed is what was not sent |
| ThreadPool.StopAnnounced | src/base/ThreadPool.h:87-94 | the stop is due to be announced to all workers exactly until it has been announced |
| ThreadPool.WorkersStay | src/base/ThreadPool.h:32-58 | the pool keeps its workers, all of them ready at the start |
| ThreadPool.StopNeverStalls | src/base/ThreadPool.h:87-101 | after the stop is announced every worker that has not returned can take a step |
| ThreadPool.StopTerminates | src/base/ThreadPool.h:87-101 | after the stop is announced the workers take a bounded number of steps, so the joins return |
| Decimal.TextReadsBack | src/logger/LogStream.cc:7-32 | reading the text gives back the number, for every integer; the digits are canonical |
| Decimal.TextInjective | src/logger/LogStream.cc:7-32 | different numbers have different texts |
| Decimal.TextLength | src/logger/LogStream.cc:10-31 | every signed or unsigned 64-bit number takes at most 20 characters |
| LogStream.FixedBuffer.Append | src/logger/FixedBuffer.h:29-40 | the payload grows by the text, unless that would leave no free byte |
| LogStream.FixedBuffer.ReverseRange | src/logger/LogStream.cc:29-29 | the range is reversed in place and nothing before it changes |
| LogStream.FixedBuffer.StoreDigits | src/logger/LogStream.cc:18-22 | the loop stores the digits, least significant first |
| LogStream.FixedBuffer.FormatInteger | src/logger/LogStream.cc:7-32 | the payload grows by the decimal text, or not at all when fewer than 48 characters are free |

## Left out

- Sockets, epoll, eventfd, timerfd, clocks, files and the system allocator: they appear only as parameters and results within their contracts.
- C++ object lifetime (`shared_ptr`, `tie`, `c_str()` bound across threads, the destruction of a server with work queued): payloads are values and the server stays alive.
- `EventLoop::quit`: when a loop ends is not modelled; it wakes the loop only from the loop's own thread, and `loop()` clears the flag on entry.
- TcpConnection.TcpConnection.SendInLoop: demands that the buffer can make room for the rest (`Buffer.RoomFor`); where it cannot, `append` in the source writes beyond its vector and nothing is modelled.
- Buffer.Buffer.Append: demands that room can be made or that `resize` throws; otherwise the source writes beyond its vector and nothing is modelled.
- Buffer.Buffer.RetrieveAsString: demands that the bytes asked for lie within the array; beyond it the source reads foreign memory.
- Memory pool addresses are unbounded: that a block ends below 2^64 is taken for granted.
- TimerSpec.TimersOnSchedule: intervals are exact reals, so the rounding of `double` seconds to microseconds is not modelled; the interval actually used is the same at every restart.
- Timers waiting in the loop's task queue: a timer enters the model when `addTimerInLoop` runs.
- `TcpConnection::handleRead` on the input buffer: its three outcomes are steps of `TcpServer`, its bytes are `Buffer.Buffer.ReadFd`.
- AsyncLogging.LinesConservedIff: speaks of a running logger; `threadFunc` exits without writing what is left.
- The choice of an io loop, accepting sockets, addresses, threads and their start: an arbitrary loop is chosen by the environment.
- Log files, their rolling and names, log levels and the other `LogStream` overloads: input and output, or easy.
