# Verified models of the server's shared data structures

This project models six stateful data structures of the server in Dafny and proves what they are for. Each is
proved against something much simpler: the timing wheel against a plain list of pending timers, the shared-memory
ring against a queue of byte strings, the arena against a log of pieces handed out, and so on.

| part | files | what it stands for |
|---|---|---|
| timing wheel | `array_list`, `timer_id`, `timer_model`, `timer_laws`, `timer_ledger`, `timer_runs`, `timer_theorems`, `timer_ids`, `timer_life`, `timer_wheel`, `timer_queue` | an ideal scheduler: one list of pending timers in queueing order, and ledgers of what was queued, fired and cancelled |
| message ring | `byte_ring`, `message_queue`, `spsc_ring` | a FIFO of byte strings; then two processes interleaved byte by byte |
| arena | `arena_state`, `arena_safety`, `arena_runs`, `arena_calls`, `arena_paths`, `arena_growth`, `arena_cleanup`, `arena_pieces`, `arena_chunks`, `arena_space`, `arena_watch`, `arena_log` | any number of threads, one shared word per step, every interleaving, with Reset in between |
| symbol index | `symbol_names`, `symbol_index` | a search through all keys for one that encloses a name |
| symbol tables | `table_state`, `symbol_tables` | nested transactions over three maps |
| object pool | `obj_handle`, `pool_model`, `obj_pool` | a free list, a generation number per slot, and handles |

`sequences` holds facts about finite sequences and sums that the parts share. `dafny verify dfyconfig.toml` checks
the whole project.

## How the models are built

**Timing wheel.** `TimerQueue.CTimerQueue` has the source's fields: link cells holding signed byte distances, node
data, the free stack's top, the iterator, the two clocks and the counters per type. It works in place. The free stack and
the bucket rings share the link fields of the nodes. The ghost field `m` is the ideal scheduler, and every method says
which ideal operation it performs, so what is proved about runs of the ideal scheduler holds for the wheel. A task is an
arbitrary finite sequence of Schedule and Cancel calls, chosen freely for each firing and each tick it may see. The wall
clock is a parameter. The ghost parameter `h` says how far a run goes: no tick from `h.last` on is processed and no SkipTick
goes beyond `h.skip`. What the callers owe is that a timer does not wrap 2^32 when it is set nor at any repeat within the
run, that it is not set with period 0 and repeat count 0, and that SkipTick is not called into the past. `PeriodFits`
follows the repeats of a timer one by one: without SkipTick the period counts from the last expiry, and a SkipTick makes
it count from the tick jumped to. `RoomAbove` says that a period with room above `h.last` is always enough. Each of these
duties is shown to be needed: `ScheduleWraps`, `RepeatWraps`, `ZeroPeriodZeroRepeat`, `SkipIntoThePast`. No duty is imposed
on `DoSchedule`, `DoCancel` and timer ids; there the 32-bit arithmetic wraps. Timer ids are treated at every moment,
inside tasks and in the middle of a walk too: an `Event` is the smallest thing that happens to a queue, and every operation is shown to be a sequence of events.

**Message ring.** `MessageQueue.MessageQueue` is the queue used by one caller at a time, attached to a `Region` of
shared memory that it sets up itself or finds as another process has left it. `SpscRing` is the same queue
shared by one sending and one receiving process. There a step reads one index, moves one byte or publishes one index,
and a snapshot of the other side's index may be stale by the time it is used. Steps are taken to be seen by the other
process in the order in which they are made; the source has no fences. Both parts compute the test for splitting a payload
in signed 32-bit arithmetic that wraps, as lines 77 and 116 of `message_queue.cc` do; when the sum overflows a copy passes
the end of the ring, and from then on nothing is said of the queue. `length + sizeof(unsigned int)` on line 104 is taken as
a 64-bit sum.

**Arena.** A step of a thread touches at most one of the shared words `threads_`, `hint_` and `space_allocated_`; the
walk of `FindThreadInfo` is one step, for it reads `threads_` once and then follows links that no longer change.
`avail()` wraps below zero as in the source. The
allocator may answer any address that is aligned and apart from all live blocks. Other arenas may take over a thread's cache at any
time between two calls, with a lifecycle id that is not this arena's; lifecycle ids are unique. The state carries a
history of every piece handed out and of every cleanup registered.

**Symbol tables.** Anything that can happen between two checkpoint calls is a tree of insertions, allocations and inner
transactions. `ExecAll` gives its meaning and the class `Tables` performs it in place.

## What turned out to differ from the documentation

- `descriptor_database.h:197-199` says that no key of `by_symbol_` is a prefix of another. `AddSymbol` breaks this when the
  new name sorts before the first key: `FindLastLessOrEqual` then answers that first key and the code steps past it.
  `SymbolIndex.DescriptorIndex.AddSymbol` states for all inputs when a name is accepted, and
  `SymbolIndex.PassedOverKeySlips` gives the input.
- `descriptor_database.h:253-255` calls the parent `super_symbol`; the code treats its first argument as the parent.
- `timer_queue.h:92` says that Cancel always leaves the invalid id behind; the code leaves the caller's id as it was when
  nothing is cancelled, and so does `DoCancel`.
- Nothing limits the size of a message ring, but `message_queue.cc:77` and `:116` add two ints. In rings of up to
  0x4000_0006 bytes the sum never overflows (`ByteRing.SafeSizes`). In every larger one, up to 2^31 - 1 bytes, some short
  history makes SendMsg accept a message and copy it beyond the end of the ring (`SpscRing.LargeRingsLeave`): for instance
  one of size - 12 bytes into an empty ring whose indices stand five bytes before the end.
- `arena_impl.h:86-87` does not look at the address of an initial block. What the arena hands out is 8-byte aligned exactly if that
  block is (`ArenaLog.AlignedExactly`).
- `arena_impl.h:86-87` asks an initial block only for room for a header. `ArenaRuns.InitialBlockTooSmall` shows
  that the first piece stays inside the block exactly if there is room for a ThreadInfo as well, and that otherwise
  `avail()` wraps and the next request is served from beyond the end of the block.
- `obj_desc.h:128` shifts the type as a signed int. Packing loses nothing for any type, but the upper half of the result
  is the id exactly for types below 128 (`ObjHandle.PackInjective`).

## Model

| member | source | states |
|---|---|---|
| ArrayList.LinkArrives | common/jybase/array_list.h:307-321 | a stored byte distance leads back to the cell it was made for, is zero only from a cell to itself, and never looks like an orphan mark |
| ArrayList.Link | common/jybase/array_list.h:307-311 | the two links are set to opposite distances, and nothing else changes |
| ArrayList.PushBack | common/jybase/array_list.h:262-267 | a ring of xs becomes a ring of xs with the node at its end; only three cells change |
| ArrayList.Erase | common/jybase/array_list.h:269-280 | a ring loses exactly that node, the node becomes an orphan, and the answer is the cell that followed it |
| ArrayList.RingNodeFlags | common/jybase/array_list.h:412-415 | no node in a ring looks free or orphaned, and both its links lead to its neighbours |
| ArrayList.Reset | common/jybase/array_list.h:350-361 | the stack holds all nodes, the first on top, and the bucket heads are untouched |
| ArrayList.Pop | common/jybase/array_list.h:407-410 | the stack loses its top |
| ArrayList.Push | common/jybase/array_list.h:387-394 | an orphan becomes the top of the stack, and no other cell changes |
| ArrayList.MendedRing | common/jybase/array_list.h:298-303 | setting right the one bad next link of a list whose prev chain is whole gives a well formed ring |
| TimerId.DecodeEncode | common/jybase/timer_queue.h:151-180 | decoding gives back every legal type, position and sequence number; no legal id is the invalid one; position, sequence number and type take the low 32, the next 16 and the top 16 bits |
| TimerId.EncodeDecode | common/jybase/timer_queue.h:166-180 | every id that decoding accepts is the encoding of legal parts |
| TimerId.StepSeqCounts | common/jybase/timer_queue.h:182-190 | the sequence number is that of the number of uses, wrapping from 59999 to 1 |
| TimerId.SeqRepeats | common/jybase/timer_queue.h:182-190 | a sequence number comes back exactly after multiples of 59999 uses |
| TimerModel.SchedulePart | common/jybase/timer_queue.cc:128-171 | Schedule keeps each node in exactly one place: queued, free or running |
| TimerModel.CancelPart | common/jybase/timer_queue.cc:173-252 | Cancel with any id at all keeps each node in exactly one place, so no node is freed twice |
| TimerModel.EndPart | common/jybase/timer_queue.cc:440-462 | the end of a firing returns the orphan to the queue or to the free stack, in either kind of walk |
| TimerLaws.ActWalks | common/jybase/timer_queue.cc:428-463 | whatever a task does within the duties above, nothing pending becomes overdue and no timer becomes due at the tick being processed; what was due stays so in order, less what was cancelled |
| TimerLaws.FireOneWalks | common/jybase/timer_queue.cc:428-463 | a firing leaves fewer timers due at the tick, none of them new |
| TimerLaws.RoomAbove | common/jybase/timer_queue.cc:445-451 | a period that leaves room above the last tick never makes a repeat wrap, however often SkipTick moves it |
| TimerLaws.EndFits | common/jybase/timer_queue.cc:445-451 | a timer that is queued again expires later than the tick its period counts from, and keeps to the duties |
| TimerLaws.RunTo | common/jybase/timer_queue.cc:265-299 | the loop ends, with the wheel at the tick asked for and nothing pending overdue, for Tick and for SkipTick |
| TimerLedger.DropCounts | common/jybase/timer_queue.cc:608-619 | cancelling keeps m_timerCount exact for every type, so the clamp is not taken |
| TimerLedger.EndCounts | common/jybase/timer_queue.cc:608-619 | so does the end of a firing |
| TimerLedger.EndLedger | common/jybase/timer_queue.cc:440-462 | a repeat is entered in the books as a new arming, and the books balance |
| TimerRuns.TickFiresWhatIsDue | common/jybase/timer_queue.cc:425-481 | processing a tick fires exactly the timers pending for it that no task cancels first, each once, in queueing order, nothing else, and leaves nothing due |
| TimerRuns.CatchUpFiresWhatIsDue | common/jybase/timer_queue.cc:254-276 | over many ticks every arming that expires before the target is fired or cancelled exactly once, at its own tick, in order of expiry, repeats and new timers included |
| TimerRuns.SkipFiresOnlyOldTimers | common/jybase/timer_queue.cc:279-301 | SkipTick fires each timer pending at entry that expires before the target at most once, exactly once unless cancelled, and fires nothing else |
| TimerTheorems.NeverEarlyLateOrSkipped | common/jybase/timer_queue.cc:128-301 | in every run from creation each arming is fired once, on time, or cancelled, or pending for a tick still to come; nodes are partitioned and the counts exact |
| TimerIds.CancelHits | common/jybase/timer_queue.cc:173-252 | Cancel changes something exactly if the id names a node in use with that type and place in the sequence cycle |
| TimerIds.ScheduleId | common/jybase/timer_queue.cc:149-170 | the id answered is legal, names the node queued, and cancels it |
| TimerIds.IdLivesWithItsTimer | common/jybase/timer_queue.cc:128-252 | short of 59999 more uses of the node, Cancel with the id that Schedule answered takes effect exactly while that timer is alive and otherwise changes nothing, at every moment, in tasks and walks too, wherever the id was answered |
| TimerIds.IdRevives | common/jybase/timer_queue.h:182-190 | the bound is exact: after 59999 more uses the old id cancels a live timer of that type on the node |
| TimerIds.FireOneEvents | common/jybase/timer_queue.cc:428-463 | a firing is the start of its task, the task's calls one by one, and its end |
| TimerIds.RunEvents | common/jybase/timer_queue.cc:128-301 | every run of operations, with all its walks and tasks, is such a sequence of events |
| TimerIds.DeadIdDoesNothing | common/jybase/timer_queue.cc:173-204 | after any run of operations in which its node was freed or used again, short of 59999 more uses, an id does nothing |
| TimerLife.ScheduleExact | common/jybase/timer_queue.cc:128-171 | Schedule refuses exactly without a free node or for a repeat without a period, changing nothing; otherwise the first free node is queued last, for the present tick plus the delay, or plus 1 if the delay is 0, when that sum does not wrap, with the period and count given |
| TimerLife.HashExact | common/jybase/timer_queue.h:142-145 | the first 36001 ticks go to the buckets in order, and ticks share a bucket exactly if they are a multiple of 36001 apart |
| TimerLife.FiredAsOftenAsAsked | common/jybase/timer_queue.cc:428-463 | a timer set with count r, 0 standing for 2^32, and never cancelled: at every moment, in tasks and walks too, the firings so far and those its node shows as left add up to r, it is in use just while some are left or its last task runs, and without SkipTick the j-th firing is for its first expiry plus j periods |
| TimerLife.FiresOnSchedule | common/jybase/timer_queue.cc:128-276 | over every run of Tick and calls such a timer has been fired for just those of the ticks delay, delay + period, and so on after it was set that the wheel has passed, r at most, each at that very tick; then it is pending for the next one, or done and its node free or used again |
| TimerLife.CancelledForGood | common/jybase/timer_queue.cc:206-246 | after a Cancel that takes effect, on a queued timer or on the one whose task is running, that timer is never queued or fired again, whatever happens; the node is free at once, or when the running task has ended |
| TimerTheorems.SkipIntoThePast | common/jybase/timer_queue.cc:287-291 | the exact condition under which a timer set after SkipTick to a given tick lands behind the wheel |
| TimerTheorems.ZeroPeriodZeroRepeat | common/jybase/timer_queue.cc:137-141 | of the timers that the guard lets through exactly those with period 0 and repeat count 0 are due again at the tick they ran |
| TimerTheorems.ScheduleWraps | common/jybase/timer_queue.cc:143-154 | a new timer expires after the present tick exactly if the 32-bit sum does not wrap |
| TimerTheorems.RepeatWraps | common/jybase/timer_queue.cc:448-451 | a timer queued again expires after the tick its period counts from exactly if it has a period and the 32-bit sum does not wrap |
| TimerWheel.FlagsTell | common/jybase/timer_queue.cc:206-246 | the link tests of Cancel tell exactly whether a node is running, queued or free |
| TimerWheel.LinksPush | common/jybase/timer_queue.cc:160 | pushing on one bucket leaves all 36001 rings and the free stack as the list of pending timers calls for |
| TimerWheel.LinksErase | common/jybase/timer_queue.cc:228-232 | so does erasing from one bucket |
| TimerWheel.StandsAct | common/jybase/timer_queue.cc:206-246 | no call a task can make, cancelling the node under the iterator included, makes the iterator skip a due node |
| TimerWheel.DueInBucket | common/jybase/timer_queue.h:142-145 | the timers due at a tick are those found by scanning one bucket, in queueing order |
| TimerWheel.ScanNode | common/jybase/timer_queue.cc:428-477 | in the bucket of the tick `tick >= m_expire` holds just when they are equal, and the iterator always moves on |
| TimerWheel.ScanFires | common/jybase/timer_queue.cc:428-463 | the due node under the iterator is the one the ideal scheduler fires next, and fewer are due after it |
| TimerQueue.CTimerQueue.constructor | common/jybase/timer_queue.cc:528-607 | a new queue is the ideal one with every node free |
| TimerQueue.CTimerQueue.Schedule | common/jybase/timer_queue.cc:128-171 | the wheel does what the ideal scheduler does, with the same id, and refuses in the same cases |
| TimerQueue.CTimerQueue.Cancel | common/jybase/timer_queue.cc:173-252 | the wheel does what the ideal scheduler does, for every id; the iterator moves exactly if the node under it goes; the clamp on the counter is not met |
| TimerQueue.CTimerQueue.CheckTickArray | common/jybase/timer_queue.cc:425-481 | walking the bucket while tasks change it fires what the ideal scheduler fires, the count answered is right, the walk ends at the list head, and the repair branch is not reached |
| TimerQueue.CTimerQueue.SkipTickArray | common/jybase/timer_queue.cc:484-526 | the same for the walk that bases repeats on the tick jumped to |
| TimerQueue.CTimerQueue.Tick | common/jybase/timer_queue.cc:254-276 | Tick is the ideal catching up, for any clock value, also one in the past; the answer is the number of firings |
| TimerQueue.CTimerQueue.SkipTick | common/jybase/timer_queue.cc:279-301 | SkipTick is the ideal catching up with the tasks' clock already at the target |
| TimerQueue.CTimerQueue.DoBadTimeList | common/jybase/timer_queue.cc:362-423 | a node linked to itself is mended exactly if fixing is asked for and it lies within 10000 steps of the end, giving the ring that the prev chain calls for; else nothing changes but the quit flags |
| TimerQueue.CTimerQueue.DecTimerCount | common/jybase/timer_queue.cc:612-619 | one counter goes down by one unless it is not positive, and no other changes |
| ByteRing.DecodeEncode | common/container/message_queue.cc:65-70 | the four length bytes read back give the length that was written |
| ByteRing.PlaceExact | common/container/message_queue.cc:109-124 | each byte of a frame is placed where the indices go, or beyond the end of the ring, the latter exactly from the first byte that does not fit when the signed sum overflows |
| ByteRing.SafeSizes | common/container/message_queue.cc:104-116 | no frame that fits makes the signed sum overflow if and only if the ring has at most 0x4000_0006 bytes |
| ByteRing.HoldsJoin | common/container/message_queue.cc:109-127 | bytes written behind held bytes extend what the buffer holds, also across its end |
| ByteRing.HoldsPart | common/container/message_queue.cc:65-88 | what is left after reading a first part is held at the advanced index |
| MessageQueue.MessageQueue.Attach | common/container/message_queue.cc:25-40 | attaches exactly to regions with room for the head and the slack; an initialised region is an empty queue exactly if its size fits an int, and one in which no accepted message is ever misplaced exactly if it has at most 0x4000_0006 bytes; any other is taken as it is |
| MessageQueue.MessageQueue.Sizes | common/container/message_queue.cc:131-147 | the left size is never negative, used and left sizes are exact, and head meets tail exactly when the queue is empty |
| MessageQueue.MessageQueue.SendMsg | common/container/message_queue.cc:93-129 | the payload is accepted exactly if it fits beside what is queued, and then queued exactly if the signed sum does not overflow, which it never does in a ring of at most 0x4000_0006 bytes; if refused nothing changes |
| MessageQueue.MessageQueue.WriteHeader | common/container/message_queue.cc:109-114 | the length is written byte by byte from the tail on, wrapping, and nothing else in the buffer changes |
| MessageQueue.MessageQueue.CopyIn | common/container/message_queue.cc:116-124 | the payload is written in one or two pieces as a wrapped byte string, unless the signed sum overflows, when a single copy would pass the end |
| MessageQueue.MessageQueue.ReadHeader | common/container/message_queue.cc:65-70 | reads the length that is held, wrapping |
| MessageQueue.MessageQueue.CopyOut | common/container/message_queue.cc:77-85 | the caller's buffer gets the payload in one or two pieces, as the signed sum says, and is unchanged behind it |
| MessageQueue.MessageQueue.RecvMsg | common/container/message_queue.cc:42-91 | the oldest payload comes out byte for byte exactly if there is one; the exits for malformed frames are not reached, and the signed sum does not overflow for a frame that has come in |
| SpscRing.SenderWritesFreeByte | common/container/message_queue.cc:109-124 | with a stale head index the sender never writes over an unread byte |
| SpscRing.SenderKeeps | common/container/message_queue.cc:93-129 | every step of the sender keeps the invariant of both processes, but for one that leaves the ring, and that happens exactly when the sum has overflowed and what fits before the end is written |
| SpscRing.ReceiverReadsPublishedByte | common/container/message_queue.cc:65-85 | with a stale tail index the receiver reads only published bytes, the right ones |
| SpscRing.ReceiverDecides | common/container/message_queue.cc:59-75 | the receiver reads on exactly while bytes of the oldest frame are missing, and never takes it for malformed |
| SpscRing.ReceiverKeeps | common/container/message_queue.cc:42-91 | every step of the receiver keeps the invariant of both processes |
| SpscRing.ReceivedIsPrefixOfSent | common/container/message_queue.cc:42-129 | under every interleaving, unless a frame has left the ring, the messages received are a prefix of those sent and the indices meet exactly when all have been received; no frame leaves a ring of at most 0x4000_0006 bytes |
| SpscRing.LargeRingsLeave | common/container/message_queue.cc:104-123 | in every larger ring some schedule makes an accepted frame leave it |
| SpscRing.SendAlone | common/container/message_queue.cc:93-129 | a sender left to run accepts the message exactly if it fits, and sends it exactly if the signed sum does not overflow; else its frame leaves the ring |
| SpscRing.ReceiveAlone | common/container/message_queue.cc:42-91 | a receiver left to run takes the oldest message, and nothing exactly if there is none |
| ArenaSafety.PiecesLieApart | thirdparty/protobuf-3.5.1/arena.cc:217-228 | any two pieces ever handed out are aligned as their blocks are, inside live blocks behind their headers, and disjoint |
| ArenaSafety.CacheNamesOwnBlock | thirdparty/protobuf-3.5.1/arena.cc:193-202 | a cache with this arena's lifecycle id names a live block of this very thread |
| ArenaSafety.HintNamesOwnBlock | thirdparty/protobuf-3.5.1/arena.cc:204-213 | a hint whose block is owned by this thread names a live block of its own list |
| ArenaSafety.UseUsed | thirdparty/protobuf-3.5.1/arena.cc:138-187 | handing out memory, registering and growing the chunk list keep memory sound and touch only this thread |
| ArenaSafety.CasSafe | thirdparty/protobuf-3.5.1/arena.cc:351-356 | the compare-and-swap loses no ThreadInfo: it puts this one in front of all pushed before, or changes nothing |
| ArenaSafety.FirstBlockSafe | thirdparty/protobuf-3.5.1/arena.cc:342-349 | a thread's first block is new, all the thread has and owned by it, holds its ThreadInfo, and has room left for what was asked |
| ArenaSafety.RoomSafe | thirdparty/protobuf-3.5.1/arena.cc:230-245 | the block used by the slow path has room for what is asked, a new one being added if need be |
| ArenaSafety.PublishSafe | thirdparty/protobuf-3.5.1/arena_impl.h:197-204 | storing cache and hint keeps both naming own live blocks |
| ArenaSafety.StepSafe | thirdparty/protobuf-3.5.1/arena.cc:189-245 | every step of every thread keeps all of this |
| ArenaRuns.InitSafe | thirdparty/protobuf-3.5.1/arena.cc:67-87 | Init, first or inside Reset, gives a sound arena whose new lifecycle id makes every older cache invalid |
| ArenaRuns.InitialBlockTooSmall | thirdparty/protobuf-3.5.1/arena_impl.h:84-94 | the ThreadInfo stays inside an initial block exactly if that has room for it behind the header; otherwise the next request of any size is served from beyond the end |
| ArenaRuns.ArenaIsSafe | thirdparty/protobuf-3.5.1/arena.cc:67-360 | in every run with any threads, other arenas and Resets: pieces inside, disjoint and, given an aligned initial block or none, aligned; caches and hint right, no thread lost |
| ArenaLog.AlignedExactly | thirdparty/protobuf-3.5.1/arena_impl.h:84-94 | in every reachable state all pieces are 8-byte aligned if and only if the initial block is |
| ArenaCalls.StepDelivers | thirdparty/protobuf-3.5.1/arena.cc:169-187 | every step of a call either leaves everything asked for to a later step or hands it out, once: the bytes in a block of the thread, the registration of the right address |
| ArenaLog.CallsAreServed | thirdparty/protobuf-3.5.1/arena.cc:138-187 | in every run each thread has got, call by call in the order of its calls since the last Reset, the bytes and registrations it called for and nothing else |
| ArenaLog.CallEnds | thirdparty/protobuf-3.5.1/arena.cc:189-360 | a call left to itself ends within 16 steps, from wherever it stands, a compare-and-swap with a stale view of the list included |
| ArenaGrowth.StepGetsWhatItAsks | thirdparty/protobuf-3.5.1/arena.cc:230-245 | a step that asks for a block puts just that block in front of its thread's list; any other step leaves all blocks, their sizes and lists alone |
| ArenaGrowth.BlocksDouble | thirdparty/protobuf-3.5.1/arena.cc:106-117 | in every reachable state each block of a thread is at least twice as large as the one before it, up to the largest block size |
| ArenaPaths.AsksWhenFull | thirdparty/protobuf-3.5.1/arena.cc:106-117 | the allocator is asked for a thread's first block, and when its newest block lacks the bytes wanted, and never else; for the start size, or twice the newest block up to the largest size, and for more only if the request needs it, and then for just that |
| ArenaPaths.CacheServes | thirdparty/protobuf-3.5.1/arena.cc:193-202 | a cache with the arena's lifecycle id serves what fits its block at once, without a shared word; what does not fit goes on with that block remembered |
| ArenaPaths.HintServes | thirdparty/protobuf-3.5.1/arena.cc:204-214 | the hint serves what fits its block exactly if that block is the thread's own; otherwise the slow path follows and nothing has changed |
| ArenaPaths.SlowPathCaches | thirdparty/protobuf-3.5.1/arena_impl.h:197-204 | the slow path leaves its block in the thread's cache and in the hint |
| ArenaPaths.InitCaches | thirdparty/protobuf-3.5.1/arena.cc:67-87 | an initial block is in the hint and in the cache of the thread that called Init, and is all that is allocated |
| ArenaPaths.RegistersInBlock | thirdparty/protobuf-3.5.1/arena.cc:138-167 | a cleanup takes a free place of the newest chunk, or else a new chunk of 152, 280, 536 or 1048 bytes in that very block if it fits, and asks for memory for one only if it does not |
| ArenaCleanup.ChunkSizes | thirdparty/protobuf-3.5.1/arena.cc:138-153 | the chunks have 8, 16, 32 and then always 64 places |
| ArenaChunks.ChunksHaveRoom | thirdparty/protobuf-3.5.1/arena_impl.h:123-131 | in every reachable state each cleanup chunk has its own piece of memory in a block of its thread, of 24 bytes and 16 for each of its nodes: 152, 280, 536 and then always 1048 |
| ArenaChunks.ChunksLieApart | thirdparty/protobuf-3.5.1/arena.cc:138-153 | in every reachable state no two of these pieces overlap |
| ArenaCleanup.PutInChunk | thirdparty/protobuf-3.5.1/arena.cc:163-166 | a cleanup put in the newest chunk becomes the first to be run |
| ArenaCleanup.PutInNewChunk | thirdparty/protobuf-3.5.1/arena.cc:158-166 | so does one for which a new chunk had to be made |
| ArenaCleanup.RunBooked | thirdparty/protobuf-3.5.1/arena.cc:138-187 | over every run each thread's chunks hold exactly its registrations, and a thread with chunks is on the list |
| ArenaCleanup.CleanupList | thirdparty/protobuf-3.5.1/arena.cc:300-317 | runs each thread's cleanups in exact reverse order of registration, and every one as often as it was registered |
| ArenaCleanup.RunChunk | thirdparty/protobuf-3.5.1/arena.cc:309-313 | the nodes of one chunk from the last to the first |
| ArenaCleanup.UndoneIsAll | thirdparty/protobuf-3.5.1/arena.cc:300-317 | no registration of any thread is left out or run twice |
| ArenaCleanup.FindThreadInfo | thirdparty/protobuf-3.5.1/arena.cc:330-340 | the walk finds a thread exactly if it has been pushed |
| ArenaSpace.StepSound | thirdparty/protobuf-3.5.1/arena.cc:106-123 | every step changes a thread's accounts by as much as the arena's, and no other thread's |
| ArenaSpace.ArenaKeepsBooks | thirdparty/protobuf-3.5.1/arena.cc:67-245 | in every reachable state cleanups are recorded and space_allocated_ is the sum of live block sizes |
| ArenaWatch.RunsAreWatched | thirdparty/protobuf-3.5.1/arena.cc:189-245 | between two Resets the lists only grow at the front and blocks are only filled, whoever looks and whenever |
| ArenaWatch.SpaceUsed | thirdparty/protobuf-3.5.1/arena.cc:251-265 | despite the wrapping subtraction, and while other threads go on allocating, the answer lies between the bytes handed out to callers and for chunks at the call and those at the return, if these fit 64 bits, and else agrees with such a number but for wrapping |
| ArenaSpace.FreeBlocks | thirdparty/protobuf-3.5.1/arena.cc:267-298 | gives back every block but the initial one, each once, and answers space_allocated_ |
| ArenaSpace.Reset | thirdparty/protobuf-3.5.1/arena.cc:96-104 | the cleanups run, the blocks are given back, the answer is what was allocated, and the arena is as new |
| SymbolNames.Between | thirdparty/protobuf-3.5.1/descriptor_database.h:232-240 | a legal name that sorts between a scope and something in that scope is in the scope |
| SymbolNames.LessExact | thirdparty/protobuf-3.5.1/descriptor_database.h:211-240 | a name is less than another exactly if it ends or has the lesser character at the first place where they differ |
| SymbolNames.EnclosesExact | thirdparty/protobuf-3.5.1/descriptor_database.cc:229-235 | a name encloses itself and what continues it after a dot, and nothing else |
| SymbolNames.LegalExact | thirdparty/protobuf-3.5.1/descriptor_database.cc:237-250 | the legal names are those of the characters "._", the digits and the letters, listed one by one |
| SymbolIndex.MatchIsPredecessor | thirdparty/protobuf-3.5.1/descriptor_database.h:211-240 | a key that encloses the search name is the last key not above it |
| SymbolIndex.FindSymbolFindsTheMatch | thirdparty/protobuf-3.5.1/descriptor_database.cc:182-189 | for any search string at most one key encloses it, and the search answers that key's value, and nothing exactly if there is none |
| SymbolIndex.UpperBound | thirdparty/protobuf-3.5.1/descriptor_database.cc:223-224 | the first key above the name |
| SymbolIndex.ConflictIsNear | thirdparty/protobuf-3.5.1/descriptor_database.cc:116-120 | a key that conflicts with a new name shows in one of the name's two neighbours |
| SymbolIndex.InsertedSorted | thirdparty/protobuf-3.5.1/descriptor_database.cc:131-134 | an accepted name is put where the order wants it |
| SymbolIndex.InsertedAncestorFree | thirdparty/protobuf-3.5.1/descriptor_database.h:197-199 | after an insertion the map invariant holds exactly if it held before and nothing conflicted |
| SymbolIndex.InsertedEntries | thirdparty/protobuf-3.5.1/descriptor_database.cc:131-134 | an insertion adds that entry and keeps every other |
| SymbolIndex.FoundAfterInserting | thirdparty/protobuf-3.5.1/descriptor_database.cc:182-189 | after inserting a name without conflicts the search answers its value for the name and all that continues it after a dot, and for every other string what it answered before |
| SymbolIndex.DescriptorIndex.ValidateSymbolName | thirdparty/protobuf-3.5.1/descriptor_database.cc:237-250 | answers true exactly if every character is legal |
| SymbolIndex.DescriptorIndex.AddSymbol | thirdparty/protobuf-3.5.1/descriptor_database.cc:86-137 | from an ancestor-free map a name is accepted exactly if it is legal and conflicts with no key but possibly the one passed over; the invariant is kept exactly if nothing conflicted |
| SymbolIndex.PassedOverKeySlips | thirdparty/protobuf-3.5.1/descriptor_database.cc:216-227 | adding "foo" to a map holding "foo.bar" is accepted and breaks the invariant and a later search |
| TableState.FailedTransactionLeavesNoTrace | thirdparty/protobuf-3.5.1/descriptor.cc:868-917 | after a rollback maps, undo logs, owned objects and checkpoints are what they were at the matching AddCheckpoint, whatever was nested inside |
| TableState.ExecAbove | thirdparty/protobuf-3.5.1/descriptor.cc:856-917 | nothing that happens inside a transaction reaches below its checkpoint, inner commits included |
| TableState.NestingIsTransparent | thirdparty/protobuf-3.5.1/descriptor.cc:852-917 | the tables end up as if only the operations of transactions that did not fail had been made, with no nesting |
| TableState.FirstInsertionStays | thirdparty/protobuf-3.5.1/descriptor.cc:1113-1242 | over any nesting of transactions each of the three tables answers, under every key, what it had there or else the first value inserted by an operation that was not rolled back; each vector of owned objects has grown by just what was allocated to it |
| TableState.AddSymbolExact | thirdparty/protobuf-3.5.1/descriptor.cc:1113-1121 | the new name is found with its value and logged, a name already there keeps its value, and nothing else changes |
| TableState.AddFileExact | thirdparty/protobuf-3.5.1/descriptor.cc:1129-1136 | so for a file name |
| TableState.AddExtensionExact | thirdparty/protobuf-3.5.1/descriptor.cc:1185-1193 | so for an extension |
| TableState.CommitExact | thirdparty/protobuf-3.5.1/descriptor.cc:856-866 | a commit keeps the tables as they are; the outermost one forgets the undo logs, an inner one leaves them to the transaction around it |
| SymbolTables.Tables.RollbackToLastCheckpoint | thirdparty/protobuf-3.5.1/descriptor.cc:868-917 | the erasing loops and the resizing come to the rollback of the value model |
| SymbolTables.Tables.BuildFile | thirdparty/protobuf-3.5.1/descriptor.cc:4228-4242 | building a file, by insertions, allocations and builds of other files in any nesting, is one transaction of the value model; one that fails leaves the tables as they were |
| ObjHandle.IncSeqCounts | common/jybase/obj_desc.h:46-50 | the incarnation number is that of the number of allocations, and fits 24 bits |
| ObjHandle.SeqRepeats | common/jybase/obj_desc.h:46-50 | it comes back exactly after multiples of 0x800000 allocations |
| ObjHandle.PackInjective | common/jybase/obj_desc.h:121-129 | packing is injective and the type can be read back; the upper half is the id exactly for types below 128 |
| PoolModel.HandlesOverRuns | common/jybase/obj_desc.h:150-164 | from a new pool, over every run short of the cycle, a handle taken at any point resolves exactly while that incarnation is alive |
| PoolModel.DeadHandleStaysDead | common/jybase/obj_desc.h:150-164 | once the object is gone the handle resolves to nothing through any later run short of the cycle |
| PoolModel.HandleRevives | common/jybase/obj_desc.h:46-50 | after exactly 0x800000 more allocations a live slot does answer the old handle |
| PoolModel.AllocateExact | common/jybase/obj_pool.h:294-317 | the first free slot becomes busy for one more incarnation, whose handle resolves; every other slot stays as it was, and so does everything if none is free |
| PoolModel.DeallocateExact | common/jybase/obj_pool.h:271-292 | a busy slot goes to the front of the free list and no handle to it resolves any more; for any other slot nothing changes |
| PoolModel.FreedIsUsedNext | common/jybase/obj_pool.h:271-317 | what was freed last is allocated next, as a new incarnation: its new handle resolves and the old one does not |
| PoolModel.ResolveExact | common/jybase/obj_desc.h:150-164 | of all handles with a slot's offset just that of the present incarnation resolves, and only while the slot is busy |
| PoolModel.SlotsApart | common/jybase/buffer_array.h:59-62 | the slots lie one after another from the base on, so none overlap and no two have the same offset |
| ObjPool.ChainPush | common/jybase/obj_pool.h:147-151 | a slot put in front keeps the chain acyclic and exactly the free slots on it |
| ObjPool.ChainPop | common/jybase/obj_pool.h:153-177 | so does taking the first slot |
| ObjPool.BusyCount | common/jybase/obj_pool.h:59-63 | there are as many busy slots as slots missing from the free list |
| ObjPool.TObjPool.constructor | common/jybase/obj_pool.cc:18-53 | a new pool has all slots free, in ascending order |
| ObjPool.TObjPool.ConstructFreeList | common/jybase/obj_pool.h:123-132 | the chain runs through all slots in ascending order |
| ObjPool.TObjPool.SetFreeNode | common/jybase/obj_pool.h:147-151 | the slot goes to the front of the chain |
| ObjPool.TObjPool.GetFreeNode | common/jybase/obj_pool.h:153-177 | takes the first free slot and raises the high-water mark; the repair branch is dead |
| ObjPool.TObjPool.Allocate | common/jybase/obj_pool.h:294-317 | the first free slot starts a new incarnation, and none exactly if all are busy; counters may be rebased |
| ObjPool.TObjPool.Deallocate | common/jybase/obj_pool.h:271-292 | a busy slot becomes the next to be used; a free one is left alone |
| ObjPool.TObjPool.Size | common/jybase/obj_pool.h:59-63 | the number of busy slots, also after the counters were rebased |
| ObjPool.TObjPool.GetObject | common/jybase/obj_desc.h:150-164 | the nil handle and one beyond the end of shared memory resolve to nothing, one into the pool as in the value model |
| ObjPool.TObjPool.ForeachObj | common/jybase/obj_pool.h:216-255 | visits the busy slots in order, all of them unless the callback or the limit ends the walk, and stops right there |
| ObjPool.TObjPool.ResumeNode | common/jybase/obj_pool.h:351-367 | whatever the busy map held, the free list is rebuilt over exactly the free slots and no slot changes sides |

## Left out

- Timing wheel: the resume branch of CreateTimerQueue and its buffer-size exception; counters after a resumed start, which the source sets to zero.
- Timing wheel: task construction, destruction and data; tasks are opaque and what they may do is Schedule and Cancel, so a task that calls Tick itself is not modelled.
- Timing wheel: reading the wall clock, and the cost statistics and log output.
- Timing wheel: the logging loop at the start of DoBadTimeList; the assert on the run-flag pointer.
- Timing wheel: asserts, as in a release build. DecodeTimerId asserts that an id has a nonzero upper half; ids without one are rejected by the range test that follows, which is modelled.
- Timing wheel: the node memory is taken to be zero, with sequence number 1, when a queue is created.
- TimerQueue.CTimerQueue.Tick: requires that no timer wraps when set or at a repeat within the run, and that none has period 0 and repeat count 0; ScheduleWraps, RepeatWraps and ZeroPeriodZeroRepeat say exactly what those conditions prevent. TimerLaws.ActWalks, TimerLaws.RunTo and TimerTheorems.NeverEarlyLateOrSkipped share them.
- TimerQueue.CTimerQueue.SkipTick: besides, the target may lie at most one tick behind the wheel, since the tasks' clock is set before the comparison; SkipIntoThePast says exactly what that prevents.
- TimerQueue.CTimerQueue.DoBadTimeList: one node linked to itself, with an intact prev chain; other damage is not covered.
- Message ring: IsQueueEmpty, which tests another condition than RecvMsg does, and MessageChannel, which drops the queue's answers.
- Message ring: weak memory ordering. SpscRing starts from an initialised region.
- MessageQueue.MessageQueue.SendMsg: what the memory holds after a copy has passed the end of the ring is not modelled.
- MessageQueue.MessageQueue.RecvMsg: the caller's buffer must hold the oldest message; the source cannot check that.
- Arena: weak memory ordering, poisoning for the address sanitizer, overflow of block sizes at 64 bits, and the allocator's own failure.
- Arena: the state is a value changed by steps, so that threads can be interleaved; update in place of block headers and links between blocks is not modelled, a thread keeping its blocks and chunks as sequences. ArenaCleanup.FindThreadInfo proves what the one-step walk of FindThreadInfo finds.
- Arena: cleanup functions are opaque values and do not call the arena.
- Symbol index: AddFile, AddExtension and the extension searches, which are plain map operations.
- Symbol tables: deleting the objects that a rollback drops from the owned vectors; validation and building of descriptors.
- Object pool: FixFreeList, whose call is shown never to be made.
- ObjPool.TObjPool.ForeachObj: not from beyond the high-water mark, where the source's loop runs past its end, nor with a callback that changes the pool.
- ObjPool.TObjPool.GetObject: handles that point into shared memory but not at a slot of this pool are not modelled, because the source then reads whatever is there; the dynamic cast is left out; offsets are not cut to 32 bits.
- ObjPool.TObjPool.Allocate: the object type is taken to have a default constructor of its own; for one without, the source's `::new(p)T()` clears the type and number written just before.
- Object pool: the pool memory is taken to be zero when created.
- Sockets, connection server, zone server, configuration readers, generated messages and the rest of the protobuf runtime.
