# HighCache, modelled and proved

HighCache is a sharded in-memory cache server. This project models its stateful
core in Dafny and proves what that core is for, over every input, every sequence
of operations and, where threads are involved, every interleaving.

The model keeps the form of the source. Objects that change in place are classes
whose methods carry `modifies` clauses; the codec and the reference definitions
are functions; the two concurrent protocols are step systems with one step per
atomic access or critical section.

| file | what it holds |
|---|---|
| `Basics.dfy` | bytes, keys, options, duplicate-free sequences |
| `TimingWheel.dfy` | the 60-slot wheel with round counters, and its exactness over whole runs |
| `CacheSpec.dfy` | the reference cache: values with absolute deadlines, keys in recency order, a clock |
| `CacheLaws.dfy` | what each command does, in numbers and positions, and what histories add up to |
| `RecencyLaw.dfy` | the recency order is the order of last successful use |
| `Memory.dfy` | memory cells, where a free block holds a link and a live one bytes |
| `SlabModel.dfy`, `SlabAccounting.dfy` | the slab allocator's layout and its metrics as facts about memory |
| `ValueAllocator.dfy` | the allocator objects, slab and system |
| `AllocatorRuns.dfy` | the allocator over whole runs, from the history of its clients |
| `CacheRep.dfy` | how map, list, wheel and blocks stand for the reference cache |
| `Cache.dfy` | the cache object and its refinement of the reference cache |
| `Buffer.dfy` | the compacting byte buffer |
| `Codec.dfy` | the encoders and decoders |
| `WireFormat.dfy` | the wire format in literal bytes |
| `Stream.dfy` | a connection's history, and the one-shot parser it is compared with |
| `EngineSteps.dfy`, `Engine.dfy` | the sharded engine, interleaved and as one thread sees it |
| `SharedEngine.dfy` | the engine as one connection meets it, with other threads in between |
| `Connection.dfy` | the connection state machine |
| `ConnectionRuns.dfy` | a connection over many events: what it was offered, and why it is open or was dropped |
| `Session.dfy` | a connection over the engine, end to end |
| `SessionLaws.dfy` | what a client decodes from what it gets, request by request |
| `Handoff.dfy` | the acceptor-to-worker protocol |
| `Balance.dfy` | round robin, and first come first served |
| `Shutdown.dfy` | that shutdown ends and is never stuck |
| `Server.dfy` | threads and connections together |

`dafny verify dfyconfig.toml` checks the whole project.

## Main results

1. **The cache refines a cache without wheel, generations, list nodes or memory**
   (`Caches.Replay`). For every capacity, both allocator backends and every
   command sequence, statuses, outputs, recency order, size, usage, counters and
   allocator figures are those of the reference cache; slabs per class follow from
   peaks that count a new value while what it replaces and evicts is still there.
   The reference cache is
   itself characterised from outside: every command is accepted exactly when the
   limits say so and does exactly what `CacheLaws` says (`CacheLaws.SetAnswer`,
   `CacheLaws.GetLaw`, `CacheLaws.EraseLaw`, `CacheLaws.TickLaw`), the counters are
   what a client would count (`CacheLaws.CountersAreHistory`,
   `CacheLaws.ItemsAreConserved`), eviction removes the shortest least recently
   used suffix that makes room (`CacheSpec.SetEvictsMinimally`), least recently
   used means what the command history says it means (`RecencyLaw.EvictedAreOldest`),
   and a value lives for exactly its rounded-up TTL (`CacheSpec.SetLivesUntilDeadline`).
2. **The wheel is exact** (`TimingWheels.Replay`): each tick returns exactly the
   alarms due at it, for arbitrary interleavings of schedules and ticks.
3. **Stale timers are harmless** (`Caches.OneTimerPerDeadline`,
   `Caches.StaleIsHarmless`, `Caches.MatchIsDue`): an event that matches an entry
   was armed by the very set that wrote the entry's value.
4. **The slab allocator is memory safe and its accounts are exact**
   (`ValueAllocators.AllocatorGuarantees`, `AllocatorRuns.Replay`), although its
   free lists live inside the blocks they manage. Over any run every value reads
   back as it was put, and all metrics and slab counts follow from the history.
5. **Conservation across layers** (`Caches.Conservation`): logical usage is live
   value bytes plus key bytes, and every live block has exactly one owner.
6. **End to end** (`Sessions.Replay`): for a connection over a sharded engine, with
   the stream cut anywhere, the kernel blocking at will and other threads changing
   the shards in between, the engine is called for exactly the requests of the
   stream, each is answered as the sharded reference cache would, and the bytes sent
   and pending are the frames of those answers. The connection is dropped exactly for
   a cause that the kernel gave, for a response that does not fit, or when nothing is
   left to write or expect. A client decodes the right response to each request
   (`SessionLaws.ClientSees`, `SessionLaws.SetThenGet`). Behind it stand chunking
   independence (`Streams.WholeStream`, `Streams.ChunkingIndependence`) and the
   response stream (`Connections.ConnectionGuarantees`).
7. **The codec is a bijection between valid frames and values**, with stable
   verdicts and no early ones (`Codec.RequestRoundTrip`, `Codec.RequestReencodes`,
   `Codec.RequestPrefixIsIncomplete`, `Codec.RequestVerdictIsStable`), and every byte
   of a frame and every verdict is fixed literally (`WireFormat.RequestLayout`,
   `WireFormat.RequestVerdict`).
8. **The engine under interleaving** (`EngineSteps.ReachableEngine`,
   `EngineSteps.FinishedCallIsBounded`), of which the engine object's calls are runs
   (`EngineSteps.QuietTick`, `EngineSteps.QuietRead`).
9. **No lost wakeup, no lost socket, one owner per descriptor, no event for a
   reused number** (`Handoff.NoLostWakeup`, `Handoff.NoLostSocket`,
   `Handoff.OneOwner`, `Handoff.EventsReachTheirConnection`); sockets go to the
   workers in turn and each worker installs its own in order
   (`Balance.RoundRobin`, `Balance.FirstComeFirstServed`).
10. **Shutdown ends** (`Shutdown.StoppedAcceptorEnds`, `Shutdown.StoppedWorkerEnds`,
    `Shutdown.ShutdownProgress`): a bounded number of steps for the acceptor and for
    each worker, and never stuck before `join` has returned.
11. **The whole server** (`Server.ServerGuarantees`): in every interleaving of the
    threads with the connections they serve, each socket's calls and responses are
    those of its own stream, it is dropped only for a cause, and it is closed exactly
    once.

## Modelling decisions

- Sizes and counters are unbounded naturals. Widths matter in four places and are
  written out there: the 64-bit generation source, the eventfd counter, the wire
  fields, and the vector maximum of the byte buffer.
- Generation exhaustion is an outcome, `GenerationExhausted`, that leaves the
  cache's logical state as it was; a connection answers it with an internal error.
- `recv`, `send`, `epoll_wait`, `accept4` and `epoll_ctl` are nondeterministic:
  scripts of results for a connection, free choice of enabled steps in `Handoff`.
- The operating system never hands out a descriptor number that is still open,
  and `epoll_wait` fails only with EINTR.
- Between two calls of one connection other threads may perform any atomic shard
  steps; `SharedEngines.SharedEngine` carries them out on the same engine object.
  Its `calls` and `outcomes` record what the connection asked of the engine.
- An append that the output buffer cannot serve throws `std::length_error`; the
  exception leaves the connection and its worker drops it
  (src/net/cache_server.cpp:229-231). It is the result `Threw`.
- The hash is an arbitrary total function.
- A release build is modelled: `assert` in the source becomes a precondition or is
  proved.
- In the server, stop flags of workers are set only by the joining thread, after
  the acceptor has been joined (src/net/cache_server.cpp:371-382). The branch of
  `enqueue` that drops a socket for a stopped worker is modelled, and
  `Handoff.OneOwner` shows that it is not reached.
- The input-size guard at src/net/connection.cpp:37-40 is kept in
  `Connections.Connection.Absorb`, where it is proved unreachable.

## Model

| member | source | states |
|---|---|---|
| TimingWheels.Ticks | src/timer/timing_wheel.cpp:12-17 | a positive TTL is rounded up to whole ticks: one tick fewer would be too short |
| TimingWheels.PlacementIsExact | src/timer/timing_wheel.cpp:16-20 | the chosen slot's distance (1 to 60) plus 60 times the chosen rounds is exactly the delay |
| TimingWheels.WheelCountTurn | src/timer/timing_wheel.cpp:27-32 | turning the hand leaves every deadline outside the reached slot where it was |
| TimingWheels.WheelCountTick | src/timer/timing_wheel.cpp:26-46 | a tick loses exactly the swept-out alarms, and no other |
| TimingWheels.Sweep | src/timer/timing_wheel.cpp:34-43 | the slot loop returns exactly the events without rounds left, in order; the others stay in order with one round less and keep their due tick; none is lost or doubled |
| TimingWheels.TimingWheel.Schedule | src/timer/timing_wheel.cpp:8-24 | adds exactly one alarm, due ceil(ttl/1000) ticks from now |
| TimingWheels.TimingWheel.Tick | src/timer/timing_wheel.cpp:26-46 | advances the clock by one and moves alarms between pending and expired with multiplicity; what it returns are the due events of the reached slot in order |
| TimingWheels.TimingWheel.PendingIsFuture | src/timer/timing_wheel.cpp:26-46 | whatever is still pending is due later than now |
| TimingWheels.ArmLater | src/timer/timing_wheel.cpp:8-24 | arming an alarm never disturbs a tick that has already happened |
| TimingWheels.TurnOnce | src/timer/timing_wheel.cpp:26-46 | one tick hands out precisely the alarms armed for its number |
| TimingWheels.Replay | src/timer/timing_wheel.cpp:8-46 | for any run, tick number t returns exactly the alarms armed with due tick t: none early, late, twice or lost |
| CacheSpec.KeepIsLongestFittingPrefix | src/cache/cache.cpp:121-141 | the surviving keys are the longest recency prefix that fits: it fits, and one key more would not |
| CacheSpec.SetEvictsMinimally | src/cache/cache.cpp:105-157 | after an accepted set the key leads with its new value and deadline; the others kept are the longest fitting prefix, unchanged; every evicted key is counted |
| CacheSpec.TouchThenStore | src/cache/cache.cpp:120-127 | moving the key to the front before evicting does not change the outcome of an overwrite |
| CacheSpec.EvictThenStore | src/cache/cache.cpp:121-123 | one more eviction while the value does not fit does not change the outcome, and the victim is never the key itself |
| CacheSpec.LastIsNotFront | src/cache/cache.cpp:120-123 | the key being overwritten stands at the front, so it is not the one evicted |
| CacheSpec.ExpireOne | src/cache/cache.cpp:197-208 | removing due keys one by one, in any order, gives what expiring all of them gives |
| CacheSpec.ChargeSplits | src/cache/cache.cpp:243-246 | the total charge is total key bytes plus total value bytes |
| CacheSpec.StepValid | src/cache/cache.cpp:92-208 | every command keeps: usage within capacity, bounded keys and values, list and map in step, no deadline passed |
| CacheSpec.RunValid | src/cache/cache.cpp:92-208 | the same in every reachable state |
| CacheSpec.StepWrites | src/cache/cache.cpp:270-276 | each command adds to the record of generations exactly its own accepted set |
| CacheSpec.WrittenIsHistory | src/cache/cache.cpp:270-276 | after any run, generation g names the g-th accepted set of the history, told from commands and answers alone, with its deadline |
| CacheSpec.SetLivesUntilDeadline | src/cache/cache.cpp:115-126 | after an accepted set and with the key left alone, a get returns that value exactly when fewer than ceil(ttl/1000) ticks have passed (or the TTL is zero) and no set has evicted the key; otherwise not-found |
| CacheLaws.SetAnswer | src/cache/cache.cpp:92-108 | a set answers Ok, or each refusal, exactly under its own condition in bytes and numbers, the first that applies; a refused set changes nothing |
| CacheLaws.SetAccepted | src/cache/cache.cpp:110-157 | an accepted set keeps every other figure; an item that fills the capacity is stored alone |
| CacheLaws.GetLaw | src/cache/cache.cpp:159-180 | a get answers by the key's length and presence, with the stored value; a hit moves the key from its place to the front and counts, a miss only counts |
| CacheLaws.EraseLaw | src/cache/cache.cpp:182-195 | an erase is accepted exactly when a get would hit; it removes the key and nothing else, keeps the order of the others, lowers usage by the charge, and the next get misses |
| CacheLaws.ErasedStaysGone | src/cache/cache.cpp:182-195 | after an accepted erase and until the key is set again every get misses |
| CacheLaws.TickLaw | src/cache/cache.cpp:197-208 | one second removes and counts exactly the items whose deadline it is; the rest keeps items and order |
| CacheLaws.CountersAreHistory | src/cache/cache.cpp:166-179 | after any run, hits and misses are the gets answered Ok and NotFound, counted from commands and answers |
| CacheLaws.ItemsAreConserved | src/cache/cache.cpp:143-208 | after any run, stored plus evicted plus expired plus erased keys are the keys ever inserted |
| RecencyLaw.StepByRecency | src/cache/cache.cpp:248-268 | every command keeps the recency list sorted by last successful use |
| RecencyLaw.RecencyIsLastUse | src/cache/cache.cpp:248-268 | in every reachable state the recency list is sorted by strictly decreasing last use in the command history |
| RecencyLaw.EvictedAreOldest | src/cache/cache.cpp:260-268 | in every run, a key that an accepted set evicts was last used before every other key it keeps |
| SlabModel.ClassTable | src/memory/slab_allocator.cpp:84-88 | the eight size classes and the number of blocks each gets from a slab |
| SlabModel.ClassProduct | src/memory/slab_allocator.cpp:73-76 | every class divides a slab evenly, so carving covers it exactly |
| SlabModel.Partition | src/memory/slab_allocator.cpp:23-36 | free-list blocks and live blocks are disjoint and together are all blocks carved for the class |
| SlabModel.WriteFrame | src/cache/cache.cpp:15-17 | writing inside one live block changes no other live block and no free list |
| SlabModel.ExtendFrame | src/memory/slab_allocator.cpp:68-72 | fresh memory changes no live block and no free list |
| SlabModel.TakeSound | src/memory/slab_allocator.cpp:28-30 | popping a free list keeps memory safety: layout, partition, acyclic chains, faithful contents |
| SlabModel.GiveSound | src/memory/slab_allocator.cpp:33-36 | writing a link into a returned block and pushing it keeps memory safety |
| SlabModel.GrowSound | src/memory/slab_allocator.cpp:68-77 | adding and carving a slab keeps memory safety |
| SlabModel.TakeDirectSound | src/memory/slab_allocator.cpp:97-103 | a block taken from the heap directly keeps memory safety |
| SlabModel.GiveDirectSound | src/memory/slab_allocator.cpp:131-138 | returning such a block to the heap keeps memory safety |
| SlabModel.FillSound | src/cache/cache.cpp:15-17 | copying a value into its block keeps memory safety |
| SlabAccounting.TakeAccounted | src/memory/slab_allocator.cpp:115-119 | the counters still equal the sums over blocks and free lists after an allocation, and free bytes do not underflow |
| SlabAccounting.GiveAccounted | src/memory/slab_allocator.cpp:140-149 | the same after a deallocation, with neither used bytes nor fragmentation underflowing |
| SlabAccounting.GrowAccounted | src/memory/slab_allocator.cpp:109-113 | the same after a new slab |
| SlabAccounting.TakeDirectAccounted | src/memory/slab_allocator.cpp:97-103 | the same after a direct allocation, with no class affected |
| SlabAccounting.GiveDirectAccounted | src/memory/slab_allocator.cpp:131-138 | the same after a direct deallocation, without underflow |
| SlabAccounting.PeakAfterTake | src/memory/slab_allocator.cpp:23-31 | a slab is added only when the class exceeds every earlier peak, so slab count stays the ceiling of peak over blocks per slab |
| ValueAllocators.SlabClass.Deallocate | src/memory/slab_allocator.cpp:33-36 | the block becomes the head of the chain and the rest of the chain is unchanged |
| ValueAllocators.SlabClass.AddSlab | src/memory/slab_allocator.cpp:68-77 | the free list is exactly all blocks of the new slab, last block first, and memory in use is untouched |
| ValueAllocators.SlabClass.Allocate | src/memory/slab_allocator.cpp:23-31 | pops the head; a slab is added exactly when the list was empty |
| ValueAllocators.FindClass | src/memory/slab_allocator.cpp:163-175 | returns the smallest class that holds the request |
| ValueAllocators.AllocationSize | src/memory/slab_allocator.cpp:155-161 | the least class size not below the request, or the request itself when it is zero or too large |
| ValueAllocators.TakenHealthy | src/memory/slab_allocator.cpp:105-119 | growth if needed, then a pop, keeps memory safety, exact accounts and minimal slab counts together |
| ValueAllocators.GivenHealthy | src/memory/slab_allocator.cpp:140-149 | a block returned with its requested size goes back to the class it came from, keeping all three |
| ValueAllocators.ValueAllocator.constructor | src/memory/slab_allocator.cpp:84-88 | a new allocator has no blocks and zero metrics |
| ValueAllocators.ValueAllocator.Allocate | src/memory/slab_allocator.cpp:92-120 | a new non-null block of exactly the requested size; no other live block changes a byte; used bytes and counts follow; nothing at all for size zero |
| ValueAllocators.ValueAllocator.AllocateDirect | src/memory/value_allocator.cpp:16-26 | the same for the system allocator and for oversized requests, with the exact metrics |
| ValueAllocators.ValueAllocator.AllocateFromClass | src/memory/slab_allocator.cpp:105-119 | the same through a size class, with peaks as running maxima of live counts |
| ValueAllocators.ValueAllocator.Deallocate | src/memory/slab_allocator.cpp:122-149 | exactly this block disappears; no other live block changes a byte |
| ValueAllocators.ValueAllocator.DeallocateToClass | src/memory/slab_allocator.cpp:140-149 | the same for a block that goes back to its class |
| ValueAllocators.CeilingIsDivision | src/memory/slab_allocator.cpp:73-76 | the step-by-step ceiling used in the invariant is the arithmetic ceiling |
| ValueAllocators.AllocatorGuarantees | src/memory/slab_allocator.cpp:92-149 | in every reachable allocator: following the links in memory from a class head visits its free blocks, each once; free and live blocks partition the carved ones; live blocks are aligned, disjoint and hold their contents; used, free, wasted bytes and slab count are the sums they stand for; allocated = used + free + wasted; slab count = ceil(peak / blocks per slab) |
| AllocatorRuns.LiveCount | src/memory/slab_allocator.cpp:105-108 | the live blocks of a class are as many as the held values whose size falls in it |
| AllocatorRuns.UsedIsHeld | src/memory/slab_allocator.cpp:115-115 | used bytes are the sizes of the values held |
| AllocatorRuns.WasteIsHeld | src/memory/slab_allocator.cpp:117-117 | internal fragmentation is what the held values leave unused in their blocks |
| AllocatorRuns.RoomTable | src/memory/slab_allocator.cpp:155-175 | the room of a value in numbers: the eight classes up to 8192 bytes, its own size beyond and with the system allocator |
| AllocatorRuns.PeaksFollow | src/memory/slab_allocator.cpp:23-31 | the running peak of a class is the most values of that class ever held at once |
| AllocatorRuns.HousedFootprint | src/memory/slab_allocator.cpp:92-149 | all seven metrics and the slabs of each class are determined by the values held and the peaks |
| AllocatorRuns.Replay | src/memory/slab_allocator.cpp:92-149 | over any run of puts and drops, with either backend: every held value reads back as put, blocks are aligned and disjoint, and used, free and wasted bytes, allocation and deallocation counts and slabs per class follow from the history |
| CacheRep.TouchRepresents | src/cache/cache.cpp:248-251 | splicing through the stored iterator is a touch in the reference cache, and every iterator still points at its own key |
| CacheRep.RemoveRepresents | src/cache/cache.cpp:253-258 | erasing node, entry and block removes exactly that key, and usage does not underflow |
| CacheRep.SpareRepresents | src/cache/cache.cpp:11-18 | a freshly created entry owns a new block holding its value, outside the cache |
| CacheRep.UnspareRepresents | src/cache/cache.cpp:20-24 | destroying an entry that is not stored returns its block and nothing else |
| CacheRep.ArmRepresents | src/cache/cache.cpp:115-118 | a new generation, with or without an event, matches no stored entry yet |
| CacheRep.InsertRepresents | src/cache/cache.cpp:143-155 | storing the armed value as a new entry keeps recency, ownership, timers and budget in step |
| CacheRep.SwapRepresents | src/cache/cache.cpp:57-61 | swapping the new block in keeps them in step and leaves the old block with the replacement object |
| CacheRep.TimersDropStale | src/cache/cache.cpp:199-203 | dropping an event that matches no entry disarms nothing |
| CacheRep.TimersAssign | src/cache/cache.cpp:125-126 | storing a value makes the set that armed its event the one its generation names |
| Caches.Cache.constructor | src/cache/cache.cpp:84-90 | a new cache stands for the empty reference cache |
| Caches.Cache.MarkMru | src/cache/cache.cpp:248-251 | the key becomes most recently used and nothing else changes |
| Caches.Cache.RemoveEntry | src/cache/cache.cpp:253-258 | the key is gone from map, list and memory; the wheel is not touched |
| Caches.Cache.EvictLru | src/cache/cache.cpp:260-268 | the least recently used key is removed and counted |
| Caches.Cache.NextGeneration | src/cache/cache.cpp:270-276 | a strictly larger generation, or none once the 64-bit source is exhausted |
| Caches.Cache.CreateEntry | src/cache/cache.cpp:11-18 | the entry's block holds a copy of the value, none for an empty value |
| Caches.Cache.DestroyEntry | src/cache/cache.cpp:20-24 | the block goes back and the cache is unchanged |
| Caches.Cache.ValueOf | src/cache/cache.cpp:50-55 | the bytes read from the entry's block are the value last set |
| Caches.Cache.Set | src/cache/cache.cpp:92-157 | answers and acts as the reference cache for every key, value and TTL, including all error statuses and generation exhaustion |
| Caches.Cache.Get | src/cache/cache.cpp:159-180 | answers, outputs, counts and reorders as the reference cache |
| Caches.Cache.Hit | src/cache/cache.cpp:171-179 | a found key returns its value, becomes most recently used and counts as a hit |
| Caches.Cache.Erase | src/cache/cache.cpp:182-195 | answers and acts as the reference cache |
| Caches.Cache.Tick | src/cache/cache.cpp:197-208 | removes exactly the keys whose deadline is reached, and counts them |
| Caches.Cache.TurnWheel | src/cache/cache.cpp:198-198 | turning the wheel takes out exactly the due events and changes nothing else |
| Caches.Cache.HandleEvent | src/cache/cache.cpp:198-207 | one event, matching or stale, does not change what the whole tick will have done |
| Caches.Cache.Arm | src/cache/cache.cpp:134-137 | the wheel knows the new generation by exactly one event if there is a TTL and by none otherwise |
| Caches.Cache.ScheduleFor | src/cache/cache.cpp:116-118 | the event of a fresh generation is scheduled for the deadline of its TTL |
| Caches.Cache.Overwrite | src/cache/cache.cpp:111-129 | replacing a value is one store in the reference cache, or no change when generations are exhausted |
| Caches.Cache.Insert | src/cache/cache.cpp:131-156 | the same for a new key |
| Caches.Cache.EvictOthers | src/cache/cache.cpp:121-123 | the loop ends with room for the new value, the key's own entry untouched, and the same outcome ahead |
| Caches.Cache.EvictUntilFits | src/cache/cache.cpp:139-141 | the loop ends with room for the new entry and the same outcome ahead |
| Caches.Cache.StoreNew | src/cache/cache.cpp:143-156 | the new entry is stored as most recently used |
| Caches.Cache.ReplaceValue | src/cache/cache.cpp:125-128 | the new block is stored, the old one is freed, usage is adjusted |
| Caches.Cache.Summarize | src/cache/cache.cpp:210-230 | the accessors report the reference cache's order, size, usage, counters, live value bytes and outstanding allocations |
| Caches.Cache.Figures | src/cache/cache.cpp:228-230 | all seven allocator metrics and the slabs per class, from the stored values and the peaks |
| Caches.DemandGrows | src/cache/cache.cpp:112-112 | taking the new block raises the peaks as the values then stored demand, the old and the doomed ones included |
| Caches.Replay | src/cache/cache.cpp:92-230 | whole-run refinement of the reference cache, for every capacity, backend and command sequence, with all allocator metrics and slabs per class from the history |
| Caches.ReportTellsHistory | src/cache/cache.cpp:210-230 | what the accessors report after any run, in terms of commands and answers alone |
| Caches.Conservation | src/cache/cache.cpp:110-157 | between operations: usage = allocator used bytes + key bytes, within capacity; allocations minus deallocations = non-empty values; each live block belongs to exactly one entry |
| Caches.BlocksHaveOneOwner | src/cache/cache.cpp:11-61 | every live block is some entry's, and no two entries share one |
| Caches.OneTimerPerDeadline | src/cache/cache.cpp:115-126 | a live value with a deadline has exactly one matching event, due at that deadline; a persistent value has none; its generation names the set that wrote it |
| Caches.StaleIsHarmless | src/cache/cache.cpp:199-203 | an event whose generation is not the entry's may be dropped without a trace |
| Caches.MatchIsDue | src/cache/cache.cpp:199-206 | an event that matches was armed by the set that wrote the value it removes, and fires exactly at that value's deadline |
| Caches.NothingDue | src/cache/cache.cpp:197-208 | once a tick's events are handled, no stored value is due |
| Buffers.Buffer.Append | src/net/buffer.cpp:36-48 | the unread bytes grow by the data at the back, or nothing changes and it throws; exactly when is stated; memory is reallocated only if compaction cannot make room, and then to the larger of need and double |
| Buffers.Buffer.PrepareAppend | src/net/buffer.cpp:68-98 | room behind the last byte with the unread bytes unchanged, without reallocation whenever they and the new bytes fit the capacity |
| Buffers.Buffer.Retrieve | src/net/buffer.cpp:54-61 | drops exactly the given number of unread bytes from the front |
| Buffers.Buffer.RetrieveAll | src/net/buffer.cpp:63-66 | nothing is unread, and the capacity is kept |
| Buffers.Replay | src/net/buffer.cpp:36-98 | over any sequence of operations the unread bytes and the capacity are those of a byte queue with a memory account, and an append is refused exactly when that queue refuses it |
| Buffers.NeverRefused | src/net/buffer.cpp:68-98 | while a plain byte queue would stay within half the vector maximum, no append is refused and the buffer is that queue |
| Codec.RoundTrip16 | src/protocol/protocol_codec.cpp:16-40 | 16-bit big-endian encoding and decoding are inverse in both directions |
| Codec.RoundTrip32 | src/protocol/protocol_codec.cpp:21-47 | the same for 32 bits |
| Codec.RoundTrip64 | src/protocol/protocol_codec.cpp:28-52 | the same for 64 bits |
| Codec.RequestRoundTrip | src/protocol/protocol_codec.cpp:73-190 | decoding an encoded request followed by any bytes gives the request and leaves exactly those bytes |
| Codec.RequestReencodes | src/protocol/protocol_codec.cpp:73-190 | any accepted request frame is byte for byte the encoding of what was decoded |
| Codec.RequestPrefixIsIncomplete | src/protocol/protocol_codec.cpp:126-180 | every strict prefix of a request frame is incomplete |
| Codec.RequestVerdictIsStable | src/protocol/protocol_codec.cpp:126-190 | complete and error verdicts do not change when bytes are appended |
| Codec.RequestBounds | src/protocol/protocol_codec.cpp:153-180 | an incomplete input is shorter than a maximum frame, an accepted request is one the encoder accepts, and the frame-overflow check never fires |
| Codec.ResponseRoundTrip | src/protocol/protocol_codec.cpp:106-229 | the response round trip with any trailing bytes |
| Codec.ResponseReencodes | src/protocol/protocol_codec.cpp:106-229 | any accepted response frame is the encoding of what was decoded |
| Codec.ResponsePrefixIsIncomplete | src/protocol/protocol_codec.cpp:192-221 | every strict prefix of a response frame is incomplete |
| Codec.ResponseVerdictIsStable | src/protocol/protocol_codec.cpp:192-229 | response verdicts do not change when bytes are appended |
| WireFormat.FieldBytes | src/protocol/protocol_codec.cpp:12-52 | byte i of an n-byte field is the number divided by 256 to the power n-1-i, modulo 256 |
| WireFormat.RequestLayout | src/protocol/protocol_codec.cpp:90-103 | every byte of an encoded request, in literals |
| WireFormat.ResponseLayout | src/protocol/protocol_codec.cpp:114-123 | every byte of an encoded response, in literals, with status bytes 0 to 8 |
| WireFormat.RequestRefused | src/protocol/protocol_codec.cpp:73-88 | exactly what the request encoder refuses |
| WireFormat.RequestVerdict | src/protocol/protocol_codec.cpp:126-190 | the decoder's verdict on any 32 or more bytes: which check fails first, with the id in bytes 8 to 15, or waiting, or exactly what stands there |
| WireFormat.ResponseVerdict | src/protocol/protocol_codec.cpp:192-229 | the same for responses |
| Streams.ParseAppend | src/net/connection.cpp:121-138 | parsing may stop anywhere and resume with the leftover: no request is lost, repeated or read differently; an error is final |
| Streams.WaitingRest | src/net/connection.cpp:121-128 | the leftover of a pass is shorter than a maximum frame and parses to nothing |
| Streams.PossibleResponses | src/net/connection.cpp:140-169 | key-too-large, value-too-large, invalid-TTL and protocol-error are never the answer to an executed request, and every response can be encoded |
| Streams.ResponseConveys | src/net/connection.cpp:140-169 | the response to a request decodes to its id, the status of its outcome, and the value of a hit and of nothing else |
| Streams.ReceiveCoherent | src/net/connection.cpp:41-45 | receiving bytes in any portion keeps the history coherent |
| Streams.ExecuteCoherent | src/net/connection.cpp:133-135 | executing and answering one request keeps it coherent, as does having its response refused by the limit |
| Streams.FailCoherent | src/net/connection.cpp:129-132 | answering a malformed header keeps it coherent |
| Streams.SendCoherent | src/net/connection.cpp:68-73 | moving bytes from pending to sent keeps it coherent |
| Streams.ChunkingIndependence | src/net/connection.cpp:31-138 | two connections offered the same stream, however cut, made the same calls and met the same error; of those cut off by their limits, one made a prefix of the other's calls |
| Streams.AgreesWithOneShotParse | src/net/connection.cpp:121-138 | the calls of a connection that was not cut off are those of parsing everything it received at once |
| Streams.WholeStream | src/net/connection.cpp:31-64 | although it stops reading at an error, its calls and its error are those of parsing the whole stream it was offered; after a cut-off, its calls are a prefix |
| Streams.QueuedIsDue | src/net/connection.cpp:121-192 | the queued responses are the answers to the calls in order and then the stream's protocol error |
| Streams.BreachHasCause | src/net/connection.cpp:171-180 | after a cut-off, the next response due is the one that did not fit |
| Streams.UnparsedIsShort | src/net/connection.cpp:36-40 | between reads the input buffer holds less than one maximum frame, so the guard on its size cannot fire |
| Connections.DecodeFrom | src/protocol/protocol_codec.cpp:126-190 | decoding takes exactly a complete frame out of the buffer, and nothing otherwise |
| Connections.Connection.constructor | src/net/connection.cpp:24-27 | a new connection, with any output limit, is open with an empty history |
| Connections.Connection.QueueResponse | src/net/connection.cpp:171-180 | the frame is queued if and only if the limit and the buffer allow it; over the limit the connection is cut off, beyond the buffer maximum it throws |
| Connections.Connection.Execute | src/net/connection.cpp:140-169 | exactly one call on the engine, and a response that conveys its outcome queued if and only if it fits |
| Connections.Connection.QueueProtocolError | src/net/connection.cpp:182-192 | one protocol-error response, after which the connection closes once written |
| Connections.Connection.ProcessInput | src/net/connection.cpp:121-138 | everything that can be parsed has been executed or refused; it fails only if a response could not be queued |
| Connections.Connection.Serve | src/net/connection.cpp:133-135 | one complete request adds exactly one engine call, its outcome, and the response to it unless refused |
| Connections.Connection.Reject | src/net/connection.cpp:129-132 | a malformed header adds one protocol error and sets close-after-write, drops the input and makes no engine call |
| Connections.Connection.Absorb | src/net/connection.cpp:36-45 | a successful read is appended and processed, and the input guard is unreachable |
| Connections.Connection.HandleReadable | src/net/connection.cpp:31-64 | unless a protocol error or a refused response stopped it, exactly the bytes the kernel delivers before end, block or failure are received, and the flags say which it was; otherwise the flags about peer and socket are untouched; a closing connection reads and executes nothing |
| Connections.Connection.Deliver | src/net/connection.cpp:70-73 | the first n pending bytes become the last n sent bytes |
| Connections.Connection.Flush | src/net/connection.cpp:67-83 | exactly the bytes the kernel takes are sent, in order, and it is known why the loop ended |
| Connections.Connection.HandleWritable | src/net/connection.cpp:66-89 | the same, and the connection closes exactly on a broken socket or when it was waiting for an empty buffer |
| Connections.Connection.NotePeerClosed | src/net/connection.cpp:91-96 | closes at once exactly when no output is left |
| Connections.Connection.DesiredEvents | src/net/connection.cpp:106-119 | an open connection always asks to read or to write, so it is never stuck |
| Connections.Connection.HandleEvent | src/net/cache_server.cpp:209-240 | exactly the bytes offered are read and exactly the bytes the kernel takes are sent; the socket counts as failed exactly if the kernel broke it, the peer as gone only if it was seen to go; the connection survives exactly if there was no error or exception, it is not closing and it was re-armed |
| Connections.Connection.ReadStage | src/net/cache_server.cpp:219-221 | the reading part of an event |
| Connections.Connection.WriteStage | src/net/cache_server.cpp:222-239 | the writing part, the hang-up and re-arming |
| Connections.ConnectionGuarantees | src/net/connection.cpp:31-194 | in every reachable state, for the stream it was offered: engine calls are those of the one-shot parse or a prefix; sent plus pending are the frames of the answers to those calls in order and then the protocol error; pending is within the limit; it is closing if and only if a response did not fit, the socket failed, or everything is written and the peer is gone or the stream malformed |
| ConnectionRuns.BreakIsSeen | src/net/connection.cpp:48-83 | a socket counts as failed only in a round in which the kernel broke it |
| ConnectionRuns.Steps | src/net/cache_server.cpp:209-240 | every round keeps the account of what was offered and why the connection is open or dropped |
| ConnectionRuns.AfterIsJustified | src/net/connection.cpp:66-119 | an open connection still has something to write or to expect; a dropped one had an error event, was not re-armed, could not queue a response, had its socket broken by the kernel, or had written everything with nothing to expect |
| ConnectionRuns.ReadsGoOn | src/net/connection.cpp:33-61 | a pass of reads goes on through interruptions and data up to the first other answer, and delivers all bytes before it |
| ConnectionRuns.WritesGoOn | src/net/connection.cpp:67-83 | a pass of writes goes on through interruptions and partial sends; it breaks the socket exactly on a failure or a send of nothing while bytes are pending |
| ConnectionRuns.RoundByEvent | src/net/cache_server.cpp:217-239 | what each bit of an event makes the connection do |
| EngineSteps.SplitCapacity | src/cache/cache_engine.cpp:14-27 | shares add up to the total, differ by at most one and the larger come first; none for zero shards |
| EngineSteps.StepInv | src/cache/cache_engine.cpp:30-124 | every interleaved step keeps the engine invariant |
| EngineSteps.BehaviourInv | src/cache/cache_engine.cpp:30-124 | every state of every interleaving satisfies it |
| EngineSteps.CallRemembersStart | src/cache/cache_engine.cpp:71-109 | what a statistics call compares itself with is what the shards held when it began |
| EngineSteps.FinishedCallIsBounded | src/cache/cache_engine.cpp:71-109 | a finished counter call lies between the true totals at its start and end; a usage call never exceeds capacity |
| EngineSteps.ReachableEngine | src/cache/cache_shard.cpp:12-32 | shards are sequential caches of the commands they were sent, within their shares; a key lives only in the shard numbered by its hash modulo their count; clocks are within one tick |
| EngineSteps.ShardIsResidue | src/cache/cache_engine.cpp:132-135 | a key's shard is its hash modulo the number of shards |
| EngineSteps.LostOnlyToShardmates | src/cache/cache_engine.cpp:30-48 | in every interleaving a key is lost only to a tick, its own erase, or a set of a key of the same residue; other keys' calls leave its shard as it was |
| EngineSteps.QuietTick | src/cache/cache_engine.cpp:44-48 | an undisturbed engine tick is a run of the step system that ticks every shard once |
| EngineSteps.QuietRead | src/cache/cache_engine.cpp:71-109 | an undisturbed statistics call is a run of the step system that returns the true total |
| Engines.CacheEngine.Call | src/cache/cache_engine.cpp:30-42 | a key operation changes the shard numbered by the hash modulo the count as the reference cache would, and no other: one step of the interleaved system |
| Engines.CacheEngine.Tick | src/cache/cache_engine.cpp:44-48 | every shard ticks exactly once, as a run of the interleaved system |
| Engines.CacheEngine.TickShard | src/cache/cache_shard.cpp:29-32 | one shard's tick changes that shard only |
| Engines.CacheEngine.Read | src/cache/cache_engine.cpp:71-109 | undisturbed, a statistics call returns the true total, as a run of the interleaved system, and usage is within capacity |
| Engines.MakeEngine | src/cache/cache_engine.cpp:10-28 | empty, separate shards whose capacities add up to the total and differ by at most one; refused for zero shards |
| SharedEngines.SharedEngine.Interfere | src/cache/cache_shard.cpp:12-32 | other threads' shard calls change the shards as the sharded reference cache would |
| SharedEngines.SharedEngine.Call | src/net/connection.cpp:145-161 | one request is exactly one call, answered as the sharded reference cache answers in the state it finds |
| Sessions.Connect | src/net/connection.cpp:24-27 | a fresh connection over a fresh engine whose shares add up to the capacity; refused for zero shards |
| Sessions.ServeRound | src/net/cache_server.cpp:209-240 | one more event keeps the account of the session |
| Sessions.Replay | src/net/connection.cpp:31-194 | end to end: calls are the stream's requests, outcomes the sharded reference answers, sent plus pending their frames with the protocol error last; after a cut-off at most one call is unanswered and the next response is the one that did not fit; the session is kept or dropped for a cause |
| SessionLaws.ParseRequests | src/net/connection.cpp:121-138 | from a stream of encoded requests exactly those requests are taken, in order |
| SessionLaws.ClientReadsStream | src/protocol/protocol_codec.cpp:192-229 | a client decodes from a response stream exactly the responses put into it |
| SessionLaws.RespondIsRight | src/net/connection.cpp:140-169 | the response to a request, by cases over what its shard holds |
| SessionLaws.ClientSees | src/net/connection.cpp:121-192 | the responses a client decodes are the right ones for its requests in the shard states they found, then one protocol error with the bad header's id |
| SessionLaws.ErrorTexts | src/protocol/protocol_codec.cpp:134-176 | the error texts, sent as the characters they are |
| SessionLaws.SetThenGet | src/net/connection.cpp:145-161 | SET then GET on one connection: the value comes back exactly if the shard's ticks in between do not add up to the TTL and nothing evicted the key; otherwise not-found |
| SessionLaws.EraseThenGet | src/net/connection.cpp:145-161 | DELETE then GET: not-found, unless another thread set the key in between |
| SessionLaws.Exchange | src/net/connection.cpp:31-194 | a whole session with its client: the right response to every request of the stream |
| Handoff.EnqueueInv | src/net/cache_server.cpp:125-134 | queueing a socket keeps the protocol invariant |
| Handoff.WakeInv | src/net/cache_server.cpp:87-95 | waking the worker keeps it |
| Handoff.FrontStepInv | src/net/cache_server.cpp:401-429 | the acceptor's loop and stop requests keep it, including that a sleeping acceptor is not left unwoken |
| Handoff.StopWorkerInv | src/net/cache_server.cpp:136-139 | setting a worker's stop flag and waking it keep it |
| Handoff.HandleEventInv | src/net/cache_server.cpp:163-171 | handling one event of a batch keeps it, including when the connection is dropped and its number freed |
| Handoff.TakePendingInv | src/net/cache_server.cpp:182-187 | taking over the queue keeps it |
| Handoff.InstallInv | src/net/cache_server.cpp:189-207 | installing keeps it, and the failed-insert branch is never taken |
| Handoff.CloseConnectionInv | src/net/cache_server.cpp:177-177 | closing a connection at shutdown keeps it |
| Handoff.CloseQueuedInv | src/net/cache_server.cpp:178-179 | closing a queued socket at shutdown keeps it |
| Handoff.StepInv | src/net/cache_server.cpp:125-207 | every step of every thread keeps the protocol invariant |
| Handoff.BehaviourInv | src/net/cache_server.cpp:125-207 | every state of every interleaving satisfies it |
| Handoff.NoLostWakeup | src/net/cache_server.cpp:125-207 | a non-empty queue means the acceptor is about to wake the worker, the counter is positive, the wakeup was seen and not yet acted on, or the worker is being stopped; a sleeping unstopped worker can then be woken |
| Handoff.NoLostSocket | src/net/cache_server.cpp:371-382 | after join no accepted descriptor is open and every accepted socket has been closed exactly once |
| Handoff.OneOwner | src/net/cache_server.cpp:189-207 | exactly the open descriptors are held, each in exactly one place (acceptor, a worker's queue, hand or connection map) and once there; insertions never collide; no socket is offered to a stopped worker |
| Handoff.EventsReachTheirConnection | src/net/cache_server.cpp:162-174 | an event about to be handled was reported for the very connection now installed under its number |
| Balance.RoundRobin | src/net/cache_server.cpp:453-454 | socket number k is only ever at worker k modulo the number of workers |
| Balance.FirstComeFirstServed | src/net/cache_server.cpp:182-207 | a worker installs its sockets in the order of acceptance |
| Balance.InstallsOnWakeup | src/net/cache_server.cpp:162-174 | a worker installs only after a batch in which it handled a wakeup |
| Balance.EventfdLaw | src/net/cache_server.cpp:87-105 | handling a wakeup or stop event drains its counter; a write raises it by one up to its maximum |
| Shutdown.StoppedWorkerAdvances | src/net/cache_server.cpp:150-180 | every step of a stopped worker brings it strictly nearer to its end |
| Shutdown.StoppedWorkerCanStep | src/net/cache_server.cpp:136-139 | a stopped and woken worker can always take a step until it has finished |
| Shutdown.StoppedWorkerIsLeftAlone | src/net/cache_server.cpp:366-382 | other threads change nothing of a stopped worker but its wakeup counter |
| Shutdown.StoppedWorkerEnds | src/net/cache_server.cpp:150-180 | in every interleaving a stopped worker takes at most a number of steps known when it is stopped, and has finished after them |
| Shutdown.StoppedAcceptorEnds | src/net/cache_server.cpp:401-469 | after a stop request the acceptor takes a bounded number of steps and then has exited |
| Shutdown.NoLostStop | src/net/cache_server.cpp:366-369 | an acceptor asleep after a stop request has been or is about to be woken |
| Shutdown.ShutdownProgress | src/net/cache_server.cpp:366-382 | from the stop request until join has returned, some thread that is waited for can take a step |
| Server.ServesItsOwn | src/net/cache_server.cpp:209-216 | an event that finds a connection was reported for that connection's socket |
| Server.ClientStays | src/net/cache_server.cpp:162-207 | no step of any thread closes a connection except the drop of that connection and the clearing at shutdown |
| Server.ThreadsOk | src/net/cache_server.cpp:125-207 | the threads' own steps keep the joint invariant |
| Server.ServeOk | src/net/cache_server.cpp:209-240 | serving an event keeps it, and a dropped connection is closed and uninstalled everywhere |
| Server.ServerGuarantees | src/net/cache_server.cpp:150-240 | in every run each connection's calls and responses are those of the stream offered to its own socket; it is open while kept, until shutdown, dropped only for a cause, and closed exactly once |
| Server.EventsReachTheirClient | src/net/cache_server.cpp:162-174 | a served event was reported for the socket it is served to, and no other connection changes |
| Server.ThreadsBehave | src/net/cache_server.cpp:125-207 | without its connections the server is a behaviour of the hand-off protocol |
| Server.JoinClosesEveryClient | src/net/cache_server.cpp:371-382 | after join every connection there ever was has been closed exactly once |

## Left out

- Heap exhaustion and exception rollback inside containers, such as the catch block at src/cache/cache.cpp:150-153.
- Wrap-around of the metrics, hit, miss, eviction and expiry counters, and of the round-robin worker index.
- Internals of `std::unordered_map`, `std::list` and `std::hash`: a map, a sequence of identified nodes and an arbitrary function stand for them; a list node's address is its identity.
- Memory.Heap: a free block's link is one cell followed by indeterminate cells, not the raw bytes of a pointer.
- Move construction and move assignment of `CacheEntry` outside `set`, and the destructors of caches and allocators.
- `Buffer::append` with a null data pointer.
- Buffers.Replay: the initial capacity is at most the vector maximum; above it the constructor throws and there is no buffer.
- Response error texts (src/protocol/protocol_codec.cpp:200-217): only the error kind is modelled, since nothing sends them on.
- Engine-wide `size`, `empty` and `allocator_metrics`: sums of the same shape as the statistics that are modelled.
- C++ memory orders: each atomic access and each critical section is one step.
- Socket, epoll, eventfd and timerfd creation, `bind` and `listen`, signals, the failure path of `start`, and the server and client mains.
- Configuration, logging, error formatting, `to_string`, backend-name parsing and the benchmark: validation, formatting and measurement around the core, with no state of their own.
- `Server` takes what an engine call returns from any valid shard state; that the shards are one engine is proved per connection, in `Sessions`.
- Fairness: that a thread which can step eventually does is not modelled; progress is stated as steps that are enabled and strictly approach the end.
