# A verified model of the ODP buffer and packet pool allocator

This project models the pool allocator of the OpenDataPlane linux-generic
platform (`odp_pool.c`) in Dafny and proves properties of it. The allocator
keeps a fixed table of `ODP_CONFIG_POOLS` pool entries. A pool is created in a
free slot of that table, and it lays out a region it reserves from the memory
arena: a block region, padding, a metadata region of buffer headers and, for
packet pools, the packet head arrays. The pool threads its buffer headers
and its blocks onto two free lists. Allocation tries the calling thread's
local cache first and then the pool's global free list, attaching blocks
until the buffer is large enough. A free goes to the thread's cache, or
straight back to the pool while the low watermark is asserted.

Modules, one per file:

- `Wrappers` (`wrappers.dfy`): `Option` and `Result`.
- `PoolConfig` (`config.dfy`): the build-time constants. The configuration
  headers that define them are not part of this model, so the values are
  representative ones, and the header strides are multiples of the cache
  line.
- `Align` (`align.dfy`): `ODP_ALIGN_ROUNDUP` and the lowest-set-bit test that
  `odp_pool_create` uses to validate an alignment.
- `PoolLayout` (`layout.dfy`): the arithmetic of `odp_pool_create` and
  `odp_pool_create_packet`, as pure functions. It covers parameter defaults,
  alignment validation and normalisation, and region layout. It also holds
  the two findings below.
- `PoolEntry` (`entry.dfy`): one table slot (`pool_entry_t`) as a datatype.
  It has the free-list and per-thread-cache helpers as pushes and pops on
  sequences, and the allocation and free outcomes on one pool. It also
  holds the loops that build a new pool's lists and packet heads, each
  proved equal to a specification function.
- `PoolTable` (`table.dfy`): the table as `class Table` over an
  `array<Entry>`, and one thread's `local_cache` as `class ThreadContext`.
  The public operations are methods, each proved to leave exactly the state
  a specification function describes. Lemmas about those functions state
  what the allocator promises.

Addresses are natural numbers: the base the arena returns plus an offset.
The memory reservation is an input: `InitGlobal` takes a flag saying
whether the table could be reserved. `Create` takes `Option<Zone>`, the
granted region or none. `TermGlobal` takes a flag saying whether releasing
the table's memory worked.

## Model

| member | source | states |
|---|---|---|
| Align.RoundUp | odp/odp1.2/platform/linux-generic/odp_pool.c:203 | The rounded value is a multiple of the alignment, not below the input, and less than one alignment above it. |
| Align.LowestSetBit | odp/odp1.2/platform/linux-generic/odp_pool.c:185 | `a & ~(a-1)` is at most `a`, and non-zero when `a` is. |
| Align.LowestSetBitCharacterisesPowers | odp/odp1.2/platform/linux-generic/odp_pool.c:184-186 | A value equals its lowest set bit exactly when it is zero or a power of two. |
| PoolLayout.EffectiveParams | odp/odp1.2/platform/linux-generic/odp_pool.c:161-165 | A timeout request has its buffer size and alignment forced to 0. Every other request, and every other field, is kept. |
| PoolLayout.AlignAccepted | odp/odp1.2/platform/linux-generic/odp_pool.c:184-185 | The alignment test: at most `ODP_CONFIG_BUFFER_ALIGN_MAX`, and equal to its lowest set bit. |
| PoolLayout.AlignAcceptedMeansPowerOfTwo | odp/odp1.2/platform/linux-generic/odp_pool.c:183-186 | An alignment is accepted exactly when it is at most the maximum and is 0 or a power of two. |
| PoolLayout.NormaliseAlign | odp/odp1.2/platform/linux-generic/odp_pool.c:188-192 | 0 becomes the cache-line size and anything below the minimum becomes the minimum; the result is a power of two between the minimum and the maximum. |
| PoolLayout.BufferLimit | odp/odp1.2/platform/linux-generic/odp_pool.c:218-219 | The largest accepted buffer count for a header stride; that many headers, counted in cache lines, stay within `ODP_BUFFER_MAX_BUFFERS`. |
| PoolLayout.MakeBufLayout | odp/odp1.2/platform/linux-generic/odp_pool.c:257-274 | Inline payloads need no block region; otherwise it is num times the block size. The stored alignment depends on inline storage. The padding is under one cache line and ends the block region on a cache line, where the metadata starts. The pool size is a page multiple covering every region by less than a page. The watermarks are num/2 and num/4. |
| PoolLayout.BufferBlockSize | odp/odp1.2/platform/linux-generic/odp_pool.c:198-203 | A raw-buffer payload is rounded up to the alignment when it is over the inline limit or an alignment was requested, and kept as is otherwise. |
| PoolLayout.BufferLayoutAsWritten | odp/odp1.2/platform/linux-generic/odp_pool.c:181-220 | The validation as written accepts exactly the buffer requests with an accepted alignment and the buffer and timeout requests within the stride's limit, whatever their count, so a request for zero buffers is accepted with a layout of zero buffers. |
| PoolLayout.BufferLayout | odp/odp1.2/platform/linux-generic/odp_pool.c:181-220 | Each error happens exactly when its condition holds: bad alignment, unsupported kind, too many buffers for the header stride, or zero buffers. On success the layout uses the normalised alignment, the kind's stride and block size, and at least one buffer. |
| PoolLayout.BufferRegionsFit | odp/odp1.2/platform/linux-generic/odp_pool.c:297-299 | Every block k of a separate block region lies before the metadata base, and every metadata slot k lies inside the pool's size. |
| PoolLayout.DoWhileOffsets | odp/odp1.2/platform/linux-generic/odp_pool.c:313-353 | The metadata do-while visits at least one offset, starting at the top one. |
| PoolLayout.InitVisitsEverySlot | odp/odp1.2/platform/linux-generic/odp_pool.c:313-353 | For at least one buffer the do-while visits each metadata slot exactly once, highest offset first. |
| PoolLayout.ZeroBuffersInitWritesOutside | odp/odp1.2/platform/linux-generic/odp_pool.c:313-353 | A zero-buffer request passes the source's validation. Its do-while then writes one header a stride below the metadata base, outside the region. |
| PoolLayout.BlockRegionAsWritten | odp/odp1.2/platform/linux-generic/odp_pool.c:262 | A product of two `uint32_t` values as C computes it, reduced modulo 2^32; it is exact only when the true product fits. |
| PoolLayout.BlockRegionWrapsAsWritten | odp/odp1.2/platform/linux-generic/odp_pool.c:262 | 65536 buffers of 65536 bytes pass validation, but the 32-bit product sizing their block region is 0. |
| PoolLayout.PacketBufLen | odp/odp1.2/platform/linux-generic/odp_pool.c:425-428 | The packet length is at least the requested length and at least the minimum, a cache-line multiple, and less than a cache line above the larger of the two. |
| PoolLayout.PacketLayout | odp/odp1.2/platform/linux-generic/odp_pool.c:421-517 | The packet length is `PacketBufLen`, and the header stride is non-zero exactly when there is a segment length. The pool size is a `POOL_BUF_ALIGN_SIZE` multiple covering blocks, heads and headers by less than one unit. The malloc-side heads start where the block region ends, the free-side heads num records later, and the packet headers num records after that, inside the region. The stored buffer count is twice the packet count, the malloc index is 0 and the free index num. The watermarks are num/2 and num/4. `pkt.lock > 0` selects the locked alloc/free pair and anything else the unlocked one. |
| PoolLayout.PacketBlockRegionWrapsAsWritten | odp/odp1.2/platform/linux-generic/odp_pool.c:465 | 65536 packets of 65536 bytes have a block region of exactly 2^32 bytes, which the 32-bit product as written makes 0. |
| PoolLayout.PacketBlockFits | odp/odp1.2/platform/linux-generic/odp_pool.c:541-542 | Packet i's block ends inside the block region, which ends where the malloc-side heads begin. |
| PoolEntry.HandleToIndex | odp/odp1.2/platform/linux-generic/odp_pool.c:611 | `pool_handle_to_index`: the invalid handle, and only it, maps below the table. |
| PoolEntry.IndexToHandle | odp/odp1.2/platform/linux-generic/odp_pool.c:89 | Every slot's handle differs from `ODP_POOL_INVALID` and maps back to the slot. |
| PoolEntry.InitialEntry | odp/odp1.2/platform/linux-generic/odp_pool.c:81-104 | After set-up slot i has pool id i and its handle, is unoccupied, has zero counters and statistics, and is well formed. |
| PoolEntry.GetBuf | odp/odp1.2/platform/linux-generic/odp_pool.c:694 | An empty buffer free list yields nothing and changes nothing. Otherwise the head slot is taken and the counter drops by one. |
| PoolEntry.RetBuf | odp/odp1.2/platform/linux-generic/odp_pool.c:707 | The slot is pushed on the free list and the counter rises by one; `get_buf` then hands back exactly that slot and the old lists. |
| PoolEntry.FlushCache | odp/odp1.2/platform/linux-generic/odp_pool.c:641 | Every cached slot goes back to the free list: the counter rises by the cache length, and the list's multiset gains the cache's. Nothing else changes. |
| PoolEntry.GetLocalBuf | odp/odp1.2/platform/linux-generic/odp_pool.c:689-690 | The cache yields its head exactly when it is non-empty and that buffer is large enough; otherwise the cache is unchanged. |
| PoolEntry.RetLocalBuf | odp/odp1.2/platform/linux-generic/odp_pool.c:742 | A cache with room gains the slot at its head; a full one is flushed, with the slot, into the pool. |
| PoolEntry.PullCount | odp/odp1.2/platform/linux-generic/odp_pool.c:703-713 | The block loop pulls at least one block when it succeeds, and every available block when it runs out. |
| PoolEntry.PullCountCovers | odp/odp1.2/platform/linux-generic/odp_pool.c:700-713 | On success the blocks pulled cover the need and the last one was needed. On failure all available blocks together fall short. |
| PoolEntry.TotalSize | odp/odp1.2/platform/linux-generic/odp_pool.c:679 | headroom + size + tailroom: never below the size, and equal to it exactly when the pool has no headroom or tailroom. |
| PoolEntry.Oversized | odp/odp1.2/platform/linux-generic/odp_pool.c:682-686 | The rejection test: above one segment in an unsegmented pool, above `ODP_BUFFER_MAX_SEG` segments otherwise; an accepted request never needs more than `ODP_BUFFER_MAX_SEG` segments. |
| PoolEntry.AttachBlocks | odp/odp1.2/platform/linux-generic/odp_pool.c:699-716 | The header gains, in order, a prefix of the block free list as segments; the rest stays free. On success its size is segment count times segment size, at least the total. Failure happens only when the block list is used up. Other headers and the buffer free list are untouched. |
| PoolEntry.PullLoop | odp/odp1.2/platform/linux-generic/odp_pool.c:703-715 | The do-while as written computes exactly `AttachBlocks`. |
| PoolEntry.AllocFromGlobal | odp/odp1.2/platform/linux-generic/odp_pool.c:693-716 | With an empty free list nothing changes. A success returns the list's head slot, now large enough, and pops it. A failure leaves the free list as it was. Only the taken header changes. |
| PoolEntry.AllocOutcome | odp/odp1.2/platform/linux-generic/odp_pool.c:673-717 | An oversized request changes nothing. A success names this pool and a slot large enough. A cache hit pops the cache head and leaves the pool alone; a global hit pops the head of the pool's free list and leaves the cache alone. No other field of the entry changes. Well-formedness is kept. |
| PoolEntry.GlobalAllocOutcome | odp/odp1.2/platform/linux-generic/odp_pool.c:693-717 | After a cache miss the cache is kept. A success returns the head of the buffer free list, now large enough, and pops it. A failure leaves the buffer free list as it was. |
| PoolEntry.AllocConservesBuffers | odp/odp1.2/platform/linux-generic/odp_pool.c:682-717 | An allocation loses and duplicates nothing: the free list and the cache together hold what they held before, less the slot handed out. |
| PoolEntry.AllocOnEntry | odp/odp1.2/platform/linux-generic/odp_pool.c:679-717 | The step-by-step allocation computes exactly `AllocOutcome`. |
| PoolEntry.UnsegmentedFailureLeavesListsUnchanged | odp/odp1.2/platform/linux-generic/odp_pool.c:682-716 | In an unsegmented pool, a global-path failure leaves the lists exactly as they were. |
| PoolEntry.FreeOutcome | odp/odp1.2/platform/linux-generic/odp_pool.c:739-742 | With the low watermark asserted the buffer goes straight to the pool's free list; otherwise it goes to the thread's cache. Well-formedness is kept. |
| PoolEntry.FreeConservesBuffers | odp/odp1.2/platform/linux-generic/odp_pool.c:734-743 | After a free, the free list and the cache together hold exactly what they held plus the freed slot. |
| PoolEntry.FreeThenAllocHitsCache | odp/odp1.2/platform/linux-generic/odp_pool.c:688-690 | A free into a cache with room, followed by an allocation the buffer can serve, returns that buffer. Pool and cache end as before. |
| PoolEntry.InitHdr | odp/odp1.2/platform/linux-generic/odp_pool.c:318-347 | A new header holds its own handle, the pool handle, the kind and the segment size. Short payloads are stored inline as one segment of the block size; other headers start empty. |
| PoolEntry.InitialHeaders | odp/odp1.2/platform/linux-generic/odp_pool.c:318-353 | A new pool has one initialised header per slot, in slot order, each well formed. |
| PoolEntry.InitialBlocks | odp/odp1.2/platform/linux-generic/odp_pool.c:355-362 | The new block free list holds every block of the region, lowest address first, one segment apart. |
| PoolEntry.StoredName | odp/odp1.2/platform/linux-generic/odp_pool.c:245-252 | The stored name is a prefix of the given one, shorter than `ODP_POOL_NAME_LEN`, and whole exactly when it fits; no name gives the empty name. |
| PoolEntry.ClaimBufferSlot | odp/odp1.2/platform/linux-generic/odp_pool.c:243-274 | Before reserving, the slot gets the name, the has-name flag, the parameters, the buffer count, pool size and stored alignment, and its flags are cleared (so it is not unsegmented). It stays unoccupied and keeps its lists. |
| PoolEntry.InitialLists | odp/odp1.2/platform/linux-generic/odp_pool.c:313-362 | Every slot is on the buffer free list, lowest first, and the counter equals the buffer count. Inline pools have no blocks; others have every block. |
| PoolEntry.NewBufferEntry | odp/odp1.2/platform/linux-generic/odp_pool.c:286-382 | A created buffer or timeout pool is occupied and unsegmented, with segment size equal to block size. Its metadata base is at the layout's offset. Its statistics are zero, the low watermark is cleared, and it holds the initial lists. Well formed. |
| PoolEntry.InitHeaderList | odp/odp1.2/platform/linux-generic/odp_pool.c:313-353 | The descending header loop produces exactly the initial headers and the full free list. |
| PoolEntry.InitBlockList | odp/odp1.2/platform/linux-generic/odp_pool.c:355-362 | The descending block loop produces exactly the initial block list. |
| PoolEntry.BuildBufferLists | odp/odp1.2/platform/linux-generic/odp_pool.c:313-362 | Both loops together produce exactly `InitialLists`. |
| PoolEntry.PacketHeadAt | odp/odp1.2/platform/linux-generic/odp_pool.c:538-568 | The head of packet i holds index i, the pool id, headroom = segment length and tailroom 0. Its data starts past the head and the headroom of block i, with the same offset physically. At least `PACKET_MIN_SIZE` bytes remain in the block. |
| PoolEntry.PacketHeadsSpacing | odp/odp1.2/platform/linux-generic/odp_pool.c:574-575 | Consecutive packets are exactly one packet length apart, virtually and physically. |
| PoolEntry.ClaimPacketSlot | odp/odp1.2/platform/linux-generic/odp_pool.c:453-471 | Before reserving, the slot gets the name, the parameters, the layout's stored buffer count (twice the packet count, by `PacketLayout`) and the pool size, and its flags are cleared. It stays unoccupied. |
| PoolEntry.InitialPacketPart | odp/odp1.2/platform/linux-generic/odp_pool.c:489-576 | Every packet's head and malloc-side copy is `PacketHeadAt`, and its free-side record has only pool, headroom and tailroom. Header data addresses exist exactly with a segment length. Cursors, indices and the alloc/free pair are from the layout. |
| PoolEntry.BuildPacketPart | odp/odp1.2/platform/linux-generic/odp_pool.c:534-576 | The packet loop produces exactly `InitialPacketPart`. |
| PoolEntry.NewPacketEntry | odp/odp1.2/platform/linux-generic/odp_pool.c:482-530 | A created packet pool is occupied and unsegmented, with the layout's sizes and addresses and both free lists empty. Well formed. |
| PoolTable.SlotOf | odp/odp1.2/platform/linux-generic/odp_pool.c:611-615 | A handle names a slot exactly when it is one of the table's handles, and that slot's handle is the given one. |
| PoolTable.InitialTable | odp/odp1.2/platform/linux-generic/odp_pool.c:81-104 | After set-up every slot is its initial, unoccupied entry, and the table is well formed. |
| PoolTable.FirstFreeFrom | odp/odp1.2/platform/linux-generic/odp_pool.c:224-235 | The scan from slot i finds the lowest unoccupied slot at or after i, or reports that all of them are occupied. |
| PoolTable.FirstFree | odp/odp1.2/platform/linux-generic/odp_pool.c:224-238 | The claim scan finds the lowest unoccupied slot, or none when every slot is occupied. |
| PoolTable.CreateOutcome | odp/odp1.2/platform/linux-generic/odp_pool.c:161-168 | Creation keeps the table well formed, and succeeds only when a slot was free. |
| PoolTable.CreateBufferOutcome | odp/odp1.2/platform/linux-generic/odp_pool.c:181-395 | The buffer and timeout branch keeps the table well formed, and succeeds only when a slot was free. |
| PoolTable.CreatePacketOutcome | odp/odp1.2/platform/linux-generic/odp_pool.c:436-584 | The packet branch keeps the table well formed, and succeeds only when a slot was free. |
| PoolTable.FindNameFrom | odp/odp1.2/platform/linux-generic/odp_pool.c:592-603 | The lowest slot at or after i whose name matches, or none when no later slot's does. |
| PoolTable.LookupResult | odp/odp1.2/platform/linux-generic/odp_pool.c:587-606 | Lookup is invalid exactly when no slot has the name. Otherwise it returns the handle of the lowest slot that has it. |
| PoolTable.DestroyOutcome | odp/odp1.2/platform/linux-generic/odp_pool.c:633-653 | An unoccupied or predefined pool is refused untouched. Otherwise the cache is flushed into the pool first. Destroy succeeds exactly when every buffer is then home, and success only frees the slot. Well formed. |
| PoolTable.FlushSlot | odp/odp1.2/platform/linux-generic/odp_pool.c:752 | One slot after `flush_cache` of the thread's cache for it. |
| PoolTable.FlushedTable | odp/odp1.2/platform/linux-generic/odp_pool.c:745-754 | The table after the flush loop: every slot flushed with its cache, one entry per slot. |
| PoolTable.FlushedTableKeepsBuffers | odp/odp1.2/platform/linux-generic/odp_pool.c:745-754 | After a thread's caches are flushed, each pool's free list gains exactly the slots of its cache; nothing else changes and the table stays well formed. |
| PoolTable.CreateSucceedsIff | odp/odp1.2/platform/linux-generic/odp_pool.c:167-287 | Creation succeeds exactly when the request is valid (packet requests always are), a slot is free and the region is granted. |
| PoolTable.CreateClaimsLowestFreeSlot | odp/odp1.2/platform/linux-generic/odp_pool.c:224-254 | A successful creation returns the lowest free slot's handle and occupies it with the stored name and effective parameters; every other slot is unchanged. |
| PoolTable.FailedCreateKeepsOccupancy | odp/odp1.2/platform/linux-generic/odp_pool.c:280-287 | A failed creation leaves every slot's occupancy as it was, even after a slot was claimed. |
| PoolTable.FullTableRefusesCreate | odp/odp1.2/platform/linux-generic/odp_pool.c:237-238 | With every slot occupied, creation fails and changes nothing. |
| PoolTable.CreateThenLookup | odp/odp1.2/platform/linux-generic/odp_pool.c:592-600 | A pool created with a name that fits, when no lower slot has that name, is found by a lookup of it. |
| PoolTable.LongNameNeverFound | odp/odp1.2/platform/linux-generic/odp_pool.c:248-250 | A name of `ODP_POOL_NAME_LEN` or more characters is never found. |
| PoolTable.LookupMatchesFreeSlots | odp/odp1.2/platform/linux-generic/odp_pool.c:596 | Lookup ignores occupancy: on a fresh table the empty name finds slot 0, which is free. |
| PoolTable.NewBufferPoolIsDestroyable | odp/odp1.2/platform/linux-generic/odp_pool.c:644-650 | A buffer or timeout pool just created, with an empty cache, can be destroyed, and its slot is then free. |
| PoolTable.PacketPoolDestroyableOnlyWhenEmpty | odp/odp1.2/platform/linux-generic/odp_pool.c:644-647 | A packet pool just created can be destroyed exactly when it has no packets. |
| PoolTable.DestroyedSlotIsReclaimed | odp/odp1.2/platform/linux-generic/odp_pool.c:650 | A slot that destroy frees, with every lower slot occupied, is the next one creation claims. |
| PoolTable.DestroyFlushesCache | odp/odp1.2/platform/linux-generic/odp_pool.c:641 | Destroying an occupied pool empties the cache, and the pool's free list gains exactly the cached slots. |
| PoolTable.ThreadContext.constructor | odp/odp1.2/platform/linux-generic/odp_pool.c:64 | A thread starts with one empty cache per slot. |
| PoolTable.Table.InitGlobal | odp/odp1.2/platform/linux-generic/odp_pool.c:66-112 | If the table is reserved the result is 0 and the table is `InitialTable`. If not, the result is -1 and the table is empty, as a null `pool_tbl`. |
| PoolTable.Table.NewTable | odp/odp1.2/platform/linux-generic/odp_pool.c:81-104 | The zero fill and the per-slot loop produce exactly `InitialTable`. |
| PoolTable.Table.TermGlobal | odp/odp1.2/platform/linux-generic/odp_pool.c:114-140 | The result is 0 exactly when no slot is occupied and the release works, and -1 otherwise. |
| PoolTable.Table.FindFreeSlot | odp/odp1.2/platform/linux-generic/odp_pool.c:224-235 | The scan loop returns exactly `FirstFree`. |
| PoolTable.Table.Create | odp/odp1.2/platform/linux-generic/odp_pool.c:151-168 | The table and the handle after the call are exactly `CreateOutcome`, and the table stays well formed. |
| PoolTable.Table.CreateBuffer | odp/odp1.2/platform/linux-generic/odp_pool.c:181-395 | The buffer and timeout branch leaves exactly `CreateBufferOutcome`. |
| PoolTable.Table.FillBufferSlot | odp/odp1.2/platform/linux-generic/odp_pool.c:286-382 | Once the region is granted, the claimed slot becomes exactly `NewBufferEntry`. |
| PoolTable.Table.CreatePacket | odp/odp1.2/platform/linux-generic/odp_pool.c:398-585 | The packet branch leaves exactly `CreatePacketOutcome`. |
| PoolTable.Table.FillPacketSlot | odp/odp1.2/platform/linux-generic/odp_pool.c:482-576 | Once the region is granted, the claimed slot becomes exactly `NewPacketEntry`. |
| PoolTable.Table.Lookup | odp/odp1.2/platform/linux-generic/odp_pool.c:587-606 | The lookup loop returns exactly `LookupResult`. |
| PoolTable.Table.Info | odp/odp1.2/platform/linux-generic/odp_pool.c:608-621 | A slot's handle yields its stored name and parameters; anything else yields nothing. |
| PoolTable.Table.Destroy | odp/odp1.2/platform/linux-generic/odp_pool.c:623-654 | A bad handle gives -1 and changes nothing. Otherwise the slot and its cache become exactly `DestroyOutcome`, and the table and caches stay well formed. |
| PoolTable.Table.BufferAlloc | odp/odp1.2/platform/linux-generic/odp_pool.c:673-726 | The pool's slot and this thread's cache become exactly `AllocOutcome`; everything else is unchanged. |
| PoolTable.Table.BufferAllocDefault | odp/odp1.2/platform/linux-generic/odp_pool.c:728-732 | Allocates with the buffer size stored in the pool's parameters. |
| PoolTable.Table.BufferFree | odp/odp1.2/platform/linux-generic/odp_pool.c:734-743 | The buffer's pool and this thread's cache for it become exactly `FreeOutcome`; everything else is unchanged. |
| PoolTable.Table.FlushCaches | odp/odp1.2/platform/linux-generic/odp_pool.c:745-754 | Every cache of this thread ends empty and the table becomes exactly `FlushedTable`. |
| PoolTable.Table.FlushAll | odp/odp1.2/platform/linux-generic/odp_pool.c:749-753 | The loop over the slots flushes each one with its cache and empties every cache. |

## Left out

- Locks and atomics: every operation runs to completion alone. The counters are plain numbers, and other threads' caches are not modelled.
- Machine integer widths are mostly not modelled: the layouts the model creates pools with use exact products. The 32-bit block-region products of both kinds of pool are modelled as written under Findings. The packet pool's `head_size` and `stride_size` products wrap in the same way for very large counts; they are not modelled separately.
- Memory reservation: `odp_shm_reserve`, `odp_mm_district_reserve`, `odp_shm_free` and the district naming are inputs that succeed or fail. The district flags and `getpid` are left out.
- The free-list and cache helpers (`get_buf`, `ret_buf`, `get_blk`, `ret_blk`, `get_local_buf`, `ret_local_buf`, `flush_cache`) are defined in headers that are not part of this model. They are pushes and pops at the head of a sequence, and the statistics and watermark updates those helpers may make are not modelled.
- PoolEntry.GetLocalBuf: only the cache head is considered. A thread's cache is flushed whole when it would exceed `LOCAL_CACHE_SIZE`. Both rules are choices, since the helper's body is not available.
- PoolEntry.RetBuf: a header keeps the blocks attached before a failed pull. Whether `ret_buf` returns them to the block list is not visible, so the blocks stay attached.
- `packet_init`, `_packet_alloc`, `_packet_free` and their locked forms are not modelled; a packet pool only records which pair it is bound to. `SET_HEADROOM` and the zeroized flag are left out too.
- PoolTable.PacketPoolDestroyableOnlyWhenEmpty holds for the pool as created. It does not cover the unseen packet alloc/free pair changing the buffer count.
- `odp_buffer_encode_handle`: a buffer handle names its pool and its metadata slot.
- Raw pointer casts, the header unions and the stride padding are left out; the strides are constants that are multiples of the cache line.
- The `quiesced` flag, the user-area pointers and the free-side heads' zero fill are not separate fields; a free-side head carries only what the loop writes.
- Printing and debug output, `odp_pool_print`, `odp_pool_term_local` and the address accessors `odp_get_pool_vir_addr` and `odp_get_pool_phy_addr` are left out. `odp_common.h` holds no logic and is not part of this model.
- A NULL parameter or info pointer is not modelled. The name is `Option<string>`, so a missing name for creation is modelled.
- PoolTable.Table.Info and PoolTable.Table.Destroy: a handle outside the table gives `None` or -1. The source would index past the table there.
- PoolTable.Table.BufferAlloc, PoolTable.Table.BufferAllocDefault and PoolTable.Table.BufferFree require a valid pool handle and buffer, as the source does: it does not check them.
- PoolTable.Table.Create: `odp_pool_create` writes the forced timeout defaults back into the caller's parameter block. The model passes the effective parameters on and stores them instead.
- Names are character sequences without a terminating NUL. `strncpy` truncation is `StoredName`, and lookup's `strcmp` is equality with the stored name.
- PoolTable.CreateOutcome: its own contract gives only well-formedness and the free-slot condition. What creation does is stated by the lemmas about it.
- PoolTable.CreateBufferOutcome: its own contract gives only well-formedness and the free-slot condition; the creation lemmas state the rest.
- PoolTable.CreatePacketOutcome: its own contract gives only well-formedness and the free-slot condition; the creation lemmas state the rest.

## Findings

| source | as written | input that shows it | evidently intended | confidence | as-written member | corrected member |
|---|---|---|---|---|---|---|
| odp/odp1.2/platform/linux-generic/odp_pool.c:313-353 | `buf_num == 0` passes validation, and the header do-while runs once before testing. It initialises and frees a header one stride below the metadata base. | a buffer pool of 0 buffers of size 0, alignment 0 | a pool has at least one buffer, or the loop tests first; the model refuses 0 buffers (`NoBuffers`), and `InitVisitsEverySlot` proves the loop then visits exactly the pool's slots | high, not executed | PoolLayout.ZeroBuffersInitWritesOutside | PoolLayout.BufferLayout |
| odp/odp1.2/platform/linux-generic/odp_pool.c:262 | `block_size = buf_num * blk_size` multiplies two `uint32_t` values, so the product wraps modulo 2^32 before it is widened | a buffer pool of 65536 buffers of 65536 bytes | the product computed in `size_t`. Then every block lies inside the block region, before the metadata (`BufferRegionsFit`). | high, not executed | PoolLayout.BlockRegionWrapsAsWritten | PoolLayout.MakeBufLayout |
| odp/odp1.2/platform/linux-generic/odp_pool.c:463-465 | `odp_pool_create_packet` checks no limit, and `block_size = buf_num * buf_len` multiplies two `uint32_t` values, so it wraps modulo 2^32. The region is sized from the wrapped value, but the head loop writes every packet. | a packet pool of 65536 packets of 65536 bytes, segment length 0 | the products computed in 64 bits, or the count limited. Then every packet's block lies inside the block region, before the head arrays (`PacketBlockFits`). | high, not executed | PoolLayout.PacketBlockRegionWrapsAsWritten | PoolLayout.PacketLayout |
