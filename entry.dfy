/**
 * One slot of the pool table (pool_entry_t) as a value, the free-list and
 * per-thread-cache helpers the allocator calls, and the outcome of an
 * allocation or a free on one pool. Addresses are natural numbers: a
 * region's base as the arena provider returns it plus an offset.
 */
module PoolEntry {
  import opened Wrappers
  import opened PoolConfig
  import opened Align
  import opened PoolLayout

  /** ODP_POOL_INVALID. */
  const POOL_INVALID: nat := 0

  /** pool_handle_to_index: the inverse of IndexToHandle; POOL_INVALID maps below the table. */
  function HandleToIndex(h: nat): (i: int)
    ensures i < 0 <==> h == POOL_INVALID
  {
    h - 1
  }

  /** pool_index_to_handle: every slot has a handle distinct from POOL_INVALID. */
  function IndexToHandle(i: nat): (h: nat)
    ensures h != POOL_INVALID && HandleToIndex(h) == i
  {
    i + 1
  }

  /** A buffer handle decodes to the pool and the metadata slot it names (odp_buffer_encode_handle). */
  datatype BufferHandle = BufferHandle(pool: nat, slot: nat)

  /** A segment of a buffer: its payload inside the header itself, or a block of the block region. */
  datatype Seg = InlineSeg | BlockSeg(addr: nat)

  /** The fields of odp_buffer_hdr_t the allocator reads and writes; segcount is |segs|. */
  datatype BufHdr = BufHdr(
    kind: PoolType,
    poolHdl: nat,
    handle: BufferHandle,
    size: nat,
    segs: seq<Seg>,
    segSize: nat,
    hdrdata: bool)

  datatype Stats = Stats(
    bufAllocs: nat, bufFrees: nat, blkAllocs: nat, blkFrees: nat,
    bufEmpty: nat, blkEmpty: nat, highWmCount: nat, lowWmCount: nat)

  const ZERO_STATS: Stats := Stats(0, 0, 0, 0, 0, 0, 0, 0)

  /** packet_head_t. */
  datatype PacketHead = PacketHead(
    virAddr: nat, phyAddr: nat, poolId: nat, index: nat, packetHdr: nat, headroom: nat, tailroom: nat)

  /** A region granted by the arena provider: its virtual and physical base. */
  datatype Zone = Zone(addr: nat, phys: nat)


  /** The sizes and addresses of a pool, fixed once it is created. */
  datatype Geometry = Geometry(
    bufNum: nat,
    bufAlign: nat,
    blkSize: nat,
    segSize: nat,
    bufStride: nat,
    poolSize: nat,
    baseAddr: nat,
    basePhyAddr: nat,
    mdataAddr: nat,
    udataSize: nat,
    unsegmented: bool,
    headroom: nat,
    tailroom: nat,
    highWm: nat,
    lowWm: nat)

  /**
   * The two free lists (heads first), their atomic counters, and the
   * metadata array by slot; the buffer free list holds slot numbers, the
   * block free list block addresses.
   */
  datatype Lists = Lists(
    bufFreelist: seq<nat>,
    blkFreelist: seq<nat>,
    bufcount: nat,
    blkcount: nat,
    hdrs: seq<BufHdr>)

  /** The packet-pool fields. */
  datatype PacketPart = PacketPart(
    mallocAddr: nat,
    freeAddr: nat,
    packetAddr: nat,
    mallocIndex: nat,
    freeIndex: nat,
    heads: seq<PacketHead>,        // the head at the start of each packet block
    mallocHeads: seq<PacketHead>,
    freeHeads: seq<PacketHead>,
    packetBufAddrs: seq<nat>,      // buf_addr of each packet header (none without a segment length)
    ops: PacketOps)

  /** pool_entry_t. shmValid is pool_shm != ODP_SHM_INVALID: the slot is occupied. */
  datatype Entry = Entry(
    poolId: nat,
    poolHdl: nat,
    shmValid: bool,
    predefined: bool,
    hasName: bool,
    name: string,
    params: Params,
    geo: Geometry,
    free: Lists,
    stats: Stats,
    lowWmAssert: bool,
    pkt: PacketPart)

  const ZERO_GEOMETRY: Geometry := Geometry(0, 0, 0, 0, 0, 0, 0, 0, 0, 0, false, 0, 0, 0, 0)
  const EMPTY_LISTS: Lists := Lists([], [], 0, 0, [])
  const ZERO_PACKET_PART: PacketPart := PacketPart(0, 0, 0, 0, 0, [], [], [], [], NoPacketOps)

  /** A table slot as the zero-filled table memory holds it. */
  const ZERO_ENTRY: Entry :=
    Entry(0, 0, false, false, false, "",
          Params(OtherType, BufParams(0, 0, 0), PktParams(0, 0, 0, 0), 0),
          ZERO_GEOMETRY, EMPTY_LISTS, ZERO_STATS, false, ZERO_PACKET_PART)

  /** Slot i after odp_pool_init_global. */
  function InitialEntry(i: nat): (e: Entry)
    ensures e.poolId == i && e.poolHdl == IndexToHandle(i)
    ensures !e.shmValid && e.name == "" && e.free == EMPTY_LISTS && e.stats == ZERO_STATS
    ensures EntryOk(e)
  {
    ZERO_ENTRY.(poolId := i, poolHdl := IndexToHandle(i))
  }

  /** Every slot number in c names one of n metadata slots. */
  predicate SlotsIn(n: nat, c: seq<nat>) {
    forall k :: 0 <= k < |c| ==> c[k] < n
  }

  /** The atomic counters track the list lengths, and the buffer list holds real slots. */
  predicate CountsOk(f: Lists) {
    && f.bufcount == |f.bufFreelist|
    && f.blkcount == |f.blkFreelist|
    && SlotsIn(|f.hdrs|, f.bufFreelist)
  }

  /** A header never claims more payload than its segments hold. */
  predicate HdrOk(h: BufHdr, segSize: nat) {
    h.size <= |h.segs| * segSize
  }

  predicate HdrsOk(hdrs: seq<BufHdr>, segSize: nat) {
    forall s :: 0 <= s < |hdrs| ==> HdrOk(hdrs[s], segSize)
  }

  predicate EntryOk(e: Entry) {
    CountsOk(e.free) && HdrsOk(e.free.hdrs, e.geo.segSize)
  }

  /** A per-thread cache for pool e: bounded, and holding slots of e only. */
  predicate CacheOk(e: Entry, c: seq<nat>) {
    |c| <= LOCAL_CACHE_SIZE && SlotsIn(|e.free.hdrs|, c)
  }

  // ---------------------------------------------------------------------
  // The free-list helpers (get_buf, ret_buf, flush_cache, get_local_buf,
  // ret_local_buf): push and pop at the head of a sequence.

  /** get_buf: pop the buffer free list; nothing when it is empty. */
  function GetBuf(f: Lists): (r: (Lists, Option<nat>))
    requires CountsOk(f)
    ensures |f.bufFreelist| == 0 ==> r == (f, None)
    ensures |f.bufFreelist| > 0 ==>
      r.1 == Some(f.bufFreelist[0]) && f.bufFreelist[0] < |f.hdrs| &&
      r.0 == f.(bufFreelist := f.bufFreelist[1..], bufcount := f.bufcount - 1)
    ensures CountsOk(r.0)
  {
    if |f.bufFreelist| == 0 then (f, None)
    else (f.(bufFreelist := f.bufFreelist[1..], bufcount := f.bufcount - 1), Some(f.bufFreelist[0]))
  }

  /** ret_buf: push a header onto the buffer free list; get_buf then hands it straight back. */
  function RetBuf(f: Lists, slot: nat): (r: Lists)
    requires CountsOk(f) && slot < |f.hdrs|
    ensures CountsOk(r) && r.bufcount == f.bufcount + 1 && r.bufFreelist == [slot] + f.bufFreelist
    ensures r == f.(bufFreelist := r.bufFreelist, bufcount := r.bufcount)
    ensures GetBuf(r) == (f, Some(slot))
  {
    var r := f.(bufFreelist := [slot] + f.bufFreelist, bufcount := f.bufcount + 1);
    assert r.bufFreelist[1..] == f.bufFreelist;
    r
  }

  /** The buffer free list after every cached slot is pushed onto it, cache head first. */
  function FlushedInto(c: seq<nat>, list: seq<nat>): (r: seq<nat>)
    ensures |r| == |c| + |list|
    ensures multiset(r) == multiset(c) + multiset(list)
  {
    if c == [] then list
    else
      assert c == [c[0]] + c[1..];
      FlushedInto(c[1..], [c[0]] + list)
  }

  /** flush_cache: every cached buffer goes back to the pool's free list. */
  function FlushCache(f: Lists, c: seq<nat>): (r: Lists)
    requires CountsOk(f) && SlotsIn(|f.hdrs|, c)
    ensures CountsOk(r)
    ensures r.bufcount == f.bufcount + |c|
    ensures multiset(r.bufFreelist) == multiset(f.bufFreelist) + multiset(c)
    ensures r == f.(bufFreelist := r.bufFreelist, bufcount := r.bufcount)
  {
    var list := FlushedInto(c, f.bufFreelist);
    forall k | 0 <= k < |list|
      ensures list[k] < |f.hdrs|
    {
      assert list[k] in multiset(list);
      if list[k] in multiset(c) {
        var j :| 0 <= j < |c| && c[j] == list[k];
      } else {
        var j :| 0 <= j < |f.bufFreelist| && f.bufFreelist[j] == list[k];
      }
    }
    f.(bufFreelist := list, bufcount := f.bufcount + |c|)
  }

  /** get_local_buf: the cache's head, when the cache is not empty and that buffer is large enough. */
  function GetLocalBuf(e: Entry, c: seq<nat>, totsize: nat): (r: (seq<nat>, Option<nat>))
    requires CacheOk(e, c)
    ensures r.1.Some? ==> |c| > 0 && r.1.value == c[0] && r.0 == c[1..] && e.free.hdrs[c[0]].size >= totsize
    ensures r.1.None? ==> r.0 == c
    ensures r.1.None? <==> (|c| == 0 || e.free.hdrs[c[0]].size < totsize)
    ensures CacheOk(e, r.0)
  {
    if |c| > 0 && e.free.hdrs[c[0]].size >= totsize then (c[1..], Some(c[0])) else (c, None)
  }

  /** ret_local_buf: push onto the cache; a cache above its bound is flushed to the pool. */
  function RetLocalBuf(e: Entry, c: seq<nat>, slot: nat): (r: (Entry, seq<nat>))
    requires EntryOk(e) && CacheOk(e, c) && slot < |e.free.hdrs|
    ensures EntryOk(r.0) && CacheOk(r.0, r.1)
    ensures |c| < LOCAL_CACHE_SIZE ==> r == (e, [slot] + c)
    ensures |c| == LOCAL_CACHE_SIZE ==> r == (e.(free := FlushCache(e.free, [slot] + c)), [])
  {
    var c' := [slot] + c;
    if |c'| > LOCAL_CACHE_SIZE then (e.(free := FlushCache(e.free, c')), []) else (e, c')
  }

  // ---------------------------------------------------------------------
  // Allocation.

  /**
   * The block loop of buffer_alloc, counted: from `avail` blocks, pull one
   * at a time, each covering segSize more bytes, until `needed` is covered
   * or none are left. The result says whether it was covered and how many
   * blocks were pulled.
   */
  function PullCount(avail: nat, needed: int, segSize: nat): (r: (bool, nat))
    requires needed > 0 && segSize > 0
    ensures r.1 <= avail
    ensures r.0 ==> r.1 >= 1
    ensures !r.0 ==> r.1 == avail
    decreases avail
  {
    if avail == 0 then (false, 0)
    else if needed - segSize > 0 then
      var r := PullCount(avail - 1, needed - segSize, segSize);
      (r.0, r.1 + 1)
    else (true, 1)
  }

  /**
   * The blocks pulled cover the need, and the last one was needed; when the
   * loop runs out, all available blocks together fall short.
   */
  lemma {:induction false} PullCountCovers(avail: nat, needed: int, segSize: nat)
    requires needed > 0 && segSize > 0
    ensures var r := PullCount(avail, needed, segSize);
      (r.0 ==> r.1 * segSize >= needed > (r.1 - 1) * segSize) &&
      (!r.0 ==> avail * segSize < needed)
    decreases avail
  {
    if avail > 0 && needed - segSize > 0 {
      PullCountCovers(avail - 1, needed - segSize, segSize);
      var r := PullCount(avail - 1, needed - segSize, segSize);
      MulDistributes(avail - 1, 1, segSize);
      MulDistributes(r.1, 1, segSize);
      if r.0 {
        MulDistributes(r.1 - 1, 1, segSize);
      }
    }
  }

  /** Block addresses as block segments, in order. */
  function AsBlockSegs(bs: seq<nat>): (r: seq<Seg>)
    ensures |r| == |bs| && forall k :: 0 <= k < |bs| ==> r[k] == BlockSeg(bs[k])
  {
    if bs == [] then [] else [BlockSeg(bs[0])] + AsBlockSegs(bs[1..])
  }

  /** headroom + size + tailroom. */
  function TotalSize(e: Entry, size: nat): (t: nat)
    ensures t >= size
    ensures t == size <==> e.geo.headroom == 0 && e.geo.tailroom == 0
  {
    e.geo.headroom + size + e.geo.tailroom
  }

  /** The request buffer_alloc rejects before looking for a buffer. */
  predicate Oversized(unsegmented: bool, segSize: nat, totsize: nat)
    ensures !Oversized(unsegmented, segSize, totsize) ==> totsize <= segSize * BUFFER_MAX_SEG
  {
    (unsegmented && totsize > segSize) || (!unsegmented && totsize > segSize * BUFFER_MAX_SEG)
  }

  /**
   * The do-while of buffer_alloc on a header just taken from the free list:
   * attach blocks from the head of the block list as further segments
   * until the header covers totsize; on success its size becomes its
   * segment count times the segment size. It stops short only when the
   * block list is empty.
   */
  function AttachBlocks(f: Lists, slot: nat, segSize: nat, totsize: nat): (r: (Lists, bool))
    requires CountsOk(f) && HdrsOk(f.hdrs, segSize) && slot < |f.hdrs|
    requires f.hdrs[slot].size < totsize && segSize > 0
    ensures CountsOk(r.0) && HdrsOk(r.0.hdrs, segSize) && |r.0.hdrs| == |f.hdrs|
    ensures r.0.bufFreelist == f.bufFreelist
    ensures forall s :: 0 <= s < |f.hdrs| && s != slot ==> r.0.hdrs[s] == f.hdrs[s]
    ensures var n := |f.blkFreelist| - |r.0.blkFreelist|;
      0 <= n && r.0.blkFreelist == f.blkFreelist[n..] &&
      r.0.hdrs[slot].segs == f.hdrs[slot].segs + AsBlockSegs(f.blkFreelist[..n])
    ensures r.1 ==> r.0.hdrs[slot].size == |r.0.hdrs[slot].segs| * segSize >= totsize
    ensures !r.1 ==> r.0.blkFreelist == [] && r.0.hdrs[slot].size == f.hdrs[slot].size
  {
    var h := f.hdrs[slot];
    var p := PullCount(|f.blkFreelist|, totsize - h.size, segSize);
    PullCountCovers(|f.blkFreelist|, totsize - h.size, segSize);
    var segs := h.segs + AsBlockSegs(f.blkFreelist[..p.1]);
    var blocks := f.blkFreelist[p.1..];
    MulMonotone(|h.segs|, |segs|, segSize);
    MulDistributes(|h.segs|, p.1, segSize);
    var h' := if p.0 then h.(segs := segs, size := |segs| * segSize) else h.(segs := segs);
    (f.(blkFreelist := blocks, blkcount := |blocks|, hdrs := f.hdrs[slot := h']), p.0)
  }

  /** Appending one block to a block sequence appends one segment. */
  lemma AsBlockSegsSnoc(bs: seq<nat>, b: nat)
    ensures AsBlockSegs(bs + [b]) == AsBlockSegs(bs) + [BlockSeg(b)]
  {
    var l, r := AsBlockSegs(bs + [b]), AsBlockSegs(bs) + [BlockSeg(b)];
    assert |l| == |r|;
    forall k | 0 <= k < |l|
      ensures l[k] == r[k]
    {
      if k < |bs| {
        assert (bs + [b])[k] == bs[k];
      }
    }
  }

  /**
   * The do-while of buffer_alloc as written: get_blk, stop on an empty
   * block list, append the block as the next segment, subtract a segment's
   * worth from what is still needed, and go on while anything is.
   */
  method PullLoop(f: Lists, slot: nat, segSize: nat, totsize: nat) returns (f': Lists, ok: bool)
    requires CountsOk(f) && HdrsOk(f.hdrs, segSize) && slot < |f.hdrs|
    requires f.hdrs[slot].size < totsize && segSize > 0
    ensures (f', ok) == AttachBlocks(f, slot, segSize, totsize)
  {
    var h := f.hdrs[slot];
    var blocks := f.blkFreelist;
    var segs := h.segs;
    var needed: int := totsize - h.size;
    ghost var p := PullCount(|f.blkFreelist|, needed, segSize);
    ghost var taken := 0;
    while true
      invariant needed > 0
      invariant 0 <= taken <= |f.blkFreelist| && blocks == f.blkFreelist[taken..]
      invariant segs == h.segs + AsBlockSegs(f.blkFreelist[..taken])
      invariant PullCount(|blocks|, needed, segSize) == (p.0, p.1 - taken)
      decreases |blocks|
    {
      if |blocks| == 0 {
        assert PullCount(|blocks|, needed, segSize) == (false, 0);
        ok := false;
        break;
      }
      ghost var step := PullCount(|blocks|, needed, segSize);
      var blk := blocks[0];
      assert f.blkFreelist[..taken + 1] == f.blkFreelist[..taken] + [blk];
      AsBlockSegsSnoc(f.blkFreelist[..taken], blk);
      blocks := blocks[1..];
      segs := segs + [BlockSeg(blk)];
      taken := taken + 1;
      needed := needed - segSize;
      if needed <= 0 {
        assert step == (true, 1);
        ok := true;
        break;
      }
    }
    assert ok == p.0 && taken == p.1 && blocks == f.blkFreelist[p.1..];
    var h' := if ok then h.(segs := segs, size := |segs| * segSize) else h.(segs := segs);
    f' := f.(blkFreelist := blocks, blkcount := |blocks|, hdrs := f.hdrs[slot := h']);
    AttachBlocksUnfolds(f, slot, segSize, totsize, p, segs, h');
  }

  /** AttachBlocks in terms of the block count PullCount gives. */
  lemma AttachBlocksUnfolds(f: Lists, slot: nat, segSize: nat, totsize: nat, p: (bool, nat), segs: seq<Seg>, h': BufHdr)
    requires CountsOk(f) && HdrsOk(f.hdrs, segSize) && slot < |f.hdrs|
    requires f.hdrs[slot].size < totsize && segSize > 0
    requires p == PullCount(|f.blkFreelist|, totsize - f.hdrs[slot].size, segSize)
    requires segs == f.hdrs[slot].segs + AsBlockSegs(f.blkFreelist[..p.1])
    requires h' == if p.0 then f.hdrs[slot].(segs := segs, size := |segs| * segSize) else f.hdrs[slot].(segs := segs)
    ensures AttachBlocks(f, slot, segSize, totsize) ==
      (f.(blkFreelist := f.blkFreelist[p.1..], blkcount := |f.blkFreelist[p.1..]|, hdrs := f.hdrs[slot := h']), p.0)
  {
  }

  /**
   * The global path of buffer_alloc on the pool's lists: get_buf, then
   * blocks until the buffer is large enough; when the blocks run out the
   * header goes back with ret_buf, keeping the blocks it was given.
   */
  function AllocFromGlobal(f: Lists, segSize: nat, unsegmented: bool, totsize: nat): (r: (Lists, Option<nat>))
    requires CountsOk(f) && HdrsOk(f.hdrs, segSize) && !Oversized(unsegmented, segSize, totsize)
    ensures CountsOk(r.0) && HdrsOk(r.0.hdrs, segSize) && |r.0.hdrs| == |f.hdrs|
    ensures |f.bufFreelist| == 0 ==> r == (f, None)
    ensures r.1.Some? ==>
      |f.bufFreelist| > 0 && r.1.value == f.bufFreelist[0] &&
      r.0.bufFreelist == f.bufFreelist[1..] && r.0.hdrs[r.1.value].size >= totsize
    ensures r.1.None? ==> r.0.bufFreelist == f.bufFreelist
    ensures forall s :: 0 <= s < |f.hdrs| && (|f.bufFreelist| == 0 || s != f.bufFreelist[0]) ==>
      r.0.hdrs[s] == f.hdrs[s]
  {
    if |f.bufFreelist| == 0 then (f, None)
    else
      var slot := f.bufFreelist[0];
      var f1 := GetBuf(f).0;
      if f.hdrs[slot].size >= totsize then (f1, Some(slot))
      else
        var (f2, ok) := AttachBlocks(f1, slot, segSize, totsize);
        if ok then (f2, Some(slot)) else (RetBuf(f2, slot), None)
  }

  /**
   * buffer_alloc on one pool, with this thread's cache for it: reject an
   * oversized request, try the cache, then the global free list.
   */
  function AllocOutcome(e: Entry, c: seq<nat>, size: nat): (r: (Entry, seq<nat>, Option<BufferHandle>))
    requires EntryOk(e) && CacheOk(e, c)
    ensures EntryOk(r.0) && CacheOk(r.0, r.1)
    ensures r.0 == e.(free := r.0.free)
    ensures Oversized(e.geo.unsegmented, e.geo.segSize, TotalSize(e, size)) ==> r == (e, c, None)
    ensures r.2.Some? ==>
      var s := r.2.value.slot;
      r.2.value.pool == e.poolId && s < |r.0.free.hdrs| && r.0.free.hdrs[s].size >= TotalSize(e, size)
    ensures r.2.Some? && r.1 != c ==> r.0 == e && c == [r.2.value.slot] + r.1
    ensures r.2.Some? && r.1 == c ==>
      |e.free.bufFreelist| > 0 && r.2.value.slot == e.free.bufFreelist[0] &&
      r.0.free.bufFreelist == e.free.bufFreelist[1..]
    ensures r.2.None? ==> r.1 == c && r.0.free.bufFreelist == e.free.bufFreelist
    ensures |e.free.bufFreelist| == 0 && GetLocalBuf(e, c, TotalSize(e, size)).1.None? ==> r == (e, c, None)
  {
    var totsize := TotalSize(e, size);
    if Oversized(e.geo.unsegmented, e.geo.segSize, totsize) then (e, c, None)
    else
      var (c', cached) := GetLocalBuf(e, c, totsize);
      if cached.Some? then (e, c', Some(BufferHandle(e.poolId, cached.value)))
      else GlobalAllocOutcome(e, c, totsize)
  }

  /** The part of buffer_alloc after a cache miss: take a buffer from the pool's global lists. */
  function GlobalAllocOutcome(e: Entry, c: seq<nat>, totsize: nat): (r: (Entry, seq<nat>, Option<BufferHandle>))
    requires EntryOk(e) && CacheOk(e, c) && !Oversized(e.geo.unsegmented, e.geo.segSize, totsize)
    ensures EntryOk(r.0) && CacheOk(r.0, r.1) && r.1 == c
    ensures r.0 == e.(free := r.0.free)
    ensures r.2.Some? ==>
      var s := r.2.value.slot;
      r.2.value.pool == e.poolId && s < |r.0.free.hdrs| && r.0.free.hdrs[s].size >= totsize
    ensures r.2.Some? ==>
      |e.free.bufFreelist| > 0 && r.2.value.slot == e.free.bufFreelist[0] &&
      r.0.free.bufFreelist == e.free.bufFreelist[1..]
    ensures r.2.None? ==> r.0.free.bufFreelist == e.free.bufFreelist
    ensures |e.free.bufFreelist| == 0 ==> r == (e, c, None)
  {
    var (f', got) := AllocFromGlobal(e.free, e.geo.segSize, e.geo.unsegmented, totsize);
    var e' := e.(free := f');
    assert CacheOk(e', c);
    if got.Some? then (e', c, Some(BufferHandle(e.poolId, got.value))) else (e', c, None)
  }

  /** buffer_alloc's steps on one pool and this thread's cache for it. */
  method AllocOnEntry(e: Entry, c: seq<nat>, size: nat) returns (e': Entry, c': seq<nat>, b: Option<BufferHandle>)
    requires EntryOk(e) && CacheOk(e, c)
    ensures (e', c', b) == AllocOutcome(e, c, size)
  {
    e', c', b := e, c, None;
    var totsize := TotalSize(e, size);
    if Oversized(e.geo.unsegmented, e.geo.segSize, totsize) {
      return;
    }
    var local := GetLocalBuf(e, c, totsize);
    if local.1.Some? {
      c', b := local.0, Some(BufferHandle(e.poolId, local.1.value));
      return;
    }
    var got := GetBuf(e.free);
    if got.1.None? {
      return;
    }
    var slot := got.1.value;
    var f := got.0;
    if f.hdrs[slot].size < totsize {
      var ok;
      f, ok := PullLoop(f, slot, e.geo.segSize, totsize);
      if !ok {
        e' := e.(free := RetBuf(f, slot));
        return;
      }
    }
    e', b := e.(free := f), Some(BufferHandle(e.poolId, slot));
  }

  /**
   * In an unsegmented pool (every pool odp_pool_create makes) a request
   * never needs more than one block, so a failed pull attaches nothing:
   * the global path either succeeds or leaves the lists exactly as they were.
   */
  lemma {:induction false} UnsegmentedFailureLeavesListsUnchanged(f: Lists, segSize: nat, totsize: nat)
    requires CountsOk(f) && HdrsOk(f.hdrs, segSize) && !Oversized(true, segSize, totsize)
    ensures AllocFromGlobal(f, segSize, true, totsize).1.None? ==> AllocFromGlobal(f, segSize, true, totsize).0 == f
  {
    if |f.bufFreelist| > 0 {
      var slot := f.bufFreelist[0];
      var f1 := GetBuf(f).0;
      if f.hdrs[slot].size < totsize {
        var p := PullCount(|f1.blkFreelist|, totsize - f.hdrs[slot].size, segSize);
        PullCountCovers(|f1.blkFreelist|, totsize - f.hdrs[slot].size, segSize);
        if !p.0 {
          if |f1.blkFreelist| > 0 {
            ProductAtLeastFactor(segSize, |f1.blkFreelist|);
          }
          var f2 := AttachBlocks(f1, slot, segSize, totsize).0;
          assert f1.blkFreelist == [];
          assert f2.hdrs[slot] == f.hdrs[slot];
          assert f2.hdrs == f.hdrs;
          assert [slot] + f.bufFreelist[1..] == f.bufFreelist;
        }
      }
    }
  }

  /**
   * An allocation loses and duplicates nothing: the pool's free list and the
   * cache together hold what they held before, less the slot handed out.
   */
  lemma AllocConservesBuffers(e: Entry, c: seq<nat>, size: nat)
    requires EntryOk(e) && CacheOk(e, c)
    ensures var r := AllocOutcome(e, c, size);
      multiset(r.0.free.bufFreelist) + multiset(r.1) + (if r.2.Some? then multiset{r.2.value.slot} else multiset{})
        == multiset(e.free.bufFreelist) + multiset(c)
  {
    var r := AllocOutcome(e, c, size);
    if r.2.Some? {
      if r.1 == c {
        assert e.free.bufFreelist == [r.2.value.slot] + r.0.free.bufFreelist;
      } else {
        assert c == [r.2.value.slot] + r.1;
      }
    }
  }

  // ---------------------------------------------------------------------
  // Free.

  /** odp_buffer_free: straight to the pool while the low watermark is asserted, else to the cache. */
  function FreeOutcome(e: Entry, c: seq<nat>, slot: nat): (r: (Entry, seq<nat>))
    requires EntryOk(e) && CacheOk(e, c) && slot < |e.free.hdrs|
    ensures EntryOk(r.0) && CacheOk(r.0, r.1)
    ensures e.lowWmAssert ==> r == (e.(free := RetBuf(e.free, slot)), c)
    ensures !e.lowWmAssert ==> r == RetLocalBuf(e, c, slot)
  {
    if e.lowWmAssert then (e.(free := RetBuf(e.free, slot)), c) else RetLocalBuf(e, c, slot)
  }

  /** Every buffer either path of a free hands back is accounted for: nothing is lost or duplicated. */
  lemma FreeConservesBuffers(e: Entry, c: seq<nat>, slot: nat)
    requires EntryOk(e) && CacheOk(e, c) && slot < |e.free.hdrs|
    ensures var r := FreeOutcome(e, c, slot);
      multiset(r.0.free.bufFreelist) + multiset(r.1) == multiset(e.free.bufFreelist) + multiset(c) + multiset{slot}
  {
    var r := FreeOutcome(e, c, slot);
    if !e.lowWmAssert && |c| < LOCAL_CACHE_SIZE {
      assert r.1 == [slot] + c;
    }
  }

  /**
   * Free then allocate on the same thread, with no low-watermark assertion
   * and room in the cache: the allocation is served from the cache and
   * returns the buffer just freed, and neither the pool nor the cache has
   * changed.
   */
  lemma FreeThenAllocHitsCache(e: Entry, c: seq<nat>, slot: nat, size: nat)
    requires EntryOk(e) && CacheOk(e, c) && slot < |e.free.hdrs|
    requires !e.lowWmAssert && |c| < LOCAL_CACHE_SIZE
    requires !Oversized(e.geo.unsegmented, e.geo.segSize, TotalSize(e, size)) && e.free.hdrs[slot].size >= TotalSize(e, size)
    ensures var f := FreeOutcome(e, c, slot);
      AllocOutcome(f.0, f.1, size) == (e, c, Some(BufferHandle(e.poolId, slot)))
  {
    var f := FreeOutcome(e, c, slot);
    assert f == (e, [slot] + c);
    assert ([slot] + c)[1..] == c;
  }

  // ---------------------------------------------------------------------
  // What a new pool holds.

  /** The slot numbers 0 .. n-1 in increasing order: every slot exactly once. */
  function SlotRange(n: nat): (r: seq<nat>)
    ensures |r| == n && forall k :: 0 <= k < n ==> r[k] == k
  {
    seq(n, k requires 0 <= k < n => k)
  }

  /** A metadata slot as the initialisation loop leaves it. */
  function InitHdr(kind: PoolType, poolHdl: nat, poolId: nat, blk: nat, k: nat): (h: BufHdr)
    ensures h.handle == BufferHandle(poolId, k) && h.poolHdl == poolHdl && h.segSize == blk && h.kind == kind
    ensures HdrOk(h, blk)
    ensures h.hdrdata <==> blk <= MAX_INLINE_BUF
    ensures 0 < blk <= MAX_INLINE_BUF ==> h.size == blk && h.segs == [InlineSeg]
    ensures !(0 < blk <= MAX_INLINE_BUF) ==> h.size == 0 && h.segs == []
  {
    var short := 0 < blk <= MAX_INLINE_BUF;
    BufHdr(kind, poolHdl, BufferHandle(poolId, k),
           if short then blk else 0, if short then [InlineSeg] else [],
           blk, blk <= MAX_INLINE_BUF)
  }

  function InitialHeaders(kind: PoolType, poolHdl: nat, poolId: nat, blk: nat, n: nat): (r: seq<BufHdr>)
    ensures |r| == n && forall k :: 0 <= k < n ==> r[k] == InitHdr(kind, poolHdl, poolId, blk, k)
    ensures HdrsOk(r, blk)
  {
    seq(n, k requires 0 <= k < n => InitHdr(kind, poolHdl, poolId, blk, k))
  }

  /** The block free list of a new pool: every block of the block region, lowest address first. */
  function InitialBlocks(base: nat, segSize: nat, n: nat): (r: seq<nat>)
    ensures |r| == n && forall k :: 0 <= k < n ==> r[k] == base + k * segSize
  {
    seq(n, k requires 0 <= k < n => base + k * segSize)
  }

  /** strncpy into a name of POOL_NAME_LEN bytes with the last forced to NUL. */
  function StoredName(name: Option<string>): (r: string)
    ensures |r| < POOL_NAME_LEN
    ensures name.None? ==> r == ""
    ensures name.Some? ==> |r| <= |name.value| && r == name.value[..|r|] && (r == name.value <==> |name.value| < POOL_NAME_LEN)
  {
    match name
    case None => ""
    case Some(s) => if |s| < POOL_NAME_LEN then s else s[..POOL_NAME_LEN - 1]
  }

  /**
   * The fields odp_pool_create writes into the claimed slot before it
   * reserves the region; clearing the flags also clears unsegmented.
   */
  function ClaimBufferSlot(e: Entry, name: Option<string>, q: Params, L: BufLayout): (r: Entry)
    ensures r.shmValid == e.shmValid && r.poolId == e.poolId && r.poolHdl == e.poolHdl && r.free == e.free
    ensures r.name == StoredName(name) && r.hasName == name.Some? && !r.predefined
    ensures r.params == q
    ensures r.geo == e.geo.(bufNum := L.bufNum, poolSize := L.poolSize, bufAlign := L.storedAlign, unsegmented := false)
  {
    e.(predefined := false, hasName := name.Some?, name := StoredName(name), params := q,
       geo := e.geo.(bufAlign := L.storedAlign, bufNum := L.bufNum, poolSize := L.poolSize, unsegmented := false))
  }

  /** The lists of a new buffer or timeout pool: every header on the free list, and every block. */
  function InitialLists(kind: PoolType, poolHdl: nat, poolId: nat, L: BufLayout, base: nat): (f: Lists)
    ensures CountsOk(f) && HdrsOk(f.hdrs, L.blkSize)
    ensures f.hdrs == InitialHeaders(kind, poolHdl, poolId, L.blkSize, L.bufNum)
    ensures f.bufFreelist == SlotRange(L.bufNum) && f.bufcount == L.bufNum
    ensures IsInline(L) ==> f.blkFreelist == [] && f.blkcount == 0
    ensures !IsInline(L) ==> f.blkFreelist == InitialBlocks(base, L.blkSize, L.bufNum) && f.blkcount == L.bufNum
  {
    var blocks := if IsInline(L) then [] else InitialBlocks(base, L.blkSize, L.bufNum);
    Lists(SlotRange(L.bufNum), blocks, L.bufNum, |blocks|,
          InitialHeaders(kind, poolHdl, poolId, L.blkSize, L.bufNum))
  }

  /** A buffer or timeout pool after a successful odp_pool_create. */
  function NewBufferEntry(e: Entry, name: Option<string>, q: Params, L: BufLayout, z: Zone): (r: Entry)
    ensures EntryOk(r)
    ensures r == ClaimBufferSlot(e, name, q, L).(shmValid := true, geo := r.geo, free := r.free,
                                                   stats := ZERO_STATS, lowWmAssert := false)
    ensures r.free == InitialLists(q.kind, e.poolHdl, e.poolId, L, z.addr)
    ensures r.geo == ClaimBufferSlot(e, name, q, L).geo.(
      baseAddr := z.addr, unsegmented := true, segSize := L.blkSize, blkSize := L.blkSize,
      mdataAddr := z.addr + L.mdataOffset, udataSize := 0, bufStride := L.bufStride,
      headroom := 0, tailroom := 0, highWm := L.highWm, lowWm := L.lowWm)
  {
    var c := ClaimBufferSlot(e, name, q, L);
    c.(shmValid := true,
       geo := c.geo.(baseAddr := z.addr, unsegmented := true, segSize := L.blkSize, blkSize := L.blkSize,
                     mdataAddr := z.addr + L.mdataOffset, udataSize := 0, bufStride := L.bufStride,
                     headroom := 0, tailroom := 0, highWm := L.highWm, lowWm := L.lowWm),
       free := InitialLists(q.kind, e.poolHdl, e.poolId, L, z.addr),
       stats := ZERO_STATS, lowWmAssert := false)
  }

  /**
   * The first descending do-while of odp_pool_create: every metadata slot,
   * from the highest offset down to the metadata base, gets its header
   * initialised and is pushed onto the buffer free list with ret_buf. The
   * slot of a header is its offset from the metadata base over the stride.
   */
  method InitHeaderList(kind: PoolType, poolHdl: nat, poolId: nat, blk: nat, num: nat, mdata: nat, stride: nat)
    returns (hdrs: seq<BufHdr>, free: seq<nat>, bufcount: nat)
    requires num >= 1 && stride > 0
    ensures hdrs == InitialHeaders(kind, poolHdl, poolId, blk, num)
    ensures free == SlotRange(num) && bufcount == num
  {
    hdrs, free, bufcount := [], [], 0;
    var k: int := num - 1;
    var off: int := mdata + k * stride;
    while off >= mdata
      invariant -1 <= k < num
      invariant off == mdata + k * stride
      invariant bufcount == num - 1 - k
      invariant hdrs == InitialHeaders(kind, poolHdl, poolId, blk, num)[k + 1..]
      invariant free == SlotRange(num)[k + 1..]
      decreases k + 1
    {
      SignOfMultiple(k, stride);
      HeaderSuffixStep(kind, poolHdl, poolId, blk, num, k);
      hdrs := [InitHdr(kind, poolHdl, poolId, blk, k)] + hdrs;
      free := [k] + free;
      bufcount := bufcount + 1;
      off := off - stride;
      k := k - 1;
    }
    SignOfMultiple(k, stride);
  }

  /** One more slot at the low end of the suffixes the header loop has built. */
  lemma HeaderSuffixStep(kind: PoolType, poolHdl: nat, poolId: nat, blk: nat, num: nat, k: nat)
    requires k < num
    ensures InitialHeaders(kind, poolHdl, poolId, blk, num)[k..] ==
            [InitHdr(kind, poolHdl, poolId, blk, k)] + InitialHeaders(kind, poolHdl, poolId, blk, num)[k + 1..]
    ensures SlotRange(num)[k..] == [k] + SlotRange(num)[k + 1..]
  {
    var hs := InitialHeaders(kind, poolHdl, poolId, blk, num);
    assert hs[k..] == [hs[k]] + hs[k + 1..];
    var fs := SlotRange(num);
    assert fs[k..] == [fs[k]] + fs[k + 1..];
  }

  /**
   * The second descending do-while: from the top block of the block region
   * down to its base, every block is pushed onto the block free list with
   * ret_blk.
   */
  method InitBlockList(base: nat, segSize: nat, num: nat) returns (blocks: seq<nat>)
    requires num >= 1 && segSize > 0
    ensures blocks == InitialBlocks(base, segSize, num)
  {
    blocks := [];
    var b: int := num - 1;
    var blk: int := base + num * segSize - segSize;
    assert num * segSize - segSize == (num - 1) * segSize;
    while blk >= base
      invariant -1 <= b < num
      invariant blk == base + b * segSize
      invariant |blocks| == num - 1 - b
      invariant forall j :: 0 <= j < |blocks| ==> blocks[j] == base + (b + 1 + j) * segSize
      decreases b + 1
    {
      SignOfMultiple(b, segSize);
      blocks := [blk as nat] + blocks;
      blk := blk - segSize;
      b := b - 1;
    }
    SignOfMultiple(b, segSize);
  }

  /** Both loops, as odp_pool_create runs them on a new region. */
  method BuildBufferLists(kind: PoolType, poolHdl: nat, poolId: nat, L: BufLayout, base: nat) returns (f: Lists)
    requires L.bufNum >= 1 && L.bufStride > 0
    ensures f == InitialLists(kind, poolHdl, poolId, L, base)
  {
    var hdrs, free, bufcount := InitHeaderList(kind, poolHdl, poolId, L.blkSize, L.bufNum, L.mdataOffset, L.bufStride);
    var blocks: seq<nat> := [];
    if !IsInline(L) {
      blocks := InitBlockList(base, L.blkSize, L.bufNum);
    }
    f := Lists(free, blocks, bufcount, |blocks|, hdrs);
  }

  /** The packet header of packet i, when the pool has a segment length. */
  function PacketHdrAddr(L: PktLayout, z: Zone, i: nat): nat {
    if L.segLen > 0 then z.addr + L.packetOffset + i * PACKET_HDR_STRIDE else 0
  }

  /**
   * The head record of packet i (and its malloc-side copy): its data starts
   * past the head and the headroom of block i, and the data room left in the
   * block is at least PACKET_MIN_SIZE bytes.
   */
  function PacketHeadAt(L: PktLayout, z: Zone, poolId: nat, i: nat): (h: PacketHead)
    requires L.bufLen >= MinPacketLen(L.segLen)
    ensures h.index == i && h.poolId == poolId && h.headroom == L.segLen && h.tailroom == 0
    ensures h.virAddr == z.addr + i * L.bufLen + PACKET_HEAD_SIZE + L.segLen
    ensures h.virAddr - z.addr == h.phyAddr - z.phys
    ensures h.virAddr + PACKET_MIN_SIZE <= z.addr + (i + 1) * L.bufLen
    ensures h.packetHdr == PacketHdrAddr(L, z, i)
  {
    var vir := z.addr + PACKET_HEAD_SIZE + L.segLen + i * L.bufLen;
    PacketHead(vir, z.phys + PACKET_HEAD_SIZE + L.segLen + i * L.bufLen, poolId, i,
               PacketHdrAddr(L, z, i), L.segLen, 0)
  }

  /** Consecutive packets are exactly one packet length apart, virtually and physically. */
  lemma PacketHeadsSpacing(L: PktLayout, z: Zone, poolId: nat, i: nat)
    requires L.bufLen >= MinPacketLen(L.segLen)
    ensures PacketHeadAt(L, z, poolId, i + 1).virAddr == PacketHeadAt(L, z, poolId, i).virAddr + L.bufLen
    ensures PacketHeadAt(L, z, poolId, i + 1).phyAddr == PacketHeadAt(L, z, poolId, i).phyAddr + L.bufLen
  {
  }

  /** A free-side head after the zero fill: only the pool, the headroom and the tailroom are set. */
  function FreeHead(L: PktLayout, poolId: nat): PacketHead {
    PacketHead(0, 0, poolId, 0, 0, L.segLen, 0)
  }

  /**
   * The fields odp_pool_create_packet writes into the claimed slot before it
   * reserves the region; clearing the flags also clears unsegmented.
   */
  function ClaimPacketSlot(e: Entry, name: Option<string>, q: Params, L: PktLayout): (r: Entry)
    ensures r.shmValid == e.shmValid && r.poolId == e.poolId && r.poolHdl == e.poolHdl && r.free == e.free
    ensures r.name == StoredName(name) && r.hasName == name.Some? && !r.predefined
    ensures r.params == q
    ensures r.geo == e.geo.(bufNum := L.storedBufNum, poolSize := L.poolSize, unsegmented := false)
  {
    e.(predefined := false, hasName := name.Some?, name := StoredName(name), params := q,
       geo := e.geo.(poolSize := L.poolSize, bufNum := L.storedBufNum, unsegmented := false))
  }

  /** The head arrays and header addresses of a new packet pool. */
  function InitialPacketPart(L: PktLayout, z: Zone, poolId: nat): (k: PacketPart)
    requires L.bufLen >= MinPacketLen(L.segLen)
    ensures k.mallocAddr == z.addr + L.mallocOffset && k.freeAddr == z.addr + L.freeOffset
    ensures k.packetAddr == z.addr + L.packetOffset
    ensures k.mallocIndex == L.mallocIndex && k.freeIndex == L.freeIndex && k.ops == L.ops
    ensures |k.heads| == |k.mallocHeads| == |k.freeHeads| == L.num
    ensures forall i :: 0 <= i < L.num ==>
      k.heads[i] == k.mallocHeads[i] == PacketHeadAt(L, z, poolId, i) && k.freeHeads[i] == FreeHead(L, poolId)
    ensures L.segLen > 0 ==>
      |k.packetBufAddrs| == L.num &&
      forall i :: 0 <= i < L.num ==> k.packetBufAddrs[i] == PacketHeadAt(L, z, poolId, i).virAddr
    ensures L.segLen == 0 ==> k.packetBufAddrs == []
  {
    var heads := HeadsOf(L, z, poolId, L.num);
    PacketPart(z.addr + L.mallocOffset, z.addr + L.freeOffset, z.addr + L.packetOffset,
               L.mallocIndex, L.freeIndex, heads, heads, FreeHeadsOf(L, poolId, L.num),
               if L.segLen > 0 then BufAddrsOf(L, z, poolId, L.num) else [],
               L.ops)
  }

  /** The heads of the first n packets. */
  function HeadsOf(L: PktLayout, z: Zone, poolId: nat, n: nat): seq<PacketHead>
    requires L.bufLen >= MinPacketLen(L.segLen)
  {
    seq(n, i requires 0 <= i < n => PacketHeadAt(L, z, poolId, i))
  }

  /** The free-side records of the first n packets. */
  function FreeHeadsOf(L: PktLayout, poolId: nat, n: nat): seq<PacketHead> {
    seq(n, i requires 0 <= i < n => FreeHead(L, poolId))
  }

  /** The sequences of the first i + 1 packets extend those of the first i by packet i. */
  lemma PacketSeqsStep(L: PktLayout, z: Zone, poolId: nat, i: nat)
    requires L.bufLen >= MinPacketLen(L.segLen)
    ensures HeadsOf(L, z, poolId, i + 1) == HeadsOf(L, z, poolId, i) + [PacketHeadAt(L, z, poolId, i)]
    ensures FreeHeadsOf(L, poolId, i + 1) == FreeHeadsOf(L, poolId, i) + [FreeHead(L, poolId)]
    ensures BufAddrsOf(L, z, poolId, i + 1) == BufAddrsOf(L, z, poolId, i) + [PacketHeadAt(L, z, poolId, i).virAddr]
  {
    assert HeadsOf(L, z, poolId, i + 1) == HeadsOf(L, z, poolId, i) + [PacketHeadAt(L, z, poolId, i)];
    assert FreeHeadsOf(L, poolId, i + 1) == FreeHeadsOf(L, poolId, i) + [FreeHead(L, poolId)];
    assert BufAddrsOf(L, z, poolId, i + 1) == BufAddrsOf(L, z, poolId, i) + [PacketHeadAt(L, z, poolId, i).virAddr];
  }

  /** The data addresses of the first n packets, as their packet headers' buf_addr holds them. */
  function BufAddrsOf(L: PktLayout, z: Zone, poolId: nat, n: nat): seq<nat>
    requires L.bufLen >= MinPacketLen(L.segLen)
  {
    seq(n, i requires 0 <= i < n => PacketHeadAt(L, z, poolId, i).virAddr)
  }

  /**
   * The for loop of odp_pool_create_packet: for each packet the head at the
   * start of its block, its malloc-side copy, its free-side record and, with
   * a segment length, its packet header's buf_addr, while the virtual and
   * physical cursors advance by one packet length.
   */
  method BuildPacketPart(L: PktLayout, z: Zone, poolId: nat) returns (k: PacketPart)
    requires L.bufLen >= MinPacketLen(L.segLen)
    ensures k == InitialPacketPart(L, z, poolId)
  {
    var heads: seq<PacketHead> := [];
    var frees: seq<PacketHead> := [];
    var bufAddrs: seq<nat> := [];
    var vir := z.addr + PACKET_HEAD_SIZE + L.segLen;
    var phy := z.phys + PACKET_HEAD_SIZE + L.segLen;
    for i := 0 to L.num
      invariant vir == z.addr + PACKET_HEAD_SIZE + L.segLen + i * L.bufLen
      invariant phy == z.phys + PACKET_HEAD_SIZE + L.segLen + i * L.bufLen
      invariant heads == HeadsOf(L, z, poolId, i)
      invariant frees == FreeHeadsOf(L, poolId, i)
      invariant bufAddrs == if L.segLen > 0 then BufAddrsOf(L, z, poolId, i) else []
    {
      var hdr := 0;
      if L.segLen > 0 {
        hdr := z.addr + L.packetOffset + i * PACKET_HDR_STRIDE;
        bufAddrs := bufAddrs + [vir];
      }
      PacketSeqsStep(L, z, poolId, i);
      var h := PacketHead(vir, phy, poolId, i, hdr, L.segLen, 0);
      assert h == PacketHeadAt(L, z, poolId, i);
      heads := heads + [h];
      frees := frees + [PacketHead(0, 0, poolId, 0, 0, L.segLen, 0)];
      vir := vir + L.bufLen;
      phy := phy + L.bufLen;
    }
    k := PacketPart(z.addr + L.mallocOffset, z.addr + L.freeOffset, z.addr + L.packetOffset,
                    L.mallocIndex, L.freeIndex, heads, heads, frees, bufAddrs, L.ops);
  }

  /**
   * A packet pool after a successful odp_pool_create_packet. Its metadata
   * region holds packet heads, not buffer headers, so it has no buffer
   * headers, and both free lists are empty.
   */
  function NewPacketEntry(e: Entry, name: Option<string>, q: Params, L: PktLayout, z: Zone): (r: Entry)
    requires L.bufLen >= MinPacketLen(L.segLen)
    ensures EntryOk(r) && r.free == EMPTY_LISTS
    ensures r == ClaimPacketSlot(e, name, q, L).(shmValid := true, geo := r.geo, free := EMPTY_LISTS,
                                                   lowWmAssert := false, pkt := r.pkt)
    ensures r.pkt == InitialPacketPart(L, z, e.poolId)
    ensures r.geo == ClaimPacketSlot(e, name, q, L).geo.(
      baseAddr := z.addr, basePhyAddr := z.phys, unsegmented := true, blkSize := L.bufLen,
      segSize := L.segLen, mdataAddr := z.addr + L.mallocOffset, udataSize := L.headSize,
      bufStride := L.strideSize, headroom := L.segLen, tailroom := 0, highWm := L.highWm, lowWm := L.lowWm)
  {
    var c := ClaimPacketSlot(e, name, q, L);
    c.(shmValid := true,
       geo := c.geo.(baseAddr := z.addr, basePhyAddr := z.phys, unsegmented := true, blkSize := L.bufLen,
                     segSize := L.segLen, mdataAddr := z.addr + L.mallocOffset, udataSize := L.headSize,
                     bufStride := L.strideSize, headroom := L.segLen, tailroom := 0,
                     highWm := L.highWm, lowWm := L.lowWm),
       free := EMPTY_LISTS, lowWmAssert := false,
       pkt := InitialPacketPart(L, z, e.poolId))
  }
}
