/**
 * Parameter validation and region layout of a new pool: the expression-only
 * part of odp_pool_create (buffer and timeout pools) and of
 * odp_pool_create_packet. Offsets are relative to the base of the region
 * the pool reserves.
 */
module PoolLayout {
  import opened Wrappers
  import opened PoolConfig
  import opened Align

  datatype PoolType = BufferType | PacketType | TimeoutType | OtherType

  datatype BufParams = BufParams(num: nat, size: nat, align: nat)
  datatype PktParams = PktParams(num: nat, len: nat, segLen: nat, lock: int)
  /** odp_pool_param_t: the kind and the per-kind request. */
  datatype Params = Params(kind: PoolType, buf: BufParams, pkt: PktParams, tmoNum: nat)

  datatype CreateError = BadAlignment | UnsupportedType | TooManyBuffers | NoBuffers

  /** The alloc/free pair a packet pool is bound to. */
  datatype PacketOps = NoPacketOps | LockedOps | UnlockedOps

  /**
   * The parameters odp_pool_create works with, and stores in the pool:
   * a timeout pool's buffer size and alignment are forced to zero.
   */
  function EffectiveParams(p: Params): (q: Params)
    ensures q.kind == p.kind && q.pkt == p.pkt && q.tmoNum == p.tmoNum && q.buf.num == p.buf.num
    ensures p.kind == TimeoutType ==> q.buf.size == 0 && q.buf.align == 0
    ensures p.kind != TimeoutType ==> q == p
  {
    if p.kind == TimeoutType then p.(buf := p.buf.(size := 0, align := 0)) else p
  }

  /** The alignment test of odp_pool_create: at most the maximum, and zero or a power of two. */
  predicate AlignAccepted(a: nat) {
    a <= BUFFER_ALIGN_MAX && a == LowestSetBit(a)
  }

  lemma AlignAcceptedMeansPowerOfTwo(a: nat)
    ensures AlignAccepted(a) <==> a <= BUFFER_ALIGN_MAX && (a == 0 || IsPowerOfTwo(a))
  {
    LowestSetBitCharacterisesPowers(a);
  }

  /** An accepted alignment as the pool uses it: 0 means one cache line, small ones are raised. */
  function NormaliseAlign(a: nat): (r: nat)
    requires AlignAccepted(a)
    ensures a == 0 ==> r == CACHE_LINE_SIZE
    ensures 0 < a < BUFFER_ALIGN_MIN ==> r == BUFFER_ALIGN_MIN
    ensures a >= BUFFER_ALIGN_MIN ==> r == a
    ensures BUFFER_ALIGN_MIN <= r <= BUFFER_ALIGN_MAX && IsPowerOfTwo(r)
  {
    AlignAcceptedMeansPowerOfTwo(a);
    assert Pow2(4) == BUFFER_ALIGN_MIN && Pow2(6) == CACHE_LINE_SIZE;
    if a == 0 then CACHE_LINE_SIZE else if a < BUFFER_ALIGN_MIN then BUFFER_ALIGN_MIN else a
  }

  /** The largest buffer count a header stride can address. */
  function BufferLimit(stride: nat): (n: nat)
    requires stride >= CACHE_LINE_SIZE
    ensures n * (stride / CACHE_LINE_SIZE) <= BUFFER_MAX_BUFFERS
  {
    BUFFER_MAX_BUFFERS / (stride / CACHE_LINE_SIZE)
  }

  /** Layout of a buffer or timeout pool, with the values stored in its table entry. */
  datatype BufLayout = BufLayout(
    bufNum: nat,
    blkSize: nat,      // payload bytes per buffer, after alignment
    bufAlign: nat,     // the normalised alignment
    storedAlign: nat,  // what pool->s.buf_align ends up as
    bufStride: nat,    // bytes per metadata slot
    blockSize: nat,    // bytes of the separate block region (0 when payload is inline)
    padSize: nat,
    mdataSize: nat,
    udataSize: nat,
    poolSize: nat,
    segSize: nat,
    mdataOffset: nat,
    highWm: nat,
    lowWm: nat)

  predicate IsInline(L: BufLayout) {
    L.blkSize <= MAX_INLINE_BUF
  }

  function MakeBufLayout(num: nat, blk: nat, stride: nat, align: nat): (L: BufLayout)
    ensures L.bufNum == num && L.blkSize == blk && L.bufStride == stride && L.segSize == blk
    ensures L.blockSize == (if blk <= MAX_INLINE_BUF then 0 else num * blk)
    ensures L.storedAlign == (if blk > MAX_INLINE_BUF then align else if blk == 0 then 0 else POINTER_SIZE)
    ensures L.padSize < CACHE_LINE_SIZE && (L.blockSize + L.padSize) % CACHE_LINE_SIZE == 0
    ensures L.mdataOffset == L.blockSize + L.padSize
    ensures L.mdataSize == num * stride && L.udataSize == 0
    ensures L.poolSize % PAGE_SIZE == 0
    ensures L.mdataOffset + L.mdataSize + L.udataSize <= L.poolSize < L.mdataOffset + L.mdataSize + L.udataSize + PAGE_SIZE
    ensures L.highWm == num / 2 && L.lowWm == num / 4
  {
    var blockSize := if blk <= MAX_INLINE_BUF then 0 else num * blk;
    var pad := RoundUp(blockSize, CACHE_LINE_SIZE) - blockSize;
    var mdata := num * stride;
    var udata := 0;
    BufLayout(num, blk, align,
              if blk <= MAX_INLINE_BUF then (if blk == 0 then 0 else POINTER_SIZE) else align,
              stride, blockSize, pad, mdata, udata,
              RoundUp(blockSize + pad + mdata + udata, PAGE_SIZE),
              blk, blockSize + pad, num / 2, num / 4)
  }

  /** The payload size of a raw-buffer pool: aligned when large or when an alignment was asked for. */
  function BufferBlockSize(b: BufParams, align: nat): (blk: nat)
    requires align > 0
    ensures blk >= b.size
    ensures (b.size > MAX_INLINE_BUF || b.align != 0) ==> blk % align == 0 && blk < b.size + align
    ensures !(b.size > MAX_INLINE_BUF || b.align != 0) ==> blk == b.size
  {
    if b.size > MAX_INLINE_BUF || b.align != 0 then RoundUp(b.size, align) else b.size
  }

  /**
   * The validation of odp_pool_create as written, and the layout it then
   * computes; a pool of zero buffers passes. The block region here is the
   * exact product; its 32-bit form is BlockRegionAsWritten.
   */
  function BufferLayoutAsWritten(q: Params): (r: Result<BufLayout, CreateError>)
    ensures r.Err? ==> r.error != NoBuffers
    ensures r.Ok? <==>
      (q.kind == BufferType && AlignAccepted(q.buf.align) && q.buf.num <= BufferLimit(BUFFER_HDR_STRIDE)) ||
      (q.kind == TimeoutType && q.tmoNum <= BufferLimit(TIMEOUT_HDR_STRIDE))
    ensures r.Ok? ==> r.value.bufNum == RequestedNum(q)
  {
    var requested := if q.kind == BufferType then q.buf.align else 0;
    if !AlignAccepted(requested) then Err(BadAlignment)
    else
      var align := NormaliseAlign(requested);
      if q.kind == BufferType then
        if q.buf.num > BufferLimit(BUFFER_HDR_STRIDE) then Err(TooManyBuffers)
        else Ok(MakeBufLayout(q.buf.num, BufferBlockSize(q.buf, align), BUFFER_HDR_STRIDE, align))
      else if q.kind == TimeoutType then
        if q.tmoNum > BufferLimit(TIMEOUT_HDR_STRIDE) then Err(TooManyBuffers)
        else Ok(MakeBufLayout(q.tmoNum, 0, TIMEOUT_HDR_STRIDE, align))
      else Err(UnsupportedType)
  }

  /** The number of buffers a buffer or timeout request asks for. */
  function RequestedNum(q: Params): nat {
    if q.kind == TimeoutType then q.tmoNum else q.buf.num
  }

  /**
   * The layout the model creates pools with: the source's validation, and
   * in addition a request for zero buffers is refused (see the findings).
   */
  function BufferLayout(q: Params): (r: Result<BufLayout, CreateError>)
    ensures r == Err(BadAlignment) <==> q.kind == BufferType && !AlignAccepted(q.buf.align)
    ensures r == Err(UnsupportedType) <==>
      q.kind != BufferType && q.kind != TimeoutType
    ensures r == Err(TooManyBuffers) <==>
      (q.kind == BufferType && AlignAccepted(q.buf.align) && q.buf.num > BufferLimit(BUFFER_HDR_STRIDE)) ||
      (q.kind == TimeoutType && q.tmoNum > BufferLimit(TIMEOUT_HDR_STRIDE))
    ensures r == Err(NoBuffers) <==>
      (q.kind == BufferType || q.kind == TimeoutType) && BufferLayoutAsWritten(q).Ok? && RequestedNum(q) == 0
    ensures r.Ok? ==> r == BufferLayoutAsWritten(q) && r.value.bufNum == RequestedNum(q) >= 1
    ensures r.Ok? && q.kind == BufferType ==>
      r.value.bufAlign == NormaliseAlign(q.buf.align) && r.value.bufStride == BUFFER_HDR_STRIDE &&
      r.value.blkSize == BufferBlockSize(q.buf, r.value.bufAlign)
    ensures r.Ok? && q.kind == TimeoutType ==>
      r.value.bufAlign == CACHE_LINE_SIZE && r.value.blkSize == 0 && r.value.blockSize == 0 &&
      r.value.bufStride == TIMEOUT_HDR_STRIDE
  {
    var w := BufferLayoutAsWritten(q);
    if w.Ok? && w.value.bufNum == 0 then Err(NoBuffers) else w
  }

  /** Where every block and metadata slot of a buffer pool lives; nothing overlaps or leaves the region. */
  lemma BufferRegionsFit(L: BufLayout, k: nat)
    requires L == MakeBufLayout(L.bufNum, L.blkSize, L.bufStride, L.bufAlign)
    requires k < L.bufNum
    ensures !IsInline(L) ==> (k + 1) * L.segSize <= L.blockSize <= L.mdataOffset
    ensures L.mdataOffset + (k + 1) * L.bufStride <= L.poolSize
  {
    MulMonotone(k + 1, L.bufNum, L.bufStride);
    if !IsInline(L) {
      MulMonotone(k + 1, L.bufNum, L.segSize);
    }
  }

  lemma MulMonotone(a: nat, b: nat, c: nat)
    requires a <= b
    ensures a * c <= b * c
  {
    assert b * c == a * c + (b - a) * c;
  }

  // ---------------------------------------------------------------------
  // The metadata initialisation loop, exactly as written (a do-while).

  /**
   * The successive metadata offsets the do-while at odp_pool.c visits: it
   * starts at first and steps down by stride while the offset is still at
   * least lo. The body always runs once.
   */
  function DoWhileOffsets(first: int, lo: int, stride: nat): (r: seq<int>)
    requires stride > 0 && first >= lo - stride
    ensures |r| >= 1 && r[0] == first
    decreases first - lo + stride
  {
    if first - stride >= lo then [first] + DoWhileOffsets(first - stride, lo, stride) else [first]
  }

  /** For a pool of at least one buffer the loop visits every slot exactly once, highest first. */
  lemma {:induction false} InitVisitsEverySlot(lo: int, stride: nat, num: nat)
    requires stride > 0 && num >= 1
    ensures var r := DoWhileOffsets(lo + (num - 1) * stride, lo, stride);
      |r| == num && forall j :: 0 <= j < num ==> r[j] == lo + (num - 1 - j) * stride
  {
    var first := lo + (num - 1) * stride;
    if num == 1 {
      assert first - stride < lo;
    } else {
      assert first - stride == lo + (num - 2) * stride;
      ProductAtLeastFactor(stride, num - 1);
      InitVisitsEverySlot(lo, stride, num - 1);
      var r := DoWhileOffsets(first, lo, stride);
      var rest := DoWhileOffsets(first - stride, lo, stride);
      assert r == [first] + rest;
      forall j | 0 <= j < num
        ensures r[j] == lo + (num - 1 - j) * stride
      {
        if j > 0 {
          assert r[j] == rest[j - 1];
        }
      }
    }
  }

  /**
   * Finding: a request for zero buffers passes the source's validation, and
   * its do-while then initialises a header one stride below the metadata
   * base, which here is before the start of the reserved region.
   */
  lemma ZeroBuffersInitWritesOutside()
    ensures var q := Params(BufferType, BufParams(0, 0, 0), PktParams(0, 0, 0, 0), 0);
      var L := MakeBufLayout(0, 0, BUFFER_HDR_STRIDE, CACHE_LINE_SIZE);
      BufferLayoutAsWritten(q) == Ok(L) && L.bufNum == 0 && L.mdataOffset == 0 &&
      DoWhileOffsets(L.mdataOffset + L.mdataSize - L.bufStride, L.mdataOffset, L.bufStride)
        == [-(BUFFER_HDR_STRIDE as int)]
  {
    ZeroLayout();
    ZeroLayoutFirstOffset();
  }

  lemma ZeroLayoutFirstOffset()
    ensures var L := MakeBufLayout(0, 0, BUFFER_HDR_STRIDE, CACHE_LINE_SIZE);
      DoWhileOffsets(L.mdataOffset + L.mdataSize - L.bufStride, L.mdataOffset, L.bufStride)
        == [-(BUFFER_HDR_STRIDE as int)]
  {
    var L := MakeBufLayout(0, 0, BUFFER_HDR_STRIDE, CACHE_LINE_SIZE);
    assert L.mdataOffset == 0 && L.mdataSize == 0 && L.bufStride == BUFFER_HDR_STRIDE;
    OneStepBelow(-(BUFFER_HDR_STRIDE as int), 0, BUFFER_HDR_STRIDE);
  }

  lemma ZeroLayout()
    ensures var q := Params(BufferType, BufParams(0, 0, 0), PktParams(0, 0, 0, 0), 0);
      var L := MakeBufLayout(0, 0, BUFFER_HDR_STRIDE, CACHE_LINE_SIZE);
      BufferLayoutAsWritten(q) == Ok(L) && L.mdataOffset == 0 && L.mdataSize == 0 &&
      L.bufStride == BUFFER_HDR_STRIDE && L.bufNum == 0
  {
    assert LowestSetBit(0) == 0;
    assert BufferBlockSize(BufParams(0, 0, 0), CACHE_LINE_SIZE) == 0;
  }

  lemma OneStepBelow(first: int, lo: int, stride: nat)
    requires stride > 0 && lo - stride <= first < lo + stride
    ensures DoWhileOffsets(first, lo, stride) == [first]
  {
  }

  // ---------------------------------------------------------------------
  // 32-bit product in the block-region size, exactly as written.

  /** A product of two uint32_t values as C computes it, such as block_size = buf_num * blk_size. */
  function BlockRegionAsWritten(num: nat, blk: nat): (r: nat)
    ensures r < U32_MODULUS
    ensures num * blk < U32_MODULUS ==> r == num * blk
  {
    (num * blk) % U32_MODULUS
  }

  /**
   * Finding: 65536 buffers of 65536 bytes pass validation, the product wraps
   * to 0, and the region the source reserves has no room for any block.
   */
  lemma BlockRegionWrapsAsWritten()
    ensures var q := Params(BufferType, BufParams(65536, 65536, 0), PktParams(0, 0, 0, 0), 0);
      BufferLayout(q).Ok? &&
      BufferLayout(q).value.blkSize == 65536 &&
      BufferLayout(q).value.blockSize == 65536 * 65536 &&
      BlockRegionAsWritten(65536, 65536) == 0
  {
    var q := Params(BufferType, BufParams(65536, 65536, 0), PktParams(0, 0, 0, 0), 0);
    assert LowestSetBit(0) == 0;
    assert BufferBlockSize(q.buf, CACHE_LINE_SIZE) == 65536;
  }

  // ---------------------------------------------------------------------
  // Packet pools.

  /** Layout of a packet pool and the values odp_pool_create_packet stores. */
  datatype PktLayout = PktLayout(
    num: nat,          // requested packet count
    bufLen: nat,       // bytes per packet block
    segLen: nat,       // headroom reserved in each block
    bufHead: nat,      // packet_head_t bytes per packet (malloc side + free side)
    bufStride: nat,    // packet header bytes per packet (0 without a segment length)
    headSize: nat,
    strideSize: nat,
    blockSize: nat,
    padSize: nat,
    poolSize: nat,
    storedBufNum: nat,
    mallocOffset: nat,
    freeOffset: nat,
    packetOffset: nat,
    mallocIndex: nat,
    freeIndex: nat,
    highWm: nat,
    lowWm: nat,
    ops: PacketOps)

  function MinPacketLen(segLen: nat): nat {
    PACKET_MIN_SIZE + PACKET_HEAD_SIZE + segLen
  }

  /** The packet buffer length: the requested length, raised to the minimum, rounded up to a cache line. */
  function PacketBufLen(len: nat, segLen: nat): (b: nat)
    ensures b >= MinPacketLen(segLen) && b >= len
    ensures b % CACHE_LINE_SIZE == 0
    ensures b < (if len < MinPacketLen(segLen) then MinPacketLen(segLen) else len) + CACHE_LINE_SIZE
  {
    RoundUp(if len < MinPacketLen(segLen) then MinPacketLen(segLen) else len, CACHE_LINE_SIZE)
  }

  function PacketLayout(p: PktParams): (L: PktLayout)
    ensures L.bufLen == PacketBufLen(p.len, p.segLen)
    ensures L.bufStride > 0 <==> p.segLen > 0
    ensures L.poolSize % POOL_BUF_ALIGN_SIZE == 0
    ensures L.blockSize + L.headSize + L.strideSize <= L.poolSize < L.blockSize + L.headSize + L.strideSize + POOL_BUF_ALIGN_SIZE
    ensures L.freeOffset == L.mallocOffset + p.num * PACKET_HEAD_SIZE
    ensures L.packetOffset == L.freeOffset + p.num * PACKET_HEAD_SIZE
    ensures L.packetOffset + L.strideSize <= L.poolSize
    ensures L.num == p.num && L.segLen == p.segLen && L.storedBufNum == 2 * p.num
    ensures L.mallocOffset == L.blockSize && L.mallocIndex == 0 && L.freeIndex == p.num
    ensures L.highWm == p.num / 2 && L.lowWm == p.num / 4
    ensures L.ops != NoPacketOps && (L.ops == LockedOps <==> p.lock > 0)
  {
    var bufLen := PacketBufLen(p.len, p.segLen);
    var bufHead := PACKET_HEAD_SIZE * 2;
    var bufStride := if p.segLen > 0 then PACKET_HDR_STRIDE else 0;
    var headSize := p.num * bufHead;
    var strideSize := p.num * bufStride;
    var blockSize := p.num * bufLen;
    var raw := blockSize + headSize + strideSize;
    var pad := RoundUp(raw, POOL_BUF_ALIGN_SIZE) - raw;
    assert headSize == p.num * PACKET_HEAD_SIZE + p.num * PACKET_HEAD_SIZE;
    PktLayout(p.num, bufLen, p.segLen, bufHead, bufStride, headSize, strideSize, blockSize,
              pad, raw + pad, p.num * 2,
              blockSize, blockSize + p.num * PACKET_HEAD_SIZE, blockSize + headSize,
              0, p.num, p.num / 2, p.num / 4,
              if p.lock > 0 then LockedOps else UnlockedOps)
  }

  /** Packet i's block lies inside the block region, which ends where the head arrays begin. */
  lemma PacketBlockFits(p: PktParams, i: nat)
    requires i < p.num
    ensures var L := PacketLayout(p); (i + 1) * L.bufLen <= L.blockSize == L.mallocOffset
  {
    var L := PacketLayout(p);
    MulMonotone(i + 1, L.num, L.bufLen);
  }

  /**
   * Finding: odp_pool_create_packet checks no limit, and it computes its
   * region sizes as products of uint32_t values. For 65536 packets of 65536
   * bytes the block region wraps to 0, while the last packet's block ends
   * 2^32 bytes past the base of the region.
   */
  lemma PacketBlockRegionWrapsAsWritten()
    ensures var p := PktParams(65536, 65536, 0, 0);
      var L := PacketLayout(p);
      L.bufLen == 65536 && L.blockSize == U32_MODULUS &&
      BlockRegionAsWritten(p.num, L.bufLen) == 0
  {
    assert PacketBufLen(65536, 0) == 65536;
  }
}
