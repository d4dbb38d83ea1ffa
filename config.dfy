/**
 * Build-time configuration of the pool allocator. The C code takes these from
 * configuration headers that are not part of this model; the values below are
 * representative of the linux-generic platform. The header strides are treated
 * as abstract multiples of the cache-line size.
 */
module PoolConfig {
  const CACHE_LINE_SIZE: nat := 64
  const PAGE_SIZE: nat := 4096
  /** Number of slots in the pool table (ODP_CONFIG_POOLS). */
  const CONFIG_POOLS: nat := 16
  /** Capacity of a pool name, including the terminating NUL (ODP_POOL_NAME_LEN). */
  const POOL_NAME_LEN: nat := 32
  const BUFFER_ALIGN_MIN: nat := 16
  const BUFFER_ALIGN_MAX: nat := 4096
  /** Number of segment pointers in a buffer header (ODP_BUFFER_MAX_SEG). */
  const BUFFER_MAX_SEG: nat := 6
  const POINTER_SIZE: nat := 8
  /** Largest payload stored inside the buffer header itself (ODP_MAX_INLINE_BUF). */
  const MAX_INLINE_BUF: nat := POINTER_SIZE * (BUFFER_MAX_SEG - 1)
  /** Addressable buffers per pool (ODP_BUFFER_MAX_BUFFERS). */
  const BUFFER_MAX_BUFFERS: nat := 0x200_0000
  /** sizeof(odp_buffer_hdr_stride), sizeof(odp_timeout_hdr_stride), sizeof(odp_packet_hdr_stride). */
  const BUFFER_HDR_STRIDE: nat := 2 * CACHE_LINE_SIZE
  const TIMEOUT_HDR_STRIDE: nat := 3 * CACHE_LINE_SIZE
  const PACKET_HDR_STRIDE: nat := 4 * CACHE_LINE_SIZE
  /** Size of one packet_head_t record, and the smallest packet payload. */
  const PACKET_HEAD_SIZE: nat := 64
  const PACKET_MIN_SIZE: nat := 128
  /** Granularity of a packet pool's reserved region (POOL_BUF_ALIGN_SIZE). */
  const POOL_BUF_ALIGN_SIZE: nat := 0x20_0000
  /** Bound on the number of buffers one thread may hold in its cache for one pool. */
  const LOCAL_CACHE_SIZE: nat := 32
  /** One more than the largest unsigned 32-bit value. */
  const U32_MODULUS: nat := 0x1_0000_0000
}
