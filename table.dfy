/**
 * The pool table (pool_tbl) and the per-thread caches (local_cache), and
 * the public operations on them. The table contents are specified by pure
 * functions on the sequence of entries; the methods are proved to compute
 * exactly those.
 */
module PoolTable {
  import opened Wrappers
  import opened PoolConfig
  import opened PoolLayout
  import opened PoolEntry

  /** A well-formed table: one entry per slot, each knowing its own id and handle. */
  predicate TableOk(s: seq<Entry>) {
    && |s| == CONFIG_POOLS
    && forall i :: 0 <= i < |s| ==>
         EntryOk(s[i]) && s[i].poolId == i && s[i].poolHdl == IndexToHandle(i) && |s[i].name| < POOL_NAME_LEN
  }

  /** One cache per slot, each fitting its pool. */
  predicate CachesOk(s: seq<Entry>, caches: seq<seq<nat>>) {
    |caches| == |s| && forall i :: 0 <= i < |s| ==> CacheOk(s[i], caches[i])
  }

  /** The table slot a handle names, when it names one. */
  function SlotOf(hdl: nat): (r: Option<nat>)
    ensures r.Some? <==> 1 <= hdl <= CONFIG_POOLS
    ensures r.Some? ==> r.value < CONFIG_POOLS && IndexToHandle(r.value) == hdl
  {
    if 1 <= hdl <= CONFIG_POOLS then Some(HandleToIndex(hdl) as nat) else None
  }

  // ---------------------------------------------------------------------
  // Specification functions.

  /** The table odp_pool_init_global leaves. */
  function InitialTable(): (s: seq<Entry>)
    ensures TableOk(s)
    ensures forall i :: 0 <= i < |s| ==> s[i] == InitialEntry(i) && !s[i].shmValid
  {
    seq(CONFIG_POOLS, i requires 0 <= i < CONFIG_POOLS => InitialEntry(i))
  }

  /** The lowest slot at or after i whose pool_shm is invalid: the claim loop. */
  function FirstFreeFrom(s: seq<Entry>, i: nat): (r: Option<nat>)
    requires i <= |s|
    ensures r.Some? ==> i <= r.value < |s| && !s[r.value].shmValid &&
                        forall j :: i <= j < r.value ==> s[j].shmValid
    ensures r.None? ==> forall j :: i <= j < |s| ==> s[j].shmValid
    decreases |s| - i
  {
    if i == |s| then None
    else if !s[i].shmValid then Some(i)
    else FirstFreeFrom(s, i + 1)
  }

  function FirstFree(s: seq<Entry>): (r: Option<nat>)
    ensures r.Some? ==> r.value < |s| && !s[r.value].shmValid && forall j :: 0 <= j < r.value ==> s[j].shmValid
    ensures r.None? ==> forall j :: 0 <= j < |s| ==> s[j].shmValid
  {
    FirstFreeFrom(s, 0)
  }

  /** odp_pool_create_packet on table s, with the region the provider grants, if any. */
  function CreatePacketOutcome(s: seq<Entry>, name: Option<string>, q: Params, zone: Option<Zone>): (r: (seq<Entry>, nat))
    requires TableOk(s)
    ensures TableOk(r.0)
    ensures r.1 != POOL_INVALID ==> FirstFree(s).Some?
  {
    var L := PacketLayout(q.pkt);
    match FirstFree(s)
    case None => (s, POOL_INVALID)
    case Some(i) =>
      if zone.None? then (s[i := ClaimPacketSlot(s[i], name, q, L)], POOL_INVALID)
      else (s[i := NewPacketEntry(s[i], name, q, L, zone.value)], s[i].poolHdl)
  }

  /** odp_pool_create on table s, with the region the provider grants, if any. */
  function CreateOutcome(s: seq<Entry>, name: Option<string>, p: Params, zone: Option<Zone>): (r: (seq<Entry>, nat))
    requires TableOk(s)
    ensures TableOk(r.0)
    ensures r.1 != POOL_INVALID ==> FirstFree(s).Some?
  {
    var q := EffectiveParams(p);
    if q.kind == PacketType then CreatePacketOutcome(s, name, q, zone)
    else CreateBufferOutcome(s, name, q, zone)
  }

  /** The buffer and timeout branch of odp_pool_create, on the effective parameters q. */
  function CreateBufferOutcome(s: seq<Entry>, name: Option<string>, q: Params, zone: Option<Zone>): (r: (seq<Entry>, nat))
    requires TableOk(s)
    ensures TableOk(r.0)
    ensures r.1 != POOL_INVALID ==> FirstFree(s).Some?
  {
    match BufferLayout(q)
    case Err(_) => (s, POOL_INVALID)
    case Ok(L) =>
      match FirstFree(s)
      case None => (s, POOL_INVALID)
      case Some(i) =>
        if zone.None? then (s[i := ClaimBufferSlot(s[i], name, q, L)], POOL_INVALID)
        else (s[i := NewBufferEntry(s[i], name, q, L, zone.value)], s[i].poolHdl)
  }

  /** The lowest slot at or after i whose stored name equals name, occupied or not: the lookup loop. */
  function FindNameFrom(s: seq<Entry>, name: string, i: nat): (r: Option<nat>)
    requires i <= |s|
    ensures r.Some? ==> i <= r.value < |s| && s[r.value].name == name &&
                        forall j :: i <= j < r.value ==> s[j].name != name
    ensures r.None? ==> forall j :: i <= j < |s| ==> s[j].name != name
    decreases |s| - i
  {
    if i == |s| then None
    else if s[i].name == name then Some(i)
    else FindNameFrom(s, name, i + 1)
  }

  /** odp_pool_lookup: the handle of the first slot with that name, or POOL_INVALID. */
  function LookupResult(s: seq<Entry>, name: string): (h: nat)
    requires TableOk(s)
    ensures h == POOL_INVALID <==> forall j :: 0 <= j < |s| ==> s[j].name != name
    ensures h != POOL_INVALID ==>
      var i := HandleToIndex(h);
      0 <= i < |s| && s[i].name == name && forall j :: 0 <= j < i ==> s[j].name != name
  {
    match FindNameFrom(s, name, 0)
    case None => POOL_INVALID
    case Some(i) => s[i].poolHdl
  }

  /**
   * odp_pool_destroy on one entry with this thread's cache for it: the
   * result code, the entry and the cache after the call.
   */
  function DestroyOutcome(e: Entry, c: seq<nat>): (r: (int, Entry, seq<nat>))
    requires EntryOk(e) && SlotsIn(|e.free.hdrs|, c)
    ensures EntryOk(r.1)
    ensures !e.shmValid || e.predefined ==> r == (-1, e, c)
    ensures e.shmValid && !e.predefined ==> r.2 == [] && r.1.free == FlushCache(e.free, c)
    ensures r.0 == 0 <==> e.shmValid && !e.predefined && e.free.bufcount + |c| >= e.geo.bufNum
    ensures r.0 == 0 ==> r.1 == e.(free := r.1.free, shmValid := false)
    ensures r.0 != 0 ==> r.0 == -1 && r.1 == e.(free := r.1.free)
  {
    if !e.shmValid || e.predefined then (-1, e, c)
    else
      var f := FlushCache(e.free, c);
      if f.bufcount < e.geo.bufNum then (-1, e.(free := f), [])
      else (0, e.(free := f, shmValid := false), [])
  }

  /** One slot after flush_cache of the thread's cache for it. */
  function FlushSlot(e: Entry, c: seq<nat>): Entry
    requires EntryOk(e) && SlotsIn(|e.free.hdrs|, c)
  {
    e.(free := FlushCache(e.free, c))
  }

  /** The table when the slots below i have been flushed and the others not yet. */
  function FlushedUpTo(s: seq<Entry>, cs: seq<seq<nat>>, i: nat): (r: seq<Entry>)
    requires TableOk(s) && CachesOk(s, cs) && i <= |s|
    ensures |r| == |s|
    ensures forall j :: i <= j < |s| ==> r[j] == s[j]
  {
    FlushedTable(s, cs)[..i] + s[i..]
  }

  /** The caches when those below i have been emptied. */
  function EmptiedUpTo(cs: seq<seq<nat>>, i: nat): (r: seq<seq<nat>>)
    requires i <= |cs|
    ensures |r| == |cs|
    ensures forall j :: 0 <= j < i ==> r[j] == []
    ensures forall j :: i <= j < |cs| ==> r[j] == cs[j]
  {
    seq(|cs|, j requires 0 <= j < |cs| => if j < i then [] else cs[j])
  }

  /** One more step of the flush loop. */
  lemma FlushedUpToStep(s: seq<Entry>, cs: seq<seq<nat>>, i: nat)
    requires TableOk(s) && CachesOk(s, cs) && i < |s|
    ensures FlushedUpTo(s, cs, i)[i := FlushSlot(s[i], cs[i])] == FlushedUpTo(s, cs, i + 1)
    ensures EmptiedUpTo(cs, i)[i := []] == EmptiedUpTo(cs, i + 1)
  {
    assert FlushedUpTo(s, cs, i)[i := FlushSlot(s[i], cs[i])] == FlushedUpTo(s, cs, i + 1);
    assert EmptiedUpTo(cs, i)[i := []] == EmptiedUpTo(cs, i + 1);
  }

  /** At the end of the flush loop every slot is flushed. */
  lemma FlushedUpToEnd(s: seq<Entry>, cs: seq<seq<nat>>)
    requires TableOk(s) && CachesOk(s, cs)
    ensures FlushedUpTo(s, cs, |s|) == FlushedTable(s, cs)
  {
    assert FlushedUpTo(s, cs, |s|) == FlushedTable(s, cs);
  }

  /** Slot i of a well-formed table can be flushed with its cache. */
  lemma SlotFlushable(s: seq<Entry>, cs: seq<seq<nat>>, i: nat)
    requires TableOk(s) && CachesOk(s, cs) && i < |s|
    ensures EntryOk(s[i]) && SlotsIn(|s[i].free.hdrs|, cs[i])
  {
  }

  /** Replacing one slot's entry and cache by a fitting pair keeps every cache fitting its pool. */
  lemma SlotUpdateKeepsCachesOk(s: seq<Entry>, cs: seq<seq<nat>>, i: nat, e: Entry, c: seq<nat>)
    requires CachesOk(s, cs) && i < |s| && CacheOk(e, c)
    ensures CachesOk(s[i := e], cs[i := c])
  {
  }

  /** Empty caches fit any table. */
  lemma EmptyCachesFit(s: seq<Entry>, cs: seq<seq<nat>>)
    requires |cs| == |s| && forall i :: 0 <= i < |cs| ==> cs[i] == []
    ensures CachesOk(s, cs)
  {
  }

  /** The table after every cache of one thread is flushed into its pool. */
  function FlushedTable(s: seq<Entry>, cs: seq<seq<nat>>): (r: seq<Entry>)
    requires TableOk(s) && CachesOk(s, cs)
    ensures |r| == |s|
  {
    seq(|s|, i requires 0 <= i < |s| => FlushSlot(s[i], cs[i]))
  }

  /**
   * The flushed table is well formed, and each pool's free list holds what
   * it held before together with every slot of that pool's cache.
   */
  lemma FlushedTableKeepsBuffers(s: seq<Entry>, cs: seq<seq<nat>>)
    requires TableOk(s) && CachesOk(s, cs)
    ensures var r := FlushedTable(s, cs);
      TableOk(r) &&
      forall i :: 0 <= i < |s| ==>
        r[i] == s[i].(free := r[i].free) && r[i].free.bufcount == s[i].free.bufcount + |cs[i]| &&
        multiset(r[i].free.bufFreelist) == multiset(s[i].free.bufFreelist) + multiset(cs[i])
  {
    var r := FlushedTable(s, cs);
    forall i | 0 <= i < |s|
      ensures EntryOk(r[i]) && r[i] == s[i].(free := r[i].free) && r[i].free.bufcount == s[i].free.bufcount + |cs[i]|
      ensures multiset(r[i].free.bufFreelist) == multiset(s[i].free.bufFreelist) + multiset(cs[i])
    {
      assert r[i] == FlushSlot(s[i], cs[i]);
    }
  }

  /** Replacing one slot's entry by a well-formed entry for that slot keeps the table well formed. */
  lemma SlotUpdateKeepsTableOk(s: seq<Entry>, i: nat, e: Entry)
    requires TableOk(s) && i < |s|
    requires EntryOk(e) && e.poolId == i && e.poolHdl == IndexToHandle(i) && |e.name| < POOL_NAME_LEN
    ensures TableOk(s[i := e])
  {
  }

  // ---------------------------------------------------------------------
  // Properties of the specification.

  /** Creation succeeds exactly when the request is valid, a slot is free and the region is granted. */
  lemma CreateSucceedsIff(s: seq<Entry>, name: Option<string>, p: Params, zone: Option<Zone>)
    requires TableOk(s)
    ensures var q := EffectiveParams(p);
      CreateOutcome(s, name, p, zone).1 != POOL_INVALID <==>
        (q.kind == PacketType || BufferLayout(q).Ok?) && FirstFree(s).Some? && zone.Some?
  {
  }

  /**
   * A successful creation claims the lowest free slot, returns its handle,
   * marks only that slot occupied, and keeps the table well formed.
   */
  lemma {:induction false} CreateClaimsLowestFreeSlot(s: seq<Entry>, name: Option<string>, p: Params, zone: Option<Zone>)
    requires TableOk(s)
    ensures var r := CreateOutcome(s, name, p, zone);
      TableOk(r.0) && |r.0| == |s| &&
      (r.1 != POOL_INVALID ==>
        var i := FirstFree(s).value;
        r.1 == IndexToHandle(i) && r.0[i].shmValid && r.0[i].name == StoredName(name) &&
        r.0[i].params == EffectiveParams(p) &&
        forall j :: 0 <= j < |s| && j != i ==> r.0[j] == s[j])
  {
    var q := EffectiveParams(p);
    var r := CreateOutcome(s, name, p, zone);
    match FirstFree(s)
    case None =>
    case Some(i) =>
      if q.kind == PacketType {
        var L := PacketLayout(q.pkt);
        assert |StoredName(name)| < POOL_NAME_LEN;
        if zone.Some? {
          assert r.0[i] == NewPacketEntry(s[i], name, q, L, zone.value);
        }
      } else if BufferLayout(q).Ok? {
        var L := BufferLayout(q).value;
        assert |StoredName(name)| < POOL_NAME_LEN;
        if zone.Some? {
          assert r.0[i] == NewBufferEntry(s[i], name, q, L, zone.value);
        }
      }
  }

  /** A failed creation leaves every slot's occupancy as it was: a failed reservation frees the slot again. */
  lemma FailedCreateKeepsOccupancy(s: seq<Entry>, name: Option<string>, p: Params, zone: Option<Zone>)
    requires TableOk(s)
    requires CreateOutcome(s, name, p, zone).1 == POOL_INVALID
    ensures forall j :: 0 <= j < |s| ==> CreateOutcome(s, name, p, zone).0[j].shmValid == s[j].shmValid
  {
  }

  /** With every slot occupied, creation fails whatever is asked. */
  lemma FullTableRefusesCreate(s: seq<Entry>, name: Option<string>, p: Params, zone: Option<Zone>)
    requires TableOk(s) && forall j :: 0 <= j < |s| ==> s[j].shmValid
    ensures CreateOutcome(s, name, p, zone) == (s, POOL_INVALID)
  {
    assert FirstFree(s).None?;
  }

  /**
   * A pool created with a name short enough to be stored whole, when no
   * lower slot carries that name, is what a lookup of the name returns.
   */
  lemma CreateThenLookup(s: seq<Entry>, n: string, p: Params, zone: Option<Zone>)
    requires TableOk(s) && |n| < POOL_NAME_LEN
    requires CreateOutcome(s, Some(n), p, zone).1 != POOL_INVALID
    requires forall j :: 0 <= j < FirstFree(s).value ==> s[j].name != n
    ensures var r := CreateOutcome(s, Some(n), p, zone); LookupResult(r.0, n) == r.1
  {
    CreateClaimsLowestFreeSlot(s, Some(n), p, zone);
  }

  /** Stored names are shorter than POOL_NAME_LEN, so a longer name is never found. */
  lemma LongNameNeverFound(s: seq<Entry>, n: string)
    requires TableOk(s) && |n| >= POOL_NAME_LEN
    ensures LookupResult(s, n) == POOL_INVALID
  {
  }

  /** Lookup ignores occupancy: on a fresh table the empty name finds the first, free, slot. */
  lemma LookupMatchesFreeSlots()
    ensures LookupResult(InitialTable(), "") == IndexToHandle(0)
    ensures !InitialTable()[0].shmValid
  {
    assert InitialTable()[0].name == "";
  }

  /**
   * A buffer or timeout pool just created, with an empty cache, has all its
   * buffers home and can be destroyed at once; its slot is then free.
   */
  lemma {:induction false} NewBufferPoolIsDestroyable(s: seq<Entry>, name: Option<string>, p: Params, z: Zone)
    requires TableOk(s) && EffectiveParams(p).kind != PacketType
    requires CreateOutcome(s, name, p, Some(z)).1 != POOL_INVALID
    ensures var r := CreateOutcome(s, name, p, Some(z)); var i := FirstFree(s).value;
      DestroyOutcome(r.0[i], []).0 == 0 && !DestroyOutcome(r.0[i], []).1.shmValid
  {
    var q := EffectiveParams(p);
    var L := BufferLayout(q).value;
    var i := FirstFree(s).value;
    var e := CreateOutcome(s, name, p, Some(z)).0[i];
    assert e == NewBufferEntry(s[i], name, q, L, z);
    assert e.free.bufcount == L.bufNum == e.geo.bufNum;
  }

  /**
   * A packet pool stores twice its packet count as buf_num while its buffer
   * count stays 0, so destroy refuses it unless it has no packets.
   */
  lemma {:induction false} PacketPoolDestroyableOnlyWhenEmpty(s: seq<Entry>, name: Option<string>, p: Params, z: Zone)
    requires TableOk(s) && p.kind == PacketType
    requires CreateOutcome(s, name, p, Some(z)).1 != POOL_INVALID
    ensures var r := CreateOutcome(s, name, p, Some(z)); var i := FirstFree(s).value;
      DestroyOutcome(r.0[i], []).0 == 0 <==> p.pkt.num == 0
  {
    var q := EffectiveParams(p);
    var L := PacketLayout(q.pkt);
    var i := FirstFree(s).value;
    var e := CreateOutcome(s, name, p, Some(z)).0[i];
    assert e == NewPacketEntry(s[i], name, q, L, z);
    assert e.free.bufcount == 0 && e.geo.bufNum == 2 * p.pkt.num;
  }

  /**
   * A slot freed by destroy is claimed again by the next creation when it is
   * the lowest free one.
   */
  lemma DestroyedSlotIsReclaimed(s: seq<Entry>, i: nat, c: seq<nat>)
    requires TableOk(s) && i < |s| && SlotsIn(|s[i].free.hdrs|, c)
    requires DestroyOutcome(s[i], c).0 == 0
    requires forall j :: 0 <= j < i ==> s[j].shmValid
    ensures FirstFree(s[i := DestroyOutcome(s[i], c).1]) == Some(i)
  {
    var s' := s[i := DestroyOutcome(s[i], c).1];
    assert !s'[i].shmValid;
    assert forall j :: 0 <= j < i ==> s'[j].shmValid;
  }

  /** Destroy hands every cached buffer of the pool back to it. */
  lemma DestroyFlushesCache(e: Entry, c: seq<nat>)
    requires EntryOk(e) && SlotsIn(|e.free.hdrs|, c) && e.shmValid && !e.predefined
    ensures var r := DestroyOutcome(e, c);
      r.2 == [] && multiset(r.1.free.bufFreelist) == multiset(e.free.bufFreelist) + multiset(c)
  {
  }

  // ---------------------------------------------------------------------
  // The per-thread cache array.

  /** local_cache: this thread's cache for each pool slot. */
  class ThreadContext {
    var caches: array<seq<nat>>

    /** A thread's caches start empty. */
    constructor ()
      ensures caches.Length == CONFIG_POOLS && fresh(caches)
      ensures forall i :: 0 <= i < caches.Length ==> caches[i] == []
    {
      caches := new seq<nat>[CONFIG_POOLS](_ => []);
    }
  }

  // ---------------------------------------------------------------------
  // The pool table.

  class Table {
    var pools: array<Entry>

    ghost predicate Valid()
      reads this, pools
    {
      TableOk(pools[..])
    }

    /** This thread's caches fit the table. */
    ghost predicate Coherent(ctx: ThreadContext)
      reads this, pools, ctx, ctx.caches
    {
      ctx.caches.Length == pools.Length && CachesOk(pools[..], ctx.caches[..])
    }

    /** The table before odp_pool_init_global has reserved it. */
    constructor ()
      ensures pools.Length == 0
    {
      pools := new Entry[0];
    }

    /**
     * odp_pool_init_global: reserve the table and give slot i pool id i and
     * its handle, with zero counters. When the table cannot be reserved it
     * fails and the table is left empty (a null pool_tbl).
     */
    method InitGlobal(reserveOk: bool) returns (rc: int)
      modifies this
      ensures rc == (if reserveOk then 0 else -1)
      ensures fresh(pools)
      ensures reserveOk ==> pools[..] == InitialTable()
      ensures reserveOk ==> Valid()
      ensures !reserveOk ==> pools.Length == 0
    {
      if !reserveOk {
        pools := new Entry[0];
        return -1;
      }
      pools := NewTable();
      return 0;
    }

    /** The zero-filled table memory, then slot by slot its pool id and handle. */
    static method NewTable() returns (tbl: array<Entry>)
      ensures fresh(tbl)
      ensures tbl[..] == InitialTable()
    {
      tbl := new Entry[CONFIG_POOLS](_ => ZERO_ENTRY);
      ghost var init := InitialTable();
      for i := 0 to CONFIG_POOLS
        invariant tbl[..i] == init[..i]
      {
        assert init[i] == InitialEntry(i);
        tbl[i] := InitialEntry(i);
      }
      assert tbl[..] == tbl[..CONFIG_POOLS];
    }

    /**
     * odp_pool_term_global: 0 when no pool is left and the table's region is
     * released, -1 otherwise; every slot is examined.
     */
    method TermGlobal(shmFreeOk: bool) returns (rc: int)
      requires Valid()
      ensures rc == 0 <==> shmFreeOk && forall i :: 0 <= i < pools.Length ==> !pools[i].shmValid
      ensures rc == 0 || rc == -1
    {
      rc := 0;
      for i := 0 to pools.Length
        invariant rc == 0 <==> forall j :: 0 <= j < i ==> !pools[j].shmValid
        invariant rc == 0 || rc == -1
      {
        if pools[i].shmValid {
          rc := -1;
        }
      }
      if !shmFreeOk {
        rc := -1;
      }
    }

    /** The claim loop: the lowest slot whose pool_shm is invalid. */
    method FindFreeSlot() returns (r: Option<nat>)
      requires Valid()
      ensures r == FirstFree(pools[..])
    {
      for i := 0 to pools.Length
        invariant FirstFree(pools[..]) == FirstFreeFrom(pools[..], i)
      {
        if !pools[i].shmValid {
          return Some(i);
        }
      }
      return None;
    }

    /** The slot writes and loops of odp_pool_create_packet. */
    method CreatePacket(name: Option<string>, q: Params, zone: Option<Zone>) returns (h: nat)
      requires Valid()
      modifies pools
      ensures Valid()
      ensures var r := CreatePacketOutcome(old(pools[..]), name, q, zone); pools[..] == r.0 && h == r.1
    {
      ghost var s := pools[..];
      var L := PacketLayout(q.pkt);
      var slot := FindFreeSlot();
      if slot.None? {
        return POOL_INVALID;
      }
      var i := slot.value;
      var e0 := pools[i];
      var claimed := ClaimPacketSlot(e0, name, q, L);
      pools[i] := claimed;
      assert pools[..] == s[i := claimed];
      SlotUpdateKeepsTableOk(s, i, claimed);
      if zone.None? {
        return POOL_INVALID;
      }
      FillPacketSlot(s, i, e0, name, q, L, zone.value);
      h := e0.poolHdl;
    }

    /** The rest of odp_pool_create_packet once the region is granted: fill in the claimed slot i and its heads. */
    method FillPacketSlot(ghost s: seq<Entry>, i: nat, e0: Entry, name: Option<string>, q: Params, L: PktLayout, z: Zone)
      requires TableOk(s) && i < CONFIG_POOLS
      requires L.bufLen >= MinPacketLen(L.segLen)
      requires e0.poolId == i && e0.poolHdl == IndexToHandle(i)
      requires pools[..] == s[i := ClaimPacketSlot(e0, name, q, L)]
      modifies pools
      ensures Valid()
      ensures pools[..] == s[i := NewPacketEntry(e0, name, q, L, z)]
    {
      var claimed := pools[i];
      var part := BuildPacketPart(L, z, e0.poolId);
      var e := claimed.(shmValid := true,
        geo := claimed.geo.(baseAddr := z.addr, basePhyAddr := z.phys, unsegmented := true, blkSize := L.bufLen,
                            segSize := L.segLen, mdataAddr := z.addr + L.mallocOffset, udataSize := L.headSize,
                            bufStride := L.strideSize, headroom := L.segLen, tailroom := 0,
                            highWm := L.highWm, lowWm := L.lowWm),
        free := EMPTY_LISTS, lowWmAssert := false, pkt := part);
      assert e == NewPacketEntry(e0, name, q, L, z);
      pools[i] := e;
      assert pools[..] == s[i := e];
      SlotUpdateKeepsTableOk(s, i, e);
    }

    /** odp_pool_create: apply the defaults, then hand packet pools to odp_pool_create_packet. */
    method Create(name: Option<string>, p: Params, zone: Option<Zone>) returns (h: nat)
      requires Valid()
      modifies pools
      ensures Valid()
      ensures var r := CreateOutcome(old(pools[..]), name, p, zone); pools[..] == r.0 && h == r.1
    {
      var q := EffectiveParams(p);
      if q.kind == PacketType {
        h := CreatePacket(name, q, zone);
      } else {
        h := CreateBuffer(name, q, zone);
      }
    }

    /** The buffer and timeout branch: lay out, claim a slot, reserve, then run the initialisation loops. */
    method CreateBuffer(name: Option<string>, q: Params, zone: Option<Zone>) returns (h: nat)
      requires Valid()
      modifies pools
      ensures Valid()
      ensures var r := CreateBufferOutcome(old(pools[..]), name, q, zone); pools[..] == r.0 && h == r.1
    {
      ghost var s := pools[..];
      var lay := BufferLayout(q);
      if lay.Err? {
        return POOL_INVALID;
      }
      var L := lay.value;
      var slot := FindFreeSlot();
      if slot.None? {
        return POOL_INVALID;
      }
      var i := slot.value;
      var e0 := pools[i];
      var claimed := ClaimBufferSlot(e0, name, q, L);
      pools[i] := claimed;
      assert pools[..] == s[i := claimed];
      SlotUpdateKeepsTableOk(s, i, claimed);
      if zone.None? {
        return POOL_INVALID;
      }
      FillBufferSlot(s, i, e0, name, q, L, zone.value);
      h := e0.poolHdl;
    }

    /** The rest of odp_pool_create once the region is granted: fill in the claimed slot i, then build its lists. */
    method FillBufferSlot(ghost s: seq<Entry>, i: nat, e0: Entry, name: Option<string>, q: Params, L: BufLayout, z: Zone)
      requires TableOk(s) && i < CONFIG_POOLS
      requires L.bufNum >= 1 && L.bufStride > 0
      requires e0.poolId == i && e0.poolHdl == IndexToHandle(i)
      requires pools[..] == s[i := ClaimBufferSlot(e0, name, q, L)]
      modifies pools
      ensures Valid()
      ensures pools[..] == s[i := NewBufferEntry(e0, name, q, L, z)]
    {
      var claimed := pools[i];
      var f := BuildBufferLists(q.kind, e0.poolHdl, e0.poolId, L, z.addr);
      var e := claimed.(shmValid := true,
        geo := claimed.geo.(baseAddr := z.addr, unsegmented := true, segSize := L.blkSize, blkSize := L.blkSize,
                            mdataAddr := z.addr + L.mdataOffset, udataSize := 0, bufStride := L.bufStride,
                            headroom := 0, tailroom := 0, highWm := L.highWm, lowWm := L.lowWm),
        free := f, stats := ZERO_STATS, lowWmAssert := false);
      assert e == NewBufferEntry(e0, name, q, L, z);
      pools[i] := e;
      assert pools[..] == s[i := e];
      SlotUpdateKeepsTableOk(s, i, e);
    }

    /** odp_pool_lookup: compare the name with every slot's stored name, lowest slot first. */
    method Lookup(name: string) returns (h: nat)
      requires Valid()
      ensures h == LookupResult(pools[..], name)
    {
      for i := 0 to pools.Length
        invariant FindNameFrom(pools[..], name, 0) == FindNameFrom(pools[..], name, i)
      {
        if pools[i].name == name {
          return pools[i].poolHdl;
        }
      }
      return POOL_INVALID;
    }

    /** odp_pool_info: the stored name and parameters of the slot the handle names. */
    method Info(hdl: nat) returns (r: Option<(string, Params)>)
      requires Valid()
      ensures r.None? <==> SlotOf(hdl).None?
      ensures r.Some? ==> r.value == (pools[SlotOf(hdl).value].name, pools[SlotOf(hdl).value].params)
    {
      var slot := SlotOf(hdl);
      if slot.None? {
        return None;
      }
      var e := pools[slot.value];
      return Some((e.name, e.params));
    }

    /** odp_pool_destroy: fails on a bad handle, then as DestroyOutcome says. */
    method Destroy(ctx: ThreadContext, hdl: nat) returns (rc: int)
      requires Valid() && Coherent(ctx)
      modifies pools, ctx.caches
      ensures Valid() && Coherent(ctx)
      ensures SlotOf(hdl).None? ==> rc == -1 && pools[..] == old(pools[..]) && ctx.caches[..] == old(ctx.caches[..])
      ensures SlotOf(hdl).Some? ==>
        var i := SlotOf(hdl).value;
        var r := DestroyOutcome(old(pools[i]), old(ctx.caches[i]));
        rc == r.0 && pools[..] == old(pools[..])[i := r.1] && ctx.caches[..] == old(ctx.caches[..])[i := r.2]
    {
      var slot := SlotOf(hdl);
      if slot.None? {
        return -1;
      }
      var i := slot.value;
      var r := DestroyOutcome(pools[i], ctx.caches[i]);
      pools[i] := r.1;
      ctx.caches[i] := r.2;
      rc := r.0;
      assert pools[..] == old(pools[..])[i := r.1];
      assert forall j :: 0 <= j < pools.Length ==> CacheOk(pools[j], ctx.caches[j]);
    }

    /** buffer_alloc: allocate from the pool the handle names, for this thread. */
    method BufferAlloc(ctx: ThreadContext, hdl: nat, size: nat) returns (b: Option<BufferHandle>)
      requires Valid() && Coherent(ctx) && SlotOf(hdl).Some?
      modifies pools, ctx.caches
      ensures Valid() && Coherent(ctx)
      ensures var i := SlotOf(hdl).value;
        var r := AllocOutcome(old(pools[i]), old(ctx.caches[i]), size);
        b == r.2 && pools[..] == old(pools[..])[i := r.0] && ctx.caches[..] == old(ctx.caches[..])[i := r.1]
    {
      var i := SlotOf(hdl).value;
      ghost var s := pools[..];
      var e', c';
      e', c', b := AllocOnEntry(pools[i], ctx.caches[i], size);
      pools[i] := e';
      ctx.caches[i] := c';
      assert pools[..] == s[i := e'];
      SlotUpdateKeepsTableOk(s, i, e');
      assert forall j :: 0 <= j < pools.Length ==> CacheOk(pools[j], ctx.caches[j]);
    }

    /** odp_buffer_alloc: buffer_alloc with the size the pool was created for. */
    method BufferAllocDefault(ctx: ThreadContext, hdl: nat) returns (b: Option<BufferHandle>)
      requires Valid() && Coherent(ctx) && SlotOf(hdl).Some?
      modifies pools, ctx.caches
      ensures Valid() && Coherent(ctx)
      ensures var i := SlotOf(hdl).value;
        var r := AllocOutcome(old(pools[i]), old(ctx.caches[i]), old(pools[i]).params.buf.size);
        b == r.2 && pools[..] == old(pools[..])[i := r.0] && ctx.caches[..] == old(ctx.caches[..])[i := r.1]
    {
      b := BufferAlloc(ctx, hdl, pools[SlotOf(hdl).value].params.buf.size);
    }

    /** odp_buffer_free: give a buffer back to its pool, through this thread's cache unless the low watermark is asserted. */
    method BufferFree(ctx: ThreadContext, b: BufferHandle)
      requires Valid() && Coherent(ctx) && b.pool < CONFIG_POOLS && b.slot < |pools[b.pool].free.hdrs|
      modifies pools, ctx.caches
      ensures Valid() && Coherent(ctx)
      ensures var r := FreeOutcome(old(pools[b.pool]), old(ctx.caches[b.pool]), b.slot);
        pools[..] == old(pools[..])[b.pool := r.0] && ctx.caches[..] == old(ctx.caches[..])[b.pool := r.1]
    {
      ghost var s, cs := pools[..], ctx.caches[..];
      var i := pools[b.pool].poolId;
      var e := pools[i];
      SlotFlushable(s, cs, i);
      ghost var r := FreeOutcome(e, ctx.caches[i], b.slot);
      if e.lowWmAssert {
        pools[i] := e.(free := RetBuf(e.free, b.slot));
      } else {
        var local := RetLocalBuf(e, ctx.caches[i], b.slot);
        pools[i] := local.0;
        ctx.caches[i] := local.1;
      }
      assert pools[..] == s[i := r.0] && ctx.caches[..] == cs[i := r.1];
      SlotUpdateKeepsTableOk(s, i, r.0);
      SlotUpdateKeepsCachesOk(s, cs, i, r.0, r.1);
    }

    /** _odp_flush_caches: every cache of this thread goes back to its pool, slot by slot. */
    method FlushCaches(ctx: ThreadContext)
      requires Valid() && Coherent(ctx)
      modifies pools, ctx.caches
      ensures Valid() && Coherent(ctx)
      ensures pools[..] == FlushedTable(old(pools[..]), old(ctx.caches[..]))
      ensures forall i :: 0 <= i < ctx.caches.Length ==> ctx.caches[i] == []
    {
      ghost var s, cs := pools[..], ctx.caches[..];
      FlushAll(pools, ctx.caches);
      FlushedTableKeepsBuffers(s, cs);
      EmptyCachesFit(pools[..], ctx.caches[..]);
    }

    /** The loop of _odp_flush_caches over the table and the caches. */
    static method FlushAll(pools: array<Entry>, caches: array<seq<nat>>)
      requires TableOk(pools[..]) && CachesOk(pools[..], caches[..])
      modifies pools, caches
      ensures pools[..] == FlushedTable(old(pools[..]), old(caches[..]))
      ensures caches[..] == EmptiedUpTo(old(caches[..]), caches.Length)
    {
      ghost var s, cs := pools[..], caches[..];
      for i := 0 to pools.Length
        invariant pools[..] == FlushedUpTo(s, cs, i)
        invariant caches[..] == EmptiedUpTo(cs, i)
      {
        FlushedUpToStep(s, cs, i);
        assert pools[i] == s[i] && caches[i] == cs[i];
        SlotFlushable(s, cs, i);
        pools[i] := FlushSlot(pools[i], caches[i]);
        caches[i] := [];
      }
      FlushedUpToEnd(s, cs);
    }
  }
}
