/** Memory pools (plugins/gpu_driver/sim/mem_pool.cpp) cut from one device address range
    (plugins/gpu_driver/sim/sim_device_va_allocator.cpp): a buddy allocator per pool, each
    inside a block of the device's own buddy allocator.

    As in the C++ the allocators are embedded by value; BuddyHeap.dfy shows the functions
    used here are what the C structure computes in place. */
module MemPool {
  import opened Bits
  import opened BuddySize
  import opened BuddySpec
  import opened BuddyTiling
  import opened BuddyCoalescing
  import opened BuddyRoundTrip
  import opened BuddyRuns
  import opened BuddyNodes
  import opened Collections

  const DEVICE_VA_BASE: nat := 0x5600_0000_0000
  const DEVICE_VA_SIZE: nat := 0x4_0000_0000
  const WORD: nat := 0x1_0000_0000_0000_0000
  const PAGE: nat := 4096

  datatype Rc = Ok | Inval | NoSpace | InvalidHandle

  datatype Props = Props(size: nat, vaBase: nat, vaLimit: nat)

  /** One allocation in a pool's own table. */
  datatype Entry = Entry(va: nat, size: nat)

  datatype Pool = Pool(props: Props, entries: map<nat, Entry>, mmapSize: nat, buddy: State)

  /** The two global tables at one moment. */
  datatype World = World(initialized: bool, device: State, pools: map<nat, Pool>, nextHandle: nat)

  /** `align_up_4k` on 64-bit words: the addition wraps, and the mask then leaves 0. */
  function AlignUp(x: nat): nat {
    if x + (PAGE - 1) >= WORD then 0 else (x + (PAGE - 1)) / PAGE * PAGE
  }

  function UsedAddrs(slots: seq<Slot>): set<nat> {
    set j | 0 <= j < |slots| && slots[j].used :: slots[j].addr
  }

  /** The device block a pool lives in. */
  function PoolBlock(p: Pool): Block { Block(p.buddy.maxOrder, p.props.vaBase) }

  /** The table and the records are of the same addresses, and the block at an address is of
      the order its entry's size asks for. */
  ghost predicate Mirrors(entries: map<nat, Entry>, slots: seq<Slot>) {
    && entries.Keys == UsedAddrs(slots)
    && (forall va :: va in entries ==> entries[va].va == va && 0 < entries[va].size < WORD)
    && (forall b :: b in UsedBlocks(slots, 0) ==> b.addr in entries && b.order == RequestOrder(entries[b.addr].size))
  }

  /** One pool by itself: its allocator tiles the region at its base, its table mirrors the
      allocator's records, and the region is as large as the order its size asks for. */
  ghost predicate PoolOk(p: Pool) {
    && Good(p.buddy)
    && p.buddy.base == p.props.vaBase
    && p.props.vaLimit == p.props.vaBase + p.props.size
    && 0 < p.props.size <= p.mmapSize == AlignUp(p.props.size) <= DEVICE_VA_SIZE
    && p.buddy.maxOrder == RequestOrder(p.mmapSize)
    && Mirrors(p.entries, p.buddy.slots)
  }

  function Homes(pools: map<nat, Pool>): map<nat, Block> { map h | h in pools :: PoolBlock(pools[h]) }

  /** Everybody's home is among the blocks used, no two share one, and none is empty. */
  ghost predicate Housed(homes: map<nat, Block>, used: multiset<Block>) {
    && (forall h :: h in homes ==> homes[h] in used)
    && (forall h, k :: h in homes && k in homes && h != k ==> homes[h] != homes[k])
    && (forall b :: b in used ==> exists h :: h in homes && homes[h] == b)
  }

  ghost predicate PoolsOk(pools: map<nat, Pool>, nextHandle: nat) {
    forall h :: h in pools ==> 0 < h < nextHandle && PoolOk(pools[h])
  }

  ghost predicate DeviceOk(w: World) {
    && w.nextHandle > 0
    && Good(w.device) && w.device.base == DEVICE_VA_BASE && w.device.maxOrder == MAX_ORDER
    && (!w.initialized ==> w.pools == map[] && w.device == Fresh(DEVICE_VA_BASE, MAX_ORDER))
  }

  /** Each pool is well formed and owns a block the device has allocated, no two the same;
      and every block the device has allocated belongs to a pool. */
  ghost predicate Consistent(w: World) {
    && DeviceOk(w)
    && PoolsOk(w.pools, w.nextHandle)
    && Housed(Homes(w.pools), UsedBlocks(w.device.slots, 0))
  }

  lemma MovesIn(homes: map<nat, Block>, used: multiset<Block>, used': multiset<Block>, h: nat, b: Block)
    requires Housed(homes, used) && h !in homes && b !in used
    requires forall c :: c in used' <==> c in used || c == b
    ensures Housed(homes[h := b], used')
  {
    var homes' := homes[h := b];
    forall c | c in used' ensures exists k :: k in homes' && homes'[k] == c {
      if c == b {
        assert h in homes' && homes'[h] == c;
      } else {
        var k :| k in homes && homes[k] == c;
        assert k in homes' && homes'[k] == c;
      }
    }
  }

  lemma MovesOut(homes: map<nat, Block>, used: multiset<Block>, used': multiset<Block>, h: nat)
    requires Housed(homes, used) && h in homes
    requires forall c :: c in used' <==> c in used && c != homes[h]
    ensures Housed(homes - {h}, used')
  {
    var homes' := homes - {h};
    forall c | c in used' ensures exists k :: k in homes' && homes'[k] == c {
      var k :| k in homes && homes[k] == c;
      assert k in homes';
    }
  }

  lemma SameUsed(homes: map<nat, Block>, used: multiset<Block>, used': multiset<Block>)
    requires Housed(homes, used) && forall c :: c in used' <==> c in used
    ensures Housed(homes, used')
  {
  }

  /** A pool's block is used, and no other pool's. */
  lemma OwnBlock(w: World, h: nat)
    requires Consistent(w) && h in w.pools
    ensures PoolOk(w.pools[h]) && PoolBlock(w.pools[h]) in UsedBlocks(w.device.slots, 0)
    ensures forall k :: k in w.pools && k != h ==> PoolBlock(w.pools[h]) != PoolBlock(w.pools[k])
  {
    hide Good, Inv, PoolOk, UsedBlocks, PoolBlock;
    assert Homes(w.pools)[h] == PoolBlock(w.pools[h]);
    forall k | k in w.pools && k != h ensures PoolBlock(w.pools[h]) != PoolBlock(w.pools[k]) {
      assert Homes(w.pools)[k] == PoolBlock(w.pools[k]);
    }
  }

  // ---------- sizes ----------

  /** Rounding up fails exactly for 0 and past the last page of the 64-bit range. */
  lemma {:induction false} AlignUpWraps(x: nat)
    requires x < WORD
    ensures AlignUp(x) == 0 <==> x == 0 || x > WORD - PAGE
    ensures AlignUp(x) % PAGE == 0
  {
    if 0 < x <= WORD - PAGE { assert (x + (PAGE - 1)) / PAGE >= 1; }
  }

  lemma {:induction false} AlignUpCovers(x: nat)
    requires 0 < x && AlignUp(x) != 0
    ensures x <= AlignUp(x) < x + PAGE && AlignUp(x) % PAGE == 0
  {
  }

  /** The device range is twice the largest block, so its allocator manages only half of it. */
  lemma DeviceSizes()
    ensures Size(MAX_ORDER) == 0x2_0000_0000 && 2 * Size(MAX_ORDER) == DEVICE_VA_SIZE
    ensures DEVICE_VA_SIZE <= Pow2(63) && Pow2(64) == WORD
  {
    assert Pow2(8) == 256;
    Pow2Add(8, 8);
    assert Pow2(16) == 0x1_0000;
    Pow2Add(16, 16);
    assert Pow2(32) == 0x1_0000_0000;
    Pow2Add(32, 1);
    Pow2Add(32, 2);
    Pow2Add(32, 32);
    Pow2Mono(34, 63);
    hide Pow2;
  }

  /** The pool's own allocator gets exactly the order of the block its size is given. */
  lemma InnerIsOuter(base: nat, size: nat)
    requires 0 < size <= DEVICE_VA_SIZE
    ensures size <= Pow2(63)
    ensures Init(base, size) == Fresh(base, RequestOrder(size)) && RequestOrder(size) <= MAX_ORDER
  {
    hide Pow2, OrderForSize, Fresh;
    DeviceSizes();
    RequestOrderLeast(size);
  }

  // ---------- what one allocation or free does to the records ----------

  lemma UsedIffRecorded(s: State, b: Block)
    requires Inv(s)
    ensures b in UsedBlocks(s.slots, 0) ==> b.addr in UsedAddrs(s.slots)
  {
    if b in UsedBlocks(s.slots, 0) { var j := UsedSlot(s.slots, 0, b); }
  }

  /** An allocation adds one used block at a new address and keeps the others. */
  lemma {:induction false} AllocRecords(s: State, size: nat)
    requires Good(s)
    ensures var (r, a) := Alloc(s, size);
            && Good(r) && r.base == s.base && r.maxOrder == s.maxOrder
            && (a.None? ==> r.slots == s.slots)
            && (a.Some? ==>
                  && (forall b :: b in UsedBlocks(r.slots, 0) <==>
                        b in UsedBlocks(s.slots, 0) || b == Block(RequestOrder(size), a.value))
                  && Block(RequestOrder(size), a.value) !in UsedBlocks(s.slots, 0)
                  && UsedAddrs(r.slots) == UsedAddrs(s.slots) + {a.value}
                  && a.value !in UsedAddrs(s.slots)
                  && Fits(s.base, s.maxOrder, Block(RequestOrder(size), a.value)))
  {
    hide Tiles, AllBlocks, Ledger, Coalesced, RequestOrder, AlignedSize, Alloc;
    StepKeepsGood(s, AllocOp(size));
    AllocInv(s, size);
    var (r, a) := Alloc(s, size);
    if a.None? {
      FailedAllocKeepsRecords(s, size);
    } else {
      AllocGives(s, size);
      AddedRecord(s.slots, FirstUnused(s.slots, 0), r.slots[FirstUnused(s.slots, 0)]);
      var b := Block(RequestOrder(size), a.value);
      forall j | 0 <= j < MAX_RECORDS && s.slots[j].used
        ensures s.slots[j].addr != a.value
      {
        assert Disjoint(b, Block(s.slots[j].order, s.slots[j].addr));
      }
      if b in UsedBlocks(s.slots, 0) { var j := UsedSlot(s.slots, 0, b); }
    }
  }

  lemma FailedAllocKeepsRecords(s: State, size: nat)
    requires Inv(s) && Alloc(s, size).1.None?
    ensures Alloc(s, size).0.slots == s.slots
  {
    hide Tiles, AllBlocks, RequestOrder, AlignedSize, SplitDown, FirstFit;
    if size != 0 {
      var order := RequestOrder(size);
      var t := FirstFit(s, order, order);
      if t <= s.maxOrder && s.free[t] != [] {
        SplitDownSizes(s.(log := s.log.(attempts := s.log.attempts + 1)), t, order);
      }
    }
  }

  lemma {:induction false} AddedRecord(slots: seq<Slot>, i: nat, x: Slot)
    requires i < |slots| && !slots[i].used && x.used
    ensures UsedAddrs(slots[i := x]) == UsedAddrs(slots) + {x.addr}
    ensures forall b :: b in UsedBlocks(slots[i := x], 0) <==> b in UsedBlocks(slots, 0) || b == Block(x.order, x.addr)
  {
    var slots' := slots[i := x];
    SlotUpdate(slots, i, x, 0);
    forall b
      ensures b in UsedBlocks(slots', 0) <==> b in UsedBlocks(slots, 0) || b == Block(x.order, x.addr)
    {
      assert (UsedBlocks(slots', 0) + SlotBlocks(slots[i]))[b] == (UsedBlocks(slots, 0) + SlotBlocks(x))[b];
    }
    assert slots'[i].addr in UsedAddrs(slots');
    forall a
      ensures a in UsedAddrs(slots') <==> a in UsedAddrs(slots) || a == x.addr
    {
      if a in UsedAddrs(slots) {
        var j :| 0 <= j < |slots| && slots[j].used && slots[j].addr == a;
        assert slots'[j] == slots[j];
      }
    }
  }

  lemma {:induction false} RemovedRecord(slots: seq<Slot>, i: nat)
    requires i < |slots| && slots[i].used
    requires forall k :: 0 <= k < |slots| && k != i && slots[k].used ==> slots[k].addr != slots[i].addr
    ensures var slots' := slots[i := slots[i].(used := false)];
            && UsedAddrs(slots') == UsedAddrs(slots) - {slots[i].addr}
            && (forall b :: b in UsedBlocks(slots', 0) <==> b in UsedBlocks(slots, 0) && b.addr != slots[i].addr)
  {
    var addr, slots' := slots[i].addr, slots[i := slots[i].(used := false)];
    forall a
      ensures a in UsedAddrs(slots') <==> a in UsedAddrs(slots) && a != addr
    {
      if a in UsedAddrs(slots) && a != addr {
        var k :| 0 <= k < |slots| && slots[k].used && slots[k].addr == a;
        assert slots'[k] == slots[k];
      }
    }
    forall b
      ensures b in UsedBlocks(slots', 0) <==> b in UsedBlocks(slots, 0) && b.addr != addr
    {
      if b in UsedBlocks(slots', 0) {
        var k := UsedSlot(slots', 0, b);
        UsedIn(slots, 0, k);
      }
      if b in UsedBlocks(slots, 0) && b.addr != addr {
        var k := UsedSlot(slots, 0, b);
        assert slots'[k] == slots[k];
        UsedIn(slots', 0, k);
      }
    }
  }

  /** Freeing a recorded address removes its block and keeps the others. */
  lemma {:induction false} FreeRecords(s: State, addr: nat)
    requires Good(s) && addr in UsedAddrs(s.slots)
    ensures var (r, ok) := Free(s, addr);
            && ok && Good(r) && r.base == s.base && r.maxOrder == s.maxOrder
            && UsedAddrs(r.slots) == UsedAddrs(s.slots) - {addr}
            && (forall b :: b in UsedBlocks(r.slots, 0) <==> b in UsedBlocks(s.slots, 0) && b.addr != addr)
  {
    hide Tiles, AllBlocks, Ledger, Coalesced, CoalesceFrom, Push, Forget, UsedBlocks;
    StepKeepsGood(s, FreeOp(addr));
    FreeInv(s, addr);
    var i := FindRecord(s.slots, addr, 0);
    assert i < MAX_RECORDS by {
      var j :| 0 <= j < |s.slots| && s.slots[j].used && s.slots[j].addr == addr;
    }
    ReturnedInv(s, i);
    ReturnedSlots(s, i);
    forall k | 0 <= k < MAX_RECORDS && k != i && s.slots[k].used
      ensures s.slots[k].addr != addr
    {
      if k < i { RecordsDistinct(s, k, i); } else { RecordsDistinct(s, i, k); }
    }
    RemovedRecord(s.slots, i);
  }

  lemma ReturnedSlots(s: State, i: nat)
    requires Shape(s) && s.recordCount <= MAX_RECORDS && i < MAX_RECORDS && s.slots[i].used
    ensures Returned(s, i).slots == s.slots[i := s.slots[i].(used := false)]
  {
  }

  // ---------- the class ----------

  /** `gpu_buddy_init` on first use. */
  function Ready(w: World): World {
    DeviceSizes();
    if w.initialized then w else w.(initialized := true, device := Init(DEVICE_VA_BASE, DEVICE_VA_SIZE))
  }

  lemma ReadyConsistent(w: World)
    requires Consistent(w)
    ensures Consistent(Ready(w)) && Ready(w) == w.(initialized := true)
  {
    hide Good, Inv, Tiles, PoolOk, UsedBlocks, Size, LeastOrder, Fresh;
    DeviceSizes();
    SizeStep(MAX_ORDER);
    LeastOrderUnique(DEVICE_VA_SIZE, MAX_ORDER + 1);
  }

  /** The pool `sim_mem_pool_create` stores. */
  function NewPool(size: nat, vaBase: nat): Pool
    requires 0 < AlignUp(size) <= DEVICE_VA_SIZE
  {
    DeviceSizes();
    Pool(Props(size, vaBase, vaBase + size), map[], AlignUp(size), Init(vaBase, AlignUp(size)))
  }

  lemma {:induction false} NewPoolOk(size: nat, vaBase: nat)
    requires 0 < size && 0 < AlignUp(size) <= DEVICE_VA_SIZE
    ensures PoolOk(NewPool(size, vaBase))
    ensures PoolBlock(NewPool(size, vaBase)) == Block(RequestOrder(AlignUp(size)), vaBase)
  {
    hide RequestOrder, Good, Init, Fresh, AlignUp, Mirrors;
    AlignUpCovers(size);
    InnerIsOuter(vaBase, AlignUp(size));
    FreshGood(vaBase, RequestOrder(AlignUp(size)));
    MirrorsNothing(Fresh(vaBase, RequestOrder(AlignUp(size))).slots);
  }

  lemma MirrorsNothing(slots: seq<Slot>)
    requires forall j :: 0 <= j < |slots| ==> !slots[j].used
    ensures Mirrors(map[], slots)
  {
    hide UsedAddrs, RequestOrder;
    NoAddrs(slots);
    NoUsed(slots, 0);
  }

  lemma NoAddrs(slots: seq<Slot>)
    requires forall j :: 0 <= j < |slots| ==> !slots[j].used
    ensures UsedAddrs(slots) == {}
  {
  }

  /** Creating a pool: its block is new to the device. */
  lemma {:induction false} CreateKeeps(w: World, size: nat)
    requires Consistent(w) && w.initialized
    requires 0 < size && 0 < AlignUp(size) <= DEVICE_VA_SIZE && Alloc(w.device, AlignUp(size)).1.Some?
    ensures var (d, a) := Alloc(w.device, AlignUp(size));
            Consistent(w.(device := d, pools := w.pools[w.nextHandle := NewPool(size, a.value)],
                          nextHandle := w.nextHandle + 1))
  {
    hide Good, Inv, Shape, Alloc, RequestOrder, PoolOk, NewPool, PoolBlock, UsedBlocks, Housed, Fresh, AlignUp;
    ConsistentDevice(w);
    HandleIsNew(w);
    var (d, a) := Alloc(w.device, AlignUp(size));
    var p, h := NewPool(size, a.value), w.nextHandle;
    AllocRecords(w.device, AlignUp(size));
    NewPoolOk(size, a.value);
    MovesIn(Homes(w.pools), UsedBlocks(w.device.slots, 0), UsedBlocks(d.slots, 0), h, PoolBlock(p));
    assert Homes(w.pools[h := p]) == Homes(w.pools)[h := PoolBlock(p)];
  }

  /** An allocation that fails leaves the device's records alone, so no pool notices. */
  lemma {:induction false} FailedCreateKeeps(w: World, size: nat)
    requires Consistent(w) && w.initialized && Alloc(w.device, size).1.None?
    ensures Consistent(w.(device := Alloc(w.device, size).0))
  {
    hide Good, Inv, Shape, Alloc, PoolOk, PoolBlock, UsedBlocks, Housed;
    ConsistentDevice(w);
    AllocRecords(w.device, size);
  }

  /** A device block taken and given back at once, as when mmap fails. */
  lemma {:induction false} TakenBackKeeps(w: World, size: nat)
    requires Consistent(w) && w.initialized && Alloc(w.device, size).1.Some?
    ensures var (d, a) := Alloc(w.device, size);
            && Inv(d) && Shape(d) && d.recordCount <= MAX_RECORDS && Consistent(w.(device := Free(d, a.value).0))
            && forall b :: b in UsedBlocks(Free(d, a.value).0.slots, 0) <==> b in UsedBlocks(w.device.slots, 0)
  {
    hide Alloc, Free, RequestOrder, PoolOk, PoolBlock, UsedBlocks, Tiles, AllBlocks, Housed;
    var (d, a) := Alloc(w.device, size);
    AllocRecords(w.device, size);
    FreeRecords(d, a.value);
    forall b
      ensures b in UsedBlocks(Free(d, a.value).0.slots, 0) <==> b in UsedBlocks(w.device.slots, 0)
    {
      UsedIffRecorded(w.device, b);
    }
    SameUsed(Homes(w.pools), UsedBlocks(w.device.slots, 0), UsedBlocks(Free(d, a.value).0.slots, 0));
  }

  lemma {:induction false} HomeGivenBack(w: World, h: nat)
    requires Consistent(w) && h in w.pools
    ensures var addr := w.pools[h].props.vaBase;
            && addr in UsedAddrs(w.device.slots) && Good(w.device)
            && var r := Free(w.device, addr).0;
            && Good(r) && r.base == w.device.base && r.maxOrder == w.device.maxOrder
            && Housed(Homes(w.pools) - {h}, UsedBlocks(r.slots, 0))
  {
    hide Free, PoolOk, UsedBlocks, Good, Inv, Shape, Fresh, UsedAddrs, Housed;
    ConsistentDevice(w);
    OwnBlock(w, h);
    var d, b := w.device, PoolBlock(w.pools[h]);
    UsedIffRecorded(d, b);
    FreeRecords(d, b.addr);
    var d' := Free(d, b.addr).0;
    forall c | c in UsedBlocks(d.slots, 0) && c != b ensures c.addr != b.addr { UsedDistinct(d, b, c); }
    MovesOut(Homes(w.pools), UsedBlocks(d.slots, 0), UsedBlocks(d'.slots, 0), h);
  }

  /** Destroying a pool gives its block, and only its block, back to the device. */
  lemma {:induction false} DestroyKeeps(w: World, h: nat)
    requires Consistent(w) && h in w.pools
    ensures w.pools[h].props.vaBase in UsedAddrs(w.device.slots)
    ensures Consistent(w.(device := Free(w.device, w.pools[h].props.vaBase).0, pools := w.pools - {h}))
  {
    hide Free, PoolOk, PoolBlock, UsedBlocks, Good, Inv, Shape, Fresh, UsedAddrs, Housed;
    ConsistentDevice(w);
    HomeGivenBack(w, h);
    assert Homes(w.pools - {h}) == Homes(w.pools) - {h};
  }

  lemma {:induction false} UsedDistinct(s: State, b: Block, c: Block)
    requires Inv(s) && b in UsedBlocks(s.slots, 0) && c in UsedBlocks(s.slots, 0) && b != c
    ensures b.addr != c.addr
  {
    UsedDisjoint(s, b, c);
  }

  lemma PoolShape(p: Pool)
    requires PoolOk(p)
    ensures Shape(p.buddy) && p.buddy.recordCount <= MAX_RECORDS && p.buddy.base == p.props.vaBase
  {
  }

  lemma OnePool(w: World, h: nat)
    requires Consistent(w) && h in w.pools
    ensures PoolOk(w.pools[h])
  {
  }

  /** A change inside one pool that keeps it well formed. */
  lemma {:induction false} PoolStepKeeps(w: World, h: nat, p: Pool)
    requires Consistent(w) && h in w.pools && PoolOk(p)
    requires p.props == w.pools[h].props && p.buddy.maxOrder == w.pools[h].buddy.maxOrder
    ensures Consistent(w.(pools := w.pools[h := p]))
  {
    hide Good, Inv, Shape, PoolOk, UsedBlocks, Fresh, Housed;
    assert Homes(w.pools[h := p]) == Homes(w.pools);
  }

  /** One allocation inside a pool. */
  function PoolAlloc(p: Pool, size: nat): (Pool, Option<nat>)
    requires Shape(p.buddy)
  {
    var (b, a) := Alloc(p.buddy, AlignUp(size));
    match a
    case None => (p.(buddy := b), None)
    case Some(va) => (p.(buddy := b, entries := p.entries[va := Entry(va, AlignUp(size))]), Some(va))
  }

  /** The table follows an allocation that adds one block. */
  lemma MirrorsMore(entries: map<nat, Entry>, slots: seq<Slot>, slots': seq<Slot>, va: nat, size: nat)
    requires Mirrors(entries, slots) && va !in entries && 0 < size < WORD
    requires UsedAddrs(slots') == UsedAddrs(slots) + {va}
    requires forall b :: b in UsedBlocks(slots', 0) <==> b in UsedBlocks(slots, 0) || b == Block(RequestOrder(size), va)
    ensures Mirrors(entries[va := Entry(va, size)], slots')
  {
    hide UsedAddrs, RequestOrder;
  }

  lemma MirrorsLess(entries: map<nat, Entry>, slots: seq<Slot>, slots': seq<Slot>, va: nat)
    requires Mirrors(entries, slots)
    requires UsedAddrs(slots') == UsedAddrs(slots) - {va}
    requires forall b :: b in UsedBlocks(slots', 0) <==> b in UsedBlocks(slots, 0) && b.addr != va
    ensures Mirrors(entries - {va}, slots')
  {
    hide UsedAddrs, RequestOrder;
  }

  /** The pool is well formed after an allocation, and what was in its table still is; its
      allocator has taken the step of that size, also when it fails. */
  lemma {:induction false} PoolAllocOk(p: Pool, size: nat)
    requires PoolOk(p)
    ensures var (r, a) := PoolAlloc(p, size);
            && PoolOk(r) && r.props == p.props && r.buddy.maxOrder == p.buddy.maxOrder
            && (a.Some? ==> a.value !in p.entries && r.entries == p.entries[a.value := Entry(a.value, AlignUp(size))])
            && (a.None? ==> r.entries == p.entries)
            && r.buddy == Step(p.buddy, AllocOp(AlignUp(size)))
  {
    hide Tiles, AllBlocks, Ledger, Coalesced, Alloc, RequestOrder, UsedBlocks, UsedAddrs, Mirrors, AlignUp;
    AllocRecords(p.buddy, AlignUp(size));
    TableKeys(p);
    var (b, a) := Alloc(p.buddy, AlignUp(size));
    if a.Some? {
      SomeSize(p.buddy, AlignUp(size));
      AlignUpWord(size);
      MirrorsMore(p.entries, p.buddy.slots, b.slots, a.value, AlignUp(size));
    }
  }

  lemma TableKeys(p: Pool)
    requires PoolOk(p)
    ensures p.entries.Keys == UsedAddrs(p.buddy.slots)
  {
  }

  lemma SomeSize(s: State, size: nat)
    requires Shape(s) && Alloc(s, size).1.Some?
    ensures size > 0
  {
  }

  lemma AlignUpWord(size: nat)
    ensures AlignUp(size) < WORD
  {
  }

  /** One free inside a pool. */
  function PoolFree(p: Pool, va: nat): Pool
    requires Shape(p.buddy) && p.buddy.recordCount <= MAX_RECORDS
  {
    p.(buddy := Free(p.buddy, va).0, entries := p.entries - {va})
  }

  /** A free takes exactly its own address out of the table and its block out of the records. */
  lemma {:induction false} PoolFreeOk(p: Pool, va: nat)
    requires PoolOk(p) && va in p.entries
    ensures PoolOk(PoolFree(p, va)) && PoolFree(p, va).props == p.props
    ensures PoolFree(p, va).buddy.maxOrder == p.buddy.maxOrder
    ensures PoolFree(p, va).entries == p.entries - {va}
    ensures PoolFree(p, va).buddy == Step(p.buddy, FreeOp(va))
    ensures forall b :: b in UsedBlocks(PoolFree(p, va).buddy.slots, 0) <==> b in UsedBlocks(p.buddy.slots, 0) && b.addr != va
  {
    hide Tiles, AllBlocks, Ledger, Coalesced, Free, RequestOrder, UsedBlocks, UsedAddrs, Mirrors;
    TableKeys(p);
    FreeRecords(p.buddy, va);
    MirrorsLess(p.entries, p.buddy.slots, Free(p.buddy, va).0.slots, va);
  }

  /** Some list, from the order the request asks for up, has a block that the nodes left can
      split down, but for at most one. */
  ghost predicate HasRoom(p: Pool, size: nat)
    requires Shape(p.buddy)
  {
    var aligned := AlignUp(size);
    aligned > 0 && exists k :: RequestOrder(aligned) <= k <= p.buddy.maxOrder && p.buddy.free[k] != []
                               && p.buddy.poolUsed + 2 * (k - RequestOrder(aligned)) <= NODE_POOL + 1
  }

  /** Exactly then there is space. */
  lemma {:induction false} SpaceIff(p: Pool, size: nat)
    requires PoolOk(p)
    ensures PoolAlloc(p, size).1.Some? <==> HasRoom(p, size)
  {
    hide Good, Alloc, RequestOrder, AlignUp, Mirrors, FirstFit;
    PoolShape(p);
    var s, aligned := p.buddy, AlignUp(size);
    if aligned == 0 {
      NothingForZero(s);
    } else {
      var order, t := RequestOrder(aligned), StartOrder(s, aligned);
      AllocSucceedsIff(s, aligned);
      FirstFitIsLeast(s, order);
      if HasRoom(p, size) {
        var k :| order <= k <= s.maxOrder && s.free[k] != [] && s.poolUsed + 2 * (k - order) <= NODE_POOL + 1;
      }
    }
  }

  lemma NothingForZero(s: State)
    requires Shape(s)
    ensures Alloc(s, 0).1.None?
  {
  }

  lemma FirstFitIsLeast(s: State, order: nat)
    requires Shape(s)
    ensures var t := FirstFit(s, order, order);
            && order <= t
            && (t <= s.maxOrder && s.free[t] != [] ==> forall k :: order <= k < t ==> s.free[k] == [])
            && (t > s.maxOrder || s.free[t] == [] ==> forall k :: order <= k <= s.maxOrder ==> s.free[k] == [])
  {
  }

  /** The order a block has for the bytes asked of it: the least that covers them up to the
      largest block, the largest up to 2^63, and past that the least there is. */
  ghost predicate RightOrder(o: nat, size: nat) {
    && o <= MAX_ORDER
    && (size <= Size(MAX_ORDER) ==> size <= Size(o) && forall k: nat :: k < o ==> Size(k) < size)
    && (Size(MAX_ORDER) < size <= Pow2(63) ==> o == MAX_ORDER)
    && (Pow2(63) < size ==> o == 0)
  }

  /** An allocation adds one block, of the right order for the size rounded up to pages, and
      lists its address with that size; the other blocks and entries stay. */
  lemma {:induction false} AllocGivesRoom(p: Pool, size: nat) returns (b: Block)
    requires PoolOk(p) && PoolAlloc(p, size).1.Some?
    ensures var (r, a) := PoolAlloc(p, size);
            && b.addr == a.value && b.addr !in p.entries && RightOrder(b.order, AlignUp(size)) && AlignUp(size) >= size
            && r.entries == p.entries[b.addr := Entry(b.addr, AlignUp(size))]
            && forall c :: c in UsedBlocks(r.buddy.slots, 0) <==> c in UsedBlocks(p.buddy.slots, 0) || c == b
  {
    hide Good, Alloc, RequestOrder, UsedBlocks, Mirrors, Size, AlignUp, Pow2;
    PoolShape(p);
    b := Block(RequestOrder(AlignUp(size)), PoolAlloc(p, size).1.value);
    AllocRecords(p.buddy, AlignUp(size));
    PoolAllocOk(p, size);
    SomeSize(p.buddy, AlignUp(size));
    AlignUpWord(size);
    AlignUpNoLess(size);
    DeviceSizes();
    RequestOrderCovers(AlignUp(size));
  }

  lemma AlignUpNoLess(size: nat)
    ensures AlignUp(size) > 0 ==> AlignUp(size) >= size
  {
    if size > 0 && AlignUp(size) > 0 { AlignUpCovers(size); }
  }

  // ---------- the globals and the C entry points ----------

  class MemPools {
    var initialized: bool
    var device: State
    var pools: map<nat, Pool>
    var nextHandle: nat

    function Now(): World
      reads this
    {
      World(initialized, device, pools, nextHandle)
    }

    ghost predicate Valid()
      reads this
    {
      Consistent(Now())
    }

    constructor ()
      ensures Valid() && pools == map[]
    {
      hide Good, Inv, Shape, Fresh, UsedBlocks;
      initialized, pools, nextHandle := false, map[], 1;
      device := Fresh(DEVICE_VA_BASE, MAX_ORDER);
      new;
      FreshGood(DEVICE_VA_BASE, MAX_ORDER);
      FreshHasNoUsed(DEVICE_VA_BASE);
    }

    /** `sim_device_va_alloc`. */
    method DeviceAlloc(size: nat) returns (base: Option<nat>)
      requires Valid()
      modifies this`initialized, this`device
      ensures size == 0 || size > DEVICE_VA_SIZE ==> base == None && Now() == old(Now())
      ensures 0 < size <= DEVICE_VA_SIZE ==>
                initialized && Inv(old(Ready(Now())).device)
                && (device, base) == Alloc(old(Ready(Now())).device, size)
    {
      hide Consistent, Good, Inv, Shape, Alloc, Init;
      if size == 0 || size > DEVICE_VA_SIZE { return None; }
      ReadyConsistent(Now());
      ConsistentDevice(Ready(Now()));
      DeviceSizes();
      if !initialized {
        device := Init(DEVICE_VA_BASE, DEVICE_VA_SIZE);
        initialized := true;
      }
      var r := Alloc(device, size);
      device := r.0;
      base := r.1;
    }

    /** `sim_mem_pool_create`; `mapped` says whether mmap succeeds. */
    method CreatePool(size: nat, mapped: bool) returns (rc: Rc, handle: nat)
      requires Valid() && size < WORD
      modifies this
      ensures Valid()
      ensures rc == Inval <==> size == 0
      ensures rc == Ok ==> mapped && handle == old(nextHandle) && handle !in old(pools)
                           && 0 < AlignUp(size) <= DEVICE_VA_SIZE
                           && handle in pools && pools[handle] == NewPool(size, pools[handle].props.vaBase)
                           && pools == old(pools)[handle := pools[handle]]
                           && pools[handle].props.size == size && pools[handle].entries == map[]
      ensures 0 < AlignUp(size) <= DEVICE_VA_SIZE && size > 0 ==>
                Inv(old(Ready(Now())).device) && size < WORD
                && var (d, base) := Alloc(old(Ready(Now())).device, AlignUp(size));
                && (rc == Ok <==> mapped && base.Some?)
                && (rc == Ok ==> device == d && pools[handle].props.vaBase == base.value)
      ensures rc != Ok ==> pools == old(pools) && nextHandle == old(nextHandle)
      ensures rc != Ok ==> forall b :: b in UsedBlocks(device.slots, 0) <==> b in UsedBlocks(old(device).slots, 0)
    {
      hide Consistent, UsedBlocks, NewPool, Inv, Shape, Alloc, Free, Ready, AlignUp;
      handle := 0;
      if size == 0 { return Inval, 0; }
      ghost var w := Ready(Now());
      ReadyConsistent(Now());
      var aligned := AlignUp(size);
      var vaBase := DeviceAlloc(aligned);
      if vaBase == None {
        if 0 < aligned <= DEVICE_VA_SIZE {
          FailedCreateKeeps(w, aligned);
          ConsistentDevice(w);
          AllocRecords(w.device, aligned);
          assert Now() == w.(device := device);
        }
        return NoSpace, 0;
      }
      if !mapped {
        TakenBackKeeps(w, aligned);
        device := Free(device, vaBase.value).0;
        assert Now() == w.(device := device);
        return NoSpace, 0;
      }
      CreateKeeps(w, size);
      NewPoolFields(size, vaBase.value);
      handle := nextHandle;
      nextHandle := nextHandle + 1;
      HandleIsNew(w);
      pools := pools[handle := NewPool(size, vaBase.value)];
      rc := Ok;
    }

    /** `sim_mem_pool_destroy`. */
    method DestroyPool(handle: nat) returns (rc: Rc)
      requires Valid()
      modifies this`device, this`pools
      ensures Valid()
      ensures rc == if handle in old(pools) then Ok else InvalidHandle
      ensures pools == old(pools) - {handle}
    {
      hide Consistent, Good, Inv, Shape, Free, UsedBlocks;
      if handle !in pools { return InvalidHandle; }
      ConsistentDevice(Now());
      DestroyKeeps(Now(), handle);
      device := Free(device, pools[handle].props.vaBase).0;
      pools := pools - {handle};
      rc := Ok;
    }

    /** `sim_mem_pool_alloc`. */
    method AllocVa(handle: nat, size: nat) returns (rc: Rc, va: nat)
      requires Valid() && size < WORD
      modifies this`pools
      ensures Valid()
      ensures rc == InvalidHandle <==> handle !in old(pools)
      ensures rc == Inval <==> handle in old(pools) && size == 0
      ensures handle in old(pools) && size > 0 ==>
                && PoolOk(old(pools)[handle])
                && pools == old(pools)[handle := PoolAlloc(old(pools)[handle], size).0]
                && (rc == Ok) == PoolAlloc(old(pools)[handle], size).1.Some?
                && (rc == Ok ==> Some(va) == PoolAlloc(old(pools)[handle], size).1)
      ensures handle !in old(pools) || size == 0 ==> pools == old(pools)
      ensures rc == NoSpace <==> handle in old(pools) && size > 0 && !HasRoom(old(pools)[handle], size)
    {
      hide Consistent, Good, Inv, Shape, PoolOk, PoolAlloc, AlignUp, HasRoom;
      va := 0;
      if handle !in pools { return InvalidHandle, 0; }
      if size == 0 { return Inval, 0; }
      var p := pools[handle];
      OnePool(Now(), handle);
      PoolShape(p);
      PoolAllocOk(p, size);
      SpaceIff(p, size);
      PoolStepKeeps(Now(), handle, PoolAlloc(p, size).0);
      var r := PoolAlloc(p, size);
      pools := pools[handle := r.0];
      if r.1 == None { return NoSpace, 0; }
      return Ok, r.1.value;
    }

    /** `sim_mem_pool_free_async` up to the fence: scan the pools in handle order. */
    method FreeAsync(va: nat) returns (rc: Rc, ghost owner: nat)
      requires Valid()
      modifies this`pools
      ensures Valid()
      ensures rc == Ok ==> owner in old(pools) && InRange(old(pools)[owner], va) && va in old(pools)[owner].entries
                           && PoolOk(old(pools)[owner])
                           && pools == old(pools)[owner := PoolFree(old(pools)[owner], va)]
      ensures rc != Ok ==> rc == InvalidHandle && pools == old(pools)
      ensures rc != Ok ==> forall h :: h in pools && InRange(pools[h], va) ==> va !in pools[h].entries
    {
      hide Consistent, Good, Inv, Shape, PoolOk, PoolFree;
      owner := 0;
      NoneBeyond(Now());
      var h := 1;
      while h < nextHandle
        invariant Valid() && pools == old(pools) && h > 0
        invariant forall k :: k in pools && k < h ==> !InRange(pools[k], va)
      {
        if h in pools && InRange(pools[h], va) {
          owner := h;
          forall k | k in pools && k != h
            ensures !InRange(pools[k], va)
          {
            if InRange(pools[k], va) { RangesDisjoint(Now(), h, k, va); }
          }
          if va !in pools[h].entries { return InvalidHandle, owner; }
          OnePool(Now(), h);
          PoolShape(pools[h]);
          PoolFreeOk(pools[h], va);
          PoolStepKeeps(Now(), h, PoolFree(pools[h], va));
          pools := pools[h := PoolFree(pools[h], va)];
          return Ok, owner;
        }
        h := h + 1;
      }
      NoneBeyond(Now());
      return InvalidHandle, owner;
    }
  }

  lemma FreshHasNoUsed(base: nat)
    ensures UsedBlocks(Fresh(base, MAX_ORDER).slots, 0) == multiset{}
  {
    NoUsed(Fresh(base, MAX_ORDER).slots, 0);
  }

  lemma NoneBeyond(w: World)
    requires Consistent(w)
    ensures forall h :: h in w.pools ==> 0 < h < w.nextHandle
  {
  }

  lemma ConsistentDevice(w: World)
    requires Consistent(w)
    ensures Good(w.device) && Inv(w.device) && Shape(w.device) && w.device.recordCount <= MAX_RECORDS
  {
  }

  lemma HandleIsNew(w: World)
    requires Consistent(w)
    ensures w.nextHandle !in w.pools
  {
  }

  lemma NewPoolFields(size: nat, vaBase: nat)
    requires 0 < AlignUp(size) <= DEVICE_VA_SIZE
    ensures NewPool(size, vaBase).props == Props(size, vaBase, vaBase + size) && NewPool(size, vaBase).entries == map[]
  {
  }

  // ---------- what users of pools rely on ----------

  predicate InRange(p: Pool, va: nat) { p.props.vaBase <= va < p.props.vaLimit }

  /** The published ranges of two pools never meet, so the scan of `free_async` has at most
      one candidate. */
  lemma {:induction false} RangesDisjoint(w: World, h: nat, k: nat, va: nat)
    requires Consistent(w) && h in w.pools && k in w.pools && h != k
    ensures !(InRange(w.pools[h], va) && InRange(w.pools[k], va))
  {
    hide Tiles, AllBlocks, UsedBlocks, RequestOrder;
    var p, q := w.pools[h], w.pools[k];
    OwnBlock(w, h);
    OwnBlock(w, k);
    BlockHoldsRange(w, h, k);
    BlockHoldsRange(w, k, h);
    UsedDisjoint(w.device, PoolBlock(p), PoolBlock(q));
  }

  lemma UsedFits(s: State, b: Block)
    requires Inv(s) && b in UsedBlocks(s.slots, 0)
    ensures Fits(s.base, s.maxOrder, b)
  {
    assert b in AllBlocks(s);
  }

  /** With another pool alive, a pool's published range lies inside its device block. */
  lemma {:induction false} BlockHoldsRange(w: World, h: nat, k: nat)
    requires Consistent(w) && h in w.pools && k in w.pools && h != k
    ensures w.pools[h].props.size <= Size(w.pools[h].buddy.maxOrder)
  {
    hide Good, Inv, RequestOrder, UsedBlocks, Size, Mirrors;
    var p, b, c := w.pools[h], PoolBlock(w.pools[h]), PoolBlock(w.pools[k]);
    ConsistentDevice(w);
    OwnBlock(w, h);
    OwnBlock(w, k);
    DeviceSizes();
    RequestOrderCovers(p.mmapSize);
    if p.mmapSize > Size(b.order) {
      RequestOrderLeast(p.mmapSize);
      assert b.order == MAX_ORDER;
      UsedFits(w.device, b);
      UsedFits(w.device, c);
      UsedDisjoint(w.device, b, c);
      assert false;
    }
  }

  /** Any two allocations alive in any pools are disjoint, and each lies in its own pool's
      block of the device range. */
  lemma {:induction false} LiveDisjoint(w: World, h: nat, k: nat, b: Block, c: Block)
    requires Consistent(w) && h in w.pools && k in w.pools
    requires b in UsedBlocks(w.pools[h].buddy.slots, 0) && c in UsedBlocks(w.pools[k].buddy.slots, 0)
    requires h != k || b != c
    ensures Disjoint(b, c)
    ensures var o := PoolBlock(w.pools[h]);
            o.addr <= b.addr && b.addr + Size(b.order) <= o.addr + Size(o.order)
  {
    hide Tiles, AllBlocks, UsedBlocks, RequestOrder, Size;
    var p, q := w.pools[h], w.pools[k];
    OwnBlock(w, h);
    OwnBlock(w, k);
    UsedFits(p.buddy, b);
    UsedFits(q.buddy, c);
    if h == k {
      UsedDisjoint(p.buddy, b, c);
    } else {
      UsedDisjoint(w.device, PoolBlock(p), PoolBlock(q));
    }
  }

  /** A pool's table lists exactly the addresses its allocator has handed out. */
  lemma EntryIsBlock(p: Pool, va: nat) returns (b: Block)
    requires PoolOk(p) && va in p.entries
    ensures b in UsedBlocks(p.buddy.slots, 0) && b.addr == va
  {
    var j :| 0 <= j < |p.buddy.slots| && p.buddy.slots[j].used && p.buddy.slots[j].addr == va;
    UsedIn(p.buddy.slots, 0, j);
    b := Block(p.buddy.slots[j].order, va);
  }

  /** Whatever is in a table owns a block of the right order for its size. */
  lemma {:induction false} EntryHasRoom(p: Pool, va: nat) returns (b: Block)
    requires PoolOk(p) && va in p.entries
    ensures b in UsedBlocks(p.buddy.slots, 0) && b.addr == va && RightOrder(b.order, p.entries[va].size)
    ensures Fits(p.buddy.base, p.buddy.maxOrder, b)
  {
    hide RequestOrder, UsedBlocks, Size, Pow2;
    b := EntryIsBlock(p, va);
    UsedFits(p.buddy, b);
    DeviceSizes();
    RequestOrderCovers(p.entries[va].size);
  }

  /** The bytes asked for at two addresses of any pools do not overlap, except that an
      allocation of more than 2^63 bytes overlaps every one above it. */
  lemma {:induction false} RequestsApartIff(w: World, h: nat, k: nat, x: nat, y: nat)
    requires Consistent(w) && h in w.pools && k in w.pools && (h != k || x != y)
    requires x in w.pools[h].entries && y in w.pools[k].entries && x <= y
    ensures x + w.pools[h].entries[x].size <= y <==> w.pools[h].entries[x].size <= Pow2(63)
  {
    hide Good, PoolOk, UsedBlocks, Size, Pow2, Mirrors;
    OnePool(w, h);
    OnePool(w, k);
    var b := EntryHasRoom(w.pools[h], x);
    var c := EntryHasRoom(w.pools[k], y);
    var size := w.pools[h].entries[x].size;
    LiveDisjoint(w, h, k, b, c);
    LiveInDevice(w, h, b);
    LiveInDevice(w, k, c);
    DeviceSizes();
    if Size(MAX_ORDER) < size <= Pow2(63) {
      SizePositive(c.order);
      assert false;
    }
  }

  lemma SizePositive(o: nat)
    ensures Size(o) >= 1
  {
  }

  /** Every allocation of every pool lies in the part of the device range that is managed. */
  lemma {:induction false} LiveInDevice(w: World, h: nat, b: Block)
    requires Consistent(w) && h in w.pools && b in UsedBlocks(w.pools[h].buddy.slots, 0)
    ensures DEVICE_VA_BASE <= b.addr && b.addr + Size(b.order) <= DEVICE_VA_BASE + Size(MAX_ORDER)
  {
    hide Tiles, AllBlocks, UsedBlocks, RequestOrder, Size, Mirrors;
    OwnBlock(w, h);
    UsedFits(w.pools[h].buddy, b);
    UsedFits(w.device, PoolBlock(w.pools[h]));
  }

  /** The size is a block size: a power of two of at least 4 KB, at most the largest block. */
  ghost predicate BlockSized(size: nat) { exists o: nat :: o <= MAX_ORDER && size == Size(o) }

  lemma {:induction false} BlockSizedOrder(size: nat, o: nat)
    requires o <= MAX_ORDER && size == Size(o)
    ensures AlignUp(size) == size <= DEVICE_VA_SIZE && RequestOrder(size) == o
  {
    DeviceSizes();
    SizeMono(o, MAX_ORDER);
    SizeZero();
    Pow2Add(12, o);
    assert Pow2(12) == PAGE;
    AlignedUpward(Pow2(o));
    RequestOrderLeast(size);
    if o > 0 { SizeMono(o - 1, o); }
    LeastOrderUnique(size, o);
  }

  lemma AlignedUpward(n: nat)
    requires 0 < PAGE * n < WORD - PAGE
    ensures AlignUp(PAGE * n) == PAGE * n
  {
    assert (PAGE * n + (PAGE - 1)) / PAGE == n;
  }

  /** The sizes whose region is no larger than the range published for it: a block size, or the
      largest block and more, for which the region is the largest block. */
  ghost predicate Covered(size: nat) { BlockSized(size) || size >= Size(MAX_ORDER) }

  /** In a pool of such a size every live allocation lies in the published range. */
  lemma {:induction false} InsideRange(p: Pool, b: Block)
    requires PoolOk(p) && Covered(p.props.size) && b in UsedBlocks(p.buddy.slots, 0)
    ensures p.props.vaBase <= b.addr && b.addr + Size(b.order) <= p.props.vaLimit
  {
    hide Tiles, AllBlocks, UsedBlocks, RequestOrder, Size;
    UsedFits(p.buddy, b);
    if p.props.size >= Size(MAX_ORDER) {
      SizeMono(p.buddy.maxOrder, MAX_ORDER);
    } else {
      var o: nat :| o <= MAX_ORDER && p.props.size == Size(o);
      BlockSizedOrder(p.props.size, o);
    }
  }

  lemma SizeInPages(o: nat)
    ensures Size(o) == PAGE * Pow2(o)
  {
    SizeZero();
    assert Pow2(12) == PAGE;
    Pow2Add(12, o);
  }

  /** Page multiples that differ differ by a page; rounding up stays below a multiple. */
  lemma PageGap(x: nat, n: nat)
    requires 0 < x <= PAGE * n < WORD - PAGE
    ensures 0 < AlignUp(x) <= PAGE * n
    ensures AlignUp(x) != PAGE * n ==> AlignUp(x) + PAGE <= PAGE * n
  {
    var q := (x + (PAGE - 1)) / PAGE;
    assert AlignUp(x) == q * PAGE;
    assert q <= n;
  }

  /** A new pool's first one-page allocation lies in the published range exactly when the size
      is covered, and starts in it, where `free_async` can find it, exactly when the
      page-aligned size is. */
  lemma {:induction false} FirstPageInside(size: nat, vaBase: nat)
    requires 0 < size && 0 < AlignUp(size) <= DEVICE_VA_SIZE
    ensures var p := NewPool(size, vaBase);
            && Inv(p.buddy) && PoolAlloc(p, 1).1.Some?
            && var va := PoolAlloc(p, 1).1.value;
            && (va + PAGE <= p.props.vaLimit <==> Covered(size))
            && (InRange(PoolAlloc(p, 1).0, va) <==> Covered(AlignUp(size)))
  {
    hide Good, Inv, Shape, Alloc, RequestOrder, Init, Size, AlignUp, BlockSized;
    var aligned := AlignUp(size);
    var m := RequestOrder(aligned);
    DeviceSizes();
    InnerIsOuter(vaBase, aligned);
    RequestOrderCovers(aligned);
    AlignUpCovers(size);
    FirstPage(vaBase, m);
    assert AlignUp(1) == PAGE by { PageGap(1, 1); }
    NewPoolIs(size, vaBase, m);
    if size > Size(MAX_ORDER) {
      assert m == MAX_ORDER;
    } else {
      SmallSizeCovered(size, m);
    }
  }

  /** Up to the largest block, a size is covered when it fills its block, and its page-aligned
      form when it comes within a page of that. */
  lemma {:induction false} SmallSizeCovered(size: nat, m: nat)
    requires 0 < size <= Size(MAX_ORDER) && 0 < AlignUp(size) <= DEVICE_VA_SIZE
    requires m == RequestOrder(AlignUp(size)) <= MAX_ORDER
    ensures Covered(size) <==> size == Size(m)
    ensures Covered(AlignUp(size)) <==> Size(m) < size + PAGE
  {
    hide RequestOrder, Size, AlignUp, BlockSized;
    DeviceSizes();
    SizeInPages(MAX_ORDER);
    PageGap(size, Pow2(MAX_ORDER));
    AlignUpCovers(size);
    var aligned := AlignUp(size);
    RequestOrderCovers(aligned);
    SizeInPages(m);
    SizeMono(m, MAX_ORDER);
    PageGap(size, Pow2(m));
    BlockSizedIff(size, m);
    AlignUpTwice(size);
    BlockSizedIff(aligned, m);
  }

  lemma AlignUpTwice(x: nat)
    requires 0 < AlignUp(x) <= DEVICE_VA_SIZE
    ensures AlignUp(AlignUp(x)) == AlignUp(x)
  {
    AlignedUpward((x + (PAGE - 1)) / PAGE);
  }

  /** With `m` the least order covering it, a size is a block size when it fills that block. */
  lemma {:induction false} BlockSizedIff(size: nat, m: nat)
    requires m <= MAX_ORDER && 0 < size <= Size(m) && m == RequestOrder(AlignUp(size))
    ensures BlockSized(size) <==> size == Size(m)
  {
    hide RequestOrder, AlignUp, Size;
    if BlockSized(size) {
      var o: nat :| o <= MAX_ORDER && size == Size(o);
      BlockSizedOrder(size, o);
    }
  }

  lemma NewPoolIs(size: nat, vaBase: nat, m: nat)
    requires 0 < AlignUp(size) <= DEVICE_VA_SIZE && m == RequestOrder(AlignUp(size))
    ensures m <= MAX_ORDER && NewPool(size, vaBase) == Pool(Props(size, vaBase, vaBase + size), map[], AlignUp(size), Fresh(vaBase, m))
  {
    hide RequestOrder, Fresh, AlignUp, Init;
    InnerIsOuter(vaBase, AlignUp(size));
  }

  /** Splitting leaves the upper end of the block at the head of the list reached. */
  lemma {:induction false} SplitDownHead(s: State, t: nat, order: nat)
    requires Inv(s) && order <= t <= s.maxOrder && s.free[t] != []
    requires forall k :: order <= k < t ==> s.free[k] == []
    requires s.poolUsed + 2 * (t - order) <= NODE_POOL
    ensures var (r, t1) := SplitDown(s, t, order);
            && t1 == order < |r.free| && r.free[order] != []
            && r.free[order][0] == s.free[t][0] + Size(t) - Size(order)
    decreases t
  {
    hide Tiles, AllBlocks, CountsRecords, SplitHead, Size;
    if t > order {
      SplitHeadInv(s, t);
      SplitHeadLists(s, t);
      SplitHeadFields(s, t);
      SizeStep(t - 1);
      SplitDownHead(SplitHead(s, t), t - 1, order);
    }
  }

  /** From a fresh allocator the first page handed out is the last one of the region. */
  lemma {:induction false} FirstPage(base: nat, m: nat)
    requires m <= MAX_ORDER
    ensures Inv(Fresh(base, m)) && Shape(Fresh(base, m))
    ensures Size(m) >= PAGE
    ensures Alloc(Fresh(base, m), PAGE).1 == Some(base + Size(m) - PAGE)
  {
    hide Tiles, AllBlocks, RequestOrder, AlignedSize, Size, Fresh, SplitDown;
    var s := Fresh(base, m);
    FreshInv(base, m);
    SizeZero();
    SizeMono(0, m);
    PageOrder();
    var t := FirstFit(s, 0, 0);
    assert s.free[m] != [];
    assert t == m;
    var s0 := s.(log := s.log.(attempts := s.log.attempts + 1));
    LogOnlyInv(s, s0.log);
    SplitDownHead(s0, m, 0);
    SplitDownSizes(s0, m, 0);
    assert FirstUnused(s.slots, 0) == 0 by { assert !s.slots[0].used; }
  }

  lemma PageOrder()
    ensures RequestOrder(PAGE) == 0
  {
    hide Size;
    SizeZero();
    DeviceSizes();
    RequestOrderLeast(PAGE);
    LeastOrderUnique(PAGE, 0);
  }

  /** After the first page of a two-page region the other page is free. */
  lemma OtherPageFree(base: nat)
    ensures Shape(Fresh(base, 1)) && Shape(Alloc(Fresh(base, 1), PAGE).0)
    ensures Alloc(Fresh(base, 1), PAGE).0.free[0] != []
  {
    hide Tiles, AllBlocks, RequestOrder, AlignedSize, Size, Fresh;
    var s := Fresh(base, 1);
    FreshInv(base, 1);
    AllocInv(s, PAGE);
    PageOrder();
    var s0 := s.(log := s.log.(attempts := s.log.attempts + 1));
    assert FirstFit(s, 0, 0) == 1;
    SplitHeadLists(s0, 1);
    var r := SplitHead(s0, 1);
    assert |r.free[0]| == 2 && SplitDown(s0, 1, 0) == (r, 0);
  }

  /** A request of more than 2^63 bytes is granted a page, below bytes already handed out: the
      exception above is real. */
  lemma {:induction false} HugeRequestOverlaps(base: nat)
    ensures var p := NewPool(2 * PAGE, base);
            PoolOk(p) &&
            var (q, x) := PoolAlloc(p, 1);
            PoolOk(q) && x == Some(base + PAGE) &&
            var (r, y) := PoolAlloc(q, Pow2(63) + 1);
            y == Some(base) && base in r.entries && base + PAGE in r.entries && r.entries[base].size > Pow2(63)
  {
    hide Good, Alloc, RequestOrder, Init, Size, AlignUp, Mirrors, PoolOk, UsedBlocks, Fresh;
    TwoPages();
    NewPoolOk(2 * PAGE, base);
    NewPoolIs(2 * PAGE, base, 1);
    var p := NewPool(2 * PAGE, base);
    PoolShape(p);
    PoolAllocOk(p, 1);
    FirstPage(base, 1);
    OtherPageFree(base);
    var q := PoolAlloc(p, 1).0;
    PoolShape(q);
    HugeTakesPage(q);
  }

  lemma TwoPages()
    ensures AlignUp(2 * PAGE) == 2 * PAGE == Size(1) && RequestOrder(2 * PAGE) == 1 && AlignUp(1) == PAGE == Size(0)
  {
    hide RequestOrder;
    SizeZero();
    SizeStep(0);
    BlockSizedOrder(Size(1), 1);
  }

  lemma {:induction false} HugeTakesPage(q: Pool)
    requires PoolOk(q) && q.buddy.maxOrder == 1 && q.buddy.free[0] != [] && q.buddy.base + PAGE in q.entries
    ensures var (r, y) := PoolAlloc(q, Pow2(63) + 1);
            && y == Some(q.buddy.base) && q.buddy.base in r.entries && q.buddy.base + PAGE in r.entries
            && r.entries[q.buddy.base].size > Pow2(63)
  {
    hide Good, Alloc, RequestOrder, Mirrors, UsedBlocks, Size, PoolOk, PoolAlloc, Pow2, AlignUp;
    PoolShape(q);
    HugeSize();
    SpaceIff(q, Pow2(63) + 1);
    assert HasRoom(q, Pow2(63) + 1);
    var b := AllocGivesRoom(q, Pow2(63) + 1);
    PoolAllocOk(q, Pow2(63) + 1);
    var r := PoolAlloc(q, Pow2(63) + 1).0;
    PoolShape(r);
    var c := EntryHasRoom(r, b.addr);
    FirstOfTwo(q.buddy.base, c);
  }

  lemma FirstOfTwo(base: nat, b: Block)
    requires Fits(base, 1, b) && b.addr != base + PAGE
    ensures b.addr == base
  {
    hide Size, RequestOrder, AlignUp;
    TwoPages();
    var d := b.addr - base;
    if b.order == 0 {
      var size := Size(0);
      assert d % size == 0 && size == PAGE;
      assert d % 4096 == 0;
    }
  }

  lemma HugeSize()
    ensures AlignUp(Pow2(63) + 1) > Pow2(63) && RequestOrder(AlignUp(Pow2(63) + 1)) == 0
  {
    hide RequestOrder;
    DeviceSizes();
    assert 2 * Pow2(63) == WORD;
    hide Pow2;
    AlignUpCovers(Pow2(63) + 1);
    AlignUpWord(Pow2(63) + 1);
    RequestOrderCovers(AlignUp(Pow2(63) + 1));
  }
}
