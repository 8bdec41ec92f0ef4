/** The buddy allocator in place: intrusive free lists over a fixed node pool and a record
    table, as libgpu_core/src/buddy.c lays them out in `struct gpu_buddy`. */
module BuddyHeap {
  import opened Bits
  import opened BuddySize
  import opened BuddySpec
  import opened BuddyTiling
  import opened BuddyLists
  import opened Collections

  class GpuBuddy {
    var baseAddr: nat
    var poolSize: nat
    var maxOrder: nat
    var blockPoolUsed: nat
    var recordCount: nat
    const freeLists: array<int>
    const blockAddr: array<nat>
    const blockNext: array<int>
    const blockPrev: array<int>
    const records: array<Slot>

    /** The nodes of each list, and the value the structure stands for. */
    ghost var lists: seq<seq<nat>>
    ghost var st: State

    ghost function Memory(): Mem
      reads freeLists, blockAddr, blockNext, blockPrev
    {
      Mem(blockAddr[..], blockNext[..], blockPrev[..], freeLists[..])
    }

    ghost predicate Arrays()
    {
      && freeLists.Length == MAX_ORDER + 1
      && blockAddr.Length == blockNext.Length == blockPrev.Length == NODE_POOL
      && records.Length == MAX_RECORDS
      && freeLists != blockNext && freeLists != blockPrev && blockNext != blockPrev
    }

    /** The fields hold what `st` says. */
    ghost predicate Fields()
      reads this, records
    {
      && Shape(st)
      && |lists| == |st.free| == MAX_ORDER + 1
      && st.base == baseAddr && st.maxOrder == maxOrder <= MAX_ORDER
      && st.poolUsed == blockPoolUsed <= NODE_POOL && st.recordCount == recordCount <= MAX_RECORDS
      && records[..] == st.slots
    }

    ghost predicate Valid()
      reads this, freeLists, blockAddr, blockNext, blockPrev, records
    {
      Arrays() && Fields() && Linked(Memory(), blockPoolUsed, lists, st.free)
    }

    // ---------- node pool ----------

    /** `pool_alloc`: the next node, or NIL when the pool is used up. */
    method PoolAlloc() returns (block: int)
      requires Valid()
      modifies this`blockPoolUsed, this`st, blockAddr, blockNext, blockPrev
      ensures Valid() && lists == old(lists)
      ensures old(st).poolUsed == NODE_POOL ==> block == NIL && st == old(st)
      ensures old(st).poolUsed < NODE_POOL ==>
                block == old(st).poolUsed && st == old(st).(poolUsed := old(st).poolUsed + 1)
                && NotIn(lists, block)
    {
      if blockPoolUsed >= NODE_POOL { return NIL; }
      ghost var m := Memory();
      block := blockPoolUsed;
      UntakenNotIn(m, blockPoolUsed, lists, st.free, block);
      blockPoolUsed := blockPoolUsed + 1;
      blockAddr[block] := 0;
      blockNext[block] := NIL;
      blockPrev[block] := NIL;
      st := st.(poolUsed := st.poolUsed + 1);
      UnlinkedWrite(m, Memory(), blockPoolUsed - 1, blockPoolUsed, lists, st.free, block);
    }

    /** Store an address in a node that is in no list. */
    method SetAddr(block: nat, addr: nat)
      requires Valid() && NotIn(lists, block) && block < blockPoolUsed
      modifies blockAddr
      ensures Valid() && blockAddr[block] == addr
      ensures forall n :: 0 <= n < NODE_POOL && n != block ==> blockAddr[n] == old(blockAddr[n])
    {
      ghost var m := Memory();
      blockAddr[block] := addr;
      UnlinkedWrite(m, Memory(), blockPoolUsed, blockPoolUsed, lists, st.free, block);
    }

    // ---------- free lists ----------

    /** The writes of `free_list_insert`. */
    method LinkHead(block: nat, order: nat)
      requires Arrays() && block < NODE_POOL && order <= MAX_ORDER
      requires freeLists[order] == NIL || 0 <= freeLists[order] < NODE_POOL
      modifies blockNext, blockPrev, freeLists
      ensures Memory() == Inserted(old(Memory()), block, order)
    {
      blockNext[block] := freeLists[order];
      blockPrev[block] := NIL;
      if freeLists[order] != NIL {
        blockPrev[freeLists[order]] := block;
      }
      freeLists[order] := block;
    }

    /** The writes of `free_list_remove_block`. */
    method Unlink(block: nat, order: nat)
      requires Arrays() && block < NODE_POOL && order <= MAX_ORDER
      requires blockPrev[block] == NIL || 0 <= blockPrev[block] < NODE_POOL
      requires blockNext[block] == NIL || 0 <= blockNext[block] < NODE_POOL
      modifies blockNext, blockPrev, freeLists
      ensures Memory() == Removed(old(Memory()), block, order)
    {
      if blockPrev[block] != NIL {
        blockNext[blockPrev[block]] := blockNext[block];
      } else {
        freeLists[order] := blockNext[block];
      }
      if blockNext[block] != NIL {
        blockPrev[blockNext[block]] := blockPrev[block];
      }
      blockNext[block] := NIL;
      blockPrev[block] := NIL;
    }

    /** The writes of `free_list_pop`: what unlinking the head does. */
    method UnlinkHead(block: nat, order: nat)
      requires Arrays() && block < NODE_POOL && order <= MAX_ORDER && blockPrev[block] == NIL
      requires blockNext[block] == NIL || 0 <= blockNext[block] < NODE_POOL
      modifies blockNext, blockPrev, freeLists
      ensures Memory() == Removed(old(Memory()), block, order)
    {
      freeLists[order] := blockNext[block];
      if blockNext[block] != NIL {
        blockPrev[blockNext[block]] := NIL;
      }
      blockNext[block] := NIL;
      blockPrev[block] := NIL;
    }

    /** `free_list_insert` of a node that is in no list. */
    method FreeListInsert(block: nat, order: nat)
      requires Valid() && NotIn(lists, block) && block < blockPoolUsed
      requires order <= maxOrder && baseAddr <= blockAddr[block]
      modifies this`lists, this`st, blockNext, blockPrev, freeLists
      ensures Valid()
      ensures st == old(st).(free := old(st).free[order := [blockAddr[block]] + old(st).free[order]])
      ensures lists == old(lists)[order := [block] + old(lists)[order]]
    {
      hide Linked, NotIn, Inserted;
      ghost var m := Memory();
      HeadInPool(m, blockPoolUsed, lists, st.free, order);
      InsertLinked(m, blockPoolUsed, lists, st.free, block, order);
      LinkHead(block, order);
      lists := lists[order := [block] + lists[order]];
      st := st.(free := st.free[order := [blockAddr[block]] + st.free[order]]);
    }

    /** `free_list_remove_block` of the node at position `k` of the list. */
    method FreeListRemoveBlock(block: nat, order: nat, ghost k: nat)
      requires Valid() && order <= maxOrder && k < |lists[order]| && lists[order][k] == block
      modifies this`lists, this`st, blockNext, blockPrev, freeLists
      ensures Valid() && k < |old(st).free[order]| && block < blockPoolUsed
      ensures st == old(st).(free := old(st).free[order := RemoveAt(old(st).free[order], k)])
      ensures lists == old(lists)[order := RemoveAt(old(lists)[order], k)]
      ensures NotIn(lists, block) && blockAddr[block] == old(st).free[order][k]
    {
      hide Linked, NotIn, Shape, Removed, RemoveAt;
      ghost var m := Memory();
      RemoveLinked(m, blockPoolUsed, lists, st.free, order, k);
      RemoveShape(st, order, k);
      Unlink(block, order);
      lists := lists[order := RemoveAt(lists[order], k)];
      st := st.(free := st.free[order := RemoveAt(st.free[order], k)]);
    }

    /** `free_list_pop`: the head of the list, or NIL. */
    method FreeListPop(order: nat) returns (block: int)
      requires Valid() && order <= MAX_ORDER
      modifies this`lists, this`st, blockNext, blockPrev, freeLists
      ensures Valid()
      ensures old(st).free[order] == [] ==> block == NIL && st == old(st) && lists == old(lists)
      ensures old(st).free[order] != [] ==>
                0 <= block < blockPoolUsed && NotIn(lists, block) && blockAddr[block] == old(st).free[order][0]
                && st == Pop(old(st), order)
    {
      hide Linked, NotIn, Shape, Removed;
      ghost var m := Memory();
      HeadInPool(m, blockPoolUsed, lists, st.free, order);
      EmptyAbove(st, order);
      if order > maxOrder || freeLists[order] == NIL { return NIL; }
      block := freeLists[order];
      RemoveLinked(m, blockPoolUsed, lists, st.free, order, 0);
      RemoveShape(st, order, 0);
      RemoveFirst(lists[order]);
      RemoveFirst(st.free[order]);
      UnlinkHead(block, order);
      lists := lists[order := lists[order][1..]];
      st := Pop(st, order);
    }

    /** `find_buddy_in_list`: the first node of the list holding the address, or NIL. */
    method FindBuddyInList(addr: nat, order: nat) returns (block: int, ghost k: nat)
      requires Valid() && order <= MAX_ORDER
      ensures k == IndexOf(st.free[order], addr) && |lists[order]| == |st.free[order]|
      ensures block == if k < |lists[order]| then lists[order][k] else NIL
      ensures block == NIL <==> addr !in st.free[order]
      ensures block != NIL ==> 0 <= block < blockAddr.Length && blockAddr[block] == addr
    {
      ghost var m, xs, addrs := Memory(), lists[order], st.free[order];
      assert ListAt(m, blockPoolUsed, xs, addrs, m.heads[order]);
      block := freeLists[order];
      k := 0;
      while block != NIL
        invariant k <= |xs| && block == At(xs, k)
        invariant IndexOf(addrs, addr) >= k
        decreases |xs| - k
      {
        assert NodeIs(m, blockPoolUsed, xs[k], addrs[k], At(xs, k + 1), At(xs, k - 1));
        if blockAddr[block] == addr { return; }
        assert IndexOf(addrs, addr) != k;
        block := blockNext[block];
        k := k + 1;
      }
    }

    // ---------- records ----------

    /** `find_record`: the first used slot with the address, or MAX_RECORDS. */
    method FindRecordSlot(addr: nat) returns (i: nat)
      requires Valid()
      ensures i == FindRecord(st.slots, addr, 0)
    {
      i := 0;
      while i < MAX_RECORDS
        invariant i <= MAX_RECORDS && FindRecord(st.slots, addr, 0) == FindRecord(st.slots, addr, i)
      {
        assert records[i] == st.slots[i];
        if records[i].used && records[i].addr == addr { return; }
        i := i + 1;
      }
    }

    /** `add_record`: false when every slot is used. */
    method AddRecord(addr: nat, size: nat, order: nat) returns (ok: bool)
      requires Valid() && baseAddr <= addr && order <= maxOrder
      modifies this`recordCount, this`st, records
      ensures Valid()
      ensures var i := FirstUnused(old(st).slots, 0);
              && ok == (i < MAX_RECORDS)
              && st == if !ok then old(st) else
                   old(st).(slots := old(st).slots[i := Slot(true, addr, size, order)],
                            recordCount := if i >= old(st).recordCount then i + 1 else old(st).recordCount)
    {
      var i := 0;
      while i < MAX_RECORDS
        invariant i <= MAX_RECORDS && FirstUnused(st.slots, 0) == FirstUnused(st.slots, i)
        invariant records[..] == old(records[..]) && Valid()
      {
        assert records[i] == st.slots[i];
        if !records[i].used {
          records[i] := Slot(true, addr, size, order);
          if i >= recordCount { recordCount := i + 1; }
          st := st.(slots := st.slots[i := Slot(true, addr, size, order)], recordCount := recordCount);
          return true;
        }
        i := i + 1;
      }
      return false;
    }

    /** `remove_record` once the slot is found: mark it unused and shrink the count. */
    method RemoveRecord(i: nat)
      requires Valid() && i < MAX_RECORDS && st.slots[i].used
      modifies this`recordCount, this`st, records
      ensures Valid() && st == Forget(old(st), i)
    {
      ghost var slots := st.slots[i := st.slots[i].(used := false)];
      records[i] := records[i].(used := false);
      assert records[..] == slots;
      while recordCount > 0 && !records[recordCount - 1].used
        invariant recordCount <= MAX_RECORDS && records[..] == slots && st == old(st)
        invariant Shrink(slots, old(recordCount)) == Shrink(slots, recordCount)
      {
        assert records[recordCount - 1] == slots[recordCount - 1];
        recordCount := recordCount - 1;
      }
      assert recordCount > 0 ==> records[recordCount - 1] == slots[recordCount - 1];
      st := Forget(st, i);
    }

    // ---------- coalesce ----------

    /** A node for the address inserted at the head of the list; without a node left in the
        pool the block is in no list any more. */
    method PushBlock(addr: nat, order: nat)
      requires Valid() && order <= maxOrder && baseAddr <= addr
      modifies this`blockPoolUsed, this`lists, this`st, blockAddr, blockNext, blockPrev, freeLists
      ensures Valid() && st == Push(old(st), order, addr)
    {
      hide Linked, NotIn, Shape;
      Sizes(st);
      var block := PoolAlloc();
      if block != NIL {
        SetAddr(block, addr);
        FreeListInsert(block, order);
      } else {
        LostShape(st, Block(order, addr));
        st := st.(lost := st.lost + [Block(order, addr)]);
      }
    }

    lemma ListSizes(order: nat)
      requires Valid() && order <= MAX_ORDER
      ensures |lists[order]| == |st.free[order]|
      ensures freeLists[order] == At(lists[order], 0)
      ensures forall i :: 0 <= i < |lists[order]| ==>
                lists[order][i] < NODE_POOL && blockAddr[lists[order][i]] == st.free[order][i]
                && blockNext[lists[order][i]] == At(lists[order], i + 1)
                && st.base <= st.free[order][i]
    {
      ghost var m, xs, addrs := Memory(), lists[order], st.free[order];
      assert ListAt(m, blockPoolUsed, xs, addrs, m.heads[order]);
      forall i | 0 <= i < |xs|
        ensures NodeIs(m, blockPoolUsed, xs[i], addrs[i], At(xs, i + 1), At(xs, i - 1))
      {
      }
    }

    lemma ListHead(order: nat)
      requires Valid() && order <= MAX_ORDER
      ensures |lists[order]| == |st.free[order]| && freeLists[order] == At(lists[order], 0)
    {
      ListSizes(order);
    }

    lemma ListNode(order: nat, k: nat)
      requires Valid() && order <= MAX_ORDER && k < |lists[order]|
      ensures |lists[order]| == |st.free[order]|
      ensures var n := lists[order][k];
              n < NODE_POOL && blockAddr[n] == st.free[order][k] >= st.base && blockNext[n] == At(lists[order], k + 1)
    {
      ListSizes(order);
    }

    /** Unlink two nodes of one list. */
    method UnlinkTwo(current: nat, buddyBlk: nat, order: nat, ghost i: nat, ghost j: nat)
      requires Valid() && order < maxOrder && i < |lists[order]| && j < |lists[order]| && i != j
      requires lists[order][i] == current && lists[order][j] == buddyBlk
      modifies this`lists, this`st, blockNext, blockPrev, freeLists
      ensures Valid() && i < |old(st).free[order]| && j < |old(st).free[order]|
      ensures current < NODE_POOL && buddyBlk < NODE_POOL
      ensures st == old(st).(free := old(st).free[order := RemoveTwo(old(st).free[order], i, j)])
      ensures old(st).base <= blockAddr[current] == old(st).free[order][i]
      ensures old(st).base <= blockAddr[buddyBlk] == old(st).free[order][j]
    {
      hide Linked, NotIn, Shape, RemoveAt;
      ListNode(order, i);
      ListNode(order, j);
      ghost var k := if j > i then j - 1 else j;
      RemoveAtShifts(lists[order], i, j);
      RemoveAtShifts(st.free[order], i, j);
      FreeListRemoveBlock(current, order, i);
      FreeListRemoveBlock(buddyBlk, order, k);
    }

    /** The merge branch up to the recursive call: unlink both blocks, insert their union. */
    method MergePair(current: nat, buddyBlk: nat, order: nat, ghost i: nat, ghost j: nat)
      requires Valid() && order < maxOrder && i < |lists[order]| && j < |lists[order]| && i != j
      requires lists[order][i] == current && lists[order][j] == buddyBlk
      modifies this`blockPoolUsed, this`lists, this`st, blockAddr, blockNext, blockPrev, freeLists
      ensures i < |old(st).free[order]| && j < |old(st).free[order]|
      ensures Valid() && st == MergeAt(old(st), order, i, j)
    {
      hide Linked, Shape, Push, RemoveTwo;
      UnlinkTwo(current, buddyBlk, order, i, j);
      LogShape(st, st.log.(merges := st.log.merges + 1));
      st := st.(log := st.log.(merges := st.log.merges + 1));
      var mergedAddr := if blockAddr[current] < blockAddr[buddyBlk] then blockAddr[current] else blockAddr[buddyBlk];
      PushBlock(mergedAddr, order + 1);
    }

    /** `coalesce`: walk the list, merge every block whose buddy is in it, coalesce the next
        order after each merge and start the walk over. */
    method Coalesce(order: nat)
      requires Valid() && order <= MAX_ORDER
      modifies this`blockPoolUsed, this`lists, this`st, blockAddr, blockNext, blockPrev, freeLists
      ensures Valid() && st == BuddySpec.Coalesce(old(st), order)
      decreases |FreeBlocks(st.free, 0)|
    {
      hide Linked, Shape, FreeBlocks, BuddyAddr, MergeAt, IndexOf, CoalesceFrom, AreAdjacent;
      if order >= maxOrder { return; }
      hide BuddySpec.Coalesce;
      ghost var s0 := st;
      CoalesceEnds(st, order);
      ListHead(order);
      var current := freeLists[order];
      ghost var k := 0;
      while current != NIL
        invariant Valid() && st.maxOrder == s0.maxOrder
        invariant k <= |lists[order]| == |st.free[order]| && current == At(lists[order], k)
        invariant CoalesceFrom(st, order, k) == BuddySpec.Coalesce(s0, order)
        invariant |FreeBlocks(st.free, 0)| <= |FreeBlocks(s0.free, 0)|
        decreases |FreeBlocks(st.free, 0)|, |lists[order]| - k
      {
        ListNode(order, k);
        CoalesceTurn(st, order, k);
        var next := blockNext[current];
        var buddyAddr := BuddyAddr(baseAddr, blockAddr[current], order);
        var buddyBlk, j := FindBuddyInList(buddyAddr, order);
        if j < |lists[order]| { ListNode(order, j); }
        if buddyBlk != NIL && AreAdjacent(blockAddr[current], blockAddr[buddyBlk], order) {
          MergePair(current, buddyBlk, order, k, j);
          Coalesce(order + 1);
          ListHead(order);
          current := freeLists[order];
          k := 0;
        } else {
          current := next;
          k := k + 1;
        }
      }
      CoalesceEnds(st, order);
    }

    // ---------- init, reset, alloc, free ----------

    /** The loop of `gpu_buddy_init` that finds the region's order, and its cap. */
    static method RegionOrder(size: nat) returns (order: nat)
      ensures order == OrderForSize(size)
    {
      hide Size;
      order := 0;
      while Size(order) < size
        invariant order > 0 ==> Size(order - 1) < size
        invariant order <= LeastOrder(size)
        decreases LeastOrder(size) - order
      {
        if order == LeastOrder(size) { assert false; }
        order := order + 1;
      }
      LeastOrderUnique(size, order);
      if order > MAX_ORDER { order := MAX_ORDER; }
    }

    /** `gpu_buddy_init`. */
    constructor (base: nat, size: nat)
      requires size <= Pow2(63)
      ensures Valid() && st == Init(base, size)
      ensures fresh(freeLists) && fresh(blockAddr) && fresh(blockNext) && fresh(blockPrev) && fresh(records)
    {
      hide Linked, Push, Size, OrderForSize, Pow2, Fresh, NotIn;
      baseAddr := base;
      poolSize := size;
      var order := RegionOrder(size);
      maxOrder := order;
      blockPoolUsed := 0;
      recordCount := 0;
      freeLists := new int[MAX_ORDER + 1](_ => NIL);
      blockAddr := new nat[NODE_POOL](_ => 0);
      blockNext := new int[NODE_POOL](_ => NIL);
      blockPrev := new int[NODE_POOL](_ => NIL);
      records := new Slot[MAX_RECORDS](_ => Slot(false, 0, 0, 0));
      lists := seq(MAX_ORDER + 1, _ => []);
      st := Blank(base, order);
      new;
      BlankLinked(Memory(), lists);
      assert records[..] == st.slots;
      assert st.free == lists;
      PushBlock(baseAddr, maxOrder);
      FreshIsPush(base, order);
    }

    static lemma FreshIsPush(base: nat, order: nat)
      requires order <= MAX_ORDER
      ensures Fresh(base, order) == Push(Blank(base, order), order, base)
    {
    }

    /** `gpu_buddy_reset`. */
    method Reset()
      requires Valid()
      modifies this, freeLists, blockAddr, blockNext, blockPrev, records
      ensures Valid() && st == BuddySpec.Reset(old(st))
    {
      hide Linked, Push, Shape;
      Sizes(st);
      var i := 0;
      while i <= MAX_ORDER
        invariant i <= MAX_ORDER + 1
        invariant forall o :: 0 <= o < i ==> freeLists[o] == NIL
        modifies freeLists
      {
        freeLists[i] := NIL;
        i := i + 1;
      }
      blockPoolUsed := 0;
      recordCount := 0;
      forall k | 0 <= k < MAX_RECORDS { records[k] := Slot(false, 0, 0, 0); }
      lists := seq(MAX_ORDER + 1, _ => []);
      st := Blank(baseAddr, maxOrder);
      BlankLinked(Memory(), lists);
      assert records[..] == st.slots;
      assert st.free == lists;
      PushBlock(baseAddr, maxOrder);
    }

    /** Nodes for two addresses, both taken from the pool before either is inserted. */
    method PushHalves(addr: nat, half: nat, order: nat)
      requires Valid() && order <= maxOrder && baseAddr <= addr
      modifies this`blockPoolUsed, this`lists, this`st, blockAddr, blockNext, blockPrev, freeLists
      ensures Valid() && |old(st).free| == |Push(old(st), order, addr).free| == MAX_ORDER + 1
      ensures st == Push(Push(old(st), order, addr), order, addr + half)
    {
      hide Linked, Shape, NotIn;
      Sizes(st);
      var left := PoolAlloc();
      if left == NIL {
        var right := PoolAlloc();
        LostShape(st, Block(order, addr));
        st := st.(lost := st.lost + [Block(order, addr)]);
        LostShape(st, Block(order, addr + half));
        st := st.(lost := st.lost + [Block(order, addr + half)]);
        return;
      }
      var right := PoolAlloc();
      SetAddr(left, addr);
      if right != NIL {
        SetAddr(right, addr + half);
        NotInInserted(lists, left, right, order);
      }
      FreeListInsert(left, order);
      if right != NIL {
        FreeListInsert(right, order);
      } else {
        LostShape(st, Block(order, addr + half));
        st := st.(lost := st.lost + [Block(order, addr + half)]);
      }
    }

    /** One step of the split loop: pop a block and insert its two halves one order down. */
    method SplitOnce(target: nat) returns (split: bool)
      requires Valid() && 0 < target <= maxOrder
      modifies this`blockPoolUsed, this`lists, this`st, blockAddr, blockNext, blockPrev, freeLists
      ensures Valid() && split == (old(st).free[target] != [])
      ensures st == if split then SplitHead(old(st), target) else old(st)
    {
      hide Linked, Shape, Size, NotIn, Push;
      Sizes(st);
      var block := FreeListPop(target);
      if block == NIL { return false; }
      var addr := blockAddr[block];
      var half := Size(target) / 2;
      SizeStep(target - 1);
      LogShape(st, st.log.(splits := st.log.splits + 1));
      st := st.(log := st.log.(splits := st.log.splits + 1));
      PushHalves(addr, half, target - 1);
      return true;
    }

    /** The scan of `gpu_buddy_alloc` for an order with a free block. */
    method FindTarget(order: nat) returns (target: nat)
      requires Valid()
      ensures target == FirstFit(st, order, order)
    {
      hide Linked, Shape;
      Sizes(st);
      target := order;
      var i := order;
      while i <= maxOrder
        invariant order <= i && target == order
        invariant FirstFit(st, order, order) == FirstFit(st, i, order)
        decreases MAX_ORDER + 1 - i
      {
        ListSizes(i);
        if freeLists[i] != NIL { return i; }
        i := i + 1;
      }
    }

    /** The split loop of `gpu_buddy_alloc`. */
    method SplitUntil(start: nat, order: nat) returns (target: nat)
      requires Valid() && start <= maxOrder
      modifies this`blockPoolUsed, this`lists, this`st, blockAddr, blockNext, blockPrev, freeLists
      ensures Valid() && (st, target) == SplitDown(old(st), start, order) && target <= maxOrder
    {
      hide Linked, Shape, SplitHead;
      Sizes(st);
      target := start;
      while target > order
        invariant Valid() && target <= maxOrder && start < |old(st).free|
        invariant |st.free| == MAX_ORDER + 1
        invariant SplitDown(st, target, order) == SplitDown(old(st), start, order)
        decreases target
      {
        var split := SplitOnce(target);
        if !split { break; }
        Sizes(st);
        target := target - 1;
      }
    }

    /** The end of `gpu_buddy_alloc`: pop the block and record it, or put it back. */
    method GrantHead(target: nat, alignedSize: nat) returns (addr: Option<nat>)
      requires Valid() && target <= maxOrder
      modifies this`blockPoolUsed, this`lists, this`st, this`recordCount
      modifies blockAddr, blockNext, blockPrev, freeLists, records
      ensures Valid() && |old(st).slots| == MAX_RECORDS && (st, addr) == Grant(old(st), target, alignedSize)
    {
      hide Linked, Shape, NotIn;
      Sizes(st);
      var block := FreeListPop(target);
      if block == NIL { return None; }
      var a := blockAddr[block];
      var ok := AddRecord(a, alignedSize, target);
      if !ok {
        LogShape(st, st.log.(rollbacks := st.log.rollbacks + 1));
        st := st.(log := st.log.(rollbacks := st.log.rollbacks + 1));
        PushBlock(a, target);
        return None;
      }
      LogShape(st, st.log.(grants := st.log.grants + 1));
      st := st.(log := st.log.(grants := st.log.grants + 1));
      return Some(a);
    }

    /** `gpu_buddy_alloc`. */
    method Alloc(size: nat) returns (addr: Option<nat>)
      requires Valid()
      modifies this, freeLists, blockAddr, blockNext, blockPrev, records
      ensures Valid() && (st, addr) == BuddySpec.Alloc(old(st), size)
    {
      hide Linked, Shape, SplitDown, Grant, FirstFit, OrderForSize, RoundUpPow2, Size;
      if size == 0 { return None; }
      var alignedSize := RoundUpPow2(size);
      if alignedSize < Size(0) { alignedSize := Size(0); }
      var order := OrderOf(alignedSize);
      var target := FindTarget(order);
      if target > maxOrder { return None; }
      ListHead(target);
      if freeLists[target] == NIL { return None; }
      LogShape(st, st.log.(attempts := st.log.attempts + 1));
      st := st.(log := st.log.(attempts := st.log.attempts + 1));
      var reached := SplitUntil(target, order);
      addr := GrantHead(reached, alignedSize);
    }

    /** `order_for_size`. */
    method OrderOf(size: nat) returns (order: nat)
      ensures order == OrderForSize(size)
    {
      hide Size;
      order := 0;
      var blockSize := Size(0);
      while blockSize < size && order < MAX_ORDER
        invariant order <= MAX_ORDER && blockSize == Size(order)
        invariant order > 0 ==> Size(order - 1) < size
      {
        SizeStep(order);
        blockSize := blockSize * 2;
        order := order + 1;
      }
      if size <= Size(order) {
        LeastOrderUnique(size, order);
      } else if LeastOrder(size) <= MAX_ORDER {
        SizeMono(LeastOrder(size), MAX_ORDER);
      }
    }

    /** `gpu_buddy_free`. */
    method Free(addr: nat) returns (ok: bool)
      requires Valid()
      modifies this, freeLists, blockAddr, blockNext, blockPrev, records
      ensures Valid() && (st, ok) == BuddySpec.Free(old(st), addr)
    {
      hide Linked, Shape, Push, Forget, FindRecord, CoalesceFrom;
      hide BuddySpec.Coalesce;
      Sizes(st);
      var i := FindRecordSlot(addr);
      if i == MAX_RECORDS { return false; }
      var order := records[i].order;
      assert records[i] == st.slots[i];
      ForgetFields(st, i);
      RemoveRecord(i);
      LogShape(st, st.log.(frees := st.log.frees + 1));
      st := st.(log := st.log.(frees := st.log.frees + 1));
      PushBlock(addr, order);
      Coalesce(order);
      return true;
    }

    // ---------- queries ----------

    /** `gpu_buddy_free_size`: walk every list up to the region's order. */
    method FreeBytes() returns (total: nat)
      requires Valid()
      ensures total == FreeSize(st.free, 0)
    {
      hide Linked, Shape, Size;
      total := 0;
      var i := 0;
      while i <= maxOrder
        invariant i <= maxOrder + 1
        invariant total + FreeSize(st.free, i) == FreeSize(st.free, 0)
      {
        ListHead(i);
        var current := freeLists[i];
        ghost var k, start := 0, total;
        while current != NIL
          invariant k <= |lists[i]| && current == At(lists[i], k) && total == start + k * Size(i)
          decreases |lists[i]| - k
        {
          ListNode(i, k);
          total := total + Size(i);
          Accumulate(k, Size(i));
          current := blockNext[current];
          k := k + 1;
        }
        i := i + 1;
      }
      NoneAbove(i);
    }

    lemma Accumulate(k: nat, d: nat)
      ensures k * d + d == (k + 1) * d
    {
    }

    lemma {:induction false} NoneAbove(i: nat)
      requires Valid() && i > maxOrder
      ensures FreeSize(st.free, i) == 0
      decreases MAX_ORDER + 1 - i
    {
      if i <= MAX_ORDER {
        EmptyAbove(st, i);
        NoneAbove(i + 1);
      }
    }

    static lemma CountStep(slots: seq<Slot>, i: nat)
      requires i <= |slots|
      ensures |UsedBlocks(slots, i)|
              == if i == |slots| then 0 else (if slots[i].used then 1 else 0) + |UsedBlocks(slots, i + 1)|
    {
    }

    /** `gpu_buddy_allocated_count`. */
    method AllocatedCount() returns (count: nat)
      requires Valid()
      ensures count == |UsedBlocks(st.slots, 0)|
    {
      hide Linked, UsedBlocks;
      count := 0;
      var i := 0;
      while i < MAX_RECORDS
        invariant i <= MAX_RECORDS && count + |UsedBlocks(st.slots, i)| == |UsedBlocks(st.slots, 0)|
      {
        CountStep(st.slots, i);
        assert records[i] == st.slots[i];
        if records[i].used { count := count + 1; }
        i := i + 1;
      }
      CountStep(st.slots, i);
    }
  }
}
