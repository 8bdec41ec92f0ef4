/** Which pairs of buddies can be free at the same time, and what freeing undoes. */
module BuddyCoalescing {
  import opened BuddySize
  import opened BuddySpec
  import opened BuddyTiling
  import opened Collections

  /** No two blocks of the list are each other's buddies. */
  ghost predicate ListPairFree(base: nat, xs: seq<nat>, o: nat)
    requires forall i :: 0 <= i < |xs| ==> base <= xs[i]
  {
    forall i :: 0 <= i < |xs| ==> BuddyAddr(base, xs[i], o) !in xs
  }

  ghost predicate PairFree(s: State, o: nat)
    requires Shape(s) && o <= MAX_ORDER
  {
    ListPairFree(s.base, s.free[o], o)
  }

  /** No two buddies below the region's own order are both free. */
  ghost predicate Coalesced(s: State)
    requires Shape(s)
  {
    forall o :: 0 <= o < s.maxOrder ==> PairFree(s, o)
  }

  lemma FreeBlockAligned(s: State, o: nat, a: nat)
    requires Inv(s) && o <= s.maxOrder && a in s.free[o]
    ensures Fits(s.base, s.maxOrder, Block(o, a))
  {
    FreeIsBlock(s, o, a);
  }

  // ---------- coalesce ----------

  lemma BuddyIsAdjacent(base: nat, a: nat, o: nat)
    requires base <= a && Aligned(a - base, o)
    ensures AreAdjacent(a, BuddyAddr(base, a, o), o) && BuddyAddr(base, a, o) != a
  {
    BuddyIsOtherHalf(base, a, o);
  }

  /** Coalescing an order leaves no pair in it, and none above where there was none. */
  lemma {:induction false} CoalesceFromSettles(s: State, o: nat, pos: nat)
    requires Inv(s) && o < s.maxOrder && pos <= |s.free[o]|
    requires forall i :: 0 <= i < pos ==> BuddyAddr(s.base, s.free[o][i], o) !in s.free[o]
    ensures var r := CoalesceFrom(s, o, pos);
            && PairFree(r, o)
            && forall k :: o < k < s.maxOrder && PairFree(s, k) ==> PairFree(r, k)
    decreases |FreeBlocks(s.free, 0)|, 0, |s.free[o]| - pos
  {
    hide Tiles, AllBlocks, FreeBlocks, CountsRecords, RemoveTwo, MergeAt, BuddyAddr, Coalesce, IndexOf;
    if pos < |s.free[o]| {
      var a := s.free[o][pos];
      var b := BuddyAddr(s.base, a, o);
      var j := IndexOf(s.free[o], b);
      FreeBlockAligned(s, o, a);
      BuddyIsAdjacent(s.base, a, o);
      if j < |s.free[o]| {
        var m := MergeAt(s, o, pos, j);
        MergeShape(s, o, pos, j);
        MergeAtInv(s, o, pos, j);
        MergeKeepsAbove(s, o, pos, j);
        CoalesceSettles(m, o + 1);
        CoalesceInv(m, o + 1);
        CoalesceFromSettles(Coalesce(m, o + 1), o, 0);
      } else {
        CoalesceFromSettles(s, o, pos + 1);
      }
    }
  }

  lemma {:induction false} CoalesceSettles(s: State, o: nat)
    requires Inv(s)
    ensures var r := Coalesce(s, o);
            && (o < s.maxOrder ==> PairFree(r, o))
            && forall k :: o < k < s.maxOrder && PairFree(s, k) ==> PairFree(r, k)
    decreases |FreeBlocks(s.free, 0)|, 1
  {
    hide Tiles, AllBlocks;
    if o < s.maxOrder { CoalesceFromSettles(s, o, 0); }
  }

  lemma MergeKeepsAbove(s: State, o: nat, i: nat, j: nat)
    requires Shape(s) && o < s.maxOrder && i < |s.free[o]| && j < |s.free[o]| && i != j
    ensures forall k :: o + 1 < k < |s.free| ==> MergeAt(s, o, i, j).free[k] == s.free[k]
  {
  }

  /** `gpu_buddy_free` keeps the lists coalesced, even when the node pool is used up. */
  lemma {:induction false} FreeKeepsCoalesced(s: State, addr: nat)
    requires Inv(s) && Coalesced(s)
    ensures Inv(Free(s, addr).0) && Coalesced(Free(s, addr).0)
  {
    hide Tiles, AllBlocks, Push, Forget, Coalesce, FindRecord, PairFree;
    FreeInv(s, addr);
    var i := FindRecord(s.slots, addr, 0);
    if i < MAX_RECORDS {
      var o := s.slots[i].order;
      var s1, r := Returned(s, i), Free(s, addr).0;
      ReturnedInv(s, i);
      assert r == Coalesce(s1, o);
      ReturnedElsewhere(s, i);
      CoalesceSettles(s1, o);
      forall k | 0 <= k < s.maxOrder ensures PairFree(r, k) {
        assert PairFree(s, k);
        SettledElsewhere(s, s1, r, o, k);
      }
    }
  }

  lemma ReturnedElsewhere(s: State, i: nat)
    requires Shape(s) && s.recordCount <= MAX_RECORDS && i < MAX_RECORDS && s.slots[i].used
    ensures forall k :: 0 <= k < |s.free| && k != s.slots[i].order ==> Returned(s, i).free[k] == s.free[k]
  {
    hide Forget;
    ForgetFields(s, i);
  }

  /** Away from the order freed into, coalescing started from a list without pairs. */
  lemma SettledElsewhere(s: State, s1: State, r: State, o: nat, k: nat)
    requires Shape(s) && Shape(s1) && Shape(r) && k < s.maxOrder == s1.maxOrder && s1.base == s.base && PairFree(s, k)
    requires k != o ==> s1.free[k] == s.free[k]
    requires SameBelow(s1, r, o) && (o < s1.maxOrder ==> PairFree(r, o))
    requires k > o && PairFree(s1, k) ==> PairFree(r, k)
    ensures PairFree(r, k)
  {
    hide BuddyAddr;
  }

  // ---------- alloc ----------

  /** Splitting pairs up no blocks except, for the moment, at the head of the list reached. */
  ghost predicate HeadApart(s: State, t: nat)
    requires Shape(s) && t <= s.maxOrder
  {
    && (forall k :: 0 <= k < s.maxOrder && k != t ==> PairFree(s, k))
    && (s.free[t] != [] && t < s.maxOrder ==> ListPairFree(s.base, s.free[t][1..], t))
  }

  lemma {:induction false} SplitHeadLists(s: State, t: nat)
    requires 0 < t < |s.free| && s.free[t] != [] && s.free[t - 1] == []
    ensures var r, a := SplitHead(s, t), s.free[t][0];
            var l, h := a, a + Size(t - 1);
            && |r.free| == |s.free|
            && r.free[t] == s.free[t][1..]
            && (forall k :: 0 <= k < |s.free| && k != t && k != t - 1 ==> r.free[k] == s.free[k])
            && r.free[t - 1] == (if s.poolUsed + 1 < NODE_POOL then [h, l]
                                 else if s.poolUsed < NODE_POOL then [l] else [])
            && r.poolUsed == (if s.poolUsed + 1 < NODE_POOL then s.poolUsed + 2
                              else if s.poolUsed < NODE_POOL then NODE_POOL else s.poolUsed)
  {
  }

  /** A block is not its own buddy, so the half left behind is no pair by itself. */
  lemma {:induction false} SplitHeadApart(s: State, t: nat)
    requires Inv(s) && 0 < t <= s.maxOrder && s.free[t] != [] && s.free[t - 1] == []
    requires HeadApart(s, t)
    ensures Shape(SplitHead(s, t)) && SplitHead(s, t).maxOrder == s.maxOrder
    ensures HeadApart(SplitHead(s, t), t - 1)
  {
    hide Tiles, AllBlocks, CountsRecords, SplitHead, BuddyAddr, Aligned, Size;
    var r := SplitHead(s, t);
    var a := s.free[t][0];
    SplitHeadShape(s, t);
    SplitHeadLists(s, t);
    FreeBlockAligned(s, t, a);
    AlignedWeaken(a - s.base, t - 1);
    BuddyIsOtherHalf(s.base, a, t - 1);
    forall k | 0 <= k < s.maxOrder && k != t - 1
      ensures PairFree(r, k)
    {
      if k != t { assert PairFree(s, k); }
    }
  }

  lemma {:induction false} SplitDownApart(s: State, t: nat, order: nat)
    requires Inv(s) && order <= t <= s.maxOrder
    requires forall k :: order <= k < t ==> s.free[k] == []
    requires HeadApart(s, t)
    ensures var (r, t1) := SplitDown(s, t, order);
            Inv(r) && t1 <= r.maxOrder == s.maxOrder && HeadApart(r, t1)
    decreases t
  {
    hide Tiles, AllBlocks, CountsRecords;
    SplitDownInv(s, t, order);
    if t > order && s.free[t] != [] {
      var r := SplitHead(s, t);
      SplitHeadInv(s, t);
      SplitHeadLists(s, t);
      SplitHeadFields(s, t);
      SplitHeadApart(s, t);
      SplitDownApart(r, t - 1, order);
    }
  }

  lemma SplitHeadFields(s: State, t: nat)
    requires Shape(s) && 0 < t <= s.maxOrder && s.free[t] != []
    ensures var r := SplitHead(s, t);
            r.base == s.base && r.maxOrder == s.maxOrder && r.slots == s.slots && r.recordCount == s.recordCount
  {
    SplitHeadShape(s, t);
  }

  /** How far splitting gets, and what is left at the head, when the node pool has room. */
  lemma {:induction false} SplitDownReaches(s: State, t: nat, order: nat)
    requires Inv(s) && order <= t <= s.maxOrder && s.free[t] != []
    requires forall k :: order <= k < t ==> s.free[k] == []
    ensures var (r, t1) := SplitDown(s, t, order);
            && |r.free| == |s.free|
            && (s.poolUsed + 2 * (t - order) <= NODE_POOL ==>
                  && t1 == order && r.poolUsed == s.poolUsed + 2 * (t - order)
                  && (t == order ==> r.free[order] == s.free[order])
                  && (t > order ==> |r.free[order]| == 2
                                    && s.base <= r.free[order][0]
                                    && r.free[order][1] == BuddyAddr(s.base, r.free[order][0], order)))
            && (s.poolUsed + 2 * (t - order) > NODE_POOL ==> r.poolUsed == NODE_POOL)
    decreases t
  {
    hide Tiles, AllBlocks, CountsRecords, SplitHead, BuddyAddr, Aligned, Size;
    if t > order {
      var r := SplitHead(s, t);
      var a := s.free[t][0];
      SplitHeadInv(s, t);
      SplitHeadLists(s, t);
      SplitHeadFields(s, t);
      FreeBlockAligned(s, t, a);
      OddMultiple(a - s.base, t - 1);
      BuddyIsOtherHalf(s.base, a + Size(t - 1), t - 1);
      if r.free[t - 1] != [] {
        SplitDownReaches(r, t - 1, order);
      } else {
        assert SplitDown(s, t, order) == SplitDown(r, t - 1, order) == (r, t - 1);
      }
    }
  }

  /** The one way an allocation leaves two buddies free: it split a block, found the record
      table full and put the half it took back without merging it.  BuddyRuns.TableNeverFull
      shows that no run from init comes to this. */
  predicate RollbackLeavesPair(s: State, size: nat)
    requires Shape(s)
  {
    size != 0 &&
    var order := RequestOrder(size);
    var t := FirstFit(s, order, order);
    t <= s.maxOrder && s.free[t] != [] && t > order
    && FirstUnused(s.slots, 0) == MAX_RECORDS
    && s.poolUsed + 2 * (t - order) < NODE_POOL
  }

  lemma {:induction false} GrantApart(s: State, t: nat, size: nat)
    requires Inv(s) && t <= s.maxOrder && HeadApart(s, t)
    ensures Inv(Grant(s, t, size).0)
    ensures Coalesced(Grant(s, t, size).0) <==>
            t == s.maxOrder || PairFree(s, t) || FirstUnused(s.slots, 0) < MAX_RECORDS || s.poolUsed == NODE_POOL
  {
    hide Tiles, AllBlocks, CountsRecords;
    GrantInv(s, t, size);
    var r := Grant(s, t, size).0;
    forall k | 0 <= k < s.maxOrder && k != t
      ensures PairFree(r, k)
    {
      assert PairFree(s, k);
    }
    if t < s.maxOrder {
      assert Coalesced(r) <==> PairFree(r, t);
      if s.free[t] != [] && (FirstUnused(s.slots, 0) < MAX_RECORDS || s.poolUsed == NODE_POOL) {
        assert r.free[t] == s.free[t][1..];
        assert PairFree(r, t);
      } else {
        assert r.free[t] == s.free[t];
      }
    }
  }

  /** From a coalesced state, an allocation ends in a coalesced state exactly when it does
      not roll a split block back. */
  lemma {:induction false} AllocKeepsCoalesced(s: State, size: nat)
    requires Inv(s) && Coalesced(s)
    ensures Inv(Alloc(s, size).0)
    ensures Coalesced(Alloc(s, size).0) <==> !RollbackLeavesPair(s, size)
  {
    hide Tiles, AllBlocks, RequestOrder, AlignedSize, SplitDown, Grant, FirstFit, FirstUnused, Size;
    AllocInv(s, size);
    if size != 0 {
      var order := RequestOrder(size);
      var t := FirstFit(s, order, order);
      if t <= s.maxOrder && s.free[t] != [] {
        AllocGrantsCoalesced(s, t, order, AlignedSize(size));
      }
    }
  }

  lemma {:induction false} AllocGrantsCoalesced(s: State, t: nat, order: nat, size: nat)
    requires Inv(s) && Coalesced(s) && order <= t <= s.maxOrder && s.free[t] != []
    requires forall k :: order <= k < t ==> s.free[k] == []
    ensures var s0 := s.(log := s.log.(attempts := s.log.attempts + 1));
            var (s1, t1) := SplitDown(s0, t, order);
            && t1 < |s1.free| && |s1.slots| == MAX_RECORDS
            && var r := Grant(s1, t1, size).0;
            Shape(r) &&
            (Coalesced(r) <==>
             !(t > order && FirstUnused(s.slots, 0) == MAX_RECORDS && s.poolUsed + 2 * (t - order) < NODE_POOL))
  {
    hide Tiles, AllBlocks, CountsRecords;
    var s0 := s.(log := s.log.(attempts := s.log.attempts + 1));
    LogOnlyInv(s, s0.log);
    assert HeadApart(s0, t) by {
      forall k | 0 <= k < s.maxOrder ensures PairFree(s0, k) { assert PairFree(s, k); }
      if t < s.maxOrder {
        assert PairFree(s, t);
      }
    }
    var (s1, t1) := SplitDown(s0, t, order);
    SplitDownInv(s0, t, order);
    SplitDownApart(s0, t, order);
    SplitDownReaches(s0, t, order);
    GrantInv(s1, t1, size);
    GrantApart(s1, t1, size);
    assert s1.slots == s.slots;
    if s.poolUsed + 2 * (t - order) > NODE_POOL {
      assert s1.poolUsed == NODE_POOL;
    } else if t > order {
      assert t1 == order < s1.maxOrder;
      assert s1.free[order][1] in s1.free[order];
      assert !PairFree(s1, order);
    } else {
      assert t1 == t && s1.free[t] == s.free[t];
      assert t < s.maxOrder ==> PairFree(s, t);
    }
  }

  // ---------- an empty allocator is one block ----------

  lemma {:induction false} UsedNone(slots: seq<Slot>, k: nat, b: Block)
    requires forall j :: 0 <= j < |slots| ==> !slots[j].used
    ensures b !in UsedBlocks(slots, k)
  {
    if b in UsedBlocks(slots, k) { var j := UsedSlot(slots, k, b); }
  }

  /** The order of the smallest free block. */
  lemma {:induction false} LeastFreeOrder(free: seq<seq<nat>>, k: nat) returns (o: nat)
    requires k < |free| && free[k] != []
    ensures o <= k && free[o] != [] && forall i :: 0 <= i < o ==> free[i] == []
  {
    o := 0;
    while free[o] == []
      invariant o <= k && forall i :: 0 <= i < o ==> free[i] == []
      decreases k - o
    {
      o := o + 1;
    }
  }

  /** If everything is free, the smallest free block below the region's order has a free buddy. */
  lemma {:induction false} SmallestHasBuddy(s: State, o: nat)
    requires Inv(s) && s.lost == [] && forall j :: 0 <= j < MAX_RECORDS ==> !s.slots[j].used
    requires o < s.maxOrder && s.free[o] != [] && forall i :: 0 <= i < o ==> s.free[i] == []
    ensures !PairFree(s, o)
  {
    var a := s.free[o][0];
    var b := Block(o, a);
    FreeIsBlock(s, o, a);
    assert Fits(s.base, s.maxOrder, b);
    BuddyIsOtherHalf(s.base, a, o);
    var x := BuddyAddr(s.base, a, o);
    BuddyInRegion(s.base, s.maxOrder, b);
    assert Owned(AllBlocks(s), x);
    var c :| c in AllBlocks(s) && InBlock(c, x);
    UsedNone(s.slots, 0, c);
    InFree(s.free, 0, c);
    assert c.order >= o && c.addr in s.free[c.order];
    OwnerOfBuddy(s.base, s.maxOrder, b, c);
    assert c == Block(o, x);
  }

  lemma {:induction false} BuddyInRegion(base: nat, max: nat, b: Block)
    requires Fits(base, max, b) && b.order < max
    ensures base <= BuddyAddr(base, b.addr, b.order) < base + Size(max)
  {
    var o := b.order;
    BuddyIsOtherHalf(base, b.addr, o);
    SizeMono(o + 1, max);
    SizeStep(o);
    if Aligned(b.addr - base, o + 1) {
      var e := b.addr - base;
      assert Aligned(0, max);
      AlignedNest(e, o + 1, 0, max, e);
    }
  }

  /** A block at least as large that owns the buddy's address but not the block is the buddy. */
  lemma {:induction false} OwnerOfBuddy(base: nat, max: nat, b: Block, c: Block)
    requires Fits(base, max, b) && Fits(base, max, c) && b.order <= c.order && b.order < max
    requires InBlock(c, BuddyAddr(base, b.addr, b.order)) && (b == c || Disjoint(b, c))
    ensures c == Block(b.order, BuddyAddr(base, b.addr, b.order))
  {
    var o := b.order;
    var x := BuddyAddr(base, b.addr, o);
    BuddyIsOtherHalf(base, b.addr, o);
    SizeStep(o);
    var off := x - base;
    if c.order > o {
      var lo := if x < b.addr then off else b.addr - base;
      assert Aligned(lo, o + 1);
      AlignedNest(lo, o + 1, c.addr - base, c.order, off);
      assert false;
    } else {
      AlignedNest(off, o, c.addr - base, o, off);
    }
  }

  lemma {:induction false} SomeFreeBlock(s: State) returns (b: Block)
    requires Inv(s) && s.lost == [] && forall j :: 0 <= j < MAX_RECORDS ==> !s.slots[j].used
    ensures b.order <= MAX_ORDER && b.addr in s.free[b.order]
  {
    assert Owned(AllBlocks(s), s.base);
    b :| b in AllBlocks(s) && InBlock(b, s.base);
    UsedNone(s.slots, 0, b);
    InFree(s.free, 0, b);
  }

  /** When nothing is allocated or lost, a coalesced allocator is as after init: one free
      block, the whole region. */
  lemma {:induction false} EmptyIsWhole(s: State)
    requires Inv(s) && Coalesced(s)
    requires s.lost == [] && forall j :: 0 <= j < MAX_RECORDS ==> !s.slots[j].used
    ensures s.free == Fresh(s.base, s.maxOrder).free
  {
    var max := s.maxOrder;
    var b := SomeFreeBlock(s);
    var o := LeastFreeOrder(s.free, b.order);
    if o < max {
      SmallestHasBuddy(s, o);
      assert false;
    }
    hide AllBlocks;
    assert forall i :: 0 <= i < max ==> s.free[i] == [];
    forall i | 0 <= i < |s.free[max]|
      ensures s.free[max][i] == s.base
    {
      FreeIsBlock(s, max, s.free[max][i]);
      assert Fits(s.base, max, Block(max, s.free[max][i]));
    }
    OnlyOnce(s, max, s.base);
    assert s.free[max] == [s.base];
    assert s.free == Fresh(s.base, max).free;
  }

  lemma {:induction false} CountInList(o: nat, xs: seq<nat>, a: nat)
    requires forall i :: 0 <= i < |xs| ==> xs[i] == a
    ensures ListBlocks(o, xs)[Block(o, a)] == |xs|
  {
    if xs != [] { CountInList(o, xs[1..], a); }
  }

  lemma {:induction false} ListWithin(free: seq<seq<nat>>, k: nat, o: nat)
    requires k <= o < |free|
    ensures ListBlocks(o, free[o]) <= FreeBlocks(free, k)
    decreases o - k
  {
    hide ListBlocks;
    if k < o { ListWithin(free, k + 1, o); }
  }

  /** No list holds a block twice. */
  lemma {:induction false} OnlyOnce(s: State, o: nat, a: nat)
    requires Inv(s) && o <= s.maxOrder && s.free[o] != []
    requires forall i :: 0 <= i < |s.free[o]| ==> s.free[o][i] == a
    ensures |s.free[o]| == 1
  {
    var b := Block(o, a);
    CountInList(o, s.free[o], a);
    ListWithin(s.free, 0, o);
    assert s.free[o][0] == a;
    FreeIsBlock(s, o, a);
    assert AllBlocks(s)[b] == 1;
  }
}
