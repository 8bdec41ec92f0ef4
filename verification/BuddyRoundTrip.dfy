/** Freeing what was just allocated restores the free lists, block for block and in order. */
module BuddyRoundTrip {
  import opened BuddySize
  import opened BuddySpec
  import opened BuddyTiling
  import opened BuddyCoalescing
  import opened Collections

  /** The last step of the split loop. */
  lemma {:induction false} SplitDownLast(s: State, t: nat, order: nat)
    requires Inv(s) && order < t <= s.maxOrder && s.free[t] != []
    requires forall k :: order <= k < t ==> s.free[k] == []
    requires s.poolUsed + 2 * (t - order) <= NODE_POOL
    ensures var (y, t1) := SplitDown(s, t, order + 1);
            && t1 == order + 1 && Inv(y) && y.base == s.base && y.maxOrder == s.maxOrder
            && y.free[order + 1] != [] && y.free[order] == []
            && y.poolUsed == s.poolUsed + 2 * (t - order - 1)
            && SplitDown(s, t, order) == (SplitHead(y, order + 1), order)
    decreases t
  {
    hide Tiles, AllBlocks, CountsRecords, SplitHead;
    if t > order + 1 {
      SplitHeadInv(s, t);
      SplitHeadLists(s, t);
      SplitHeadFields(s, t);
      SplitDownLast(SplitHead(s, t), t - 1, order);
    } else {
      assert SplitDown(s, t, order + 1) == (s, t);
      SplitHeadLists(s, t);
      assert SplitDown(s, t, order) == SplitDown(SplitHead(s, t), order, order);
    }
  }

  /** A list without pairs is left as it is. */
  lemma {:induction false} CoalesceFromIdle(s: State, o: nat, pos: nat)
    requires Shape(s) && o < s.maxOrder && pos <= |s.free[o]| && PairFree(s, o)
    ensures CoalesceFrom(s, o, pos) == s
    decreases |s.free[o]| - pos
  {
    hide BuddyAddr, Coalesce, MergeAt;
    if pos < |s.free[o]| {
      assert BuddyAddr(s.base, s.free[o][pos], o) !in s.free[o];
      CoalesceFromIdle(s, o, pos + 1);
    }
  }

  /** Merging the two halves just made from the head of list `o + 1` puts that head back. */
  lemma {:induction false} MergeUndoesSplit(y: State, z: State, o: nat)
    requires Inv(y) && o < y.maxOrder && y.free[o + 1] != [] && y.free[o] == []
    requires y.poolUsed + 2 <= NODE_POOL
    requires Shape(z) && z.base == y.base && z.maxOrder == y.maxOrder && z.poolUsed < NODE_POOL
    requires z.free == SplitHead(y, o + 1).free
    ensures |z.free[o]| == 2 && z.free[o][1] == BuddyAddr(z.base, z.free[o][0], o)
    ensures AreAdjacent(z.free[o][0], z.free[o][1], o) && IndexOf(z.free[o], z.free[o][1]) == 1
    ensures MergeAt(z, o, 0, 1).free == y.free
    ensures MergeAt(z, o, 0, 1).poolUsed == z.poolUsed + 1
  {
    hide Tiles, AllBlocks, CountsRecords, SplitHead, BuddyAddr, Aligned, Size, MergeAt, AreAdjacent;
    var a := y.free[o + 1][0];
    SplitHeadLists(y, o + 1);
    FreeBlockAligned(y, o + 1, a);
    UpperHalf(y.base, a, o);
    var h := a + Size(o);
    assert z.free[o] == [h, a];
    MergeOfPair(z, o, h, a);
    assert y.free[o + 1] == [a] + y.free[o + 1][1..];
    assert MergeAt(z, o, 0, 1).free == y.free;
  }

  lemma MergeOfPair(z: State, o: nat, h: nat, l: nat)
    requires o + 1 < |z.free| && z.free[o] == [h, l] && l < h && z.poolUsed < NODE_POOL
    ensures MergeAt(z, o, 0, 1).free == z.free[o := []][o + 1 := [l] + z.free[o + 1]]
    ensures MergeAt(z, o, 0, 1).poolUsed == z.poolUsed + 1
  {
    assert RemoveTwo([h, l], 0, 1) == [];
  }

  lemma UpperHalf(base: nat, a: nat, o: nat)
    requires base <= a && Aligned(a - base, o + 1)
    ensures BuddyAddr(base, a + Size(o), o) == a && AreAdjacent(a + Size(o), a, o) && Size(o) > 0
  {
    OddMultiple(a - base, o);
    BuddyIsOtherHalf(base, a + Size(o), o);
  }

  /** Coalescing a list that is just a pair merges it, coalesces above and is done. */
  lemma {:induction false} CoalescePair(z: State, o: nat)
    requires Shape(z) && o < z.maxOrder && |z.free[o]| == 2
    requires z.free[o][1] == BuddyAddr(z.base, z.free[o][0], o)
    requires AreAdjacent(z.free[o][0], z.free[o][1], o) && IndexOf(z.free[o], z.free[o][1]) == 1
    ensures Shape(MergeAt(z, o, 0, 1))
    ensures Coalesce(z, o) == Coalesce(MergeAt(z, o, 0, 1), o + 1)
  {
    hide MergeAt, RemoveTwo, BuddyAddr, AreAdjacent, IndexOf, FreeBlocks;
    MergeShape(z, o, 0, 1);
    var r := Coalesce(MergeAt(z, o, 0, 1), o + 1);
    assert r.free[o] == RemoveTwo(z.free[o], 0, 1) == [];
    assert CoalesceFrom(r, o, 0) == r;
  }

  /** Coalescing from the order a split loop reached undoes the whole loop. */
  lemma {:induction false} CoalesceUndoesSplits(s: State, t: nat, order: nat, z: State)
    requires Inv(s) && order <= t <= s.maxOrder && s.free[t] != []
    requires forall k :: order <= k < t ==> s.free[k] == []
    requires s.poolUsed + 2 * (t - order) <= NODE_POOL
    requires t < s.maxOrder ==> PairFree(s, t)
    requires Shape(z) && z.base == s.base && z.maxOrder == s.maxOrder
    requires z.poolUsed + (t - order) <= NODE_POOL
    requires z.free == SplitDown(s, t, order).0.free
    ensures Coalesce(z, order).free == s.free
    decreases t - order
  {
    hide Tiles, AllBlocks, CountsRecords, SplitHead, MergeAt, RemoveTwo, BuddyAddr, AreAdjacent, IndexOf;
    if order == t {
      if t < z.maxOrder {
        assert PairFree(z, t);
        CoalesceFromIdle(z, t, 0);
      }
    } else {
      SplitDownLast(s, t, order);
      var y := SplitDown(s, t, order + 1).0;
      MergeUndoesSplit(y, z, order);
      var m := MergeAt(z, order, 0, 1);
      MergeShape(z, order, 0, 1);
      CoalesceUndoesSplits(s, t, order + 1, m);
      CoalescePair(z, order);
    }
  }

  lemma {:induction false} UsedOnce(s: State, b: Block)
    requires Inv(s)
    ensures UsedBlocks(s.slots, 0)[b] <= 1
  {
    assert AllBlocks(s)[b] <= 1;
  }

  lemma UsedDisjoint(s: State, b: Block, c: Block)
    requires Inv(s) && b in UsedBlocks(s.slots, 0) && c in UsedBlocks(s.slots, 0) && b != c
    ensures Disjoint(b, c)
  {
  }

  /** No two records hold the same address. */
  lemma {:induction false} RecordsDistinct(s: State, i: nat, j: nat)
    requires Inv(s) && i < j < MAX_RECORDS && s.slots[i].used && s.slots[j].used
    ensures s.slots[i].addr != s.slots[j].addr
  {
    hide Tiles, AllBlocks, UsedBlocks;
    var b, c := Block(s.slots[i].order, s.slots[i].addr), Block(s.slots[j].order, s.slots[j].addr);
    UsedIn(s.slots, 0, i);
    UsedIn(s.slots, 0, j);
    if b == c {
      UsedOnce(s, b);
      UsedTwice(s.slots, 0, i, j);
      assert false;
    }
    UsedDisjoint(s, b, c);
  }

  lemma {:induction false} UsedTwice(slots: seq<Slot>, k: nat, i: nat, j: nat)
    requires k <= i < j < |slots| && slots[i].used && slots[j].used
    requires slots[i].order == slots[j].order && slots[i].addr == slots[j].addr
    ensures UsedBlocks(slots, k)[Block(slots[i].order, slots[i].addr)] >= 2
    decreases i - k
  {
    if k < i {
      UsedTwice(slots, k + 1, i, j);
    } else {
      UsedIn(slots, k + 1, j);
    }
  }

  /** The two record tables hold the same allocations in the same slots. */
  ghost predicate SameRecords(f: seq<Slot>, g: seq<Slot>) {
    && |f| == |g|
    && forall i :: 0 <= i < |f| ==> f[i].used == g[i].used && (f[i].used ==> f[i] == g[i])
  }

  /** The free order an allocation of this size starts splitting from. */
  function StartOrder(s: State, size: nat): nat
    requires Shape(s)
  {
    FirstFit(s, RequestOrder(size), RequestOrder(size))
  }

  /** Steps of a successful allocation. */
  lemma {:induction false} AllocSteps(s: State, size: nat)
    requires Inv(s) && Alloc(s, size).1.Some?
    requires s.poolUsed + 2 * (StartOrder(s, size) - RequestOrder(size)) <= NODE_POOL
    ensures var order, t := RequestOrder(size), StartOrder(s, size);
            var s0 := s.(log := s.log.(attempts := s.log.attempts + 1));
            var s1, r := SplitDown(s0, t, order).0, Alloc(s, size).0;
            var i, a := FirstUnused(s.slots, 0), Alloc(s, size).1.value;
            && order <= t <= s.maxOrder && s.free[t] != []
            && (forall k :: order <= k < t ==> s.free[k] == [])
            && Inv(s0) && Inv(s1) && s1.base == s.base && s1.maxOrder == s.maxOrder
            && s1.free[order] != [] && a == s1.free[order][0] && i < MAX_RECORDS
            && r.free == s1.free[order := s1.free[order][1..]]
            && r.poolUsed == s1.poolUsed == s.poolUsed + 2 * (t - order)
            && r.slots == s.slots[i := Slot(true, a, AlignedSize(size), order)]
  {
    hide Tiles, AllBlocks, CountsRecords, RequestOrder, AlignedSize, SplitHead;
    var order, t := RequestOrder(size), StartOrder(s, size);
    var s0 := s.(log := s.log.(attempts := s.log.attempts + 1));
    LogOnlyInv(s, s0.log);
    SplitDownInv(s0, t, order);
    SplitDownReaches(s0, t, order);
  }

  /** Freeing the address just allocated finds its record and pushes the block back. */
  lemma {:induction false} FreeFindsIt(s: State, r: State, i: nat, a: nat, size: nat, order: nat)
    requires Inv(r) && i < MAX_RECORDS == |s.slots| && !s.slots[i].used
    requires r.slots == s.slots[i := Slot(true, a, size, order)] && r.poolUsed < NODE_POOL
    requires order < |r.free|
    ensures Free(r, a).1
    ensures var z := Returned(r, i);
            && Free(r, a).0 == Coalesce(z, order)
            && z.free == r.free[order := [a] + r.free[order]] && z.poolUsed == r.poolUsed + 1
            && z.base == r.base && z.maxOrder == r.maxOrder
            && SameRecords(z.slots, s.slots)
  {
    hide Tiles, AllBlocks;
    var k := FindRecord(r.slots, a, 0);
    assert r.slots[i].used && r.slots[i].addr == a;
    if k < i {
      RecordsDistinct(r, k, i);
      assert false;
    }
    ReturnedInv(r, i);
  }

  /** From a coalesced state, with nodes left for the splits and merges, a successful
      allocation followed by freeing its address restores every free list exactly and the
      record table up to the contents of unused slots. */
  lemma {:induction false} AllocThenFree(s: State, size: nat)
    requires Inv(s) && Coalesced(s) && Alloc(s, size).1.Some?
    requires s.poolUsed + 3 * (StartOrder(s, size) - RequestOrder(size)) + 1 <= NODE_POOL
    ensures Inv(Alloc(s, size).0)
    ensures var (r, ok) := Free(Alloc(s, size).0, Alloc(s, size).1.value);
            ok && r.free == s.free && SameRecords(r.slots, s.slots)
  {
    hide Tiles, AllBlocks, RequestOrder, AlignedSize, SplitHead, SplitDown, Alloc, Free;
    var order, t := RequestOrder(size), StartOrder(s, size);
    AllocInv(s, size);
    AllocSteps(s, size);
    var s0 := s.(log := s.log.(attempts := s.log.attempts + 1));
    var s1 := SplitDown(s0, t, order).0;
    var (r, a) := (Alloc(s, size).0, Alloc(s, size).1.value);
    var i := FirstUnused(s.slots, 0);
    FreeFindsIt(s, r, i, a, AlignedSize(size), order);
    var z := Returned(r, i);
    ReturnedInv(r, i);
    assert z.free == s1.free by {
      assert [a] + s1.free[order][1..] == s1.free[order];
    }
    assert t < s.maxOrder ==> PairFree(s, t) && PairFree(s0, t);
    CoalesceUndoesSplits(s0, t, order, z);
  }
}
