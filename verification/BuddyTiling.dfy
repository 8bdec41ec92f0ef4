/** In every run the blocks of the allocator tile its region.

    Free blocks, allocated blocks and lost blocks (the ones dropped because the node pool was
    used up) are pairwise disjoint, aligned, inside the region and together cover it. */
module BuddyTiling {
  import opened Bits
  import opened BuddySize
  import opened BuddySpec
  import opened Collections

  ghost predicate InBlock(b: Block, x: int) { b.addr <= x < b.addr + Size(b.order) }

  ghost predicate Fits(base: nat, max: nat, b: Block) {
    && b.order <= max
    && base <= b.addr && b.addr + Size(b.order) <= base + Size(max)
    && Aligned(b.addr - base, b.order)
  }

  ghost predicate Disjoint(b: Block, c: Block) {
    b.addr + Size(b.order) <= c.addr || c.addr + Size(c.order) <= b.addr
  }

  ghost predicate Owned(m: multiset<Block>, x: int) { exists b :: b in m && InBlock(b, x) }

  /** Total size of a collection of blocks. */
  ghost function Bytes(m: multiset<Block>): nat {
    if m == multiset{} then 0
    else
      var b :| b in m;
      Size(b.order) + Bytes(m - multiset{b})
  }

  lemma {:induction false} BytesAdd(m: multiset<Block>, b: Block)
    ensures Bytes(m + multiset{b}) == Bytes(m) + Size(b.order)
    decreases |m|
  {
    var all := m + multiset{b};
    var c :| c in all && Bytes(all) == Size(c.order) + Bytes(all - multiset{c});
    if c == b {
      assert all - multiset{c} == m;
    } else {
      var m' := m - multiset{c};
      assert m == m' + multiset{c};
      assert all - multiset{c} == m' + multiset{b};
      BytesAdd(m', b);
      BytesAdd(m', c);
    }
  }

  lemma {:induction false} BytesUnion(m: multiset<Block>, n: multiset<Block>)
    ensures Bytes(m + n) == Bytes(m) + Bytes(n)
    decreases |n|
  {
    if n == multiset{} {
      assert m + n == m;
    } else {
      var b :| b in n;
      var n' := n - multiset{b};
      assert n == n' + multiset{b};
      assert m + n == (m + n') + multiset{b};
      BytesUnion(m, n');
      BytesAdd(m + n', b);
      BytesAdd(n', b);
    }
  }

  lemma BytesPair(m: multiset<Block>, b: Block, c: Block)
    ensures Bytes(m + multiset{b, c}) == Bytes(m) + Size(b.order) + Size(c.order)
  {
    assert m + multiset{b, c} == (m + multiset{b}) + multiset{c};
    BytesAdd(m, b);
    BytesAdd(m + multiset{b}, c);
  }

  lemma SameBytes(m: multiset<Block>, b: Block, l: Block, r: Block)
    requires Size(b.order) == Size(l.order) + Size(r.order)
    ensures Bytes(m + multiset{b}) == Bytes(m + multiset{l, r})
  {
    hide Size;
    BytesAdd(m, b);
    BytesPair(m, l, r);
  }

  /** Aligned, pairwise disjoint blocks, none twice, that together own every address. */
  ghost predicate Partition(base: nat, max: nat, m: multiset<Block>) {
    && (forall b :: b in m ==> Fits(base, max, b) && m[b] == 1)
    && (forall b, c :: b in m && c in m && b != c ==> Disjoint(b, c))
    && (forall x :: base <= x < base + Size(max) ==> Owned(m, x))
  }

  /** The blocks of `m` tile `[base, base + Size(max))` exactly. */
  ghost predicate Tiles(base: nat, max: nat, m: multiset<Block>) {
    Partition(base, max, m) && Bytes(m) == Size(max)
  }

  /** `record_count` is one past the last used slot. */
  ghost predicate CountsRecords(s: State) {
    && s.recordCount <= |s.slots|
    && (forall j :: s.recordCount <= j < |s.slots| ==> !s.slots[j].used)
    && (s.recordCount > 0 ==> s.slots[s.recordCount - 1].used)
  }

  ghost predicate Inv(s: State) {
    && Shape(s)
    && CountsRecords(s)
    && Tiles(s.base, s.maxOrder, AllBlocks(s))
  }

  // ---------- cutting and joining one block ----------

  /** The two halves of an aligned block. */
  lemma {:induction false} Halves(base: nat, max: nat, b: Block)
    requires Fits(base, max, b) && b.order > 0
    ensures var h := Size(b.order - 1);
            && h + h == Size(b.order)
            && Fits(base, max, Block(b.order - 1, b.addr))
            && Fits(base, max, Block(b.order - 1, b.addr + h))
  {
    var o := b.order - 1;
    SizeStep(o);
    AlignedWeaken(b.addr - base, o);
    AlignedNeighbour(b.addr - base, b.addr - base + Size(o), o);
  }

  /** Replacing a block by its halves keeps a tiling. */
  lemma {:induction false} SplitPartition(base: nat, max: nat, rest: multiset<Block>, b: Block)
    requires b.order > 0 && Partition(base, max, rest + multiset{b})
    ensures Partition(base, max, rest + multiset{Block(b.order - 1, b.addr), Block(b.order - 1, b.addr + Size(b.order - 1))})
  {
    var l, r := Block(b.order - 1, b.addr), Block(b.order - 1, b.addr + Size(b.order - 1));
    var m, m' := rest + multiset{b}, rest + multiset{l, r};
    assert b in m;
    Halves(base, max, b);
    assert b !in rest by { assert m[b] == rest[b] + 1; }
    forall c | c in rest
      ensures Disjoint(c, b) && m[c] == rest[c] == 1
      ensures c != l && c != r && Disjoint(c, l) && Disjoint(c, r)
    {
      assert c in m && c != b;
    }
    forall x | base <= x < base + Size(max)
      ensures Owned(m', x)
    {
      assert Owned(m, x);
      var c :| c in m && InBlock(c, x);
      if c == b {
        assert l in m' && r in m';
        assert InBlock(l, x) || InBlock(r, x);
      } else {
        assert c in m';
      }
    }
    assert Disjoint(l, r);
  }

  /** Replacing two buddies by their union keeps a tiling. */
  lemma {:induction false} MergePartition(base: nat, max: nat, rest: multiset<Block>, o: nat, lo: nat)
    requires o < max
    requires base <= lo && Aligned(lo - base, o + 1)
    requires Partition(base, max, rest + multiset{Block(o, lo), Block(o, lo + Size(o))})
    ensures Partition(base, max, rest + multiset{Block(o + 1, lo)})
  {
    var l, r, b := Block(o, lo), Block(o, lo + Size(o)), Block(o + 1, lo);
    var m, m' := rest + multiset{l, r}, rest + multiset{b};
    SizeStep(o);
    assert l in m && r in m;
    assert l !in rest && r !in rest by { assert m[l] == rest[l] + 1 && m[r] == rest[r] + 1; }
    assert Fits(base, max, b);
    forall c | c in rest
      ensures c != b && Disjoint(c, b) && m[c] == rest[c] == 1
    {
      assert c in m && c != l && c != r;
      assert Disjoint(c, l) && Disjoint(c, r);
    }
    forall x | base <= x < base + Size(max)
      ensures Owned(m', x)
    {
      assert Owned(m, x);
      var c :| c in m && InBlock(c, x);
      if c == l || c == r {
        assert b in m' && InBlock(b, x);
      } else {
        assert c in m';
      }
    }
  }

  lemma {:induction false} SplitTiles(base: nat, max: nat, rest: multiset<Block>, b: Block)
    requires b.order > 0 && Tiles(base, max, rest + multiset{b})
    ensures Tiles(base, max, rest + multiset{Block(b.order - 1, b.addr), Block(b.order - 1, b.addr + Size(b.order - 1))})
  {
    SplitPartition(base, max, rest, b);
    hide Partition, Size;
    SizeStep(b.order - 1);
    SameBytes(rest, b, Block(b.order - 1, b.addr), Block(b.order - 1, b.addr + Size(b.order - 1)));
  }

  lemma {:induction false} MergeTiles(base: nat, max: nat, rest: multiset<Block>, o: nat, lo: nat)
    requires o < max
    requires base <= lo && Aligned(lo - base, o + 1)
    requires Tiles(base, max, rest + multiset{Block(o, lo), Block(o, lo + Size(o))})
    ensures Tiles(base, max, rest + multiset{Block(o + 1, lo)})
  {
    MergePartition(base, max, rest, o, lo);
    hide Partition, Size;
    SizeStep(o);
    SameBytes(rest, Block(o + 1, lo), Block(o, lo), Block(o, lo + Size(o)));
  }

  // ---------- blocks of a list or a slot are blocks of the allocator ----------

  lemma {:induction false} InList(o: nat, xs: seq<nat>, b: Block)
    ensures b in ListBlocks(o, xs) <==> b.order == o && b.addr in xs
  {
    if xs != [] { InList(o, xs[1..], b); }
  }

  lemma {:induction false} InFree(free: seq<seq<nat>>, k: nat, b: Block)
    ensures b in FreeBlocks(free, k) <==> k <= b.order < |free| && b.addr in free[b.order]
    decreases |free| - k
  {
    if k < |free| {
      hide ListBlocks;
      InList(k, free[k], b);
      InFree(free, k + 1, b);
      assert b in FreeBlocks(free, k) <==> b in ListBlocks(k, free[k]) || b in FreeBlocks(free, k + 1);
    }
  }

  lemma {:induction false} UsedIn(slots: seq<Slot>, k: nat, j: nat)
    requires k <= j < |slots| && slots[j].used
    ensures Block(slots[j].order, slots[j].addr) in UsedBlocks(slots, k)
    decreases j - k
  {
    if k < j { UsedIn(slots, k + 1, j); }
  }

  lemma {:induction false} UsedSlot(slots: seq<Slot>, k: nat, b: Block) returns (j: nat)
    requires b in UsedBlocks(slots, k)
    ensures k <= j < |slots| && slots[j].used && b == Block(slots[j].order, slots[j].addr)
    decreases |slots| - k
  {
    if b in SlotBlocks(slots[k]) {
      j := k;
    } else {
      j := UsedSlot(slots, k + 1, b);
    }
  }

  lemma FreeIsBlock(s: State, o: nat, a: nat)
    requires o < |s.free| && a in s.free[o]
    ensures Block(o, a) in AllBlocks(s)
  {
    InFree(s.free, 0, Block(o, a));
  }

  lemma {:induction false} UsedStep(slots: seq<Slot>, k: nat)
    requires k < |slots|
    ensures UsedBlocks(slots, k) == SlotBlocks(slots[k]) + UsedBlocks(slots, k + 1)
  {
  }

  lemma {:induction false} SlotUpdate(slots: seq<Slot>, i: nat, x: Slot, k: nat)
    requires k <= i < |slots|
    ensures UsedBlocks(slots[i := x], k) + SlotBlocks(slots[i]) == UsedBlocks(slots, k) + SlotBlocks(x)
    decreases i - k
  {
    hide SlotBlocks, UsedBlocks;
    var slots' := slots[i := x];
    UsedStep(slots, k);
    UsedStep(slots', k);
    if k < i {
      SlotUpdate(slots, i, x, k + 1);
      CarryAlong(SlotBlocks(slots[k]), UsedBlocks(slots', k + 1), SlotBlocks(slots[i]),
                 UsedBlocks(slots, k + 1), SlotBlocks(x));
    } else {
      UsedAbove(slots, slots', k + 1);
      Rotate(SlotBlocks(x), UsedBlocks(slots, k + 1), SlotBlocks(slots[i]));
    }
  }

  lemma {:induction false} UsedAbove(f: seq<Slot>, g: seq<Slot>, k: nat)
    requires |f| == |g| && forall i :: k <= i < |f| ==> f[i] == g[i]
    ensures UsedBlocks(f, k) == UsedBlocks(g, k)
    decreases |f| - k
  {
    if k < |f| { UsedAbove(f, g, k + 1); }
  }

  // ---------- init and reset ----------

  lemma {:induction false} NoFree(free: seq<seq<nat>>, k: nat)
    requires forall o :: k <= o < |free| ==> free[o] == []
    ensures FreeBlocks(free, k) == multiset{}
    decreases |free| - k
  {
    if k < |free| { NoFree(free, k + 1); }
  }

  lemma {:induction false} OneFree(free: seq<seq<nat>>, k: nat, max: nat, a: nat)
    requires k <= max < |free| && free[max] == [a]
    requires forall o :: k <= o < |free| && o != max ==> free[o] == []
    ensures FreeBlocks(free, k) == multiset{Block(max, a)}
    decreases max - k
  {
    if k < max {
      OneFree(free, k + 1, max, a);
    } else {
      NoFree(free, k + 1);
      assert ListBlocks(k, [a]) == multiset{Block(k, a)};
    }
  }

  lemma {:induction false} NoUsed(slots: seq<Slot>, k: nat)
    requires forall j :: k <= j < |slots| ==> !slots[j].used
    ensures UsedBlocks(slots, k) == multiset{}
    decreases |slots| - k
  {
    if k < |slots| { NoUsed(slots, k + 1); }
  }

  /** Init and reset start from one free block that is the whole region. */
  lemma {:induction false} FreshInv(base: nat, max: nat)
    requires max <= MAX_ORDER
    ensures AllBlocks(Fresh(base, max)) == multiset{Block(max, base)}
    ensures Inv(Fresh(base, max))
  {
    var s := Fresh(base, max);
    OneFree(s.free, 0, max, base);
    NoUsed(s.slots, 0);
    var b := Block(max, base);
    assert AllBlocks(s) == multiset{b} == multiset{} + multiset{b};
    BytesAdd(multiset{}, b);
    assert Aligned(0, max);
    forall x | base <= x < base + Size(max)
      ensures Owned(AllBlocks(s), x)
    {
      assert b in AllBlocks(s) && InBlock(b, x);
    }
  }

  // ---------- alloc ----------

  lemma LogOnlyInv(s: State, log: Log)
    requires Inv(s)
    ensures Inv(s.(log := log))
  {
    hide Tiles;
  }

  lemma {:induction false} SplitHeadShape(s: State, t: nat)
    requires Shape(s) && 0 < t <= s.maxOrder && s.free[t] != []
    ensures var r := SplitHead(s, t);
            && Shape(r) && r.base == s.base && r.maxOrder == s.maxOrder
            && r.slots == s.slots && r.recordCount == s.recordCount
  {
    var a := s.free[t][0];
    var s1 := Pop(s, t).(log := s.log.(splits := s.log.splits + 1));
    PopShape(s, t);
    PushShape(s1, t - 1, a);
    PushShape(Push(s1, t - 1, a), t - 1, a + Size(t - 1));
  }

  /** Pushing two blocks adds the two. */
  lemma {:induction false} PushTwoAdds(s: State, o: nat, a: nat, b: nat)
    requires o < |s.free|
    ensures |Push(s, o, a).free| == |s.free|
    ensures AllBlocks(Push(Push(s, o, a), o, b)) == AllBlocks(s) + multiset{Block(o, a), Block(o, b)}
  {
    hide AllBlocks;
    PushSizes(s, o, a);
    hide Push;
    PushAdds(s, o, a);
    PushAdds(Push(s, o, a), o, b);
    PairUp(AllBlocks(s), Block(o, a), Block(o, b));
  }

  /** A split replaces the head of a list by its halves. */
  lemma {:induction false} SplitHeadBlocks(s: State, t: nat)
    requires 0 < t < |s.free| && s.free[t] != []
    ensures var a := s.free[t][0];
            var rest := AllBlocks(Pop(s, t));
            && AllBlocks(s) == rest + multiset{Block(t, a)}
            && AllBlocks(SplitHead(s, t)) == rest + multiset{Block(t - 1, a), Block(t - 1, a + Size(t - 1))}
  {
    hide AllBlocks, FreeBlocks, Push, Size;
    var a := s.free[t][0];
    var s1 := Pop(s, t).(log := s.log.(splits := s.log.splits + 1));
    LogOnly(Pop(s, t), s1.log);
    PopTakes(s, t);
    PushTwoAdds(s1, t - 1, a, a + Size(t - 1));
  }

  lemma {:induction false} SplitHeadInv(s: State, t: nat)
    requires Inv(s) && 0 < t <= s.maxOrder && s.free[t] != []
    ensures Inv(SplitHead(s, t))
  {
    hide Tiles, AllBlocks, SplitHead;
    SplitHeadShape(s, t);
    SplitHeadBlocks(s, t);
    SplitTiles(s.base, s.maxOrder, AllBlocks(Pop(s, t)), Block(t, s.free[t][0]));
  }

  lemma {:induction false} SplitDownInv(s: State, t: nat, order: nat)
    requires Inv(s) && t <= s.maxOrder
    ensures var (r, t') := SplitDown(s, t, order);
            && Inv(r) && r.base == s.base && r.maxOrder == s.maxOrder
            && r.slots == s.slots && r.recordCount == s.recordCount && t' <= t
    decreases t
  {
    hide Tiles;
    if t > order && s.free[t] != [] {
      SplitHeadInv(s, t);
      SplitDownInv(SplitHead(s, t), t - 1, order);
    }
  }

  lemma {:induction false} GrantShape(s: State, t: nat, size: nat)
    requires Shape(s) && CountsRecords(s) && t <= s.maxOrder
    ensures var r := Grant(s, t, size).0;
            Shape(r) && CountsRecords(r) && r.base == s.base && r.maxOrder == s.maxOrder
  {
    if s.free[t] != [] {
      PopShape(s, t);
      var s1 := Pop(s, t);
      if FirstUnused(s.slots, 0) == MAX_RECORDS {
        PushShape(s1.(log := s.log.(rollbacks := s.log.rollbacks + 1)), t, s.free[t][0]);
      }
    }
  }

  /** Moving a block from its list to the record table, or back, keeps the blocks. */
  lemma {:induction false} GrantBlocks(s: State, t: nat, size: nat)
    requires t < |s.free| && |s.slots| == MAX_RECORDS
    ensures AllBlocks(Grant(s, t, size).0) == AllBlocks(s)
  {
    if s.free[t] != [] {
      var a := s.free[t][0];
      var s1 := Pop(s, t);
      var i := FirstUnused(s.slots, 0);
      PopTakes(s, t);
      if i == MAX_RECORDS {
        var s2 := s1.(log := s.log.(rollbacks := s.log.rollbacks + 1));
        LogOnly(s1, s2.log);
        PushAdds(s2, t, a);
      } else {
        var x := Slot(true, a, size, t);
        var b := multiset{Block(t, a)};
        SlotUpdate(s.slots, i, x, 0);
        assert SlotBlocks(x) == b && SlotBlocks(s.slots[i]) == multiset{};
        var u := UsedBlocks(s.slots[i := x], 0);
        assert u + multiset{} == u;
        SumGains(FreeBlocks(s1.free, 0), UsedBlocks(s.slots, 0), multiset(s.lost), b);
      }
    }
  }

  lemma {:induction false} GrantInv(s: State, t: nat, size: nat)
    requires Inv(s) && t <= s.maxOrder
    ensures var r := Grant(s, t, size).0;
            Inv(r) && r.base == s.base && r.maxOrder == s.maxOrder
  {
    hide Tiles, AllBlocks, Grant;
    GrantShape(s, t, size);
    GrantBlocks(s, t, size);
  }

  /** `gpu_buddy_alloc` keeps the tiling, whatever the request and however it ends. */
  lemma {:induction false} AllocInv(s: State, size: nat)
    requires Inv(s)
    ensures Inv(Alloc(s, size).0)
    ensures Alloc(s, size).0.base == s.base && Alloc(s, size).0.maxOrder == s.maxOrder
  {
    hide Tiles, AllBlocks, CountsRecords, SplitDown, Grant, RequestOrder, AlignedSize;
    if size != 0 {
      var order := RequestOrder(size);
      var t := FirstFit(s, order, order);
      if t <= s.maxOrder && s.free[t] != [] {
        var s0 := s.(log := s.log.(attempts := s.log.attempts + 1));
        LogOnlyInv(s, s0.log);
        SplitDownInv(s0, t, order);
        var (s1, t1) := SplitDown(s0, t, order);
        GrantInv(s1, t1, AlignedSize(size));
      }
    }
  }

  // ---------- free ----------

  /** Replacing a block and its buddy by their union keeps a tiling. */
  lemma {:induction false} BuddiesTile(base: nat, max: nat, rest: multiset<Block>, o: nat, a: nat, b: nat)
    requires o < max && base <= a && b == BuddyAddr(base, a, o)
    requires Tiles(base, max, rest + multiset{Block(o, a), Block(o, b)})
    ensures Tiles(base, max, rest + multiset{Block(o + 1, if a < b then a else b)})
  {
    var lo := if a < b then a else b;
    assert Fits(base, max, Block(o, a)) by {
      assert Block(o, a) in rest + multiset{Block(o, a), Block(o, b)};
    }
    hide Tiles;
    BuddyIsOtherHalf(base, a, o);
    if lo == b {
      assert multiset{Block(o, a), Block(o, b)} == multiset{Block(o, b), Block(o, a)};
    }
    MergeTiles(base, max, rest, o, lo);
  }

  /** Two free buddies merge into a tile of the next order. */
  lemma {:induction false} MergeAtInv(s: State, o: nat, i: nat, j: nat)
    requires Inv(s) && o < s.maxOrder && i < |s.free[o]| && j < |s.free[o]| && i != j
    requires s.free[o][j] == BuddyAddr(s.base, s.free[o][i], o)
    ensures Inv(MergeAt(s, o, i, j))
  {
    hide Tiles, AllBlocks, MergeAt, RemoveTwo, BuddyAddr;
    MergeShape(s, o, i, j);
    MergeBlocks(s, o, i, j);
    var rest := AllBlocks(s.(free := s.free[o := RemoveTwo(s.free[o], i, j)]));
    BuddiesTile(s.base, s.maxOrder, rest, o, s.free[o][i], s.free[o][j]);
  }

  lemma {:induction false} CoalesceFromInv(s: State, o: nat, pos: nat)
    requires Inv(s) && o < s.maxOrder && pos <= |s.free[o]|
    ensures Inv(CoalesceFrom(s, o, pos))
    decreases |FreeBlocks(s.free, 0)|, 0, |s.free[o]| - pos
  {
    hide Tiles, AllBlocks, FreeBlocks, MergeAt, RemoveTwo, BuddyAddr, Coalesce, IndexOf;
    if pos < |s.free[o]| {
      var a := s.free[o][pos];
      var b := BuddyAddr(s.base, a, o);
      var j := IndexOf(s.free[o], b);
      if j < |s.free[o]| && AreAdjacent(a, b, o) {
        MergeShape(s, o, pos, j);
        MergeAtInv(s, o, pos, j);
        CoalesceInv(MergeAt(s, o, pos, j), o + 1);
        CoalesceFromInv(Coalesce(MergeAt(s, o, pos, j), o + 1), o, 0);
      } else {
        CoalesceFromInv(s, o, pos + 1);
      }
    }
  }

  lemma {:induction false} CoalesceInv(s: State, o: nat)
    requires Inv(s)
    ensures Inv(Coalesce(s, o))
    decreases |FreeBlocks(s.free, 0)|, 1
  {
    hide Tiles;
    if o < s.maxOrder { CoalesceFromInv(s, o, 0); }
  }

  lemma {:induction false} ShrinkCounts(slots: seq<Slot>, count: nat)
    requires count <= |slots| && forall j :: count <= j < |slots| ==> !slots[j].used
    ensures var r := Shrink(slots, count);
            && (forall j :: r <= j < |slots| ==> !slots[j].used)
            && (r > 0 ==> slots[r - 1].used)
  {
    if count > 0 && !slots[count - 1].used { ShrinkCounts(slots, count - 1); }
  }

  lemma {:induction false} ForgetBlocks(s: State, i: nat)
    requires i < |s.slots| && s.recordCount <= |s.slots| && s.slots[i].used
    ensures AllBlocks(s) == AllBlocks(Forget(s, i)) + multiset{Block(s.slots[i].order, s.slots[i].addr)}
  {
    var x := s.slots[i];
    var b := multiset{Block(x.order, x.addr)};
    var y := x.(used := false);
    SlotUpdate(s.slots, i, y, 0);
    assert SlotBlocks(x) == b && SlotBlocks(y) == multiset{};
    var u := UsedBlocks(s.slots, 0);
    assert u + multiset{} == u;
    SumGains(FreeBlocks(s.free, 0), UsedBlocks(s.slots[i := y], 0), multiset(s.lost), b);
  }

  lemma {:induction false} ForgetShape(s: State, i: nat)
    requires Shape(s) && CountsRecords(s) && i < MAX_RECORDS && s.slots[i].used
    ensures Shape(Forget(s, i)) && CountsRecords(Forget(s, i))
  {
    ShrinkCounts(Forget(s, i).slots, s.recordCount);
  }

  /** The state `gpu_buddy_free` coalesces: the record dropped and its block pushed back. */
  function Returned(s: State, i: nat): State
    requires Shape(s) && s.recordCount <= MAX_RECORDS && i < MAX_RECORDS && s.slots[i].used
  {
    Push(Forget(s, i).(log := s.log.(frees := s.log.frees + 1)), s.slots[i].order, s.slots[i].addr)
  }

  lemma {:induction false} ReturnedShape(s: State, i: nat)
    requires Shape(s) && CountsRecords(s) && i < MAX_RECORDS && s.slots[i].used
    ensures var r := Returned(s, i);
            Shape(r) && CountsRecords(r) && r.base == s.base && r.maxOrder == s.maxOrder
  {
    hide Forget;
    var x := s.slots[i];
    ForgetShape(s, i);
    ForgetFields(s, i);
    PushShape(Forget(s, i).(log := s.log.(frees := s.log.frees + 1)), x.order, x.addr);
  }

  lemma ForgetFields(s: State, i: nat)
    requires i < |s.slots| && s.recordCount <= |s.slots|
    ensures var r := Forget(s, i);
            && r.base == s.base && r.maxOrder == s.maxOrder && r.free == s.free && r.lost == s.lost
            && r.poolUsed == s.poolUsed && r.log == s.log && |r.slots| == |s.slots|
  {
  }

  /** Dropping a record and pushing its block back keeps the blocks. */
  lemma {:induction false} ReturnedBlocks(s: State, i: nat)
    requires Shape(s) && s.recordCount <= MAX_RECORDS && i < MAX_RECORDS && s.slots[i].used
    ensures AllBlocks(Returned(s, i)) == AllBlocks(s)
  {
    hide AllBlocks, Push, Forget;
    var x := s.slots[i];
    var s1 := Forget(s, i).(log := s.log.(frees := s.log.frees + 1));
    ForgetFields(s, i);
    ForgetBlocks(s, i);
    LogOnly(Forget(s, i), s1.log);
    PushAdds(s1, x.order, x.addr);
  }

  lemma {:induction false} ReturnedInv(s: State, i: nat)
    requires Inv(s) && i < MAX_RECORDS && s.slots[i].used
    ensures var r := Returned(s, i);
            Inv(r) && r.base == s.base && r.maxOrder == s.maxOrder && AllBlocks(r) == AllBlocks(s)
  {
    hide Tiles, AllBlocks, Returned;
    ReturnedShape(s, i);
    ReturnedBlocks(s, i);
  }

  /** `gpu_buddy_free` keeps the tiling. */
  lemma {:induction false} FreeInv(s: State, addr: nat)
    requires Inv(s)
    ensures Inv(Free(s, addr).0)
    ensures Free(s, addr).0.base == s.base && Free(s, addr).0.maxOrder == s.maxOrder
  {
    hide Tiles, AllBlocks, Push, Forget;
    var i := FindRecord(s.slots, addr, 0);
    if i < MAX_RECORDS {
      ReturnedInv(s, i);
      CoalesceInv(Returned(s, i), s.slots[i].order);
    }
  }
}
