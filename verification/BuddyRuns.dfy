/** What the buddy allocator guarantees over whole runs of alloc, free and reset. */
module BuddyRuns {
  import opened Bits
  import opened BuddySize
  import opened BuddySpec
  import opened BuddyTiling
  import opened BuddyCoalescing
  import opened Collections

  // ---------- the node budget ----------

  /** Nodes taken from the pool or asked for in vain. */
  function NodesAsked(s: State): nat { s.poolUsed + |s.lost| }

  /** How blocks and nodes add up against the log. */
  ghost predicate Ledger(s: State) {
    && |AllBlocks(s)| + s.log.merges == 1 + s.log.splits
    && NodesAsked(s) == 1 + 2 * s.log.splits + s.log.frees + s.log.merges + s.log.rollbacks
    && s.log.frees + |UsedBlocks(s.slots, 0)| == s.log.grants
    && s.log.grants + s.log.rollbacks <= s.log.attempts
    && s.log.splits <= s.log.attempts * s.maxOrder
  }

  lemma {:induction false} SplitHeadAsks(s: State, t: nat)
    requires 0 < t < |s.free| && s.free[t] != []
    ensures var r := SplitHead(s, t);
            && NodesAsked(r) == NodesAsked(s) + 2 && |AllBlocks(r)| == |AllBlocks(s)| + 1
            && r.log == s.log.(splits := s.log.splits + 1)
  {
    hide AllBlocks, FreeBlocks, UsedBlocks, Size;
    SplitHeadBlocks(s, t);
    var a, h := s.free[t][0], Size(t - 1);
    PairCount(AllBlocks(Pop(s, t)), Block(t - 1, a), Block(t - 1, a + h));
  }

  lemma {:induction false} SplitDownAsks(s: State, t: nat, order: nat)
    requires t < |s.free|
    ensures var r := SplitDown(s, t, order).0;
            var n := r.log.splits - s.log.splits;
            && 0 <= n <= t && r.log == s.log.(splits := s.log.splits + n)
            && NodesAsked(r) == NodesAsked(s) + 2 * n && |AllBlocks(r)| == |AllBlocks(s)| + n
    decreases t
  {
    hide AllBlocks, SplitHead;
    if t > order && s.free[t] != [] {
      SplitDownSizes(s, t, order);
      SplitHeadAsks(s, t);
      SplitHeadSizes(s, t);
      SplitDownAsks(SplitHead(s, t), t - 1, order);
    }
  }

  lemma SplitHeadSizes(s: State, t: nat)
    requires 0 < t < |s.free| && s.free[t] != []
    ensures |SplitHead(s, t).free| == |s.free| && SplitHead(s, t).slots == s.slots
  {
  }

  lemma {:induction false} GrantAsks(s: State, t: nat, size: nat)
    requires t < |s.free| && |s.slots| == MAX_RECORDS
    ensures var r := Grant(s, t, size).0;
            && |AllBlocks(r)| == |AllBlocks(s)|
            && r.log.splits == s.log.splits && r.log.merges == s.log.merges && r.log.frees == s.log.frees
            && r.log.attempts == s.log.attempts
            && NodesAsked(r) == NodesAsked(s) + (r.log.rollbacks - s.log.rollbacks)
            && |UsedBlocks(r.slots, 0)| == |UsedBlocks(s.slots, 0)| + (r.log.grants - s.log.grants)
            && r.log.grants + r.log.rollbacks <= s.log.grants + s.log.rollbacks + 1
            && r.log.grants >= s.log.grants && r.log.rollbacks >= s.log.rollbacks
  {
    hide AllBlocks, UsedBlocks, SlotBlocks;
    GrantBlocks(s, t, size);
    if s.free[t] != [] && FirstUnused(s.slots, 0) < MAX_RECORDS {
      var i, x := FirstUnused(s.slots, 0), Slot(true, s.free[t][0], size, t);
      SlotUpdate(s.slots, i, x, 0);
      SlotCount(s.slots[i]);
      SlotCount(x);
      CardUpdate(UsedBlocks(s.slots[i := x], 0), SlotBlocks(s.slots[i]), UsedBlocks(s.slots, 0), SlotBlocks(x));
    }
  }

  lemma CardUpdate(u': multiset<Block>, x: multiset<Block>, u: multiset<Block>, y: multiset<Block>)
    requires u' + x == u + y
    ensures |u'| + |x| == |u| + |y|
  {
    assert |u' + x| == |u'| + |x|;
    assert |u + y| == |u| + |y|;
  }

  lemma SlotCount(x: Slot)
    ensures |SlotBlocks(x)| == if x.used then 1 else 0
  {
  }

  lemma Distribute(n: nat, d: nat)
    ensures (n + 1) * d == n * d + d
  {
  }

  lemma AllocKeepsLedger(s: State, size: nat)
    requires Inv(s) && Ledger(s)
    ensures Ledger(Alloc(s, size).0)
  {
    hide Tiles, AllBlocks, UsedBlocks, FreeBlocks, Grant, SplitDown, RequestOrder, AlignedSize, FirstFit, Size;
    if size != 0 {
      var order := RequestOrder(size);
      var t := FirstFit(s, order, order);
      if t <= s.maxOrder && s.free[t] != [] {
        var s0 := s.(log := s.log.(attempts := s.log.attempts + 1));
        var (s1, t1) := SplitDown(s0, t, order);
        LogOnly(s, s0.log);
        LogOnlyInv(s, s0.log);
        SplitDownSizes(s0, t, order);
        SplitDownInv(s0, t, order);
        SplitDownAsks(s0, t, order);
        GrantAsks(s1, t1, AlignedSize(size));
        GrantShape(s1, t1, AlignedSize(size));
        Distribute(s.log.attempts, s.maxOrder);
      }
    }
  }

  lemma {:induction false} MergeAsks(s: State, o: nat, i: nat, j: nat)
    requires o + 1 < |s.free| && i < |s.free[o]| && j < |s.free[o]| && i != j
    ensures var r := MergeAt(s, o, i, j);
            && r.log == s.log.(merges := s.log.merges + 1)
            && NodesAsked(r) == NodesAsked(s) + 1 && |AllBlocks(r)| + 1 == |AllBlocks(s)|
  {
    hide AllBlocks, RemoveTwo;
    MergeBlocks(s, o, i, j);
    PairCount(AllBlocks(s.(free := s.free[o := RemoveTwo(s.free[o], i, j)])), Block(o, s.free[o][i]), Block(o, s.free[o][j]));
  }

  /** `r` is `s` after some merges. */
  ghost predicate MergesOnly(s: State, r: State) {
    var m := r.log.merges - s.log.merges;
    && m >= 0 && r.log == s.log.(merges := s.log.merges + m)
    && NodesAsked(r) == NodesAsked(s) + m && |AllBlocks(r)| + m == |AllBlocks(s)|
  }

  lemma {:induction false} CoalesceFromAsks(s: State, o: nat, pos: nat)
    requires Shape(s) && o < s.maxOrder && pos <= |s.free[o]|
    ensures MergesOnly(s, CoalesceFrom(s, o, pos))
    decreases |FreeBlocks(s.free, 0)|, 0, |s.free[o]| - pos
  {
    hide AllBlocks, FreeBlocks, MergeAt, RemoveTwo, BuddyAddr, Coalesce, IndexOf;
    if pos < |s.free[o]| {
      var a := s.free[o][pos];
      var b := BuddyAddr(s.base, a, o);
      var j := IndexOf(s.free[o], b);
      if j < |s.free[o]| && AreAdjacent(a, b, o) {
        MergeShape(s, o, pos, j);
        MergeAsks(s, o, pos, j);
        CoalesceAsks(MergeAt(s, o, pos, j), o + 1);
        CoalesceFromAsks(Coalesce(MergeAt(s, o, pos, j), o + 1), o, 0);
      } else {
        CoalesceFromAsks(s, o, pos + 1);
      }
    }
  }

  lemma {:induction false} CoalesceAsks(s: State, o: nat)
    requires Shape(s)
    ensures MergesOnly(s, Coalesce(s, o))
    decreases |FreeBlocks(s.free, 0)|, 1
  {
    hide AllBlocks;
    if o < s.maxOrder { CoalesceFromAsks(s, o, 0); }
  }

  lemma {:induction false} ReturnedAsks(s: State, i: nat)
    requires Shape(s) && s.recordCount <= MAX_RECORDS && i < MAX_RECORDS && s.slots[i].used
    ensures var r := Returned(s, i);
            && r.log == s.log.(frees := s.log.frees + 1)
            && NodesAsked(r) == NodesAsked(s) + 1 && |AllBlocks(r)| == |AllBlocks(s)|
            && |UsedBlocks(r.slots, 0)| + 1 == |UsedBlocks(s.slots, 0)|
  {
    hide AllBlocks, UsedBlocks, SlotBlocks, Shrink;
    ReturnedBlocks(s, i);
    var y := s.slots[i].(used := false);
    SlotUpdate(s.slots, i, y, 0);
    SlotCount(s.slots[i]);
    SlotCount(y);
    CardUpdate(UsedBlocks(s.slots[i := y], 0), SlotBlocks(s.slots[i]), UsedBlocks(s.slots, 0), SlotBlocks(y));
  }

  lemma FreeKeepsLedger(s: State, addr: nat)
    requires Inv(s) && Ledger(s)
    ensures Ledger(Free(s, addr).0)
  {
    hide Tiles, AllBlocks, UsedBlocks, Push, Forget, Coalesce, FindRecord;
    var i := FindRecord(s.slots, addr, 0);
    if i < MAX_RECORDS {
      ReturnedAsks(s, i);
      ReturnedInv(s, i);
      CoalesceAsks(Returned(s, i), s.slots[i].order);
    }
  }

  lemma FreshLedger(base: nat, max: nat)
    requires max <= MAX_ORDER
    ensures Ledger(Fresh(base, max))
  {
    FreshInv(base, max);
    hide AllBlocks;
    NoUsed(Fresh(base, max).slots, 0);
  }

  lemma SomeBlock(s: State)
    requires Inv(s)
    ensures |AllBlocks(s)| >= 1
  {
    assert Owned(AllBlocks(s), s.base);
  }

  /** With S splits, M merges, F frees and R rollbacks the node count is 1 + 2S + F + M + R;
      merges cannot outnumber splits and frees and rollbacks cannot outnumber allocations, so
      this many allocations that reach splitting cannot use the node pool up. */
  lemma {:induction false} BudgetSuffices(s: State)
    requires Inv(s) && Ledger(s)
    requires 1 + s.log.attempts * (3 * s.maxOrder + 1) <= NODE_POOL
    ensures s.lost == []
  {
    var a, m := s.log.attempts, s.maxOrder;
    SomeBlock(s);
    hide Tiles, AllBlocks, UsedBlocks;
    BudgetArithmetic(a, m);
    assert s.log.merges <= s.log.splits;
    assert NodesAsked(s) <= 1 + 3 * (a * m) + a;
  }

  /** The node pool has been used up exactly when the nodes asked for so far exceed it. */
  lemma LostIff(s: State)
    requires Inv(s) && Ledger(s)
    ensures s.lost == [] <==> 1 + 2 * s.log.splits + s.log.frees + s.log.merges + s.log.rollbacks <= NODE_POOL
  {
    hide Tiles, AllBlocks, UsedBlocks;
  }

  // ---------- the record table ----------

  lemma {:induction false} AllUsed(slots: seq<Slot>, k: nat)
    requires k <= |slots| && forall j :: k <= j < |slots| ==> slots[j].used
    ensures |UsedBlocks(slots, k)| == |slots| - k
    decreases |slots| - k
  {
    if k < |slots| { AllUsed(slots, k + 1); }
  }

  /** All recorded blocks but one have cost two nodes each, so the node pool runs out when the
      record table is about half full: the branch of an allocation that finds the table full is
      never taken. */
  lemma {:induction false} TableNeverFull(s: State)
    requires Inv(s) && Ledger(s)
    ensures 2 * |UsedBlocks(s.slots, 0)| <= NODE_POOL + 1
    ensures FirstUnused(s.slots, 0) < MAX_RECORDS
  {
    hide Tiles, UsedBlocks, FreeBlocks;
    assert |AllBlocks(s)| == |FreeBlocks(s.free, 0)| + |UsedBlocks(s.slots, 0)| + |multiset(s.lost)|;
    assert |multiset(s.lost)| == |s.lost|;
    if FirstUnused(s.slots, 0) == MAX_RECORDS { AllUsed(s.slots, 0); }
  }

  lemma BudgetArithmetic(a: nat, m: nat)
    ensures a * (3 * m + 1) == 3 * (a * m) + a
  {
  }

  // ---------- runs ----------

  datatype Op = AllocOp(size: nat) | FreeOp(addr: nat) | ResetOp

  ghost predicate Good(s: State) {
    Inv(s) && Ledger(s) && s.log.rollbacks == 0 && Coalesced(s)
  }

  function Step(s: State, op: Op): State
    requires Inv(s)
  {
    match op
    case AllocOp(size) => Alloc(s, size).0
    case FreeOp(addr) => Free(s, addr).0
    case ResetOp => Reset(s)
  }

  lemma FreshGood(base: nat, max: nat)
    requires max <= MAX_ORDER
    ensures Good(Fresh(base, max))
  {
    FreshInv(base, max);
    FreshLedger(base, max);
    forall o | 0 <= o < max ensures PairFree(Fresh(base, max), o) {}
  }

  lemma {:induction false} StepKeepsGood(s: State, op: Op)
    requires Good(s)
    ensures Good(Step(s, op)) && Step(s, op).base == s.base && Step(s, op).maxOrder == s.maxOrder
  {
    hide Tiles, AllBlocks, CountsRecords, Ledger, Alloc, Free;
    match op {
      case AllocOp(size) =>
        AllocInv(s, size);
        AllocKeepsLedger(s, size);
        TableNeverFull(s);
        NoRollback(s, size);
        AllocKeepsCoalesced(s, size);
      case FreeOp(addr) =>
        FreeInv(s, addr);
        FreeKeepsLedger(s, addr);
        FreeLog(s, addr);
        FreeKeepsCoalesced(s, addr);
      case ResetOp =>
        FreshGood(s.base, s.maxOrder);
    }
  }

  /** With an unused record an allocation is not rolled back. */
  lemma {:induction false} NoRollback(s: State, size: nat)
    requires Inv(s) && FirstUnused(s.slots, 0) < MAX_RECORDS
    ensures Alloc(s, size).0.log.rollbacks == s.log.rollbacks && !RollbackLeavesPair(s, size)
  {
    hide Tiles, AllBlocks, CountsRecords, RequestOrder, AlignedSize, FirstFit, FirstUnused, SplitDown;
    if size != 0 {
      var order := RequestOrder(size);
      var t := FirstFit(s, order, order);
      if t <= s.maxOrder && s.free[t] != [] {
        var s0 := s.(log := s.log.(attempts := s.log.attempts + 1));
        LogOnlyInv(s, s0.log);
        SplitDownAsks(s0, t, order);
        SplitDownInv(s0, t, order);
      }
    }
  }

  lemma FreeLog(s: State, addr: nat)
    requires Inv(s)
    ensures Free(s, addr).0.log.rollbacks == s.log.rollbacks
  {
    hide Tiles, AllBlocks, UsedBlocks, Push, Forget, Coalesce, FindRecord;
    var i := FindRecord(s.slots, addr, 0);
    if i < MAX_RECORDS {
      ReturnedAsks(s, i);
      ReturnedInv(s, i);
      CoalesceAsks(Returned(s, i), s.slots[i].order);
    }
  }

  /** The state after the operations `ops`, oldest first. */
  ghost function Run(s: State, ops: seq<Op>): (r: State)
    requires Good(s)
    ensures Good(r) && r.base == s.base && r.maxOrder == s.maxOrder
    decreases |ops|
  {
    if ops == [] then s
    else
      StepKeepsGood(s, ops[0]);
      Run(Step(s, ops[0]), ops[1..])
  }

  // ---------- what callers see ----------

  /** Bytes in the blocks recorded in slots `k` and above. */
  function UsedSize(slots: seq<Slot>, k: nat): nat
    decreases |slots| - k
  {
    if k >= |slots| then 0 else (if slots[k].used then Size(slots[k].order) else 0) + UsedSize(slots, k + 1)
  }

  function LostSize(lost: seq<Block>): nat {
    if lost == [] then 0 else Size(lost[|lost| - 1].order) + LostSize(lost[..|lost| - 1])
  }

  lemma {:induction false} ListBytes(o: nat, xs: seq<nat>)
    ensures Bytes(ListBlocks(o, xs)) == |xs| * Size(o)
  {
    hide Size;
    if xs != [] {
      ListBytes(o, xs[1..]);
      Commute(multiset{Block(o, xs[0])}, ListBlocks(o, xs[1..]));
      BytesAdd(ListBlocks(o, xs[1..]), Block(o, xs[0]));
      Distribute(|xs[1..]|, Size(o));
    }
  }

  lemma {:induction false} FreeSizeIsBytes(free: seq<seq<nat>>, k: nat)
    ensures FreeSize(free, k) == Bytes(FreeBlocks(free, k))
    decreases |free| - k
  {
    hide Size, ListBlocks;
    if k < |free| {
      FreeSizeIsBytes(free, k + 1);
      ListBytes(k, free[k]);
      BytesUnion(ListBlocks(k, free[k]), FreeBlocks(free, k + 1));
    }
  }

  lemma {:induction false} UsedSizeIsBytes(slots: seq<Slot>, k: nat)
    ensures UsedSize(slots, k) == Bytes(UsedBlocks(slots, k))
    decreases |slots| - k
  {
    hide Size;
    if k < |slots| {
      UsedSizeIsBytes(slots, k + 1);
      var rest := UsedBlocks(slots, k + 1);
      if slots[k].used {
        Commute(SlotBlocks(slots[k]), rest);
        BytesAdd(rest, Block(slots[k].order, slots[k].addr));
      } else {
        Empty(rest);
      }
    }
  }

  lemma {:induction false} LostSizeIsBytes(lost: seq<Block>)
    ensures LostSize(lost) == Bytes(multiset(lost))
  {
    hide Size;
    if lost != [] {
      var n := |lost| - 1;
      LostSizeIsBytes(lost[..n]);
      assert lost == lost[..n] + [lost[n]];
      LostGains(lost[..n], lost[n]);
      BytesAdd(multiset(lost[..n]), lost[n]);
    }
  }

  /** Free, allocated and lost bytes always add up to the region: as long as no node was
      missing, free size plus allocated bytes is constant, and it never is afterwards. */
  lemma {:induction false} BytesConserved(s: State)
    requires Inv(s)
    ensures FreeSize(s.free, 0) + UsedSize(s.slots, 0) + LostSize(s.lost) == Size(s.maxOrder)
    ensures FreeSize(s.free, 0) + UsedSize(s.slots, 0) == Size(s.maxOrder) <==> s.lost == []
  {
    hide Partition, Size, FreeBlocks, UsedBlocks;
    FreeSizeIsBytes(s.free, 0);
    UsedSizeIsBytes(s.slots, 0);
    LostSizeIsBytes(s.lost);
    BytesUnion(FreeBlocks(s.free, 0), UsedBlocks(s.slots, 0));
    BytesUnion(FreeBlocks(s.free, 0) + UsedBlocks(s.slots, 0), multiset(s.lost));
  }

  /** Every address of the region is in exactly one block, and a block is in exactly one of
      the free lists, the record table and the lost blocks. */
  lemma {:induction false} OneOwner(s: State, x: nat) returns (b: Block)
    requires Inv(s) && s.base <= x < s.base + Size(s.maxOrder)
    ensures InBlock(b, x) && b in AllBlocks(s)
    ensures forall c :: c in AllBlocks(s) && InBlock(c, x) ==> c == b
    ensures FreeBlocks(s.free, 0)[b] + UsedBlocks(s.slots, 0)[b] + multiset(s.lost)[b] == 1
  {
    assert Owned(AllBlocks(s), x);
    b :| b in AllBlocks(s) && InBlock(b, x);
    forall c | c in AllBlocks(s) && InBlock(c, x)
      ensures c == b
    {
      assert c != b ==> Disjoint(c, b);
    }
  }

  /** A successful allocation records the block of the order requested, cut from a free
      block: inside the region, aligned, and disjoint from every earlier allocation. */
  lemma {:induction false} AllocGives(s: State, size: nat)
    requires Inv(s) && Alloc(s, size).1.Some?
    ensures var (r, a) := (Alloc(s, size).0, Alloc(s, size).1.value);
            var b := Block(RequestOrder(size), a);
            var i := FirstUnused(s.slots, 0);
            && i < MAX_RECORDS
            && r.slots == s.slots[i := Slot(true, a, AlignedSize(size), b.order)]
            && Fits(s.base, s.maxOrder, b)
            && forall j :: 0 <= j < MAX_RECORDS && s.slots[j].used ==>
                 Disjoint(b, Block(s.slots[j].order, s.slots[j].addr))
  {
    hide Tiles, AllBlocks, CountsRecords, RequestOrder, AlignedSize;
    var (r, a) := (Alloc(s, size).0, Alloc(s, size).1.value);
    var order := RequestOrder(size);
    var t := FirstFit(s, order, order);
    var s0 := s.(log := s.log.(attempts := s.log.attempts + 1));
    LogOnlyInv(s, s0.log);
    SplitDownInv(s0, t, order);
    SplitDownStops(s0, t, order);
    var (s1, t1) := SplitDown(s0, t, order);
    var b := Block(t1, a);
    FreeBlockAligned(s1, t1, a);
    forall j | 0 <= j < MAX_RECORDS && s.slots[j].used
      ensures Disjoint(b, Block(s.slots[j].order, s.slots[j].addr))
    {
      FreeAndUsedDisjoint(s1, t1, a, j);
    }
  }

  /** The split loop ends at the order it was asked for, or at an empty list. */
  lemma {:induction false} SplitDownStops(s: State, t: nat, order: nat)
    requires t < |s.free| && order <= t
    ensures var (r, t1) := SplitDown(s, t, order);
            t1 == order || (t1 < |r.free| && r.free[t1] == [])
    decreases t
  {
    hide SplitHead;
    if t > order && s.free[t] != [] {
      SplitHeadSizes(s, t);
      SplitDownStops(SplitHead(s, t), t - 1, order);
    }
  }

  lemma {:induction false} FreeAndUsedDisjoint(s: State, o: nat, a: nat, j: nat)
    requires Inv(s) && o <= s.maxOrder && a in s.free[o] && j < MAX_RECORDS && s.slots[j].used
    ensures Disjoint(Block(o, a), Block(s.slots[j].order, s.slots[j].addr))
  {
    var b, c := Block(o, a), Block(s.slots[j].order, s.slots[j].addr);
    InFree(s.free, 0, b);
    UsedIn(s.slots, 0, j);
    if b == c {
      TwoSources(s, b);
      assert false;
    }
    assert b in AllBlocks(s) && c in AllBlocks(s);
  }

  lemma TwoSources(s: State, b: Block)
    requires Inv(s)
    ensures !(b in FreeBlocks(s.free, 0) && b in UsedBlocks(s.slots, 0))
  {
    assert AllBlocks(s)[b] <= 1;
  }

  lemma {:induction false} NothingUsed(s: State)
    requires Inv(s) && Coalesced(s) && s.lost == [] && UsedBlocks(s.slots, 0) == multiset{}
    ensures s.free == Fresh(s.base, s.maxOrder).free
  {
    hide Tiles, AllBlocks;
    forall j | 0 <= j < MAX_RECORDS
      ensures !s.slots[j].used
    {
      if s.slots[j].used { UsedIn(s.slots, 0, j); }
    }
    EmptyIsWhole(s);
  }

  /** What holds in every state of every run. */
  ghost predicate Guarantees(s: State) {
    && Shape(s)
    && Tiles(s.base, s.maxOrder, AllBlocks(s))
    && FreeSize(s.free, 0) + UsedSize(s.slots, 0) + LostSize(s.lost) == Size(s.maxOrder)
    && Coalesced(s)
    && FirstUnused(s.slots, 0) < MAX_RECORDS
    && (s.lost == [] <==> 1 + 2 * s.log.splits + s.log.frees + s.log.merges <= NODE_POOL)
    && (1 + s.log.attempts * (3 * s.maxOrder + 1) <= NODE_POOL ==> s.lost == [])
    && (s.lost == [] && UsedBlocks(s.slots, 0) == multiset{} ==> s.free == Fresh(s.base, s.maxOrder).free)
  }

  lemma RunLostIff(s: State)
    requires Good(s)
    ensures s.lost == [] <==> 1 + 2 * s.log.splits + s.log.frees + s.log.merges <= NODE_POOL
  {
    hide Inv, Ledger;
    LostIff(s);
  }

  lemma {:induction false} GoodGuarantees(s: State)
    requires Good(s)
    ensures Guarantees(s)
  {
    hide Tiles, AllBlocks, FreeBlocks, UsedBlocks, Ledger, Coalesced, FreeSize, UsedSize, LostSize, Fresh, Size;
    BytesConserved(s);
    TableNeverFull(s);
    RunLostIff(s);
    if 1 + s.log.attempts * (3 * s.maxOrder + 1) <= NODE_POOL { BudgetSuffices(s); }
    if s.lost == [] && UsedBlocks(s.slots, 0) == multiset{} { NothingUsed(s); }
  }

  lemma {:induction false} InitGood(base: nat, size: nat)
    requires size <= Pow2(63)
    ensures Good(Init(base, size)) && Init(base, size).base == base
  {
    hide OrderForSize, Good, Fresh;
    FreshGood(base, Init(base, size).maxOrder);
  }

  /** In every run from init: the tiling and the byte count hold; no two buddies below the
      region's order are both free, so once everything has been freed the one free block is the
      whole region; the record table is never full; and blocks have been lost exactly when more
      nodes were asked for than there are, which cannot be within the budget of allocations. */
  lemma {:induction false} RunGuarantees(base: nat, size: nat, ops: seq<Op>)
    requires size <= Pow2(63)
    ensures Good(Init(base, size))
    ensures Guarantees(Run(Init(base, size), ops))
  {
    hide Guarantees, Init;
    InitGood(base, size);
    GoodGuarantees(Run(Init(base, size), ops));
  }
}
