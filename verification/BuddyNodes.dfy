/** How the node pool, whose nodes are never recycled, runs out: what each operation needs, and
    a run that uses it up. */
module BuddyNodes {
  import opened Bits
  import opened BuddySize
  import opened BuddySpec
  import opened BuddyTiling
  import opened BuddyCoalescing
  import opened BuddyRoundTrip
  import opened BuddyRuns
  import opened Collections

  // ---------- what a request needs ----------

  lemma {:induction false} SplitDownLosesMore(s: State, t: nat, order: nat)
    requires t < |s.free|
    ensures |SplitDown(s, t, order).0.lost| >= |s.lost|
    decreases t
  {
    if t > order && s.free[t] != [] {
      SplitHeadSizes(s, t);
      SplitDownLosesMore(SplitHead(s, t), t - 1, order);
    }
  }

  lemma SplitHeadLoses(s: State, t: nat)
    requires 0 < t < |s.free| && s.free[t] != []
    ensures var r := SplitHead(s, t);
            if s.poolUsed + 2 <= NODE_POOL then r.lost == s.lost && r.poolUsed == s.poolUsed + 2
            else |r.lost| > |s.lost|
  {
  }

  /** Splitting from order `t` down to `order` needs two nodes per level. */
  lemma {:induction false} SplitDownLosesIff(s: State, t: nat, order: nat)
    requires Shape(s) && order <= t <= s.maxOrder && s.free[t] != []
    requires forall k :: order <= k < t ==> s.free[k] == []
    ensures var r := SplitDown(s, t, order).0;
            if s.poolUsed + 2 * (t - order) <= NODE_POOL then r.lost == s.lost else |r.lost| > |s.lost|
    decreases t
  {
    hide SplitHead;
    if t > order {
      var r := SplitHead(s, t);
      SplitHeadLoses(s, t);
      SplitHeadSizes(s, t);
      SplitHeadShape(s, t);
      SplitHeadLists(s, t);
      if s.poolUsed + 2 <= NODE_POOL {
        SplitDownLosesIff(r, t - 1, order);
      } else {
        SplitDownLosesMore(r, t - 1, order);
      }
    }
  }

  /** How many nodes the request takes from the pool if they are there. */
  function AllocNeeds(s: State, size: nat): nat
    requires Shape(s)
  {
    var order, t := RequestOrder(size), StartOrder(s, size);
    if size == 0 || t > s.maxOrder || s.free[t] == [] then 0 else 2 * (t - order)
  }

  /** A request loses a block exactly when the nodes its splits need are not there. */
  lemma {:induction false} AllocLosesIff(s: State, size: nat)
    requires Good(s)
    ensures Alloc(s, size).0.lost == s.lost <==> s.poolUsed + AllocNeeds(s, size) <= NODE_POOL
  {
    hide Tiles, AllBlocks, CountsRecords, Ledger, Coalesced, RequestOrder, AlignedSize, SplitDown;
    TableNeverFull(s);
    var order, t := RequestOrder(size), StartOrder(s, size);
    if size != 0 && t <= s.maxOrder && s.free[t] != [] {
      var s0 := s.(log := s.log.(attempts := s.log.attempts + 1));
      LogOnlyInv(s, s0.log);
      SplitDownInv(s0, t, order);
      SplitDownLosesIff(s0, t, order);
      GrantKeepsLost(SplitDown(s0, t, order).0, SplitDown(s0, t, order).1, AlignedSize(size));
    }
  }

  lemma GrantKeepsLost(s: State, t: nat, size: nat)
    requires t < |s.free| && |s.slots| == MAX_RECORDS && FirstUnused(s.slots, 0) < MAX_RECORDS
    ensures Grant(s, t, size).0.lost == s.lost && (Grant(s, t, size).1.Some? <==> s.free[t] != [])
  {
  }

  /** Splitting reaches the order asked for with something to grant exactly when at most the
      last node it needs is missing. */
  lemma {:induction false} SplitDownGrants(s: State, t: nat, order: nat)
    requires Shape(s) && order <= t <= s.maxOrder && s.free[t] != []
    requires forall k :: order <= k < t ==> s.free[k] == []
    ensures var (r, t1) := SplitDown(s, t, order);
            |r.free| == |s.free| && t1 <= t && (r.free[t1] != [] <==> s.poolUsed + 2 * (t - order) <= NODE_POOL + 1)
    decreases t
  {
    hide SplitHead;
    if t > order {
      SplitHeadLists(s, t);
      SplitHeadShape(s, t);
      if SplitHead(s, t).free[t - 1] != [] { SplitDownGrants(SplitHead(s, t), t - 1, order); }
    }
  }

  /** In every run a request is granted exactly when the smallest order, from its own up, with a
      free block can be split down with at most one node missing. */
  lemma {:induction false} AllocSucceedsIff(s: State, size: nat)
    requires Good(s) && size > 0
    ensures Alloc(s, size).1.Some? <==>
            var order, t := RequestOrder(size), StartOrder(s, size);
            t <= s.maxOrder && s.free[t] != [] && s.poolUsed + 2 * (t - order) <= NODE_POOL + 1
  {
    hide Tiles, AllBlocks, CountsRecords, Ledger, Coalesced, RequestOrder, AlignedSize, SplitDown;
    TableNeverFull(s);
    var order, t := RequestOrder(size), StartOrder(s, size);
    if t <= s.maxOrder && s.free[t] != [] {
      var s0 := s.(log := s.log.(attempts := s.log.attempts + 1));
      LogOnlyInv(s, s0.log);
      SplitDownInv(s0, t, order);
      SplitDownGrants(s0, t, order);
      GrantKeepsLost(SplitDown(s0, t, order).0, SplitDown(s0, t, order).1, AlignedSize(size));
    }
  }

  // ---------- what a free needs ----------

  /** How many merges a block of order `o` at `a` sets off: one for every order at which its
      buddy is free. */
  function Chain(s: State, o: nat, a: nat): nat
    requires Shape(s) && s.base <= a
    decreases MAX_ORDER - o
  {
    if o >= s.maxOrder || BuddyAddr(s.base, a, o) !in s.free[o] then 0
    else
      var b := BuddyAddr(s.base, a, o);
      1 + Chain(s, o + 1, if a < b then a else b)
  }

  lemma CoalesceIdle(s: State, o: nat)
    requires Shape(s) && (o < s.maxOrder ==> PairFree(s, o))
    ensures Coalesce(s, o) == s
  {
    if o < s.maxOrder { CoalesceFromIdle(s, o, 0); }
  }

  /** A head whose buddy is not in the list makes no pair with the rest. */
  lemma NoPairAtHead(s: State, o: nat)
    requires Inv(s) && o < s.maxOrder && s.free[o] != [] && HeadApart(s, o)
    requires s.base <= s.free[o][0] && BuddyAddr(s.base, s.free[o][0], o) !in s.free[o]
    ensures PairFree(s, o)
  {
    hide Tiles, AllBlocks, CountsRecords, BuddyAddr, Aligned;
    var xs := s.free[o];
    forall i | 0 <= i < |xs| ensures BuddyAddr(s.base, xs[i], o) !in xs {
      FreeBlockAligned(s, o, xs[i]);
      BuddyIsOtherHalf(s.base, xs[i], o);
      if i > 0 { assert xs[1..][i - 1] == xs[i]; }
    }
  }

  /** What is left of a list without its head and one more has no pairs if the tail had none. */
  lemma TailWithout(base: nat, xs: seq<nat>, j: nat, o: nat)
    requires 0 < j < |xs| && forall i :: 0 <= i < |xs| ==> base <= xs[i]
    requires ListPairFree(base, xs[1..], o)
    ensures forall x :: x in RemoveTwo(xs, 0, j) ==> x in xs[1..]
    ensures ListPairFree(base, RemoveTwo(xs, 0, j), o)
  {
    hide BuddyAddr;
    var ys := RemoveTwo(xs, 0, j);
    assert ys == RemoveAt(xs[1..], j - 1);
    forall i | 0 <= i < |ys| ensures BuddyAddr(base, ys[i], o) !in ys {
      assert ys[i] == xs[1..][if i < j - 1 then i else i + 1];
    }
  }

  /** A merge at the head moves the pair one order up, or loses it. */
  lemma MergedHead(z: State, o: nat, j: nat)
    requires Shape(z) && o < z.maxOrder && 0 < j < |z.free[o]| && HeadApart(z, o) && Shape(MergeAt(z, o, 0, j))
    ensures var m, a, b := MergeAt(z, o, 0, j), z.free[o][0], z.free[o][j];
            && m.base == z.base && m.maxOrder == z.maxOrder && PairFree(m, o)
            && (forall k :: 0 <= k < |z.free| && k != o && k != o + 1 ==> m.free[k] == z.free[k])
            && (z.poolUsed == NODE_POOL ==> |m.lost| == |z.lost| + 1 && m.free[o + 1] == z.free[o + 1])
            && (z.poolUsed < NODE_POOL ==>
                  && m.lost == z.lost && m.poolUsed == z.poolUsed + 1
                  && m.free[o + 1] == [if a < b then a else b] + z.free[o + 1] && HeadApart(m, o + 1))
  {
    hide BuddyAddr, RemoveTwo;
    var m := MergeAt(z, o, 0, j);
    TailWithout(z.base, z.free[o], j, o);
    assert m.free[o] == RemoveTwo(z.free[o], 0, j);
    if z.poolUsed < NODE_POOL {
      forall k | 0 <= k < m.maxOrder && k != o + 1 ensures PairFree(m, k) {
        if k != o { assert PairFree(z, k); }
      }
      if o + 1 < z.maxOrder { assert PairFree(z, o + 1) && m.free[o + 1][1..] == z.free[o + 1]; }
    }
  }

  lemma {:induction false} ChainSame(s: State, r: State, o: nat, a: nat)
    requires Shape(s) && Shape(r) && s.base == r.base <= a && s.maxOrder == r.maxOrder
    requires forall k :: o <= k <= MAX_ORDER ==> s.free[k] == r.free[k]
    ensures Chain(s, o, a) == Chain(r, o, a)
    decreases MAX_ORDER - o
  {
    hide BuddyAddr;
    if o < s.maxOrder && BuddyAddr(s.base, a, o) in s.free[o] {
      var b := BuddyAddr(s.base, a, o);
      ChainSame(s, r, o + 1, if a < b then a else b);
    }
  }

  /** The block itself, put at the head of its list, does not change its chain. */
  lemma ChainOfHead(s: State, r: State, o: nat, a: nat)
    requires Shape(s) && Inv(r) && s.base == r.base <= a && s.maxOrder == r.maxOrder && o <= s.maxOrder
    requires r.free[o] == [a] + s.free[o] && forall k :: o < k <= MAX_ORDER ==> s.free[k] == r.free[k]
    ensures Chain(s, o, a) == Chain(r, o, a)
  {
    hide Tiles, AllBlocks, CountsRecords, BuddyAddr;
    if o < s.maxOrder {
      FreeBlockAligned(r, o, a);
      BuddyIsAdjacent(s.base, a, o);
      var b := BuddyAddr(s.base, a, o);
      if b in s.free[o] { ChainSame(s, r, o + 1, if a < b then a else b); }
    }
  }

  lemma SameListPairs(s: State, z: State, k: nat)
    requires Shape(s) && Shape(z) && k <= MAX_ORDER && s.base == z.base && s.free[k] == z.free[k]
    ensures PairFree(s, k) == PairFree(z, k)
  {
  }

  /** Once a merge has left its own order without pairs, merging goes on one order up. */
  lemma {:induction false} CoalesceMerges(z: State, o: nat, j: nat)
    requires Inv(z) && o < z.maxOrder && 0 < j < |z.free[o]| && HeadApart(z, o)
    requires z.base <= z.free[o][0] && AreAdjacent(z.free[o][0], BuddyAddr(z.base, z.free[o][0], o), o)
    requires j == IndexOf(z.free[o], BuddyAddr(z.base, z.free[o][0], o))
    ensures Inv(MergeAt(z, o, 0, j)) && Coalesce(z, o) == Coalesce(MergeAt(z, o, 0, j), o + 1)
  {
    hide Tiles, AllBlocks, CountsRecords, FreeBlocks, BuddyAddr, MergeAt, IndexOf, CoalesceFrom, AreAdjacent, ListPairFree;
    CoalesceTurn(z, o, 0);
    MergeAtInv(z, o, 0, j);
    MergedHead(z, o, j);
    var m := MergeAt(z, o, 0, j);
    var r := Coalesce(m, o + 1);
    SameListPairs(m, r, o);
    CoalesceFromIdle(r, o, 0);
  }

  /** Merging from a list whose head alone may have its buddy free follows the chain, and stops
      at the first missing node. */
  lemma {:induction false} CascadeLoses(z: State, o: nat)
    requires Inv(z) && o <= z.maxOrder && z.free[o] != [] && HeadApart(z, o)
    ensures z.base <= z.free[o][0]
    ensures |Coalesce(z, o).lost| == |z.lost| + if z.poolUsed + Chain(z, o, z.free[o][0]) > NODE_POOL then 1 else 0
    decreases MAX_ORDER - o
  {
    hide Tiles, AllBlocks, CountsRecords, FreeBlocks, BuddyAddr, MergeAt, RemoveTwo, IndexOf, CoalesceFrom, Coalesce,
         AreAdjacent, ListPairFree;
    FreeBlockAligned(z, o, z.free[o][0]);
    if o < z.maxOrder {
      var a := z.free[o][0];
      var b := BuddyAddr(z.base, a, o);
      BuddyIsAdjacent(z.base, a, o);
      if b in z.free[o] {
        var j := IndexOf(z.free[o], b);
        var m := MergeAt(z, o, 0, j);
        CoalesceMerges(z, o, j);
        MergedHead(z, o, j);
        if z.poolUsed == NODE_POOL {
          if o + 1 < z.maxOrder { assert PairFree(z, o + 1); SameListPairs(z, m, o + 1); }
          CoalesceIdle(m, o + 1);
        } else {
          CascadeLoses(m, o + 1);
          ChainOfHead(z, m, o + 1, m.free[o + 1][0]);
        }
      } else {
        NoPairAtHead(z, o);
        CoalesceIdle(z, o);
      }
    } else {
      CoalesceIdle(z, o);
    }
  }

  /** How many nodes a free takes from the pool if they are there: one for the block and one
      for each merge it sets off. */
  function FreeNeeds(s: State, addr: nat): nat
    requires Shape(s)
  {
    var i := FindRecord(s.slots, addr, 0);
    if i == MAX_RECORDS then 0 else 1 + Chain(s, s.slots[i].order, addr)
  }

  /** A free loses a block exactly when those nodes are not there. */
  lemma {:induction false} FreeLosesIff(s: State, addr: nat)
    requires Good(s)
    ensures Free(s, addr).0.lost == s.lost <==> s.poolUsed + FreeNeeds(s, addr) <= NODE_POOL
  {
    hide Tiles, AllBlocks, Ledger, Chain, Forget, Coalesce, FindRecord, PairFree;
    var i := FindRecord(s.slots, addr, 0);
    if i < MAX_RECORDS {
      var o := s.slots[i].order;
      var z := Returned(s, i);
      ReturnedInv(s, i);
      ReturnedElsewhere(s, i);
      ReturnedHead(s, i);
      forall k | 0 <= k < s.maxOrder && k != o ensures PairFree(z, k) { assert PairFree(s, k); SameListPairs(s, z, k); }
      if s.poolUsed == NODE_POOL {
        if o < s.maxOrder { assert PairFree(s, o); SameListPairs(s, z, o); }
        CoalesceIdle(z, o);
      } else {
        if o < s.maxOrder { assert PairFree(s, o); TailPairs(s, z, o); }
        CascadeLoses(z, o);
        ChainOfHead(s, z, o, addr);
      }
    }
  }

  lemma TailPairs(s: State, z: State, k: nat)
    requires Shape(s) && Shape(z) && k <= MAX_ORDER && s.base == z.base && z.free[k] != [] && s.free[k] == z.free[k][1..]
    requires PairFree(s, k)
    ensures ListPairFree(z.base, z.free[k][1..], k)
  {
  }

  lemma ReturnedHead(s: State, i: nat)
    requires Shape(s) && s.recordCount <= MAX_RECORDS && i < MAX_RECORDS && s.slots[i].used
    ensures var z, o := Returned(s, i), s.slots[i].order;
            if s.poolUsed < NODE_POOL then
              z.lost == s.lost && z.poolUsed == s.poolUsed + 1 && z.free[o] == [s.slots[i].addr] + s.free[o]
            else |z.lost| == |s.lost| + 1 && z.free[o] == s.free[o]
  {
    hide Forget;
    ForgetFields(s, i);
  }

  /** What an operation needs, checked before the call, decides whether it loses a block. */
  function Needs(s: State, op: Op): nat
    requires Shape(s)
  {
    match op
    case AllocOp(size) => AllocNeeds(s, size)
    case FreeOp(addr) => FreeNeeds(s, addr)
    case ResetOp => 0
  }

  /** In every run the next operation keeps all blocks exactly when it finds the nodes it needs. */
  lemma StepLosesIff(s: State, op: Op)
    requires Good(s) && !op.ResetOp?
    ensures Step(s, op).lost == s.lost <==> s.poolUsed + Needs(s, op) <= NODE_POOL
  {
    hide Good, Alloc, Free, AllocNeeds, FreeNeeds;
    match op
    case AllocOp(size) => AllocLosesIff(s, size);
    case FreeOp(addr) => FreeLosesIff(s, addr);
  }

  // ---------- a run that uses the pool up ----------

  /** `n` times allocate the whole region and free it again. */
  function Cycles(base: nat, size: nat, n: nat): seq<Op> {
    if n == 0 then [] else [AllocOp(size), FreeOp(base)] + Cycles(base, size, n - 1)
  }

  ghost predicate NothingRecorded(s: State)
    requires Shape(s)
  {
    forall j :: 0 <= j < MAX_RECORDS ==> !s.slots[j].used
  }

  /** All of the region is free, in one block. */
  ghost predicate Whole(s: State) {
    && Good(s) && s.lost == [] && NothingRecorded(s) && s.free[s.maxOrder] == [s.base]
    && forall o :: 0 <= o <= MAX_ORDER && o != s.maxOrder ==> s.free[o] == []
  }

  /** All of the region has been handed out. */
  ghost predicate Taken(s: State) {
    && Good(s) && s.lost == [] && s.slots[0].used && s.slots[0].addr == s.base && s.slots[0].order == s.maxOrder
    && (forall j :: 0 < j < MAX_RECORDS ==> !s.slots[j].used)
    && forall o :: 0 <= o <= MAX_ORDER ==> s.free[o] == []
  }

  /** All of the region is lost. */
  ghost predicate Gone(s: State) {
    && Good(s) && s.lost == [Block(s.maxOrder, s.base)] && NothingRecorded(s)
    && forall o :: 0 <= o <= MAX_ORDER ==> s.free[o] == []
  }

  lemma WholeOrder(m: nat)
    requires m <= MAX_ORDER
    ensures Size(m) > 0 && RequestOrder(Size(m)) == m
  {
    hide RequestOrder, Pow2;
    LargestBelowWord();
    Pow2Mono(63, 64);
    SizeMono(m, MAX_ORDER);
    RequestOrderCovers(Size(m));
    var r := RequestOrder(Size(m));
    if r < m {
      SizeStep(r);
      SizeMono(r + 1, m);
    }
  }

  lemma TakeAll(s: State)
    requires Whole(s)
    ensures var r := Step(s, AllocOp(Size(s.maxOrder)));
            Taken(r) && r.base == s.base && r.maxOrder == s.maxOrder && r.poolUsed == s.poolUsed
  {
    hide Tiles, AllBlocks, CountsRecords, Ledger, Coalesced, RequestOrder, AlignedSize, Size;
    StepKeepsGood(s, AllocOp(Size(s.maxOrder)));
    WholeOrder(s.maxOrder);
    assert FirstFit(s, s.maxOrder, s.maxOrder) == s.maxOrder;
    assert FirstUnused(s.slots, 0) == 0;
  }

  lemma GiveBack(s: State)
    requires Taken(s)
    ensures var r := Step(s, FreeOp(s.base));
            && r.base == s.base && r.maxOrder == s.maxOrder
            && if s.poolUsed < NODE_POOL then Whole(r) && r.poolUsed == s.poolUsed + 1 else Gone(r)
  {
    hide Tiles, AllBlocks, Ledger, Coalesced, CoalesceFrom, Shrink;
    StepKeepsGood(s, FreeOp(s.base));
    assert FindRecord(s.slots, s.base, 0) == 0;
    ForgetFields(s, 0);
    ReturnedHead(s, 0);
  }

  /** Each cycle leaves one node fewer in the pool, and the cycle that finds none loses everything. */
  lemma {:induction false} CyclesExhaust(s: State, n: nat)
    requires Whole(s) && n > 0 && s.poolUsed + n == NODE_POOL + 1
    ensures Gone(Run(s, Cycles(s.base, Size(s.maxOrder), n)))
    decreases n
  {
    hide Tiles, AllBlocks, CountsRecords, Ledger, Coalesced, Size, Step;
    var size := Size(s.maxOrder);
    var s1 := Step(s, AllocOp(size));
    TakeAll(s);
    GiveBack(s1);
    RunTwo(s, AllocOp(size), FreeOp(s.base), Cycles(s.base, size, n - 1));
    if n > 1 { CyclesExhaust(Step(s1, FreeOp(s.base)), n - 1); }
  }

  lemma RunTwo(s: State, x: Op, y: Op, ops: seq<Op>)
    requires Good(s)
    ensures Good(Step(s, x)) && Good(Step(Step(s, x), y))
    ensures Run(s, [x, y] + ops) == Run(Step(Step(s, x), y), ops)
  {
    hide Tiles, AllBlocks, CountsRecords, Ledger, Coalesced, Step;
    StepKeepsGood(s, x);
    StepKeepsGood(Step(s, x), y);
    assert ([x, y] + ops)[1..] == [y] + ops;
    assert ([y] + ops)[1..] == ops;
  }

  /** Once all is lost every request is refused, and only a reset changes anything. */
  lemma {:induction false} GoneStays(s: State, ops: seq<Op>)
    requires Gone(s) && ResetOp !in ops
    ensures Run(s, ops) == s
    ensures forall size :: Alloc(s, size) == (s, None)
    decreases |ops|
  {
    hide Tiles, AllBlocks, CountsRecords, Ledger, Coalesced, RequestOrder, FirstFit, Size;
    if ops != [] {
      assert Step(s, ops[0]) == s;
      GoneStays(s, ops[1..]);
    }
  }

  /** Whatever the region, allocating all of it and freeing it again as often as there are nodes
      loses it: every request after that is refused until a reset. */
  lemma {:induction false} PoolRunsOut(base: nat, size: nat, ops: seq<Op>)
    requires size <= Pow2(63) && ResetOp !in ops
    ensures Good(Init(base, size))
    ensures var s := Init(base, size);
            var r := Run(s, Cycles(base, Size(s.maxOrder), NODE_POOL));
            Gone(r) && Run(r, ops) == r && forall n :: Alloc(r, n).1 == None
  {
    hide Init, Gone, Size, Alloc;
    var s := Init(base, size);
    InitGood(base, size);
    CyclesExhaust(s, NODE_POOL);
    GoneStays(Run(s, Cycles(base, Size(s.maxOrder), NODE_POOL)), ops);
  }

  // ---------- starting over ----------

  /** A reset ends in the state after init: nothing recorded, nothing lost, one node taken, and
      the whole region in the one free list it belongs to. */
  lemma {:induction false} ResetIsWhole(s: State)
    requires Good(s)
    ensures var r := Step(s, ResetOp);
            r.base == s.base && r.maxOrder == s.maxOrder && Whole(r) && r.recordCount == 0 && r.poolUsed == 1
  {
    hide Tiles, AllBlocks, CountsRecords, Ledger, Coalesced, Fresh;
    StepKeepsGood(s, ResetOp);
    NoRecords(s.base, s.maxOrder);
  }

  /** Whatever happened before. */
  lemma {:induction false} ResetStartsOver(base: nat, size: nat, ops: seq<Op>)
    requires size <= Pow2(63)
    ensures Good(Init(base, size))
    ensures var r := Step(Run(Init(base, size), ops), ResetOp);
            && r.base == base && r.maxOrder == Init(base, size).maxOrder && Whole(r)
            && r.recordCount == 0 && r.poolUsed == 1
  {
    hide Init, Run, Whole, Step, Pow2;
    InitGood(base, size);
    ResetIsWhole(Run(Init(base, size), ops));
  }

  lemma NoRecords(base: nat, max: nat)
    requires max <= MAX_ORDER
    ensures Fresh(base, max).recordCount == 0
  {
  }

  /** So a region that has been lost can be allocated again, all of it, after a reset. */
  lemma {:induction false} ResetRevives(s: State)
    requires Gone(s)
    ensures var r := Alloc(Step(s, ResetOp), Size(s.maxOrder));
            r.1 == Some(s.base) && Taken(r.0)
  {
    hide Tiles, AllBlocks, CountsRecords, Ledger, Coalesced, RequestOrder, AlignedSize, Size;
    var r := Step(s, ResetOp);
    StepKeepsGood(s, ResetOp);
    TakeAll(r);
    WholeOrder(r.maxOrder);
    assert FirstFit(r, r.maxOrder, r.maxOrder) == r.maxOrder;
    assert FirstUnused(r.slots, 0) == 0;
  }

  // ---------- what a free does ----------

  /** The flag tells whether the address was recorded.  If so its block, and no other, leaves
      the record table; if not nothing changes. */
  lemma {:induction false} FreeTells(s: State, addr: nat)
    requires Good(s)
    ensures Free(s, addr).1 <==> exists j :: 0 <= j < MAX_RECORDS && s.slots[j].used && s.slots[j].addr == addr
    ensures !Free(s, addr).1 ==> Free(s, addr).0 == s
    ensures Free(s, addr).1 ==>
              exists j :: 0 <= j < MAX_RECORDS && s.slots[j].used && s.slots[j].addr == addr
                          && Free(s, addr).0.slots == s.slots[j := s.slots[j].(used := false)]
  {
    hide Tiles, AllBlocks, Ledger, Coalesced, CoalesceFrom, Shrink, FindRecord, UsedBlocks;
    var i := FindRecord(s.slots, addr, 0);
    if i < MAX_RECORDS { ReturnedInv(s, i); }
  }
}
