/** The buddy allocator of libgpu_core/src/buddy.c as functions on values.

    Each function takes the branches of the C function it is named after.  The class in
    BuddyHeap.dfy does the same steps in place on the intrusive lists and is proved to
    compute these functions; the other Buddy files prove what the functions guarantee. */
module BuddySpec {
  import opened Bits
  import opened BuddySize
  import opened Collections

  const MAX_RECORDS: nat := 4096
  const NODE_POOL: nat := MAX_RECORDS + MAX_ORDER + 1

  datatype Block = Block(order: nat, addr: nat)

  /** One entry of the record table. */
  datatype Slot = Slot(used: bool, addr: nat, size: nat, order: nat)

  /** Bookkeeping the C structure does not have: what has happened since init or reset.
      No operation reads it. */
  datatype Log = Log(attempts: nat, splits: nat, merges: nat, frees: nat, rollbacks: nat, grants: nat)

  /** `free[o]` lists the addresses of the free blocks of order `o`, head first.  `lost`
      holds the blocks for which no list node could be taken from the node pool. */
  datatype State = State(
    base: nat,
    maxOrder: nat,
    free: seq<seq<nat>>,
    poolUsed: nat,
    slots: seq<Slot>,
    recordCount: nat,
    lost: seq<Block>,
    log: Log)

  /** The blocks of one free list. */
  function ListBlocks(o: nat, xs: seq<nat>): (m: multiset<Block>)
    ensures |m| == |xs|
  {
    if xs == [] then multiset{} else multiset{Block(o, xs[0])} + ListBlocks(o, xs[1..])
  }

  /** The blocks of the free lists of order `k` and above. */
  function FreeBlocks(free: seq<seq<nat>>, k: nat): multiset<Block>
    decreases |free| - k
  {
    if k >= |free| then multiset{} else ListBlocks(k, free[k]) + FreeBlocks(free, k + 1)
  }

  function SlotBlocks(x: Slot): multiset<Block> {
    if x.used then multiset{Block(x.order, x.addr)} else multiset{}
  }

  /** The blocks recorded as allocated in slots `k` and above. */
  function UsedBlocks(slots: seq<Slot>, k: nat): multiset<Block>
    decreases |slots| - k
  {
    if k >= |slots| then multiset{} else SlotBlocks(slots[k]) + UsedBlocks(slots, k + 1)
  }

  /** Every block the allocator has cut its region into: free, allocated or lost. */
  function AllBlocks(s: State): multiset<Block> {
    FreeBlocks(s.free, 0) + UsedBlocks(s.slots, 0) + multiset(s.lost)
  }

  ghost predicate Shape(s: State) {
    && |s.free| == MAX_ORDER + 1
    && |s.slots| == MAX_RECORDS
    && s.maxOrder <= MAX_ORDER
    && s.poolUsed <= NODE_POOL
    && (forall o :: s.maxOrder < o <= MAX_ORDER ==> s.free[o] == [])
    && (forall o, i :: 0 <= o <= MAX_ORDER && 0 <= i < |s.free[o]| ==> s.base <= s.free[o][i])
    && (forall j :: 0 <= j < MAX_RECORDS && s.slots[j].used ==>
          s.base <= s.slots[j].addr && s.slots[j].order <= s.maxOrder)
    && (s.lost != [] ==> s.poolUsed == NODE_POOL)
  }

  /** What coalescing from order `o` leaves alone. */
  ghost predicate SameBelow(s: State, r: State, o: nat)
    requires Shape(s) && Shape(r)
  {
    && r.base == s.base && r.maxOrder == s.maxOrder
    && r.slots == s.slots && r.recordCount == s.recordCount
    && (forall k :: 0 <= k < o && k <= MAX_ORDER ==> r.free[k] == s.free[k])
  }

  // ---------- list nodes ----------

  /** Take a node from the pool, store `a` in it and insert it at the head of list `o`.
      When the pool is used up the C code gets NULL and the block is in no list any more. */
  function Push(s: State, o: nat, a: nat): (r: State)
    requires o < |s.free|
  {
    if s.poolUsed < NODE_POOL then
      s.(free := s.free[o := [a] + s.free[o]], poolUsed := s.poolUsed + 1)
    else
      s.(lost := s.lost + [Block(o, a)])
  }

  lemma PushSizes(s: State, o: nat, a: nat)
    requires o < |s.free|
    ensures |Push(s, o, a).free| == |s.free|
  {
  }

  function Pop(s: State, o: nat): State
    requires o < |s.free| && s.free[o] != []
  {
    s.(free := s.free[o := s.free[o][1..]])
  }

  /** Position of the first `a` in `xs`, or `|xs|`. */
  function IndexOf(xs: seq<nat>, a: nat): (i: nat)
    ensures i <= |xs|
    ensures i < |xs| ==> xs[i] == a
    ensures a in xs <==> i < |xs|
    ensures forall k :: 0 <= k < i ==> xs[k] != a
  {
    if xs == [] then 0 else if xs[0] == a then 0 else 1 + IndexOf(xs[1..], a)
  }

  /** `xs` without positions `i` and `j`. */
  function RemoveTwo(xs: seq<nat>, i: nat, j: nat): (r: seq<nat>)
    requires i < |xs| && j < |xs| && i != j
    ensures |r| == |xs| - 2
  {
    RemoveAt(RemoveAt(xs, i), if j > i then j - 1 else j)
  }

  // ---------- init, reset ----------

  /** Empty lists, an untouched node pool and no records. */
  function Blank(base: nat, maxOrder: nat): (s: State)
    requires maxOrder <= MAX_ORDER
    ensures Shape(s)
  {
    State(base, maxOrder, seq(MAX_ORDER + 1, _ => []), 0, seq(MAX_RECORDS, _ => Slot(false, 0, 0, 0)),
          0, [], Log(0, 0, 0, 0, 0, 0))
  }

  /** The whole region as one free block. */
  function Fresh(base: nat, maxOrder: nat): (s: State)
    requires maxOrder <= MAX_ORDER
    ensures Shape(s) && s.base == base && s.maxOrder == maxOrder
    ensures s.poolUsed == 1 && s.lost == [] && s.free[maxOrder] == [base]
    ensures forall o :: 0 <= o <= MAX_ORDER && o != maxOrder ==> s.free[o] == []
    ensures forall j :: 0 <= j < MAX_RECORDS ==> !s.slots[j].used
  {
    Push(Blank(base, maxOrder), maxOrder, base)
  }

  /** `gpu_buddy_init`.  (For a size above 2^63 the C loop shifts past the word and does
      not end.) */
  function Init(base: nat, size: nat): (s: State)
    requires size <= Pow2(63)
    ensures Shape(s) && s == Fresh(s.base, s.maxOrder)
  {
    Fresh(base, OrderForSize(size))
  }

  function Reset(s: State): State
    requires s.maxOrder <= MAX_ORDER
  {
    Fresh(s.base, s.maxOrder)
  }

  // ---------- records ----------

  /** First unused slot at or after `i`, or `|slots|`. */
  function FirstUnused(slots: seq<Slot>, i: nat): (r: nat)
    requires i <= |slots|
    ensures i <= r <= |slots|
    ensures r < |slots| ==> !slots[r].used
    ensures forall k :: i <= k < r ==> slots[k].used
    decreases |slots| - i
  {
    if i == |slots| || !slots[i].used then i else FirstUnused(slots, i + 1)
  }

  /** First used slot at or after `i` that records `addr`, or `|slots|`. */
  function FindRecord(slots: seq<Slot>, addr: nat, i: nat): (r: nat)
    requires i <= |slots|
    ensures i <= r <= |slots|
    ensures r < |slots| ==> slots[r].used && slots[r].addr == addr
    ensures forall k :: i <= k < r ==> !(slots[k].used && slots[k].addr == addr)
    decreases |slots| - i
  {
    if i == |slots| || (slots[i].used && slots[i].addr == addr) then i
    else FindRecord(slots, addr, i + 1)
  }

  /** The loop that shrinks `record_count` past unused slots. */
  function Shrink(slots: seq<Slot>, count: nat): (r: nat)
    requires count <= |slots|
    ensures r <= count
  {
    if count > 0 && !slots[count - 1].used then Shrink(slots, count - 1) else count
  }

  // ---------- coalesce ----------

  /** Take the blocks at positions `i` and `j` of list `o` out and insert their union above. */
  function MergeAt(s: State, o: nat, i: nat, j: nat): (r: State)
    requires o + 1 < |s.free| && i < |s.free[o]| && j < |s.free[o]| && i != j
  {
    var a, b := s.free[o][i], s.free[o][j];
    Push(s.(free := s.free[o := RemoveTwo(s.free[o], i, j)],
            log := s.log.(merges := s.log.merges + 1)),
         o + 1, if a < b then a else b)
  }

  /** The loop of `coalesce` from the node at position `pos` of list `o`: merge it with its
      buddy if that is in the list, coalesce the next order and start over, else move on. */
  function CoalesceFrom(s: State, o: nat, pos: nat): (r: State)
    requires Shape(s) && o < s.maxOrder && pos <= |s.free[o]|
    ensures Shape(r) && SameBelow(s, r, o)
    ensures |FreeBlocks(r.free, 0)| <= |FreeBlocks(s.free, 0)|
    decreases |FreeBlocks(s.free, 0)|, 0, |s.free[o]| - pos
  {
    if pos == |s.free[o]| then s
    else
      var a := s.free[o][pos];
      var b := BuddyAddr(s.base, a, o);
      var j := IndexOf(s.free[o], b);
      if j < |s.free[o]| && AreAdjacent(a, b, o) then
        MergeShape(s, o, pos, j);
        var t := Coalesce(MergeAt(s, o, pos, j), o + 1);
        CoalesceFrom(t, o, 0)
      else
        CoalesceFrom(s, o, pos + 1)
  }

  function Coalesce(s: State, o: nat): (r: State)
    requires Shape(s)
    ensures Shape(r) && SameBelow(s, r, o)
    ensures |FreeBlocks(r.free, 0)| <= |FreeBlocks(s.free, 0)|
    decreases |FreeBlocks(s.free, 0)|, 1
  {
    if o >= s.maxOrder then s else CoalesceFrom(s, o, 0)
  }

  /** One turn of the loop of `coalesce`. */
  lemma {:induction false} CoalesceTurn(s: State, o: nat, k: nat)
    requires Shape(s) && o < s.maxOrder && k < |s.free[o]|
    ensures s.base <= s.free[o][k]
    ensures var a := s.free[o][k];
            var b := BuddyAddr(s.base, a, o);
            var j := IndexOf(s.free[o], b);
            if j < |s.free[o]| && AreAdjacent(a, b, o) then
              && j != k && Shape(MergeAt(s, o, k, j))
              && MergeAt(s, o, k, j).maxOrder == s.maxOrder
              && |FreeBlocks(MergeAt(s, o, k, j).free, 0)| < |FreeBlocks(s.free, 0)|
              && var t := Coalesce(MergeAt(s, o, k, j), o + 1);
              && t.maxOrder == s.maxOrder && |FreeBlocks(t.free, 0)| < |FreeBlocks(s.free, 0)|
              && CoalesceFrom(s, o, k) == CoalesceFrom(t, o, 0)
            else
              CoalesceFrom(s, o, k) == CoalesceFrom(s, o, k + 1)
  {
    hide FreeBlocks, BuddyAddr, MergeAt, RemoveTwo, IndexOf;
    var b := BuddyAddr(s.base, s.free[o][k], o);
    var j := IndexOf(s.free[o], b);
    if j < |s.free[o]| && AreAdjacent(s.free[o][k], b, o) {
      MergeShape(s, o, k, j);
    }
  }

  lemma CoalesceEnds(s: State, o: nat)
    requires Shape(s) && o < s.maxOrder
    ensures Coalesce(s, o) == CoalesceFrom(s, o, 0)
    ensures CoalesceFrom(s, o, |s.free[o]|) == s
  {
  }

  // ---------- alloc, free ----------

  /** First order from `i` up to the region's own with a free block, else `order`. */
  function FirstFit(s: State, i: nat, order: nat): (t: nat)
    requires Shape(s) && order <= i
    ensures t == order || (i <= t <= s.maxOrder && s.free[t] != [])
    ensures t > s.maxOrder || s.free[t] == [] ==> forall k :: i <= k <= s.maxOrder ==> s.free[k] == []
    ensures t <= s.maxOrder && s.free[t] != [] && t >= i ==> forall k :: i <= k < t ==> s.free[k] == []
    decreases MAX_ORDER + 1 - i
  {
    if i > s.maxOrder then order
    else if s.free[i] != [] then i
    else FirstFit(s, i + 1, order)
  }

  /** Split the head of list `t` into halves, both inserted one order down, left one first. */
  function SplitHead(s: State, t: nat): State
    requires 0 < t < |s.free| && s.free[t] != []
  {
    var a := s.free[t][0];
    var s1 := Pop(s, t).(log := s.log.(splits := s.log.splits + 1));
    Push(Push(s1, t - 1, a), t - 1, a + Size(t - 1))
  }

  /** The split loop: stops at `order`, or early when the list it wants to split is empty. */
  function SplitDown(s: State, t: nat, order: nat): (r: (State, nat))
    requires t < |s.free|
    decreases t
  {
    if t <= order || s.free[t] == [] then (s, t)
    else SplitDown(SplitHead(s, t), t - 1, order)
  }

  /** Record the head of list `t`, or put it back when the record table is full. */
  function Grant(s: State, t: nat, size: nat): (r: (State, Option<nat>))
    requires t < |s.free| && |s.slots| == MAX_RECORDS
  {
    if s.free[t] == [] then (s, None)
    else
      var a := s.free[t][0];
      var s1 := Pop(s, t);
      var i := FirstUnused(s.slots, 0);
      if i == MAX_RECORDS then
        (Push(s1.(log := s.log.(rollbacks := s.log.rollbacks + 1)), t, a), None)
      else
        (s1.(slots := s.slots[i := Slot(true, a, size, t)],
             recordCount := if i >= s.recordCount then i + 1 else s.recordCount,
             log := s.log.(grants := s.log.grants + 1)),
         Some(a))
  }

  /** `gpu_buddy_alloc`; `None` is the error return. */
  function Alloc(s: State, size: nat): (r: (State, Option<nat>))
    requires Shape(s)
  {
    if size == 0 then (s, None)
    else
      var order := RequestOrder(size);
      var t := FirstFit(s, order, order);
      if t > s.maxOrder || s.free[t] == [] then (s, None)
      else
        var s0 := s.(log := s.log.(attempts := s.log.attempts + 1));
        var (s1, t1) := SplitDown(s0, t, order);
        SplitDownSizes(s0, t, order);
        Grant(s1, t1, AlignedSize(size))
  }

  /** `remove_record` on the slot found. */
  function Forget(s: State, i: nat): State
    requires i < |s.slots| && s.recordCount <= |s.slots|
  {
    var slots := s.slots[i := s.slots[i].(used := false)];
    s.(slots := slots, recordCount := Shrink(slots, s.recordCount))
  }

  /** `gpu_buddy_free`; the flag is false for the error return. */
  function Free(s: State, addr: nat): (r: (State, bool))
    requires Shape(s) && s.recordCount <= MAX_RECORDS
  {
    var i := FindRecord(s.slots, addr, 0);
    if i == MAX_RECORDS then (s, false)
    else
      var o := s.slots[i].order;
      var s1 := Push(Forget(s, i).(log := s.log.(frees := s.log.frees + 1)), o, addr);
      (Coalesce(s1, o), true)
  }

  /** `gpu_buddy_free_size`: the sum over the lists from order `k` up. */
  function FreeSize(free: seq<seq<nat>>, k: nat): nat
    decreases |free| - k
  {
    if k >= |free| then 0 else |free[k]| * Size(k) + FreeSize(free, k + 1)
  }

  // ---------- shape lemmas ----------

  lemma CarryAlong(l: multiset<Block>, a': multiset<Block>, x: multiset<Block>, a: multiset<Block>, y: multiset<Block>)
    requires a' + x == a + y
    ensures (l + a') + x == (l + a) + y
  {
    assert (l + a') + x == l + (a' + x);
  }

  lemma Rotate(a: multiset<Block>, m: multiset<Block>, b: multiset<Block>)
    ensures (a + m) + b == (b + m) + a
  {
  }

  lemma PairUp(m: multiset<Block>, x: Block, y: Block)
    ensures (m + multiset{x}) + multiset{y} == m + multiset{x, y}
  {
  }

  lemma Cancel(a: multiset<Block>, b: multiset<Block>, c: multiset<Block>)
    requires a + c == b + c
    ensures a == b
  {
    assert a == (a + c) - c;
    assert b == (b + c) - c;
  }

  lemma Empty(m: multiset<Block>)
    ensures m + multiset{} == m == multiset{} + m
  {
  }

  lemma {:induction false} FreeStep(free: seq<seq<nat>>, k: nat)
    requires k < |free|
    ensures FreeBlocks(free, k) == ListBlocks(k, free[k]) + FreeBlocks(free, k + 1)
  {
  }

  lemma {:induction false} ListStep(o: nat, x: nat, xs: seq<nat>)
    ensures ListBlocks(o, [x] + xs) == multiset{Block(o, x)} + ListBlocks(o, xs)
  {
    assert ([x] + xs)[1..] == xs;
  }

  lemma {:induction false} FreeUpdate(free: seq<seq<nat>>, o: nat, xs: seq<nat>, k: nat)
    requires k <= o < |free|
    ensures FreeBlocks(free[o := xs], k) + ListBlocks(o, free[o]) == FreeBlocks(free, k) + ListBlocks(o, xs)
    decreases o - k
  {
    hide FreeBlocks, ListBlocks;
    var free' := free[o := xs];
    FreeStep(free, k);
    FreeStep(free', k);
    if k < o {
      FreeUpdate(free, o, xs, k + 1);
      CarryAlong(ListBlocks(k, free[k]), FreeBlocks(free', k + 1), ListBlocks(o, free[o]),
                 FreeBlocks(free, k + 1), ListBlocks(o, xs));
    } else {
      FreeAbove(free, free', k + 1);
      Rotate(ListBlocks(o, xs), FreeBlocks(free, k + 1), ListBlocks(o, free[o]));
    }
  }

  /** A free list that gains blocks. */
  lemma {:induction false} ListGains(free: seq<seq<nat>>, o: nat, xs: seq<nat>, b: multiset<Block>)
    requires o < |free|
    requires ListBlocks(o, xs) == ListBlocks(o, free[o]) + b
    ensures FreeBlocks(free[o := xs], 0) == FreeBlocks(free, 0) + b
  {
    hide FreeBlocks, ListBlocks;
    FreeUpdate(free, o, xs, 0);
    var f, l := FreeBlocks(free, 0), ListBlocks(o, free[o]);
    GainsCancel(FreeBlocks(free[o := xs], 0), f, l, b);
  }

  lemma GainsCancel(f': multiset<Block>, f: multiset<Block>, l: multiset<Block>, b: multiset<Block>)
    requires f' + l == f + (l + b)
    ensures f' == f + b
  {
    assert f + (l + b) == (f + b) + l;
    Cancel(f', f + b, l);
  }

  /** A free list that loses blocks. */
  lemma {:induction false} ListLoses(free: seq<seq<nat>>, o: nat, xs: seq<nat>, b: multiset<Block>)
    requires o < |free|
    requires ListBlocks(o, free[o]) == ListBlocks(o, xs) + b
    ensures FreeBlocks(free, 0) == FreeBlocks(free[o := xs], 0) + b
  {
    hide FreeBlocks, ListBlocks;
    var free' := free[o := xs];
    assert free'[o := free[o]] == free;
    ListGains(free', o, free[o], b);
  }

  lemma SumGains(f: multiset<Block>, u: multiset<Block>, l: multiset<Block>, b: multiset<Block>)
    ensures (f + b) + u + l == (f + u + l) + b
    ensures f + (u + b) + l == (f + u + l) + b
    ensures f + u + (l + b) == (f + u + l) + b
  {
  }

  lemma {:induction false} FreeAbove(f: seq<seq<nat>>, g: seq<seq<nat>>, k: nat)
    requires |f| == |g| && forall i :: k <= i < |f| ==> f[i] == g[i]
    ensures FreeBlocks(f, k) == FreeBlocks(g, k)
    decreases |f| - k
  {
    hide ListBlocks;
    if k < |f| { FreeAbove(f, g, k + 1); }
  }

  lemma {:induction false} ListRemove(o: nat, xs: seq<nat>, i: nat)
    requires i < |xs|
    ensures ListBlocks(o, xs) == ListBlocks(o, RemoveAt(xs, i)) + multiset{Block(o, xs[i])}
  {
    hide ListBlocks;
    var rest := xs[1..];
    assert xs == [xs[0]] + rest;
    ListStep(o, xs[0], rest);
    if i == 0 {
      assert RemoveAt(xs, 0) == rest;
    } else {
      assert RemoveAt(xs, i) == [xs[0]] + RemoveAt(rest, i - 1);
      ListStep(o, xs[0], RemoveAt(rest, i - 1));
      ListRemove(o, rest, i - 1);
    }
  }

  lemma {:induction false} ListRemoveTwo(o: nat, xs: seq<nat>, i: nat, j: nat)
    requires i < |xs| && j < |xs| && i != j
    ensures ListBlocks(o, xs) ==
            ListBlocks(o, RemoveTwo(xs, i, j)) + multiset{Block(o, xs[i]), Block(o, xs[j])}
  {
    hide ListBlocks;
    var j' := if j > i then j - 1 else j;
    var ys := RemoveAt(xs, i);
    assert ys[j'] == xs[j];
    ListRemove(o, xs, i);
    ListRemove(o, ys, j');
    PairUp(ListBlocks(o, RemoveTwo(xs, i, j)), Block(o, xs[j]), Block(o, xs[i]));
  }

  lemma PushShape(s: State, o: nat, a: nat)
    requires Shape(s) && o <= s.maxOrder && s.base <= a
    ensures Shape(Push(s, o, a))
  {
  }

  lemma LogShape(s: State, log: Log)
    requires Shape(s)
    ensures Shape(s.(log := log))
  {
  }

  lemma LostShape(s: State, b: Block)
    requires Shape(s) && s.poolUsed == NODE_POOL
    ensures Shape(s.(lost := s.lost + [b]))
  {
  }

  lemma Sizes(s: State)
    requires Shape(s)
    ensures |s.free| == MAX_ORDER + 1 && |s.slots| == MAX_RECORDS && s.maxOrder <= MAX_ORDER && s.poolUsed <= NODE_POOL
    ensures forall o, i :: 0 <= o <= MAX_ORDER && 0 <= i < |s.free[o]| ==> s.base <= s.free[o][i]
    ensures forall j :: 0 <= j < MAX_RECORDS && s.slots[j].used ==>
              s.base <= s.slots[j].addr && s.slots[j].order <= s.maxOrder
    ensures forall o :: s.maxOrder < o <= MAX_ORDER ==> s.free[o] == []
  {
  }

  lemma LogOnly(s: State, log: Log)
    ensures AllBlocks(s.(log := log)) == AllBlocks(s)
  {
  }

  /** The free lists after a push that finds a node. */
  lemma {:induction false} PushFree(free: seq<seq<nat>>, o: nat, a: nat)
    requires o < |free|
    ensures FreeBlocks(free[o := [a] + free[o]], 0) == FreeBlocks(free, 0) + multiset{Block(o, a)}
  {
    hide FreeBlocks, ListBlocks;
    ListStep(o, a, free[o]);
    Commute(multiset{Block(o, a)}, ListBlocks(o, free[o]));
    ListGains(free, o, [a] + free[o], multiset{Block(o, a)});
  }

  lemma Commute(x: multiset<Block>, y: multiset<Block>)
    ensures x + y == y + x
  {
  }

  lemma LostGains(lost: seq<Block>, b: Block)
    ensures multiset(lost + [b]) == multiset(lost) + multiset{b}
  {
  }

  /** Pushing adds one block, to a list or to the lost ones. */
  lemma {:induction false} PushAdds(s: State, o: nat, a: nat)
    requires o < |s.free|
    ensures AllBlocks(Push(s, o, a)) == AllBlocks(s) + multiset{Block(o, a)}
    ensures |FreeBlocks(Push(s, o, a).free, 0)| <= |FreeBlocks(s.free, 0)| + 1
  {
    hide FreeBlocks, UsedBlocks;
    var b := multiset{Block(o, a)};
    SumGains(FreeBlocks(s.free, 0), UsedBlocks(s.slots, 0), multiset(s.lost), b);
    if s.poolUsed < NODE_POOL {
      PushFree(s.free, o, a);
    } else {
      LostGains(s.lost, Block(o, a));
    }
  }

  lemma PopShape(s: State, o: nat)
    requires Shape(s) && o <= s.maxOrder && s.free[o] != []
    ensures Shape(Pop(s, o))
  {
  }

  lemma {:induction false} PopTakes(s: State, o: nat)
    requires o < |s.free| && s.free[o] != []
    ensures AllBlocks(s) == AllBlocks(Pop(s, o)) + multiset{Block(o, s.free[o][0])}
    ensures |FreeBlocks(s.free, 0)| == |FreeBlocks(Pop(s, o).free, 0)| + 1
  {
    hide FreeBlocks, ListBlocks, UsedBlocks;
    var x, xs := s.free[o][0], s.free[o][1..];
    var b := multiset{Block(o, x)};
    assert s.free[o] == [x] + xs;
    ListStep(o, x, xs);
    Commute(b, ListBlocks(o, xs));
    ListLoses(s.free, o, xs, b);
    SumGains(FreeBlocks(s.free[o := xs], 0), UsedBlocks(s.slots, 0), multiset(s.lost), b);
  }

  lemma {:induction false} TakePair(s: State, o: nat, i: nat, j: nat)
    requires o < |s.free| && i < |s.free[o]| && j < |s.free[o]| && i != j
    ensures var r := s.(free := s.free[o := RemoveTwo(s.free[o], i, j)]);
            var pair := multiset{Block(o, s.free[o][i]), Block(o, s.free[o][j])};
            && FreeBlocks(s.free, 0) == FreeBlocks(r.free, 0) + pair
            && AllBlocks(s) == AllBlocks(r) + pair
  {
    hide FreeBlocks, ListBlocks, UsedBlocks, RemoveTwo;
    var xs := RemoveTwo(s.free[o], i, j);
    var pair := multiset{Block(o, s.free[o][i]), Block(o, s.free[o][j])};
    ListRemoveTwo(o, s.free[o], i, j);
    ListLoses(s.free, o, xs, pair);
    SumGains(FreeBlocks(s.free[o := xs], 0), UsedBlocks(s.slots, 0), multiset(s.lost), pair);
  }

  lemma {:induction false} RemoveTwoFrom(xs: seq<nat>, i: nat, j: nat)
    requires i < |xs| && j < |xs| && i != j
    ensures forall x :: x in RemoveTwo(xs, i, j) ==> x in xs
  {
    forall x | x in RemoveTwo(xs, i, j)
      ensures x in xs
    {
      assert x in RemoveAt(xs, i);
    }
  }

  lemma ListShape(s: State, o: nat, xs: seq<nat>, log: Log)
    requires Shape(s) && o <= s.maxOrder
    requires forall x :: x in xs ==> x in s.free[o]
    ensures Shape(s.(free := s.free[o := xs], log := log))
  {
    forall i | 0 <= i < |xs|
      ensures s.base <= xs[i]
    {
      assert xs[i] in s.free[o];
    }
  }

  lemma RemoveShape(s: State, o: nat, k: nat)
    requires Shape(s) && o <= s.maxOrder && k < |s.free[o]|
    ensures Shape(s.(free := s.free[o := RemoveAt(s.free[o], k)]))
  {
    forall x | x in RemoveAt(s.free[o], k) ensures x in s.free[o] {}
    hide RemoveAt;
    ListShape(s, o, RemoveAt(s.free[o], k), s.log);
    assert s.(free := s.free[o := RemoveAt(s.free[o], k)], log := s.log) == s.(free := s.free[o := RemoveAt(s.free[o], k)]);
  }

  lemma EmptyAbove(s: State, o: nat)
    requires Shape(s) && o <= MAX_ORDER
    ensures o > s.maxOrder ==> s.free[o] == []
  {
  }

  lemma RemoveFirst(xs: seq<nat>)
    requires xs != []
    ensures RemoveAt(xs, 0) == xs[1..]
  {
  }

  /** A merge keeps the shape and leaves fewer free blocks. */
  lemma {:induction false} MergeShape(s: State, o: nat, i: nat, j: nat)
    requires Shape(s) && o < s.maxOrder && i < |s.free[o]| && j < |s.free[o]| && i != j
    ensures var r := MergeAt(s, o, i, j);
            && Shape(r) && SameBelow(s, r, o)
            && r.free[o] == RemoveTwo(s.free[o], i, j)
            && |FreeBlocks(r.free, 0)| < |FreeBlocks(s.free, 0)|
  {
    hide FreeBlocks, RemoveTwo;
    var xs := RemoveTwo(s.free[o], i, j);
    var a, b := s.free[o][i], s.free[o][j];
    var lo := if a < b then a else b;
    var log := s.log.(merges := s.log.merges + 1);
    RemoveTwoFrom(s.free[o], i, j);
    ListShape(s, o, xs, log);
    PushShape(s.(free := s.free[o := xs], log := log), o + 1, lo);
    MergeCount(s, o, i, j);
  }

  lemma {:induction false} MergeCount(s: State, o: nat, i: nat, j: nat)
    requires o + 1 < |s.free| && i < |s.free[o]| && j < |s.free[o]| && i != j
    ensures |FreeBlocks(MergeAt(s, o, i, j).free, 0)| < |FreeBlocks(s.free, 0)|
  {
    hide FreeBlocks, RemoveTwo, Push, AllBlocks;
    var a, b := s.free[o][i], s.free[o][j];
    var xs := RemoveTwo(s.free[o], i, j);
    var pair := multiset{Block(o, a), Block(o, b)};
    TakePair(s, o, i, j);
    PairCount(FreeBlocks(s.free[o := xs], 0), Block(o, a), Block(o, b));
    PushAdds(s.(free := s.free[o := xs], log := s.log.(merges := s.log.merges + 1)),
             o + 1, if a < b then a else b);
  }

  lemma PairCount(m: multiset<Block>, x: Block, y: Block)
    ensures |m + multiset{x, y}| == |m| + 2
  {
  }

  /** A merge replaces two blocks by one. */
  lemma {:induction false} MergeBlocks(s: State, o: nat, i: nat, j: nat)
    requires o + 1 < |s.free| && i < |s.free[o]| && j < |s.free[o]| && i != j
    ensures var a, b := s.free[o][i], s.free[o][j];
            var rest := AllBlocks(s.(free := s.free[o := RemoveTwo(s.free[o], i, j)]));
            && AllBlocks(s) == rest + multiset{Block(o, a), Block(o, b)}
            && AllBlocks(MergeAt(s, o, i, j)) == rest + multiset{Block(o + 1, if a < b then a else b)}
  {
    hide AllBlocks, FreeBlocks, RemoveTwo, Push;
    var a, b := s.free[o][i], s.free[o][j];
    var s0 := s.(free := s.free[o := RemoveTwo(s.free[o], i, j)]);
    var s1 := s0.(log := s.log.(merges := s.log.merges + 1));
    LogOnly(s0, s1.log);
    TakePair(s, o, i, j);
    PushAdds(s1, o + 1, if a < b then a else b);
  }

  lemma {:induction false} SplitDownSizes(s: State, t: nat, order: nat)
    requires t < |s.free|
    ensures SplitDown(s, t, order).1 <= t
    ensures |SplitDown(s, t, order).0.free| == |s.free|
    ensures SplitDown(s, t, order).0.slots == s.slots
    decreases t
  {
    if t > order && s.free[t] != [] {
      SplitDownSizes(SplitHead(s, t), t - 1, order);
    }
  }
}
