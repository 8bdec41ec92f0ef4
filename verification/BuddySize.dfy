/** Request sizes and block addresses of the buddy allocator (libgpu_core/src/buddy.c). */
module BuddySize {
  import opened Bits

  const MIN_BLOCK_SHIFT: nat := 12
  const MAX_ORDER: nat := 21

  /** Bytes in a block of order `o`: `GPU_BUDDY_MIN_BLOCK_SIZE << o`. */
  function Size(o: nat): (r: nat)
    ensures r >= 1
  {
    Pow2(MIN_BLOCK_SHIFT + o)
  }

  lemma {:induction false} SizeStep(o: nat)
    ensures Size(o + 1) == 2 * Size(o)
  {
  }

  lemma {:induction false} SizeMono(o: nat, o': nat)
    requires o <= o'
    ensures Size(o) <= Size(o')
    ensures o < o' ==> 2 * Size(o) <= Size(o')
  {
    Pow2Mono(MIN_BLOCK_SHIFT + o, MIN_BLOCK_SHIFT + o');
  }

  lemma {:induction false} SizeZero()
    ensures Size(0) == 4096
  {
    assert Pow2(12) == 4096 by {
      assert Pow2(4) == 16;
      Pow2Add(4, 4);
      Pow2Add(8, 4);
    }
  }

  /** The or-shift steps of `round_up_pow2`, shifting by w, 2w, 4w, ... below 64. */
  function SmearFrom(n: nat, w: nat): nat
    requires w >= 1
    decreases 64 - w
  {
    if w >= 64 then n else SmearFrom(Or(n, Shr(n, w)), 2 * w)
  }

  /** The six steps (by 1, 2, 4, 8, 16, 32) that copy the top bit into every lower bit. */
  function Smear(n: nat): nat { SmearFrom(n, 1) }

  /** Adding one to a word of the given width; the largest word wraps to 0. */
  function Increment(word: nat, width: nat): nat {
    if word + 1 == Pow2(width) then 0 else word + 1
  }

  /** `round_up_pow2` on 64-bit words. */
  function RoundUpPow2(size: nat): nat {
    if size == 0 then Size(0) else Increment(Smear(size - 1), 64)
  }

  /** The least order whose block covers `size`. */
  function LeastOrder(size: nat): (o: nat)
    ensures size <= Size(o)
    ensures o > 0 ==> Size(o - 1) < size
  {
    SizeZero();
    if size <= Size(0) then 0
    else
      var o := LeastOrder((size + 1) / 2);
      SizeStep(o);
      if o > 0 then SizeStep(o - 1); o + 1 else o + 1
  }

  /** `order_for_size`, and the order of a region in `gpu_buddy_init`: capped at MAX_ORDER. */
  function OrderForSize(size: nat): (o: nat)
    ensures o <= MAX_ORDER
    ensures size <= Size(o) || o == MAX_ORDER
    ensures o > 0 ==> Size(o - 1) < size
  {
    var o := LeastOrder(size);
    if o > MAX_ORDER then SizeMono(MAX_ORDER, o - 1); SizeMono(MAX_ORDER - 1, MAX_ORDER); MAX_ORDER else o
  }

  /** An order that covers `size` while no smaller one does is the least one. */
  lemma LeastOrderUnique(size: nat, o: nat)
    requires size <= Size(o) && (o > 0 ==> Size(o - 1) < size)
    ensures o == LeastOrder(size)
  {
    hide LeastOrder, Size;
    var m := LeastOrder(size);
    if m < o { SizeMono(m, o - 1); }
    if o < m { SizeMono(o, m - 1); }
  }

  /** The size `gpu_buddy_alloc` works with: rounded up, and at least the smallest block. */
  function AlignedSize(size: nat): nat {
    var r := RoundUpPow2(size);
    if r < Size(0) then Size(0) else r
  }

  function RequestOrder(size: nat): nat { OrderForSize(AlignedSize(size)) }

  ghost predicate SomeBit(n: nat, lo: nat, hi: nat) {
    exists j: nat :: lo <= j < hi && Bit(n, j)
  }

  /** Bit `i` of `m` says whether one of the bits `i .. i + w - 1` of `n` is set. */
  ghost predicate Spread(m: nat, n: nat, w: nat) {
    forall i: nat :: Bit(m, i) <==> SomeBit(n, i, i + w)
  }

  /** One or-shift step doubles the distance over which bits have been copied. */
  lemma {:induction false} SpreadDoubles(m: nat, n: nat, w: nat)
    requires Spread(m, n, w)
    ensures Spread(Or(m, Shr(m, w)), n, 2 * w)
  {
    var r := Or(m, Shr(m, w));
    forall i: nat
      ensures Bit(r, i) <==> SomeBit(n, i, i + 2 * w)
    {
      OrBit(m, Shr(m, w), i);
      BitShift(m, w, i);
      assert Bit(m, i) <==> SomeBit(n, i, i + w);
      assert Bit(m, i + w) <==> SomeBit(n, i + w, i + w + w);
      assert SomeBit(n, i, i + 2 * w) <==> SomeBit(n, i, i + w) || SomeBit(n, i + w, i + w + w);
    }
  }

  lemma {:induction false} SmearSpreads(m: nat, n: nat, w: nat) returns (w': nat)
    requires w >= 1 && Spread(m, n, w)
    ensures w' >= 64 && Spread(SmearFrom(m, w), n, w')
    decreases 64 - w
  {
    if w >= 64 {
      w' := w;
    } else {
      SpreadDoubles(m, n, w);
      w' := SmearSpreads(Or(m, Shr(m, w)), n, 2 * w);
    }
  }

  /** Smearing a word fills every bit from its top bit down. */
  lemma {:induction false} SmearFills(n: nat, t: nat)
    requires t < 64 && Bit(n, t) && forall j: nat :: t < j ==> !Bit(n, j)
    ensures Smear(n) == Pow2(t + 1) - 1
  {
    forall i: nat
      ensures Bit(n, i) <==> SomeBit(n, i, i + 1)
    {
    }
    assert Spread(n, n, 1);
    var w := SmearSpreads(n, n, 1);
    var m, ones := Smear(n), Pow2(t + 1) - 1;
    forall i: nat
      ensures Bit(m, i) == Bit(ones, i)
    {
      OnesBit(t + 1, i);
      assert Bit(m, i) <==> SomeBit(n, i, i + w);
    }
    SameBits(m, ones);
  }

  lemma {:induction false} ShrZero(k: nat)
    ensures Shr(0, k) == 0
  {
    if k > 0 { ShrZero(k - 1); }
  }

  lemma {:induction false} SmearZero(w: nat)
    requires w >= 1
    ensures SmearFrom(0, w) == 0
    decreases 64 - w
  {
    if w < 64 {
      ShrZero(w);
      SmearZero(2 * w);
    }
  }

  lemma {:induction false} IncrementOnes(n: nat, t: nat, width: nat)
    requires t < width && Pow2(t) <= n < Pow2(t + 1)
    ensures n + 1 <= Pow2(t + 1)
    ensures Increment(Pow2(t + 1) - 1, width) == if t + 1 < width then Pow2(t + 1) else 0
    ensures t + 1 == width <==> n >= Pow2(width - 1)
  {
    Pow2Mono(t + 1, width);
    if t + 1 < width { Pow2Mono(t + 1, width - 1); }
  }

  lemma {:induction false} RoundUpAt(size: nat, width: nat) returns (p: nat)
    requires 1 <= size < Pow2(width) && 0 < width <= 64
    ensures p <= width
    ensures p > 0 ==> Pow2(p - 1) < size
    ensures size <= Pow2(p)
    ensures Increment(Smear(size - 1), width) == if p < width then Pow2(p) else 0
    ensures p == width <==> size > Pow2(width - 1)
  {
    if size == 1 {
      p := 0;
      SmearZero(1);
      assert Smear(0) == 0;
      Pow2Mono(1, width);
      assert Pow2(0) == 1 && Pow2(1) == 2;
    } else {
      var t := TopBit(size - 1, width);
      SmearFills(size - 1, t);
      p := t + 1;
      IncrementOnes(size - 1, t, width);
    }
  }

  /** For every 64-bit size up to 2^63 the result is the least power of two that is not
      smaller; above 2^63 the increment wraps and the result is 0. */
  lemma {:induction false} RoundUpPow2IsLeast(size: nat) returns (p: nat)
    requires 1 <= size < Pow2(64)
    ensures p <= 64
    ensures p > 0 ==> Pow2(p - 1) < size
    ensures size <= Pow2(p)
    ensures RoundUpPow2(size) == if p < 64 then Pow2(p) else 0
    ensures p == 64 <==> size > Pow2(63)
  {
    p := RoundUpAt(size, 64);
  }

  /** The least power of two not below `size` fits in exactly the blocks that `size` fits in. */
  lemma {:induction false} LeastPowerFits(size: nat, p: nat, o: nat)
    requires size <= Pow2(p) && (p > 0 ==> Pow2(p - 1) < size)
    ensures size <= Size(o) <==> Pow2(p) <= Size(o)
  {
    if p > MIN_BLOCK_SHIFT + o {
      Pow2Mono(MIN_BLOCK_SHIFT + o, p - 1);
    } else {
      Pow2Mono(p, MIN_BLOCK_SHIFT + o);
    }
  }

  /** The aligned size has the same least covering order as the request itself. */
  lemma {:induction false} AlignedSizeCovers(size: nat, o: nat)
    requires 1 <= size <= Pow2(63)
    ensures size <= Size(o) <==> AlignedSize(size) <= Size(o)
  {
    assert size < Pow2(64) by { Pow2Mono(63, 64); }
    var p := RoundUpPow2IsLeast(size);
    LeastPowerFits(size, p, o);
    SizeMono(0, o);
  }

  /** The order of a request that does not wrap. */
  lemma {:induction false} RequestOrderLeast(size: nat)
    requires 1 <= size <= Pow2(63)
    ensures RequestOrder(size) == OrderForSize(size)
  {
    hide AlignedSize, Size, LeastOrder;
    var a, m := AlignedSize(size), LeastOrder(size);
    AlignedSizeCovers(size, m);
    if m > 0 { AlignedSizeCovers(size, m - 1); }
    LeastOrderUnique(a, m);
  }

  /** A request past the wrap is given the smallest order. */
  lemma {:induction false} RequestOrderWraps(size: nat)
    requires Pow2(63) < size < Pow2(64)
    ensures RequestOrder(size) == 0
  {
    var p := RoundUpPow2IsLeast(size);
    hide Size, LeastOrder;
    assert AlignedSize(size) == Size(0);
    LeastOrderUnique(Size(0), 0);
  }

  /** Exactly the requests up to the largest block are covered by the order chosen for them,
      and then that order is the smallest that covers them.  A larger request is given a
      largest block (up to 2^63) or, past the wrap, a smallest one. */
  lemma {:induction false} RequestOrderCovers(size: nat)
    requires 1 <= size < Pow2(64)
    ensures RequestOrder(size) <= MAX_ORDER
    ensures size <= Size(RequestOrder(size)) <==> size <= Size(MAX_ORDER)
    ensures size <= Size(MAX_ORDER) ==> forall o: nat :: o < RequestOrder(size) ==> Size(o) < size
    ensures Size(MAX_ORDER) < size <= Pow2(63) ==> RequestOrder(size) == MAX_ORDER
    ensures Pow2(63) < size ==> RequestOrder(size) == 0
  {
    hide AlignedSize, Size, LeastOrder, OrderForSize, Pow2;
    LargestBelowWord();
    var r := RequestOrder(size);
    SizeMono(r, MAX_ORDER);
    if size <= Pow2(63) {
      RequestOrderLeast(size);
      forall o: nat | o < r
        ensures Size(o) < size
      {
        SizeMono(o, r - 1);
      }
    } else {
      RequestOrderWraps(size);
      SizeMono(0, MAX_ORDER);
    }
  }

  lemma LargestBelowWord()
    ensures Size(MAX_ORDER) <= Pow2(63)
  {
    Pow2Mono(MIN_BLOCK_SHIFT + MAX_ORDER, 63);
  }

  /** `buddy_addr`: exclusive-or of the offset with the block size. */
  function BuddyAddr(base: nat, addr: nat, o: nat): nat
    requires base <= addr
  {
    base + Xor(addr - base, Size(o))
  }

  /** `are_adjacent`. */
  predicate AreAdjacent(a: nat, b: nat, o: nat) {
    a + Size(o) == b || b + Size(o) == a
  }

  /** An offset is aligned to order `o` when the block size divides it. */
  predicate Aligned(off: nat, o: nat) { off % Size(o) == 0 }

  /** The buddy of an aligned block is the other half of the enclosing block of the next
      order: same size, adjacent, and buddy of its buddy. */
  lemma {:induction false} BuddyIsOtherHalf(base: nat, addr: nat, o: nat)
    requires base <= addr && Aligned(addr - base, o)
    ensures BuddyAddr(base, addr, o) ==
            if Aligned(addr - base, o + 1) then addr + Size(o) else addr - Size(o)
    ensures !Aligned(addr - base, o + 1) ==>
              addr - base >= Size(o) && Aligned(addr - Size(o) - base, o + 1)
    ensures base <= BuddyAddr(base, addr, o)
    ensures Aligned(BuddyAddr(base, addr, o) - base, o)
    ensures AreAdjacent(addr, BuddyAddr(base, addr, o), o)
    ensures BuddyAddr(base, BuddyAddr(base, addr, o), o) == addr
  {
    hide Xor, Bit, Pow2, Aligned;
    var off, s := addr - base, Size(o);
    HalfBit(off, o);
    XorPow2(off, MIN_BLOCK_SHIFT + o);
    var other := BuddyAddr(base, addr, o) - base;
    AlignedNeighbour(off, other, o);
    HalfBit(other, o);
    XorPow2(other, MIN_BLOCK_SHIFT + o);
    SizeStep(o);
    AlignedWeaken(off, o);
    if Aligned(off, o + 1) {
      OddMultiple(off, o);
    } else {
      EvenBelowOdd(off, o);
    }
  }

  /** An aligned offset is aligned to the next order too when its block number is even. */
  lemma {:induction false} AlignedEven(off: nat, o: nat)
    requires Aligned(off, o)
    ensures Aligned(off, o + 1) <==> (off / Size(o)) % 2 == 0
  {
    var s := Size(o);
    var q := off / s;
    SizeStep(o);
    assert off == q * s;
    var h, b := q / 2, q % 2;
    assert (2 * h + b) * s == h * (2 * s) + b * s;
    assert b * s == if b == 1 then s else 0;
    QuotientUnique(off, 2 * s, h, b * s);
  }

  /** For an aligned offset, bit `12 + o` tells whether its block number is odd. */
  lemma {:induction false} HalfBit(off: nat, o: nat)
    requires Aligned(off, o)
    ensures Bit(off, MIN_BLOCK_SHIFT + o) <==> !Aligned(off, o + 1)
  {
    BitIsQuotient(off, MIN_BLOCK_SHIFT + o);
    AlignedEven(off, o);
  }

  lemma {:induction false} AlignedNeighbour(a: nat, b: nat, o: nat)
    requires Aligned(a, o) && (b == a + Size(o) || a == b + Size(o))
    ensures Aligned(b, o)
  {
    var s := Size(o);
    var q := a / s;
    assert a == q * s;
    if b == a + s {
      assert b == (q + 1) * s;
      QuotientUnique(b, s, q + 1, 0);
    } else {
      assert b == (q - 1) * s;
      QuotientUnique(b, s, q - 1, 0);
    }
  }

  lemma {:induction false} AlignedWeaken(off: nat, o: nat)
    ensures Aligned(off, o + 1) ==> Aligned(off, o)
  {
    if Aligned(off, o + 1) {
      var q := off / Size(o + 1);
      SizeStep(o);
      assert off == q * (2 * Size(o)) == (2 * q) * Size(o);
      QuotientUnique(off, Size(o), 2 * q, 0);
    }
  }

  /** The upper half of an aligned block is not aligned to the block's own order. */
  lemma {:induction false} OddMultiple(off: nat, o: nat)
    requires Aligned(off, o + 1)
    ensures Aligned(off + Size(o), o) && !Aligned(off + Size(o), o + 1)
  {
    var q := off / Size(o + 1);
    SizeStep(o);
    assert off == q * Size(o + 1);
    QuotientUnique(off + Size(o), Size(o + 1), q, Size(o));
    AlignedWeaken(off, o);
    AlignedNeighbour(off, off + Size(o), o);
  }

  lemma {:induction false} EvenBelowOdd(off: nat, o: nat)
    requires Aligned(off, o) && !Aligned(off, o + 1)
    ensures off >= Size(o) && Aligned(off - Size(o), o + 1)
  {
    var s := Size(o);
    var q := off / s;
    AlignedEven(off, o);
    assert off == q * s;
    assert q % 2 == 1;
    assert q * s == (q - 1) * s + s;
    assert (q - 1) * s >= 0;
    QuotientUnique(off - s, s, q - 1, 0);
    AlignedEven(off - s, o);
  }

  /** Multiples of `s` and of `c * s` whose intervals overlap are nested. */
  lemma {:induction false} MultiplesNest(q: int, r: int, c: int, s: int, x: int)
    requires s > 0 && c > 0
    requires q * s <= x < q * s + s
    requires r * (c * s) <= x < r * (c * s) + c * s
    ensures r * (c * s) <= q * s && q * s + s <= r * (c * s) + c * s
  {
    var d := q - r * c;
    assert r * (c * s) == (r * c) * s;
    assert q * s - (r * c) * s == d * s;
    MulGrows(d, s);
    var e := d + 1 - c;
    assert e * s == d * s + s - c * s;
    MulGrows(e, s);
  }

  /** Aligned blocks nest: one that overlaps a block of no greater order lies inside it. */
  lemma {:induction false} AlignedNest(a: nat, i: nat, b: nat, j: nat, x: nat)
    requires Aligned(a, i) && Aligned(b, j) && i <= j
    requires a <= x < a + Size(i) && b <= x < b + Size(j)
    ensures b <= a && a + Size(i) <= b + Size(j)
  {
    var c := Pow2(j - i);
    assert Size(j) == c * Size(i) by { Pow2Add(j - i, MIN_BLOCK_SHIFT + i); }
    var s := Size(i);
    var q, r := a / s, b / (c * s);
    assert a == q * s;
    assert b == r * (c * s);
    MultiplesNest(q, r, c, s, x);
  }
}
