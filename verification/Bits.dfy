/** Bitwise arithmetic on natural numbers.

    The C sources use `^`, `|`, `&`, `<<` and `>>` on unsigned words.  Here a word is a
    natural number and the operators are defined bit by bit; a shift is a product with, or
    a quotient by, a power of two. */
module Bits {

  function Pow2(n: nat): (r: nat)
    ensures r >= 1
  {
    if n == 0 then 1 else 2 * Pow2(n - 1)
  }

  /** Bit `i` of `a`. */
  predicate Bit(a: nat, i: nat) {
    if i == 0 then a % 2 == 1 else Bit(a / 2, i - 1)
  }

  function Xor(a: nat, b: nat): nat {
    if a == 0 && b == 0 then 0
    else 2 * Xor(a / 2, b / 2) + (if a % 2 != b % 2 then 1 else 0)
  }

  function Or(a: nat, b: nat): nat {
    if a == 0 && b == 0 then 0
    else 2 * Or(a / 2, b / 2) + (if a % 2 == 1 || b % 2 == 1 then 1 else 0)
  }

  /** `a & ~b`. */
  function AndNot(a: nat, b: nat): nat {
    if a == 0 then 0
    else 2 * AndNot(a / 2, b / 2) + (if a % 2 == 1 && b % 2 == 0 then 1 else 0)
  }

  lemma {:induction false} Pow2Add(m: nat, n: nat)
    ensures Pow2(m + n) == Pow2(m) * Pow2(n)
  {
    if m > 0 {
      Pow2Add(m - 1, n);
      assert Pow2(m + n) == 2 * Pow2(m - 1 + n);
    }
  }

  lemma {:induction false} Pow2Mono(m: nat, n: nat)
    requires m <= n
    ensures Pow2(m) <= Pow2(n)
    ensures m < n ==> 2 * Pow2(m) <= Pow2(n)
    decreases n - m
  {
    if m < n {
      Pow2Mono(m, n - 1);
    }
  }

  /** Dividing by two and then by `Pow2(k)` is dividing by `Pow2(k + 1)`. */
  lemma DivPow2(a: nat, k: nat)
    ensures a / Pow2(k + 1) == (a / 2) / Pow2(k)
  {
    var p := Pow2(k);
    var q := (a / 2) / p;
    var r := (a / 2) % p;
    assert a / 2 == q * p + r && 0 <= r < p;
    assert a == q * (2 * p) + (2 * r + a % 2) by {
      assert a == 2 * (a / 2) + a % 2;
      assert 2 * (q * p) == q * (2 * p);
    }
    QuotientUnique(a, 2 * p, q, 2 * r + a % 2);
  }

  lemma QuotientUnique(a: int, d: int, q: int, r: int)
    requires d > 0 && a == q * d + r && 0 <= r < d
    ensures a / d == q && a % d == r
  {
    var q', r' := a / d, a % d;
    assert a == q' * d + r' && 0 <= r' < d;
    assert (q - q') * d == r' - r;
    MulGrows(q - q', d);
  }

  lemma MulGrows(k: int, d: int)
    requires d > 0
    ensures k >= 1 ==> k * d >= d
    ensures k <= -1 ==> k * d <= -d
  {
    if k >= 1 {
      assert (k - 1) * d >= 0;
    } else if k <= -1 {
      assert (k + 1) * d <= 0;
    }
  }

  lemma {:induction false} BitIsQuotient(a: nat, i: nat)
    ensures Bit(a, i) <==> (a / Pow2(i)) % 2 == 1
    decreases i
  {
    if i > 0 {
      BitIsQuotient(a / 2, i - 1);
      DivPow2(a, i - 1);
    }
  }

  /** `a >> k`. */
  function Shr(a: nat, k: nat): nat
    decreases k
  {
    if k == 0 then a else Shr(a / 2, k - 1)
  }

  lemma {:induction false} BitShift(a: nat, k: nat, i: nat)
    ensures Bit(Shr(a, k), i) == Bit(a, i + k)
    decreases k
  {
    if k > 0 { BitShift(a / 2, k - 1, i); }
  }

  lemma {:induction false} OrBit(a: nat, b: nat, i: nat)
    ensures Bit(Or(a, b), i) <==> Bit(a, i) || Bit(b, i)
    decreases i
  {
    var r := Or(a, b);
    assert r / 2 == Or(a / 2, b / 2);
    if i > 0 {
      OrBit(a / 2, b / 2, i - 1);
    }
  }

  lemma {:induction false} AndNotBit(a: nat, b: nat, i: nat)
    ensures Bit(AndNot(a, b), i) <==> Bit(a, i) && !Bit(b, i)
    decreases i
  {
    var r := AndNot(a, b);
    assert r / 2 == AndNot(a / 2, b / 2);
    if i > 0 {
      AndNotBit(a / 2, b / 2, i - 1);
    }
  }

  lemma {:induction false} ZeroBits(i: nat)
    ensures !Bit(0, i)
  {
    if i > 0 { ZeroBits(i - 1); }
  }

  /** A power of two has exactly one bit set. */
  lemma {:induction false} Pow2Bit(k: nat, i: nat)
    ensures Bit(Pow2(k), i) <==> i == k
    decreases k
  {
    if k == 0 {
      if i > 0 { ZeroBits(i - 1); }
    } else if i > 0 {
      assert Pow2(k) / 2 == Pow2(k - 1);
      Pow2Bit(k - 1, i - 1);
    }
  }

  /** Bits below `n` only: a word below `Pow2(n)` has no bit at or above `n`. */
  lemma {:induction false} HighBitsClear(a: nat, n: nat, i: nat)
    requires a < Pow2(n) && n <= i
    ensures !Bit(a, i)
    decreases n
  {
    if n == 0 {
      ZeroBits(i);
    } else {
      HighBitsClear(a / 2, n - 1, i - 1);
    }
  }

  /** Two words with the same bits are the same word. */
  lemma {:induction false} SameBits(a: nat, b: nat)
    requires forall i: nat :: Bit(a, i) == Bit(b, i)
    ensures a == b
    decreases a + b
  {
    if a + b > 0 {
      assert Bit(a, 0) == Bit(b, 0);
      forall i: nat
        ensures Bit(a / 2, i) == Bit(b / 2, i)
      {
        assert Bit(a, i + 1) == Bit(b, i + 1);
      }
      SameBits(a / 2, b / 2);
    }
  }

  lemma {:induction false} OnesBit(n: nat, i: nat)
    ensures Bit(Pow2(n) - 1, i) <==> i < n
    decreases n
  {
    if n == 0 {
      ZeroBits(i);
    } else {
      assert (Pow2(n) - 1) / 2 == Pow2(n - 1) - 1;
      if i > 0 { OnesBit(n - 1, i - 1); }
    }
  }

  /** The highest set bit of a positive word. */
  lemma {:induction false} TopBit(a: nat, n: nat) returns (t: nat)
    requires 0 < a < Pow2(n)
    ensures t < n && Pow2(t) <= a < Pow2(t + 1)
    ensures Bit(a, t) && forall j :: t < j ==> !Bit(a, j)
    decreases n
  {
    if a == 1 {
      t := 0;
      if n == 0 { assert false; }
      assert Pow2(0) == 1 && Pow2(1) == 2;
      forall j | 0 < j ensures !Bit(a, j) { ZeroBits(j - 1); }
    } else {
      var t' := TopBit(a / 2, n - 1);
      t := t' + 1;
      forall j | t < j
        ensures !Bit(a, j)
      {
        assert !Bit(a / 2, j - 1);
      }
    }
  }

  lemma {:induction false} XorZero(a: nat)
    ensures Xor(a, 0) == a
  {
    if a > 0 { XorZero(a / 2); }
  }

  /** Exclusive-or with a power of two adds it or takes it away. */
  lemma {:induction false} XorPow2(a: nat, k: nat)
    ensures Bit(a, k) ==> a >= Pow2(k)
    ensures Xor(a, Pow2(k)) == if Bit(a, k) then a - Pow2(k) else a + Pow2(k)
    decreases k
  {
    if k == 0 {
      XorZero(a / 2);
      assert Pow2(0) == 1;
    } else {
      XorPow2(a / 2, k - 1);
      assert Pow2(k) == 2 * Pow2(k - 1);
      assert Xor(a, Pow2(k)) == 2 * Xor(a / 2, Pow2(k - 1)) + a % 2;
    }
  }
}
