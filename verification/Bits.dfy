/** Python's bit operations, and the reading of a number as its bits. */
module Bits {
  import opened Radix

  /** `x & m` for a non-negative mask; `/` and `%` by 2 floor, as Python's `>>` does. */
  function BitAnd(x: int, m: nat): (r: nat)
    ensures r <= m
    decreases m, x
  {
    if m == 0 then 0 else (x % 2) * (m % 2) + 2 * BitAnd(x / 2, m / 2)
  }

  function BitOr(x: nat, y: nat): nat
    decreases x
  {
    if x == 0 then y
    else (if x % 2 == 1 || y % 2 == 1 then 1 else 0) + 2 * BitOr(x / 2, y / 2)
  }

  /** `x & ~m`. */
  function BitClear(x: nat, m: nat): nat
    decreases x
  {
    if x == 0 then 0
    else (if m % 2 == 1 then 0 else x % 2) + 2 * BitClear(x / 2, m / 2)
  }

  /** x ^ y. */
  function BitXor(x: nat, y: nat): nat
    decreases x, y
  {
    if x == 0 then y
    else (if x % 2 != y % 2 then 1 else 0) + 2 * BitXor(x / 2, y / 2)
  }

  lemma {:induction false} XorHalves(x: nat, y: nat)
    ensures BitXor(x, y) / 2 == BitXor(x / 2, y / 2)
    ensures BitXor(x, y) % 2 == 1 <==> x % 2 != y % 2
  {
  }

  lemma {:induction false} XorFits(x: nat, y: nat, w: nat)
    requires x < Pow(2, w) && y < Pow(2, w)
    ensures BitXor(x, y) < Pow(2, w)
    decreases w
  {
    if w > 0 {
      XorFits(x / 2, y / 2, w - 1);
    }
  }

  lemma {:induction false} XorTwice(x: nat, y: nat)
    ensures BitXor(BitXor(x, y), y) == x
    decreases x + y
  {
    if x == 0 {
      XorSelf(y);
    } else {
      XorHalves(x, y);
      XorTwice(x / 2, y / 2);
      XorHalves(BitXor(x, y), y);
    }
  }

  lemma {:induction false} XorSelf(y: nat)
    ensures BitXor(y, y) == 0
  {
    if y > 0 {
      XorSelf(y / 2);
    }
  }

  function Shl(x: nat, k: nat): nat
    decreases k, x
  {
    if k == 0 then x else 2 * Shl(x, k - 1)
  }

  function Shr(x: int, k: nat): (y: int)
    ensures x >= 0 ==> y >= 0
    decreases k, x
  {
    if k == 0 then x else Shr(x / 2, k - 1)
  }

  /** Bit `i` of a number, in two's complement for a negative one. */
  predicate Bit(x: int, i: nat)
    decreases i, x
  {
    if i == 0 then x % 2 == 1 else Bit(x / 2, i - 1)
  }

  /** `k` ones. */
  function Mask(k: nat): nat
  {
    if k == 0 then 0 else 2 * Mask(k - 1) + 1
  }

  // ---------- Each operation, bit by bit ----------

  lemma {:induction false} ZeroBit(i: nat)
    ensures !Bit(0, i)
  {
    if i > 0 {
      ZeroBit(i - 1);
    }
  }

  lemma {:induction false} AndBit(x: int, m: nat, i: nat)
    ensures Bit(BitAnd(x, m), i) <==> Bit(x, i) && Bit(m, i)
    decreases i
  {
    if m == 0 {
      ZeroBit(i);
    } else {
      AndHalves(x, m);
      if i > 0 {
        AndBit(x / 2, m / 2, i - 1);
      }
    }
  }

  lemma AndHalves(x: int, m: nat)
    requires m > 0
    ensures BitAnd(x, m) / 2 == BitAnd(x / 2, m / 2)
    ensures BitAnd(x, m) % 2 == 1 <==> x % 2 == 1 && m % 2 == 1
  {
    assert (x % 2) * (m % 2) == if x % 2 == 1 && m % 2 == 1 then 1 else 0;
  }

  lemma {:induction false} OrBit(x: nat, y: nat, i: nat)
    ensures Bit(BitOr(x, y), i) <==> Bit(x, i) || Bit(y, i)
    decreases i
  {
    if x == 0 {
      ZeroBit(i);
    } else if i > 0 {
      OrBit(x / 2, y / 2, i - 1);
    }
  }

  lemma {:induction false} ClearBit(x: nat, m: nat, i: nat)
    ensures Bit(BitClear(x, m), i) <==> Bit(x, i) && !Bit(m, i)
    decreases i
  {
    if x == 0 {
      ZeroBit(i);
    } else if i > 0 {
      ClearBit(x / 2, m / 2, i - 1);
    }
  }

  lemma {:induction false} ShlBit(x: nat, k: nat, i: nat)
    ensures Bit(Shl(x, k), i) <==> i >= k && Bit(x, i - k)
    decreases k
  {
    if k > 0 && i > 0 {
      ShlBit(x, k - 1, i - 1);
    }
  }

  lemma {:induction false} ShrBit(x: int, k: nat, i: nat)
    ensures Bit(Shr(x, k), i) <==> Bit(x, i + k)
    decreases k
  {
    if k > 0 {
      ShrBit(x / 2, k - 1, i);
    }
  }

  lemma {:induction false} MaskBit(k: nat, i: nat)
    ensures Bit(Mask(k), i) <==> i < k
  {
    if k == 0 {
      ZeroBit(i);
    } else if i > 0 {
      MaskBit(k - 1, i - 1);
    }
  }

  /** A number is its bits. */
  lemma {:induction false} SameBits(x: nat, y: nat)
    requires forall i: nat :: Bit(x, i) <==> Bit(y, i)
    ensures x == y
    decreases x + y
  {
    if x + y > 0 {
      assert Bit(x, 0) <==> Bit(y, 0);
      forall i: nat ensures Bit(x / 2, i) <==> Bit(y / 2, i) {
        assert Bit(x, i + 1) <==> Bit(y, i + 1);
      }
      SameBits(x / 2, y / 2);
    }
  }

  // ---------- Size ----------

  lemma {:induction false} HighBitsClear(x: nat, w: nat, i: nat)
    requires x < Pow(2, w) && i >= w
    ensures !Bit(x, i)
  {
    if w == 0 {
      ZeroBit(i);
    } else {
      HighBitsClear(x / 2, w - 1, i - 1);
    }
  }

  lemma {:induction false} SmallFromBits(x: nat, w: nat)
    requires forall i: nat :: i >= w ==> !Bit(x, i)
    ensures x < Pow(2, w)
    decreases x
  {
    if x > 0 {
      if w == 0 {
        AllClear(x);
      } else {
        forall i: nat | i >= w - 1 ensures !Bit(x / 2, i) {
          assert !Bit(x, i + 1);
        }
        SmallFromBits(x / 2, w - 1);
      }
    }
  }

  lemma AllClear(x: nat)
    requires forall i: nat :: !Bit(x, i)
    ensures x == 0
  {
    forall i: nat ensures Bit(x, i) <==> Bit(0, i) {
      ZeroBit(i);
    }
    SameBits(x, 0);
  }

  // ---------- Arithmetic ----------

  lemma AtLeastOnce(k: int, b: nat)
    requires k >= 1
    ensures k * b >= b
  {
  }

  lemma QuotientUnique(n: int, b: nat, q: int, r: nat)
    requires n == q * b + r && r < b
    ensures n / b == q && n % b == r
  {
    var q' := n / b;
    assert (q' - q) * b == r - n % b;
    if q' < q {
      AtLeastOnce(q - q', b);
    } else if q' > q {
      AtLeastOnce(q' - q, b);
    }
  }

  lemma HalfDivide(x: int, p: nat)
    requires p > 0
    ensures (x / 2) / p == x / (2 * p)
    ensures x % (2 * p) == 2 * ((x / 2) % p) + x % 2
  {
    var q, r := (x / 2) / p, (x / 2) % p;
    assert x / 2 == q * p + r;
    assert x == q * (2 * p) + (2 * r + x % 2);
    QuotientUnique(x, 2 * p, q, 2 * r + x % 2);
  }

  lemma {:induction false} ShrIsDivide(x: int, k: nat)
    ensures Shr(x, k) == x / Pow(2, k)
    decreases k
  {
    if k > 0 {
      ShrIsDivide(x / 2, k - 1);
      HalfDivide(x, Pow(2, k - 1));
    }
  }

  lemma {:induction false} MaskIsModulo(x: int, k: nat)
    ensures BitAnd(x, Mask(k)) == x % Pow(2, k)
    decreases k
  {
    if k > 0 {
      MaskIsModulo(x / 2, k - 1);
      HalfDivide(x, Pow(2, k - 1));
      assert Mask(k) / 2 == Mask(k - 1) && Mask(k) % 2 == 1;
    }
  }

  // ---------- Compounds ----------

  /** `(x >> k) & m` takes the `w` bits from `k` up. */
  lemma PartBit(x: int, k: nat, m: nat, w: nat, i: nat)
    requires m == Mask(w)
    ensures Bit(BitAnd(Shr(x, k), m), i) <==> i < w && Bit(x, i + k)
  {
    AndBit(Shr(x, k), m, i);
    ShrBit(x, k, i);
    MaskBit(w, i);
  }

  /** A run of `w` ones from bit `k` up. */
  lemma RunBit(w: nat, k: nat, i: nat)
    ensures Bit(Shl(Mask(w), k), i) <==> k <= i < k + w
  {
    ShlBit(Mask(w), k, i);
    if i >= k {
      MaskBit(w, i - k);
    }
  }

  lemma {:induction false} ShlShl(x: nat, j: nat, k: nat)
    ensures Shl(Shl(x, j), k) == Shl(x, j + k)
    decreases k
  {
    if k > 0 {
      ShlShl(x, j, k - 1);
    }
  }

  /** Testing one bit with a mask. */
  lemma AndSingle(x: int, k: nat)
    ensures BitAnd(x, Shl(1, k)) != 0 <==> Bit(x, k)
  {
    var r := BitAnd(x, Shl(1, k));
    assert Mask(1) == 1;
    forall i: nat ensures Bit(r, i) <==> i == k && Bit(x, k) {
      AndBit(x, Shl(1, k), i);
      RunBit(1, k, i);
    }
    if Bit(x, k) {
      ZeroBit(k);
    } else {
      AllClear(r);
    }
  }

  /** A number with the low `k` bits of another and no others is that other modulo 2^k. */
  lemma ModuloFromBits(y: nat, x: int, k: nat)
    requires forall i: nat :: Bit(y, i) <==> i < k && Bit(x, i)
    ensures y == x % Pow(2, k)
  {
    var t := BitAnd(x, Mask(k));
    forall i: nat ensures Bit(y, i) <==> Bit(t, i) {
      AndBit(x, Mask(k), i);
      MaskBit(k, i);
    }
    SameBits(y, t);
    MaskIsModulo(x, k);
  }
}
