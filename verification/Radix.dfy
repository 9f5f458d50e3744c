/** Positional notation of fixed width. The wire formats use base 256, UUID strings base 16 and
    backup file names base 10; the facts they share are proved once here. */
module Radix {

  function Pow(b: nat, e: nat): (p: nat)
    ensures b > 0 ==> p > 0
  {
    if e == 0 then 1 else b * Pow(b, e - 1)
  }

  lemma {:induction false} PowAdd(b: nat, j: nat, k: nat)
    ensures Pow(b, j + k) == Pow(b, j) * Pow(b, k)
  {
    if j > 0 {
      PowAdd(b, j - 1, k);
      MulAssoc(b, Pow(b, j - 1), Pow(b, k));
    }
  }

  lemma PowMono(b: nat, j: nat, k: nat)
    requires b > 0 && j <= k
    ensures Pow(b, j) <= Pow(b, k)
  {
    PowAdd(b, j, k - j);
    MulMono(Pow(b, j), 1, Pow(b, k - j));
  }

  lemma MulAssoc(x: nat, y: nat, z: nat)
    ensures x * (y * z) == (x * y) * z
  {
  }

  lemma {:induction false} PowPow(b: nat, j: nat, k: nat)
    ensures Pow(Pow(b, j), k) == Pow(b, j * k)
  {
    if k > 0 {
      PowPow(b, j, k - 1);
      PowAdd(b, j, j * (k - 1));
      assert j * k == j + j * (k - 1);
    }
  }

  /** The `w` lowest base-`b` digits of `n`, most significant first. */
  function Digits(b: nat, n: nat, w: nat): (s: seq<nat>)
    requires b >= 2
    ensures |s| == w
    ensures forall i :: 0 <= i < |s| ==> s[i] < b
  {
    if w == 0 then [] else Digits(b, n / b, w - 1) + [n % b]
  }

  function Value(b: nat, s: seq<nat>): nat
  {
    if s == [] then 0 else Value(b, s[..|s| - 1]) * b + s[|s| - 1]
  }

  /** The order of Python strings and tuples: first difference decides, a proper prefix is smaller. */
  predicate LexLess(s: seq<nat>, t: seq<nat>)
  {
    if t == [] then false
    else if s == [] then true
    else if s[0] != t[0] then s[0] < t[0]
    else LexLess(s[1..], t[1..])
  }

  lemma DivBelow(n: nat, b: nat, p: nat)
    requires b > 0 && n < b * p
    ensures n / b < p
  {
    if n / b >= p {
      MulMono(b, p, n / b);
    }
  }

  lemma MulMono(b: nat, x: nat, y: nat)
    requires x <= y
    ensures b * x <= b * y
  {
  }

  /** Reading the digits back gives the number, whenever it fits the width. */
  lemma {:induction false} ValueOfDigits(b: nat, n: nat, w: nat)
    requires b >= 2 && n < Pow(b, w)
    ensures Value(b, Digits(b, n, w)) == n
    decreases w
  {
    if w > 0 {
      QuotientFits(b, n, w);
      ValueOfDigits(b, n / b, w - 1);
      LastDigit(b, n, w);
    }
  }

  lemma QuotientFits(b: nat, n: nat, w: nat)
    requires b >= 2 && w > 0 && n < Pow(b, w)
    ensures n / b < Pow(b, w - 1)
  {
    DivBelow(n, b, Pow(b, w - 1));
  }

  lemma LastDigit(b: nat, n: nat, w: nat)
    requires b >= 2 && w > 0 && Value(b, Digits(b, n / b, w - 1)) == n / b
    ensures Value(b, Digits(b, n, w)) == n
  {
    ValueSnoc(b, Digits(b, n / b, w - 1), n % b);
    DivModIdentity(n, b);
  }

  lemma ValueSnoc(b: nat, s: seq<nat>, d: nat)
    ensures Value(b, s + [d]) == Value(b, s) * b + d
  {
    assert (s + [d])[..|s|] == s;
  }

  lemma DivModIdentity(n: nat, b: nat)
    requires b > 0
    ensures n / b * b + n % b == n
  {
  }

  lemma {:induction false} ValueBound(b: nat, s: seq<nat>)
    requires b >= 2 && forall i :: 0 <= i < |s| ==> s[i] < b
    ensures Value(b, s) < Pow(b, |s|)
  {
    if s != [] {
      var t := s[..|s| - 1];
      ValueBound(b, t);
      BelowProduct(b, Value(b, t), s[|s| - 1], Pow(b, |t|));
    }
  }

  lemma BelowProduct(b: nat, v: nat, d: nat, p: nat)
    requires v < p && d < b
    ensures v * b + d < b * p
  {
    MulMono(b, v + 1, p);
  }

  /** Writing the value back gives the digits: fixed-width notation is a bijection. */
  lemma {:induction false} DigitsOfValue(b: nat, s: seq<nat>)
    requires b >= 2 && forall i :: 0 <= i < |s| ==> s[i] < b
    ensures Digits(b, Value(b, s), |s|) == s
  {
    if s != [] {
      var t, d := s[..|s| - 1], s[|s| - 1];
      DigitsOfValue(b, t);
      DivModUnique(b, Value(b, t), d);
      assert s == t + [d];
    }
  }

  lemma DivModUnique(b: nat, q: nat, r: nat)
    requires r < b
    ensures (q * b + r) / b == q && (q * b + r) % b == r
  {
    var n := q * b + r;
    assert n == (n / b) * b + n % b;
    if n / b < q {
      MulMono(b, n / b + 1, q);
    } else if n / b > q {
      MulMono(b, q + 1, n / b);
    }
  }

  lemma {:induction false} LexSnoc(s: seq<nat>, t: seq<nat>, x: nat, y: nat)
    requires |s| == |t|
    ensures LexLess(s + [x], t + [y]) <==> LexLess(s, t) || (s == t && x < y)
  {
    var s', t' := s + [x], t + [y];
    if s != [] {
      LexSnoc(s[1..], t[1..], x, y);
      assert s'[1..] == s[1..] + [x] && t'[1..] == t[1..] + [y];
      assert s[0] == t[0] && s[1..] == t[1..] ==> s == [s[0]] + s[1..] == t;
    }
  }

  /** Numeric order is the lexicographic order of fixed-width notation. */
  lemma {:induction false} ValueOrder(b: nat, s: seq<nat>, t: seq<nat>)
    requires |s| == |t|
    requires forall i :: 0 <= i < |s| ==> s[i] < b && t[i] < b
    ensures Value(b, s) < Value(b, t) <==> LexLess(s, t)
    ensures Value(b, s) == Value(b, t) <==> s == t
  {
    if s != [] {
      var s', t', x, y := s[..|s| - 1], t[..|s| - 1], s[|s| - 1], t[|s| - 1];
      ValueOrder(b, s', t');
      assert s == s' + [x] && t == t' + [y];
      LexSnoc(s', t', x, y);
      MixedOrder(b, Value(b, s'), x, Value(b, t'), y);
    }
  }

  lemma MixedOrder(b: nat, p: nat, x: nat, q: nat, y: nat)
    requires x < b && y < b
    ensures p * b + x < q * b + y <==> p < q || (p == q && x < y)
    ensures p * b + x == q * b + y <==> p == q && x == y
  {
    if p < q {
      MulMono(b, p + 1, q);
    } else if q < p {
      MulMono(b, q + 1, p);
    }
  }

  lemma DigitsOrder(b: nat, n: nat, m: nat, w: nat)
    requires b >= 2 && n < Pow(b, w) && m < Pow(b, w)
    ensures n < m <==> LexLess(Digits(b, n, w), Digits(b, m, w))
    ensures n == m <==> Digits(b, n, w) == Digits(b, m, w)
  {
    ValueOfDigits(b, n, w);
    ValueOfDigits(b, m, w);
    ValueOrder(b, Digits(b, n, w), Digits(b, m, w));
  }

  /** str(n) for a natural number. */
  function Dec(n: nat): (s: seq<nat>)
    ensures s != [] && forall i :: 0 <= i < |s| ==> s[i] < 10
  {
    if n < 10 then [n] else Dec(n / 10) + [n % 10]
  }

  lemma {:induction false} DecRoundTrip(n: nat)
    ensures Value(10, Dec(n)) == n
  {
    if n < 10 {
      assert [n][..0] == [];
    } else {
      DecRoundTrip(n / 10);
      ValueSnoc(10, Dec(n / 10), n % 10);
    }
  }
}
