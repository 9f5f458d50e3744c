/** CRC-32, bit by bit, and what it is: the checksum of a key is the remainder of a division by the CRC-32 polynomial,
    and it can be continued over the parts of a key in their order. */
module Crc {
  import opened Radix
  import opened Bits
  import opened Wire

  const ONES: nat := 0xFFFF_FFFF
  const WORD: nat := 0x1_0000_0000

  function CrcStep(c: nat, n: nat): nat
    decreases n, c
  {
    if n == 0 then c
    else CrcStep(if c % 2 == 1 then BitXor(c / 2, 0xEDB8_8320) else c / 2, n - 1)
  }

  function CrcFold(c: nat, s: Bytes): nat
    decreases |s|
  {
    if s == [] then c else CrcFold(CrcStep(BitXor(c, s[0]), 8), s[1..])
  }

  /** zlib.crc32(s, start), read as an unsigned number. */
  function Crc32From(start: nat, s: Bytes): nat
  {
    BitXor(CrcFold(BitXor(start, ONES), s), ONES)
  }

  /** zlib.crc32(s), read as an unsigned number. */
  function Crc32(s: Bytes): (c: nat)
    ensures c < WORD
  {
    FoldFits(ONES, s);
    XorWord(CrcFold(ONES, s), ONES);
    BitXor(CrcFold(ONES, s), ONES)
  }

  lemma Word()
    ensures Pow(2, 32) == WORD && Pow(2, 31) == 0x8000_0000 && Pow(2, 8) == 256
  {
    assert Pow(2, 4) == 16 && Pow(2, 8) == 256;
    PowAdd(2, 8, 8);
    PowAdd(2, 16, 8);
    PowAdd(2, 24, 8);
    assert Pow(2, 32) == 2 * Pow(2, 31);
  }

  lemma XorWord(a: nat, b: nat)
    requires a < WORD && b < WORD
    ensures BitXor(a, b) < WORD
  {
    Word();
    XorFits(a, b, 32);
  }

  lemma {:induction false} StepFits(c: nat, n: nat)
    requires c < WORD
    ensures CrcStep(c, n) < WORD
    decreases n
  {
    if n > 0 {
      XorWord(c / 2, 0xEDB8_8320);
      StepFits(if c % 2 == 1 then BitXor(c / 2, 0xEDB8_8320) else c / 2, n - 1);
    }
  }

  lemma {:induction false} FoldFits(c: nat, s: Bytes)
    requires c < WORD
    ensures CrcFold(c, s) < WORD
    decreases |s|
  {
    if s != [] {
      XorWord(c, s[0]);
      StepFits(BitXor(c, s[0]), 8);
      FoldFits(CrcStep(BitXor(c, s[0]), 8), s[1..]);
    }
  }

  // ---------- Continuing a checksum ----------

  lemma {:induction false} FoldAppend(c: nat, s: Bytes, t: Bytes)
    ensures CrcFold(c, s + t) == CrcFold(CrcFold(c, s), t)
    decreases |s|
  {
    if s == [] {
      assert s + t == t;
    } else {
      assert (s + t)[1..] == s[1..] + t;
      FoldAppend(CrcStep(BitXor(c, s[0]), 8), s[1..], t);
    }
  }

  /** The checksum of a whole is the checksum of its second part, started with that of its first. */
  lemma Continues(s: Bytes, t: Bytes)
    ensures Crc32(s) == Crc32From(0, s)
    ensures Crc32(s + t) == Crc32From(Crc32(s), t)
  {
    FoldAppend(ONES, s, t);
    XorTwice(CrcFold(ONES, s), ONES);
  }

  // ---------- Polynomials over two elements ----------

  /** A polynomial, as the set of its exponents. */
  type Poly = set<nat>

  function Plus(a: Poly, b: Poly): (c: Poly)
    ensures forall i :: i in c <==> ((i in a) != (i in b))
  {
    (a - b) + (b - a)
  }

  /** Times x to the `k`. */
  function Up(a: Poly, k: nat): Poly
  {
    set i | i in a :: i + k
  }

  lemma InUp(a: Poly, k: nat, i: nat)
    ensures i in Up(a, k) <==> i >= k && i - k in a
  {
    if i >= k && i - k in a {
      assert (i - k) + k == i;
    }
  }

  /** The CRC-32 polynomial. */
  const CRC_POLY: Poly := {32, 26, 23, 22, 16, 12, 11, 10, 8, 7, 5, 4, 2, 1, 0}

  /** The product of the polynomial with a sum of powers of x. */
  function Multiple(ks: seq<nat>): Poly
  {
    if ks == [] then {} else Plus(Multiple(ks[..|ks| - 1]), Up(CRC_POLY, ks[|ks| - 1]))
  }

  /** The two differ by a multiple of the polynomial. */
  ghost predicate Congruent(a: Poly, b: Poly)
  {
    exists ks :: Plus(a, b) == Multiple(ks)
  }

  lemma PlusAssoc(a: Poly, b: Poly, c: Poly)
    ensures Plus(Plus(a, b), c) == Plus(a, Plus(b, c))
  {
  }

  lemma PlusBoth(a: Poly, b: Poly, c: Poly)
    ensures Plus(Plus(a, c), Plus(b, c)) == Plus(a, b) && Plus(Plus(a, b), Plus(b, c)) == Plus(a, c)
    ensures Plus(a, b) == Plus(b, a) && Plus(a, a) == {}
  {
  }

  lemma UpPlus(a: Poly, b: Poly, k: nat)
    ensures Up(Plus(a, b), k) == Plus(Up(a, k), Up(b, k))
  {
    forall i: nat ensures i in Up(Plus(a, b), k) <==> i in Plus(Up(a, k), Up(b, k)) {
      InUp(Plus(a, b), k, i);
      InUp(a, k, i);
      InUp(b, k, i);
    }
  }

  lemma UpUp(a: Poly, j: nat, k: nat)
    ensures Up(Up(a, j), k) == Up(a, j + k)
  {
    forall i: nat ensures i in Up(Up(a, j), k) <==> i in Up(a, j + k) {
      InUp(Up(a, j), k, i);
      InUp(a, j + k, i);
      if i >= k {
        InUp(a, j, i - k);
      }
    }
  }

  lemma {:induction false} MultipleAppend(js: seq<nat>, ks: seq<nat>)
    ensures Multiple(js + ks) == Plus(Multiple(js), Multiple(ks))
  {
    if ks == [] {
      assert js + ks == js;
    } else {
      var n := |ks| - 1;
      MultipleAppend(js, ks[..n]);
      assert (js + ks)[..|js + ks| - 1] == js + ks[..n];
      PlusAssoc(Multiple(js), Multiple(ks[..n]), Up(CRC_POLY, ks[n]));
    }
  }

  function Raised(ks: seq<nat>, k: nat): seq<nat>
  {
    if ks == [] then [] else Raised(ks[..|ks| - 1], k) + [ks[|ks| - 1] + k]
  }

  lemma MultipleSnoc(ks: seq<nat>, k: nat)
    ensures Multiple(ks + [k]) == Plus(Multiple(ks), Up(CRC_POLY, k))
  {
    assert (ks + [k])[..|ks|] == ks;
  }

  lemma {:induction false} MultipleUp(ks: seq<nat>, k: nat)
    ensures Multiple(Raised(ks, k)) == Up(Multiple(ks), k)
  {
    if ks != [] {
      var n := |ks| - 1;
      MultipleUp(ks[..n], k);
      MultipleSnoc(Raised(ks[..n], k), ks[n] + k);
      UpPlus(Multiple(ks[..n]), Up(CRC_POLY, ks[n]), k);
      UpUp(CRC_POLY, ks[n], k);
    }
  }

  lemma CongruentJoins(a: Poly, b: Poly, c: Poly)
    requires Congruent(a, b) && Congruent(b, c)
    ensures Congruent(a, c)
  {
    var js :| Plus(a, b) == Multiple(js);
    var ks :| Plus(b, c) == Multiple(ks);
    MultipleAppend(js, ks);
    PlusBoth(a, b, c);
  }

  lemma CongruentPlus(a: Poly, b: Poly, c: Poly)
    requires Congruent(a, b)
    ensures Congruent(Plus(a, c), Plus(b, c))
  {
    var ks :| Plus(a, b) == Multiple(ks);
    PlusBoth(a, b, c);
  }

  lemma CongruentUp(a: Poly, b: Poly, k: nat)
    requires Congruent(a, b)
    ensures Congruent(Up(a, k), Up(b, k))
  {
    var ks :| Plus(a, b) == Multiple(ks);
    MultipleUp(ks, k);
    UpPlus(a, b, k);
  }

  lemma SameIsCongruent(a: Poly)
    ensures Congruent(a, a)
  {
    PlusBoth(a, a, a);
    assert Plus(a, a) == Multiple([]);
  }

  // ---------- Registers ----------

  /** The lowest `n` bits of a number as a polynomial, the least significant bit first and highest. */
  function Coeffs(c: nat, n: nat): (p: Poly)
    ensures forall i :: i in p ==> i < n
    decreases n, c
  {
    if n == 0 then {} else (if c % 2 == 1 then {n - 1} else {}) + Coeffs(c / 2, n - 1)
  }

  /** The register holds a remainder in reverse: its least significant bit is the coefficient of x^31. */
  function Reg(c: nat): Poly
  {
    Coeffs(c, 32)
  }

  lemma {:induction false} CoeffsXor(a: nat, b: nat, n: nat)
    ensures Coeffs(BitXor(a, b), n) == Plus(Coeffs(a, n), Coeffs(b, n))
    decreases n
  {
    if n > 0 {
      XorHalves(a, b);
      CoeffsXor(a / 2, b / 2, n - 1);
    }
  }

  lemma {:induction false} CoeffsZero(n: nat)
    ensures Coeffs(0, n) == {}
  {
    if n > 0 {
      CoeffsZero(n - 1);
    }
  }

  /** Leading zeros are powers of x. */
  lemma {:induction false} CoeffsSmall(c: nat, n: nat, k: nat)
    requires c < Pow(2, n)
    ensures Coeffs(c, n + k) == Up(Coeffs(c, n), k)
    decreases n
  {
    if n == 0 {
      CoeffsZero(k);
    } else {
      CoeffsSmall(c / 2, n - 1, k);
    }
  }

  /** A number with one more bit at its end. */
  lemma MoreBit(d: nat, odd: bool, n: nat)
    ensures Coeffs(2 * d + (if odd then 1 else 0), n + 1) == (if odd then {n} else {}) + Coeffs(d, n)
  {
  }

  lemma MoreTwo(d: nat, b1: bool, b0: bool, n: nat, c: nat)
    requires c == 4 * d + (if b1 then 2 else 0) + (if b0 then 1 else 0)
    ensures Coeffs(c, n + 2) == (if b0 then {n + 1} else {}) + ((if b1 then {n} else {}) + Coeffs(d, n))
  {
    var d1 := 2 * d + if b1 then 1 else 0;
    MoreBit(d, b1, n);
    MoreBit(d1, b0, n + 1);
  }

  /** and with four more. */
  lemma MoreFour(d: nat, b3: bool, b2: bool, b1: bool, b0: bool, n: nat, c: nat, p: Poly)
    requires Coeffs(d, n) == p
    requires c == 16 * d + (if b3 then 8 else 0) + (if b2 then 4 else 0) + (if b1 then 2 else 0) + (if b0 then 1 else 0)
    ensures Coeffs(c, n + 4) ==
      (if b0 then {n + 3} else {}) + ((if b1 then {n + 2} else {}) +
      ((if b2 then {n + 1} else {}) + ((if b3 then {n} else {}) + p)))
  {
    var d2 := 4 * d + (if b3 then 2 else 0) + (if b2 then 1 else 0);
    MoreTwo(d, b3, b2, n, d2);
    MoreTwo(d2, b1, b0, n + 2, c);
  }

  lemma FirstByte(c: nat)
    requires c == 0xED
    ensures Coeffs(c, 8) == {7, 5, 4, 2, 1, 0}
  {
    var h, o := 0xE, 0;
    CoeffsZero(0);
    MoreFour(o, true, true, true, false, 0, h, {});
    MoreFour(h, true, true, false, true, 4, c, {2, 1, 0});
  }

  lemma SecondByte(c: nat)
    requires c == 0xEDB8
    ensures Coeffs(c, 16) == {12, 11, 10, 8, 7, 5, 4, 2, 1, 0}
  {
    var h, d := 0xEDB, 0xED;
    FirstByte(d);
    MoreFour(d, true, false, true, true, 8, h, {7, 5, 4, 2, 1, 0});
    MoreFour(h, true, false, false, false, 12, c, {11, 10, 8, 7, 5, 4, 2, 1, 0});
  }

  lemma ThirdByte(c: nat)
    requires c == 0xED_B883
    ensures Coeffs(c, 24) == {23, 22, 16, 12, 11, 10, 8, 7, 5, 4, 2, 1, 0}
  {
    var h, d := 0xE_DB88, 0xEDB8;
    SecondByte(d);
    MoreFour(d, true, false, false, false, 16, h, {12, 11, 10, 8, 7, 5, 4, 2, 1, 0});
    MoreFour(h, false, false, true, true, 20, c, {16, 12, 11, 10, 8, 7, 5, 4, 2, 1, 0});
  }

  lemma FourthByte(c: nat)
    requires c == 0xEDB8_8320
    ensures Coeffs(c, 32) == {26, 23, 22, 16, 12, 11, 10, 8, 7, 5, 4, 2, 1, 0}
  {
    var h, d := 0xEDB_8832, 0xED_B883;
    ThirdByte(d);
    MoreFour(d, false, false, true, false, 24, h, {23, 22, 16, 12, 11, 10, 8, 7, 5, 4, 2, 1, 0});
    MoreFour(h, false, false, false, false, 28, c, {26, 23, 22, 16, 12, 11, 10, 8, 7, 5, 4, 2, 1, 0});
  }

  /** The constant of the algorithm is the polynomial without its leading term, in reverse. */
  lemma PolyInReverse(c: nat)
    requires c == 0xEDB8_8320
    ensures Plus(Reg(c), {32}) == CRC_POLY
  {
    FourthByte(c);
  }

  /** Shifting the register multiplies by x, up to what falls out. */
  lemma ShiftIsTimesX(c: nat)
    requires c < WORD
    ensures Up(Reg(c), 1) == Plus(Reg(c / 2), if c % 2 == 1 then {32} else {})
  {
    Word();
    CoeffsSmall(c / 2, 31, 1);
    var top: Poly := if c % 2 == 1 then {31} else {};
    assert Reg(c) == Plus(top, Coeffs(c / 2, 31));
    UpPlus(top, Coeffs(c / 2, 31), 1);
    assert Up(top, 1) == if c % 2 == 1 then {32} else {};
  }

  lemma DropsOut(r: Poly, p: Poly, q: Poly)
    ensures Plus(Plus(r, q), Plus(r, p)) == Plus(p, q)
  {
  }

  lemma MultipleOnce()
    ensures Multiple([0]) == CRC_POLY
  {
    MultipleSnoc([], 0);
    assert [] + [0] == [0] && Up(CRC_POLY, 0) == CRC_POLY;
  }

  lemma OneStep(c: nat)
    requires c < WORD
    ensures Congruent(Up(Reg(c), 1), Reg(if c % 2 == 1 then BitXor(c / 2, 0xEDB8_8320) else c / 2))
  {
    ShiftIsTimesX(c);
    if c % 2 == 1 {
      CoeffsXor(c / 2, 0xEDB8_8320, 32);
      PolyInReverse(0xEDB8_8320);
      DropsOut(Reg(c / 2), Reg(0xEDB8_8320), {32});
      MultipleOnce();
    } else {
      assert Plus(Reg(c / 2), {}) == Reg(c / 2);
      SameIsCongruent(Reg(c / 2));
    }
  }

  /** `n` steps multiply by x to the `n`, modulo the polynomial. */
  lemma {:induction false} Steps(c: nat, n: nat)
    requires c < WORD
    ensures Congruent(Up(Reg(c), n), Reg(CrcStep(c, n)))
    decreases n
  {
    if n == 0 {
      assert Up(Reg(c), 0) == Reg(c);
      SameIsCongruent(Reg(c));
    } else {
      var d := if c % 2 == 1 then BitXor(c / 2, 0xEDB8_8320) else c / 2;
      XorWord(c / 2, 0xEDB8_8320);
      OneStep(c);
      CongruentUp(Up(Reg(c), 1), Reg(d), n - 1);
      UpUp(Reg(c), 1, n - 1);
      Steps(d, n - 1);
      CongruentJoins(Up(Reg(c), n), Up(Reg(d), n - 1), Reg(CrcStep(c, n)));
    }
  }

  // ---------- The remainder of a message ----------

  /** A message as a polynomial: its bytes in order, of each byte the least significant bit first. */
  function MsgPoly(s: Bytes): Poly
  {
    if s == [] then {} else Plus(Up(MsgPoly(s[..|s| - 1]), 8), Coeffs(s[|s| - 1], 8))
  }

  /** One byte: the register times x^8 plus the byte times x^32. */
  lemma OneByte(c: nat, b: Byte)
    requires c < WORD
    ensures Congruent(Plus(Up(Reg(c), 8), Up(Coeffs(b, 8), 32)), Reg(CrcStep(BitXor(c, b), 8)))
  {
    Word();
    XorWord(c, b);
    Steps(BitXor(c, b), 8);
    CoeffsXor(c, b, 32);
    CoeffsSmall(b, 8, 24);
    UpPlus(Reg(c), Up(Coeffs(b, 8), 24), 8);
    UpUp(Coeffs(b, 8), 24, 8);
  }

  /** What the register has to be congruent to after a message. */
  function Dividend(c: nat, s: Bytes): Poly
  {
    Plus(Up(Reg(c), 8 * |s|), Up(MsgPoly(s), 32))
  }

  lemma DividendSnoc(c: nat, s: Bytes, b: Byte)
    ensures Dividend(c, s + [b]) == Plus(Up(Dividend(c, s), 8), Up(Coeffs(b, 8), 32))
  {
    assert (s + [b])[..|s|] == s;
    var r, m, q := Up(Reg(c), 8 * |s|), MsgPoly(s), Coeffs(b, 8);
    UpPlus(r, Up(m, 32), 8);
    UpUp(Reg(c), 8 * |s|, 8);
    UpUp(m, 32, 8);
    UpUp(m, 8, 32);
    UpPlus(Up(m, 8), q, 32);
    PlusAssoc(Up(r, 8), Up(Up(m, 8), 32), Up(q, 32));
    assert 8 * |s + [b]| == 8 * |s| + 8;
  }

  /** For every message and every start value, the register ends as the remainder. */
  lemma {:induction false} FoldIsRemainder(c: nat, s: Bytes)
    requires c < WORD
    ensures Congruent(Dividend(c, s), Reg(CrcFold(c, s)))
    decreases |s|
  {
    if s == [] {
      assert Up(Reg(c), 0) == Reg(c) && Up({}, 32) == {};
      assert Dividend(c, s) == Reg(c);
      SameIsCongruent(Reg(c));
    } else {
      var init, b := s[..|s| - 1], s[|s| - 1];
      assert s == init + [b];
      FoldIsRemainder(c, init);
      FoldFits(c, init);
      var d := CrcFold(c, init);
      FoldAppend(c, init, [b]);
      assert CrcFold(d, [b]) == CrcStep(BitXor(d, b), 8) by {
        assert [b][1..] == [];
      }
      DividendSnoc(c, init, b);
      CongruentUp(Dividend(c, init), Reg(d), 8);
      CongruentPlus(Up(Dividend(c, init), 8), Up(Reg(d), 8), Up(Coeffs(b, 8), 32));
      OneByte(d, b);
      CongruentJoins(Dividend(c, s), Plus(Up(Reg(d), 8), Up(Coeffs(b, 8), 32)), Reg(CrcFold(c, s)));
    }
  }

  // ---------- There is one remainder ----------

  ghost predicate AllBelow(ks: seq<nat>, n: nat)
  {
    forall j :: 0 <= j < |ks| ==> ks[j] < n
  }

  function Without(ks: seq<nat>, v: nat): seq<nat>
  {
    if ks == [] then []
    else Without(ks[..|ks| - 1], v) + if ks[|ks| - 1] == v then [] else [ks[|ks| - 1]]
  }

  predicate Odd(ks: seq<nat>, v: nat)
  {
    ks != [] && (Odd(ks[..|ks| - 1], v) != (ks[|ks| - 1] == v))
  }

  function Once(odd: bool, v: nat): Poly
  {
    if odd then Up(CRC_POLY, v) else {}
  }

  lemma PlusFour(a: Poly, b: Poly, c: Poly)
    ensures Plus(Plus(a, b), c) == Plus(Plus(a, c), b) && Plus(Plus(a, b), b) == a && Plus(a, {}) == a
  {
  }

  lemma {:induction false} Separate(ks: seq<nat>, v: nat)
    ensures Multiple(ks) == Plus(Multiple(Without(ks, v)), Once(Odd(ks, v), v))
  {
    if ks != [] {
      var init, k := ks[..|ks| - 1], ks[|ks| - 1];
      Separate(init, v);
      var w := Without(init, v);
      PlusFour(Multiple(w), Up(CRC_POLY, v), Up(CRC_POLY, k));
      PlusFour(Multiple(w), {}, Up(CRC_POLY, k));
      if k == v {
        assert w + [] == w;
      } else {
        MultipleSnoc(w, k);
      }
    }
  }

  lemma {:induction false} WithoutBelow(ks: seq<nat>, v: nat)
    requires AllBelow(ks, v + 1)
    ensures AllBelow(Without(ks, v), v)
  {
    if ks != [] {
      WithoutBelow(ks[..|ks| - 1], v);
    }
  }

  lemma {:induction false} DegreeBound(ks: seq<nat>, n: nat, i: nat)
    requires AllBelow(ks, n) && i in Multiple(ks)
    ensures i < n + 32
  {
    var init, k := ks[..|ks| - 1], ks[|ks| - 1];
    if i in Multiple(init) {
      DegreeBound(init, n, i);
    } else {
      InUp(CRC_POLY, k, i);
    }
  }

  /** A multiple of the polynomial below degree 32 is zero. */
  lemma {:induction false} SmallMultiple(ks: seq<nat>, n: nat)
    requires AllBelow(ks, n) && (forall i :: i in Multiple(ks) ==> i < 32)
    ensures Multiple(ks) == {}
    decreases n
  {
    if n > 0 {
      var v := n - 1;
      var rest := Without(ks, v);
      Separate(ks, v);
      WithoutBelow(ks, v);
      TopTerm(ks, v);
      assert Multiple(ks) == Multiple(rest);
      SmallMultiple(rest, v);
    }
  }

  /** The highest power with an odd count shows in the product. */
  lemma TopTerm(ks: seq<nat>, v: nat)
    requires AllBelow(ks, v + 1)
    ensures Odd(ks, v) ==> v + 32 in Multiple(ks)
  {
    Separate(ks, v);
    InUp(CRC_POLY, v, v + 32);
    var rest := Without(ks, v);
    WithoutBelow(ks, v);
    if v + 32 in Multiple(rest) {
      DegreeBound(rest, v, v + 32);
    }
  }

  ghost predicate Short(a: Poly)
  {
    forall i :: i in a ==> i < 32
  }

  function Bound(ks: seq<nat>): (n: nat)
    ensures AllBelow(ks, n)
  {
    if ks == [] then 0
    else
      var n, k := Bound(ks[..|ks| - 1]), ks[|ks| - 1];
      if k < n then n else k + 1
  }

  /** Two congruent polynomials below degree 32 are the same: the remainder is unique. */
  lemma RemainderUnique(a: Poly, b: Poly)
    requires Congruent(a, b) && Short(a) && Short(b)
    ensures a == b
  {
    var ks :| Plus(a, b) == Multiple(ks);
    SmallMultiple(ks, Bound(ks));
    forall i: nat ensures i in a <==> i in b {
      assert i !in Plus(a, b);
    }
  }

  lemma {:induction false} CoeffsInjective(c: nat, d: nat, n: nat)
    requires c < Pow(2, n) && d < Pow(2, n) && Coeffs(c, n) == Coeffs(d, n)
    ensures c == d
    decreases n
  {
    if n > 0 {
      assert c % 2 == 1 <==> n - 1 in Coeffs(c, n);
      assert d % 2 == 1 <==> n - 1 in Coeffs(d, n);
      assert Coeffs(c / 2, n - 1) == Coeffs(c, n) - {n - 1};
      assert Coeffs(d / 2, n - 1) == Coeffs(d, n) - {n - 1};
      CoeffsInjective(c / 2, d / 2, n - 1);
    }
  }

  /** The checksum, inverted and read in reverse, is the remainder of the message times x^32, with all ones added to
      its first 32 bits; and it is the only number below 2^32 of which that is true. */
  lemma Crc32IsRemainder(s: Bytes, c: nat)
    requires c < WORD
    ensures Congruent(Dividend(ONES, s), Reg(BitXor(c, ONES))) <==> c == Crc32(s)
  {
    FoldIsRemainder(ONES, s);
    FoldFits(ONES, s);
    var f := CrcFold(ONES, s);
    XorTwice(f, ONES);
    XorTwice(c, ONES);
    if Congruent(Dividend(ONES, s), Reg(BitXor(c, ONES))) {
      Word();
      XorWord(c, ONES);
      Backwards(Dividend(ONES, s), Reg(f));
      CongruentJoins(Reg(f), Dividend(ONES, s), Reg(BitXor(c, ONES)));
      RemainderUnique(Reg(f), Reg(BitXor(c, ONES)));
      CoeffsInjective(f, BitXor(c, ONES), 32);
    }
  }

  lemma Backwards(a: Poly, b: Poly)
    requires Congruent(a, b)
    ensures Congruent(b, a)
  {
    PlusBoth(a, b, a);
  }
}
