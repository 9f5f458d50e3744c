/** The names of backup files, and when sorting them by name gives the order in which they were written. */
module FileNames {
  import opened Radix
  import opened Wire
  import opened Backup

  /** Character codes. */
  type Name = seq<nat>

  const DATA: Name := [100, 97, 116, 97, 45]  // data-
  const CBB: Name := [46, 99, 98, 98]         // .cbb
  const WIDTH: nat := 4

  function Zeros(n: nat): (s: seq<nat>)
    ensures |s| == n && forall i :: 0 <= i < n ==> s[i] == 0
  {
    if n == 0 then [] else Zeros(n - 1) + [0]
  }

  /** string.rjust(str(num), 4, '0'), as digits. */
  function Padded(num: nat): seq<nat>
  {
    var d := Dec(num);
    if |d| < WIDTH then Zeros(WIDTH - |d|) + d else d
  }

  function Chars(digits: seq<nat>): (s: Name)
    ensures |s| == |digits| && forall i :: 0 <= i < |s| ==> s[i] == digits[i] + 48
  {
    if digits == [] then [] else Chars(digits[..|digits| - 1]) + [digits[|digits| - 1] + 48]
  }

  function FileName(num: nat): Name
  {
    DATA + (Chars(Padded(num)) + CBB)
  }

  // ---------- Comparing names ----------

  lemma {:induction false} LexPrefix(p: seq<nat>, s: seq<nat>, t: seq<nat>)
    ensures LexLess(p + s, p + t) <==> LexLess(s, t)
  {
    if p == [] {
      assert p + s == s && p + t == t;
    } else {
      LexPrefix(p[1..], s, t);
      assert (p + s)[1..] == p[1..] + s && (p + t)[1..] == p[1..] + t;
    }
  }

  lemma {:induction false} LexSuffix(s: seq<nat>, t: seq<nat>, u: seq<nat>)
    requires |s| == |t|
    ensures LexLess(s + u, t + u) <==> LexLess(s, t)
  {
    if s == [] {
      LexIrreflexive(u);
      assert s + u == u && t + u == u;
    } else {
      LexSuffix(s[1..], t[1..], u);
      assert (s + u)[1..] == s[1..] + u && (t + u)[1..] == t[1..] + u;
    }
  }

  lemma {:induction false} LexIrreflexive(s: seq<nat>)
    ensures !LexLess(s, s)
  {
    if s != [] {
      LexIrreflexive(s[1..]);
    }
  }

  lemma {:induction false} LexTransitive(s: seq<nat>, t: seq<nat>, u: seq<nat>)
    requires LexLess(s, t) && LexLess(t, u)
    ensures LexLess(s, u)
  {
    if s != [] && s[0] == t[0] == u[0] {
      LexTransitive(s[1..], t[1..], u[1..]);
    }
  }

  lemma LexAsymmetric(s: seq<nat>, t: seq<nat>)
    requires LexLess(s, t)
    ensures !LexLess(t, s)
  {
    if LexLess(t, s) {
      LexTransitive(s, t, s);
      LexIrreflexive(s);
    }
  }

  lemma CharsTail(s: seq<nat>)
    requires s != []
    ensures Chars(s)[1..] == Chars(s[1..])
  {
  }

  lemma {:induction false} LexChars(s: seq<nat>, t: seq<nat>)
    ensures LexLess(Chars(s), Chars(t)) <==> LexLess(s, t)
  {
    if s != [] && t != [] {
      LexChars(s[1..], t[1..]);
      CharsTail(s);
      CharsTail(t);
    }
  }

  // ---------- Numbers below 10000 have four digits ----------

  lemma {:induction false} ZeroDigits(w: nat)
    ensures Digits(10, 0, w) == Zeros(w)
  {
    if w > 0 {
      ZeroDigits(w - 1);
    }
  }

  lemma TenthFits(n: nat, w: nat)
    requires w > 0 && 10 <= n < Pow(10, w)
    ensures w > 1 && n / 10 < Pow(10, w - 1)
  {
    DivBelow(n, 10, Pow(10, w - 1));
  }

  lemma {:induction false} DecIsDigits(n: nat, w: nat)
    requires w > 0 && n < Pow(10, w)
    ensures |Dec(n)| <= w && Zeros(w - |Dec(n)|) + Dec(n) == Digits(10, n, w)
  {
    if n < 10 {
      ZeroDigits(w - 1);
      assert Digits(10, n, w) == Digits(10, 0, w - 1) + [n];
    } else {
      TenthFits(n, w);
      DecIsDigits(n / 10, w - 1);
      Assoc(Zeros(w - |Dec(n)|), Dec(n / 10), [n % 10]);
    }
  }

  lemma FourDigits()
    ensures Pow(10, WIDTH) == 10000
  {
    assert Pow(10, 1) == 10 && Pow(10, 2) == 100 && Pow(10, 3) == 1000;
  }

  lemma PaddedIsDigits(n: nat)
    requires n < 10000
    ensures Padded(n) == Digits(10, n, WIDTH)
  {
    FourDigits();
    DecIsDigits(n, WIDTH);
  }

  lemma NameOrder(i: nat, j: nat)
    requires i < 10000 && j < 10000
    ensures LexLess(FileName(i), FileName(j)) <==> i < j
  {
    FourDigits();
    PaddedIsDigits(i);
    PaddedIsDigits(j);
    var s, t := Chars(Padded(i)), Chars(Padded(j));
    LexPrefix(DATA, s + CBB, t + CBB);
    LexSuffix(s, t, CBB);
    LexChars(Padded(i), Padded(j));
    DigitsOrder(10, i, j, WIDTH);
  }

  /** A number of four or more digits, not padded, starts with its leading digit. */
  lemma Leading(n: nat, lead: nat)
    requires n >= 1000 && (lead == n / 1000 < 10 || 1 <= lead == n / 10000 < 10)
    ensures Padded(n)[0] == lead
  {
    var a, b, c := n / 10, n / 100, n / 1000;
    assert a / 10 == b && b / 10 == c && c / 10 == n / 10000;
    assert Dec(n)[0] == Dec(a)[0] == Dec(b)[0] == Dec(c)[0];
    assert |Dec(n)| == 1 + |Dec(a)| == 2 + |Dec(b)| == 3 + |Dec(c)|;
  }

  /** The ten-thousand-and-first file sorts before the one written just before it. */
  lemma NextDigitBreaks()
    ensures LexLess(FileName(10000), FileName(9999))
  {
    var s, t := Padded(10000), Padded(9999);
    Leading(10000, 1);
    Leading(9999, 9);
    LexPrefix(DATA, Chars(s) + CBB, Chars(t) + CBB);
  }

  // ---------- Sorted listings ----------

  ghost predicate Ascending(names: seq<Name>)
  {
    forall i, j :: 0 <= i < j < |names| ==> LexLess(names[i], names[j])
  }

  function Names(n: nat): (names: seq<Name>)
    ensures |names| == n && forall i :: 0 <= i < n ==> names[i] == FileName(i)
  {
    if n == 0 then [] else Names(n - 1) + [FileName(n - 1)]
  }

  lemma NamesAscend(n: nat)
    requires n <= 10000
    ensures Ascending(Names(n))
  {
    var names := Names(n);
    forall i, j | 0 <= i < j < n ensures LexLess(names[i], names[j]) {
      NameOrder(i, j);
    }
  }

  lemma NamesBreak(names: seq<Name>)
    requires |names| > 10000 && names[9999] == FileName(9999) && names[10000] == FileName(10000)
    ensures !Ascending(names)
  {
    NextDigitBreaks();
    LexAsymmetric(FileName(10000), FileName(9999));
  }

  /** Creation order is name order exactly up to ten thousand files. */
  lemma CreationOrderIsNameOrder(n: nat)
    ensures Ascending(Names(n)) <==> n <= 10000
  {
    if n <= 10000 {
      NamesAscend(n);
    } else {
      NamesBreak(Names(n));
    }
  }

  /** A set of names has one ascending listing, whatever order the directory was read in. */
  lemma {:induction false} AscendingUnique(a: seq<Name>, b: seq<Name>)
    requires Ascending(a) && Ascending(b)
    requires forall x :: x in a <==> x in b
    ensures a == b
  {
    BothEmpty(a, b);
    if a != [] {
      assert a[0] in a && b[0] in b;
      SameLeast(a, b);
      RestListed(a, b);
      RestListed(b, a);
      AscendingUnique(a[1..], b[1..]);
      assert a == [a[0]] + a[1..] && b == [b[0]] + b[1..];
    }
  }

  lemma SameLeast(a: seq<Name>, b: seq<Name>)
    requires Ascending(a) && Ascending(b) && a != [] && b != []
    requires a[0] in b && b[0] in a
    ensures a[0] == b[0]
  {
    if a[0] != b[0] {
      var j :| 0 <= j < |b| && b[j] == a[0];
      var i :| 0 <= i < |a| && a[i] == b[0];
      assert LexLess(b[0], b[j]) && LexLess(a[0], a[i]);
      LexTransitive(a[0], b[0], a[0]);
      LexIrreflexive(a[0]);
    }
  }

  lemma RestListed(a: seq<Name>, b: seq<Name>)
    requires Ascending(a) && a != [] && b != [] && a[0] == b[0] && forall x :: x in a ==> x in b
    ensures forall x :: x in a[1..] ==> x in b[1..]
  {
    forall x | x in a[1..] ensures x in b[1..] {
      var i :| 0 <= i < |a[1..]| && a[1..][i] == x;
      assert a[i + 1] == x && LexLess(a[0], a[i + 1]);
      LexIrreflexive(x);
      assert x in a;
      var j :| 0 <= j < |b| && b[j] == x;
      assert b[1..][j - 1] == x;
    }
  }
}
