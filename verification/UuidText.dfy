/** UUIDs as text, and the constructor that takes any one of four representations. */
module UuidText {
  import opened Radix
  import opened Wire
  import opened Uuid

  // ---------- Hexadecimal digits ----------

  function HexChar(d: nat): char
    requires d < 16
  {
    if d < 10 then ('0' as int + d) as char else ('a' as int + (d - 10)) as char
  }

  function HexValue(c: char): (v: Option<nat>)
    ensures v.Some? ==> v.value < 16
  {
    if '0' <= c <= '9' then Some(c as int - '0' as int)
    else if 'a' <= c <= 'f' then Some(c as int - 'a' as int + 10)
    else if 'A' <= c <= 'F' then Some(c as int - 'A' as int + 10)
    else None
  }

  function HexText(digits: seq<nat>): (s: string)
    requires forall i :: 0 <= i < |digits| ==> digits[i] < 16
    ensures |s| == |digits| && forall i :: 0 <= i < |s| ==> s[i] == HexChar(digits[i])
  {
    if digits == [] then [] else HexText(digits[..|digits| - 1]) + [HexChar(digits[|digits| - 1])]
  }

  /** The digits of a string of hexadecimal digits; None if it holds anything else. */
  function ParseHex(s: string): (r: Option<seq<nat>>)
    ensures r.Some? ==> |r.value| == |s| && forall i :: 0 <= i < |s| ==> HexValue(s[i]) == Some(r.value[i])
    ensures r.None? ==> exists i :: 0 <= i < |s| && HexValue(s[i]).None?
  {
    if s == [] then Some([])
    else
      var init, v := ParseHex(s[..|s| - 1]), HexValue(s[|s| - 1]);
      if init.Some? && v.Some? then Some(init.value + [v.value]) else None
  }

  lemma HexCharValue(d: nat)
    requires d < 16
    ensures HexValue(HexChar(d)) == Some(d)
  {
  }

  lemma {:induction false} ParseHexText(digits: seq<nat>)
    requires forall i :: 0 <= i < |digits| ==> digits[i] < 16
    ensures ParseHex(HexText(digits)) == Some(digits)
  {
    if digits != [] {
      var k := |digits| - 1;
      ParseHexText(digits[..k]);
      HexCharValue(digits[k]);
      assert HexText(digits)[..k] == HexText(digits[..k]);
      assert digits == digits[..k] + [digits[k]];
    }
  }

  // ---------- str.replace and str.strip ----------

  /** `s.replace(w, '')`. */
  function RemoveAll(s: string, w: string): string
    requires w != []
    decreases |s|
  {
    if |s| < |w| then s
    else if s[..|w|] == w then RemoveAll(s[|w|..], w)
    else [s[0]] + RemoveAll(s[1..], w)
  }

  predicate IsBrace(c: char)
  {
    c == '{' || c == '}'
  }

  function StripLeft(s: string): string
  {
    if s != [] && IsBrace(s[0]) then StripLeft(s[1..]) else s
  }

  function StripRight(s: string): string
  {
    if s != [] && IsBrace(s[|s| - 1]) then StripRight(s[..|s| - 1]) else s
  }

  function Clean(s: string): string
  {
    RemoveAll(StripRight(StripLeft(RemoveAll(RemoveAll(s, "urn:"), "uuid:"))), "-")
  }

  lemma {:induction false} RemoveAbsent(s: string, w: string)
    requires w != [] && forall i :: 0 <= i < |s| ==> s[i] != w[0]
    ensures RemoveAll(s, w) == s
    decreases |s|
  {
    if |s| >= |w| {
      assert s[..|w|][0] == s[0];
      RemoveAbsent(s[1..], w);
    }
  }

  lemma {:induction false} RemoveDashes(a: string, b: string)
    ensures RemoveAll(a + b, "-") == RemoveAll(a, "-") + RemoveAll(b, "-")
    decreases |a|
  {
    if a == [] {
      assert a + b == b;
    } else {
      assert (a + b)[1..] == a[1..] + b;
      assert a[..1] == [a[0]] && (a + b)[..1] == [a[0]];
      RemoveDashes(a[1..], b);
      Assoc([a[0]], RemoveAll(a[1..], "-"), RemoveAll(b, "-"));
    }
  }

  /** Nothing but hexadecimal digits and hyphens. */
  ghost predicate Simple(s: string)
  {
    forall i :: 0 <= i < |s| ==> HexValue(s[i]).Some? || s[i] == '-'
  }

  lemma StripIdle(s: string)
    requires Simple(s)
    ensures StripRight(StripLeft(s)) == s
  {
  }

  lemma CleanSimple(s: string)
    requires Simple(s)
    ensures Clean(s) == RemoveAll(s, "-")
  {
    RemoveAbsent(s, "urn:");
    RemoveAbsent(s, "uuid:");
    StripIdle(s);
  }

  lemma StripBraces(s: string)
    requires Simple(s) && s != []
    ensures StripRight(StripLeft("{" + s + "}")) == s
  {
    var t := s + "}";
    assert "{" + s + "}" == ['{'] + t && (['{'] + t)[1..] == t;
    assert t[0] == s[0] && StripLeft(t) == t;
    assert t[|t| - 1] == '}' && t[..|t| - 1] == s;
  }

  lemma CleanBraced(s: string)
    requires Simple(s) && s != []
    ensures Clean("{" + s + "}") == RemoveAll(s, "-")
  {
    RemoveAbsent("{" + s + "}", "urn:");
    RemoveAbsent("{" + s + "}", "uuid:");
    StripBraces(s);
  }

  lemma KeepHead(c: char, t: string, w: string)
    requires 2 <= |w| <= |t| && (c != w[0] || t[0] != w[1]) && RemoveAll(t, w) == t
    ensures RemoveAll([c] + t, w) == [c] + t
  {
    var u := [c] + t;
    assert u[1..] == t;
    assert u[..|w|][0] == c && u[..|w|][1] == t[0];
  }

  /** No part of `uuid:` starts a word like `urn:`. */
  lemma KeepUuid(s: string, w: string)
    requires Simple(s) && 2 <= |w| <= |s| && w[0] == 'u' && w[1] == 'r'
    ensures RemoveAll("uuid:" + s, w) == "uuid:" + s
  {
    var t1 := [':'] + s;
    var t2 := ['d'] + t1;
    var t3 := ['i'] + t2;
    var t4 := ['u'] + t3;
    RemoveAbsent(s, w);
    KeepHead(':', s, w);
    KeepHead('d', t1, w);
    KeepHead('i', t2, w);
    KeepHead('u', t3, w);
    KeepHead('u', t4, w);
    Spell(s);
  }

  lemma Spell(s: string)
    ensures "uuid:" + s == ['u'] + (['u'] + (['i'] + (['d'] + ([':'] + s))))
  {
  }

  lemma RemovePrefix(w: string, s: string)
    requires w != []
    ensures RemoveAll(w + s, w) == RemoveAll(s, w)
  {
    assert (w + s)[..|w|] == w && (w + s)[|w|..] == s;
  }

  lemma PrefixesOut(s: string, w: string, v: string)
    requires Simple(s) && 2 <= |w| <= |s| && w[0] == 'u' && w[1] == 'r' && v == "uuid:"
    ensures RemoveAll(RemoveAll(w + (v + s), w), v) == s
  {
    RemovePrefix(w, v + s);
    KeepUuid(s, w);
    RemovePrefix(v, s);
    RemoveAbsent(s, v);
  }

  lemma CleanUrn(s: string)
    requires Simple(s) && |s| >= 4
    ensures Clean("urn:" + ("uuid:" + s)) == RemoveAll(s, "-")
  {
    PrefixesOut(s, "urn:", "uuid:");
    StripIdle(s);
  }

  // ---------- str() ----------

  /** The 32 digits of '%032x'. */
  function Hex(x: nat): (h: string)
    ensures |h| == 32
  {
    HexText(Digits(16, x, 32))
  }

  /** __str__: the digits in groups of 8, 4, 4, 4 and 12. */
  function Str(x: nat): string
  {
    var h := Hex(x);
    h[..8] + ("-" + (h[8..12] + ("-" + (h[12..16] + ("-" + (h[16..20] + ("-" + h[20..])))))))
  }

  function Urn(x: nat): string
  {
    "urn:" + ("uuid:" + Str(x))
  }

  lemma HexSimple(x: nat)
    ensures forall i :: 0 <= i < 32 ==> HexValue(Hex(x)[i]).Some?
  {
    ParseHexText(Digits(16, x, 32));
  }

  lemma StrSimple(x: nat)
    ensures Simple(Str(x)) && |Str(x)| == 36
  {
    HexSimple(x);
  }

  /** How many hyphens come before a position of the text. */
  function Hyphens(i: nat): nat
  {
    if i <= 8 then 0 else if i <= 13 then 1 else if i <= 18 then 2 else if i <= 23 then 3 else 4
  }

  /** The text is the digits in order with hyphens at positions 8, 13, 18 and 23. */
  lemma StrLayout(x: nat, i: nat)
    requires i < 36
    ensures |Str(x)| == 36
    ensures Str(x)[i] == if i == 8 || i == 13 || i == 18 || i == 23 then '-' else Hex(x)[i - Hyphens(i)]
  {
  }

  lemma {:induction false} NoDash(s: string)
    requires forall i :: 0 <= i < |s| ==> HexValue(s[i]).Some?
    ensures RemoveAll(s, "-") == s
  {
    RemoveAbsent(s, "-");
  }

  lemma DropDash(a: string, b: string)
    requires forall i :: 0 <= i < |a| ==> HexValue(a[i]).Some?
    ensures RemoveAll(a + ("-" + b), "-") == a + RemoveAll(b, "-")
  {
    RemoveDashes(a, "-" + b);
    NoDash(a);
    assert ("-" + b)[..1] == "-" && ("-" + b)[1..] == b;
  }

  /** Taking the hyphens out of the text leaves the digits. */
  lemma DashesOut(x: nat)
    ensures RemoveAll(Str(x), "-") == Hex(x)
  {
    var h := Hex(x);
    HexSimple(x);
    var e := h[20..];
    var d := h[16..20] + ("-" + e);
    var c := h[12..16] + ("-" + d);
    var b := h[8..12] + ("-" + c);
    NoDash(e);
    DropDash(h[16..20], e);
    DropDash(h[12..16], d);
    DropDash(h[8..12], c);
    DropDash(h[..8], b);
    Regroup5(h);
  }

  lemma Regroup5(h: string)
    requires |h| == 32
    ensures h[..8] + (h[8..12] + (h[12..16] + (h[16..20] + h[20..]))) == h
  {
  }

  // ---------- long(s, 16) ----------

  predicate IsBlank(c: char)
  {
    9 <= c as int <= 13 || c == ' '
  }

  function SkipBlanks(s: string): (t: string)
    ensures |t| <= |s|
  {
    if s != [] && IsBlank(s[0]) then SkipBlanks(s[1..]) else s
  }

  predicate HasSign(s: string)
  {
    s != [] && (s[0] == '+' || s[0] == '-')
  }

  predicate HasPrefix(s: string)
  {
    |s| >= 2 && s[0] == '0' && (s[1] == 'x' || s[1] == 'X')
  }

  predicate HasSuffix(s: string)
  {
    s != [] && (s[0] == 'L' || s[0] == 'l')
  }

  /** What follows blanks, a sign, blanks again and a prefix, none of which has to be there. */
  function Body(s: string): (t: string)
    ensures |t| <= |s|
  {
    var t := SkipBlanks(s);
    var u := SkipBlanks(if HasSign(t) then t[1..] else t);
    if HasPrefix(u) then u[2..] else u
  }

  /** How many hexadecimal digits a string starts with. */
  function DigitRun(s: string): (k: nat)
    ensures k <= |s| && (forall i :: 0 <= i < k ==> HexValue(s[i]).Some?)
    ensures k < |s| ==> HexValue(s[k]).None?
  {
    if s != [] && HexValue(s[0]).Some? then 1 + DigitRun(s[1..]) else 0
  }

  /** At least one digit, then a suffix and blanks, neither of which has to be there. */
  function ReadDigits(s: string): Option<nat>
  {
    var k := DigitRun(s);
    var rest := if HasSuffix(s[k..]) then s[k + 1..] else s[k..];
    if k == 0 || SkipBlanks(rest) != [] then None
    else
      match ParseHex(s[..k])
      case None => None
      case Some(digits) => Some(Value(16, digits))
  }

  function ParseLong(s: string): Option<int>
  {
    match ReadDigits(Body(s))
    case None => None
    case Some(n) =>
      var t, v: int := SkipBlanks(s), n;
      Some(if t != [] && t[0] == '-' then -v else v)
  }

  lemma AllDigits(s: string)
    requires s != [] && ParseHex(s).Some?
    ensures ReadDigits(s) == Some(Value(16, ParseHex(s).value))
  {
    assert DigitRun(s) == |s|;
    assert s[..|s|] == s;
  }

  lemma NoFrame(s: string)
    requires s != [] && HexValue(s[0]).Some? && (|s| >= 2 ==> HexValue(s[1]).Some?)
    ensures SkipBlanks(s) == s && Body(s) == s
  {
  }

  /** Digits alone are read as what they denote. */
  lemma DigitsRead(s: string)
    requires s != [] && ParseHex(s).Some?
    ensures ParseLong(s) == Some(Value(16, ParseHex(s).value))
  {
    NoFrame(s);
    AllDigits(s);
  }

  lemma ReadFits(s: string)
    ensures ReadDigits(s).Some? ==> ReadDigits(s).value < Pow(16, |s|)
  {
    if ReadDigits(s).Some? {
      var digits := ParseHex(s[..DigitRun(s)]).value;
      ValueBound(16, digits);
      PowMono(16, |digits|, |s|);
    }
  }

  lemma {:induction false} SkipKeeps(s: string)
    ensures forall c :: c in SkipBlanks(s) ==> c in s
  {
    if s != [] {
      SkipKeeps(s[1..]);
    }
  }

  lemma Unsigned(s: string)
    requires '-' !in s
    ensures ParseLong(s).Some? ==> 0 <= ParseLong(s).value < Pow(16, |s|)
  {
    SkipKeeps(s);
    ReadFits(Body(s));
    PowMono(16, |Body(s)|, |s|);
  }

  lemma {:induction false} NoDashLeft(s: string)
    ensures '-' !in RemoveAll(s, "-")
    decreases |s|
  {
    if s != [] {
      NoDashLeft(s[1..]);
      assert s[..1] == [s[0]];
    }
  }

  // ---------- The constructor ----------

  function FromHex(s: string): Result
  {
    FromClean(Clean(s))
  }

  function FromClean(h: string): Result
  {
    if |h| != 32 then Failed(BadHex)
    else
      match ParseLong(h)
      case None => Failed(BadHex)
      case Some(n) => if n < 0 then Failed(IntRange) else Made(n)
  }

  /** A string that is accepted gives 128 bits, and none is out of range: minus signs go with the hyphens. */
  lemma HexFits(s: string)
    ensures FromHex(s) != Failed(IntRange)
    ensures FromHex(s).Made? ==> FromHex(s).n < LIMIT
  {
    LimitInBytes();
    NoDashLeft(StripRight(StripLeft(RemoveAll(RemoveAll(s, "urn:"), "uuid:"))));
    Unsigned(Clean(s));
  }

  lemma CleanPrefixed(s: string)
    requires s != [] && Simple(s) && '-' !in s
    ensures Clean("0x" + s) == "0x" + s
  {
    var t := "0x" + s;
    RemoveAbsent(t, "urn:");
    RemoveAbsent(t, "uuid:");
    RemoveAbsent(t, "-");
    assert StripRight(t) == t;
  }

  lemma PrefixedRead(s: string)
    requires s != [] && ParseHex(s).Some?
    ensures ParseLong("0x" + s) == Some(Value(16, ParseHex(s).value))
  {
    var t := "0x" + s;
    assert SkipBlanks(t) == t;
    assert t[2..] == s;
    AllDigits(s);
  }

  /** A prefix counts towards the 32 characters: thirty digits after one are accepted. */
  lemma PrefixCounts(s: string)
    requires |s| == 30 && ParseHex(s).Some?
    ensures FromHex("0x" + s) == Made(Value(16, ParseHex(s).value))
  {
    CleanPrefixed(s);
    PrefixedRead(s);
  }

  function FromFields(fields: seq<int>): Result
  {
    if |fields| != 6 then Failed(NotSix)
    else
      var f := Fields(fields[0], fields[1], fields[2], fields[3], fields[4], fields[5]);
      match FieldError(f)
      case Some(k) => Failed(FieldRange(k))
      case None => Made(Pack(f))
  }

  function Six(f: Fields): seq<int>
  {
    [f.timeLow, f.timeMid, f.timeHiVersion, f.clockSeqHiVariant, f.clockSeqLow, f.node]
  }

  lemma DigitsMake(x: nat)
    requires x < LIMIT
    ensures FromClean(Hex(x)) == Made(x)
  {
    ParseHexText(Digits(16, x, 32));
    DigitsRead(Hex(x));
    LimitInBytes();
    ValueOfDigits(16, x, 32);
  }

  /** A string in any of the promised notations gives the value its digits denote. */
  lemma HexRoundTrip(x: nat)
    requires x < LIMIT
    ensures FromHex(Str(x)) == Made(x) && FromHex(Hex(x)) == Made(x)
    ensures FromHex("{" + Str(x) + "}") == Made(x) && FromHex(Urn(x)) == Made(x)
  {
    StrSimple(x);
    HexSimple(x);
    CleanSimple(Str(x));
    CleanSimple(Hex(x));
    CleanBraced(Str(x));
    CleanUrn(Str(x));
    DashesOut(x);
    NoDash(Hex(x));
    DigitsMake(x);
  }

  function Given(hex: Option<string>, bytes: Option<Bytes>, fields: Option<seq<int>>, num: Option<int>): Result
  {
    if hex.Some? && bytes.None? && fields.None? && num.None? then FromHex(hex.value)
    else if hex.None? && bytes.Some? && fields.None? && num.None? then FromBytes(bytes.value)
    else if hex.None? && bytes.None? && fields.Some? && num.None? then FromFields(fields.value)
    else if hex.None? && bytes.None? && fields.None? && num.Some? then
      if 0 <= num.value < LIMIT then Made(num.value) else Failed(IntRange)
    else Failed(NeedJustOne)
  }

  /** The constructor: one representation, range checks, and the optional stamp. */
  method Init(hex: Option<string>, bytes: Option<Bytes>, fields: Option<seq<int>>, num: Option<int>,
              version: Option<int>)
    returns (r: Result)
    ensures r.Made? ==> r.n < LIMIT
    ensures Given(hex, bytes, fields, num).Failed? ==> r == Given(hex, bytes, fields, num)
    ensures Given(hex, bytes, fields, num).Made? ==>
      r == match version
        case None => Given(hex, bytes, fields, num)
        case Some(v) => if 1 <= v <= 5 then Made(Stamp(Given(hex, bytes, fields, num).n, v)) else Failed(BadVersion)
  {
    var given := 0;
    if hex.Some? { given := given + 1; }
    if bytes.Some? { given := given + 1; }
    if fields.Some? { given := given + 1; }
    if num.Some? { given := given + 1; }
    if given != 1 {
      return Failed(NeedJustOne);
    }
    var n: int := 0;
    if hex.Some? {
      var h := FromHex(hex.value);
      if h.Failed? {
        return h;
      }
      HexFits(hex.value);
      n := h.n;
    }
    if bytes.Some? {
      if |bytes.value| != 16 {
        return Failed(BadBytes);
      }
      BytesMakeUuid(bytes.value);
      n := Value(16, HexPairs(bytes.value));
    }
    if fields.Some? {
      var f := FromFields(fields.value);
      if f.Failed? {
        return f;
      }
      FieldsFit(fields.value);
      n := f.n;
    }
    if num.Some? {
      n := num.value;
    }
    if !(0 <= n < LIMIT) {
      return Failed(IntRange);
    }
    if version.Some? {
      if !(1 <= version.value <= 5) {
        return Failed(BadVersion);
      }
      StampFits(n, version.value);
      n := Stamp(n, version.value);
    }
    r := Made(n);
  }

  lemma FieldsFit(fields: seq<int>)
    ensures FromFields(fields).Made? ==> FromFields(fields).n < LIMIT
  {
    if FromFields(fields).Made? {
      PackFits(Fields(fields[0], fields[1], fields[2], fields[3], fields[4], fields[5]));
    }
  }

  /** Every 128-bit value is rebuilt from its text, bytes, fields or integer. */
  lemma Rebuilt(x: nat)
    requires x < LIMIT
    ensures Given(Some(Str(x)), None, None, None) == Made(x)
    ensures Given(None, Some(BE(x, 16)), None, None) == Made(x)
    ensures Given(None, None, Some(Six(GetFields(x))), None) == Made(x)
    ensures Given(None, None, None, Some(x)) == Made(x)
  {
    assert FromHex(Str(x)) == Made(x) by {
      HexRoundTrip(x);
    }
    BytesRoundTrip(x);
    FieldsMake(x);
  }

  lemma FieldsMake(x: nat)
    requires x < LIMIT
    ensures FromFields(Six(GetFields(x))) == Made(x)
  {
    PackGetFields(x);
  }
}
