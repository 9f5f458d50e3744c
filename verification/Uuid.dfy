/** The layout of UUIDs: sections 4.1.1 to 4.1.5 of RFC 4122. */
module Uuid {
  import opened Radix
  import opened Bits
  import opened Wire

  datatype Fields = Fields(timeLow: int, timeMid: int, timeHiVersion: int, clockSeqHiVariant: int, clockSeqLow: int,
                           node: int)

  datatype Error = NeedJustOne | BadHex | BadBytes | NotSix | FieldRange(k: nat) | IntRange | BadVersion

  datatype Result = Made(n: nat) | Failed(why: Error)

  datatype Variant = ReservedNcs | Rfc4122 | ReservedMicrosoft | ReservedFuture

  const LIMIT: nat := Pow(2, 128)

  // ---------- Fields ----------

  function FieldError(f: Fields): Option<nat>
  {
    if !(0 <= f.timeLow < 0x1_0000_0000) then Some(1)
    else if !(0 <= f.timeMid < 0x1_0000) then Some(2)
    else if !(0 <= f.timeHiVersion < 0x1_0000) then Some(3)
    else if !(0 <= f.clockSeqHiVariant < 0x100) then Some(4)
    else if !(0 <= f.clockSeqLow < 0x100) then Some(5)
    else if !(0 <= f.node < 0x1_0000_0000_0000) then Some(6)
    else None
  }

  /** The number the constructor builds from six fields. */
  function Pack(f: Fields): nat
    requires FieldError(f).None?
  {
    var clockSeq := BitOr(Shl(f.clockSeqHiVariant, 8), f.clockSeqLow);
    BitOr(BitOr(BitOr(BitOr(Shl(f.timeLow, 96), Shl(f.timeMid, 80)), Shl(f.timeHiVersion, 64)),
          Shl(clockSeq, 48)), f.node)
  }

  function TimeLow(x: nat): nat { Shr(x, 96) }
  function TimeMid(x: nat): nat { BitAnd(Shr(x, 80), 0xffff) }
  function TimeHiVersion(x: nat): nat { BitAnd(Shr(x, 64), 0xffff) }
  function ClockSeqHiVariant(x: nat): nat { BitAnd(Shr(x, 56), 0xff) }
  function ClockSeqLow(x: nat): nat { BitAnd(Shr(x, 48), 0xff) }
  function Node(x: nat): nat { BitAnd(x, 0xffff_ffff_ffff) }

  function GetFields(x: nat): Fields
  {
    Fields(TimeLow(x), TimeMid(x), TimeHiVersion(x), ClockSeqHiVariant(x), ClockSeqLow(x), Node(x))
  }

  lemma Masks()
    ensures Mask(1) == 1 && Mask(2) == 3 && Mask(4) == 0xf && Mask(6) == 0x3f && Mask(8) == 0xff && Mask(12) == 0xfff
    ensures Mask(16) == 0xffff && Mask(32) == 0xffff_ffff && Mask(48) == 0xffff_ffff_ffff
  {
    assert Mask(20) == 0xf_ffff;
    assert Mask(24) == 0xff_ffff;
    assert Mask(28) == 0xfff_ffff;
    assert Mask(36) == 0xf_ffff_ffff;
    assert Mask(40) == 0xff_ffff_ffff;
    assert Mask(44) == 0xfff_ffff_ffff;
  }

  /** What each getter reads, bit by bit. */
  lemma GetterBits(x: nat, i: nat)
    ensures Bit(TimeLow(x), i) <==> Bit(x, i + 96)
    ensures Bit(TimeMid(x), i) <==> i < 16 && Bit(x, i + 80)
    ensures Bit(TimeHiVersion(x), i) <==> i < 16 && Bit(x, i + 64)
    ensures Bit(ClockSeqHiVariant(x), i) <==> i < 8 && Bit(x, i + 56)
    ensures Bit(ClockSeqLow(x), i) <==> i < 8 && Bit(x, i + 48)
    ensures Bit(Node(x), i) <==> i < 48 && Bit(x, i)
  {
    Masks();
    ShrBit(x, 96, i);
    PartBit(x, 80, 0xffff, 16, i);
    PartBit(x, 64, 0xffff, 16, i);
    PartBit(x, 56, 0xff, 8, i);
    PartBit(x, 48, 0xff, 8, i);
    PartBit(x, 0, 0xffff_ffff_ffff, 48, i);
  }

  /** Bit `i` of a field shifted to position `k`. */
  ghost predicate At(field: int, k: nat, i: nat)
  {
    i >= k && Bit(field, i - k)
  }

  /** What the constructor builds, bit by bit. */
  lemma PackBit(f: Fields, i: nat)
    requires FieldError(f).None?
    ensures Bit(Pack(f), i) <==>
      || At(f.timeLow, 96, i) || At(f.timeMid, 80, i) || At(f.timeHiVersion, 64, i)
      || At(f.clockSeqHiVariant, 56, i) || At(f.clockSeqLow, 48, i) || At(f.node, 0, i)
  {
    var seq16 := BitOr(Shl(f.clockSeqHiVariant, 8), f.clockSeqLow);
    var a := BitOr(Shl(f.timeLow, 96), Shl(f.timeMid, 80));
    var b := BitOr(a, Shl(f.timeHiVersion, 64));
    var c := BitOr(b, Shl(seq16, 48));
    OrBit(c, f.node, i);
    OrBit(b, Shl(seq16, 48), i);
    OrBit(a, Shl(f.timeHiVersion, 64), i);
    OrBit(Shl(f.timeLow, 96), Shl(f.timeMid, 80), i);
    ShlBit(f.timeLow, 96, i);
    ShlBit(f.timeMid, 80, i);
    ShlBit(f.timeHiVersion, 64, i);
    ShlBit(seq16, 48, i);
    if i >= 48 {
      OrBit(Shl(f.clockSeqHiVariant, 8), f.clockSeqLow, i - 48);
      ShlBit(f.clockSeqHiVariant, 8, i - 48);
    }
  }

  lemma Powers()
    ensures Pow(2, 8) == 0x100 && Pow(2, 16) == 0x1_0000 && Pow(2, 32) == 0x1_0000_0000
    ensures Pow(2, 48) == 0x1_0000_0000_0000
  {
    assert Pow(2, 1) == 2 && Pow(2, 2) == 4 && Pow(2, 4) == 16;
    PowAdd(2, 4, 4);
    PowAdd(2, 8, 8);
    PowAdd(2, 16, 16);
    PowAdd(2, 16, 32);
  }

  lemma TimeLowFits(x: nat)
    requires x < LIMIT
    ensures TimeLow(x) < 0x1_0000_0000
  {
    Powers();
    forall i: nat | i >= 32 ensures !Bit(TimeLow(x), i) {
      ShrBit(x, 96, i);
      HighBitsClear(x, 128, i + 96);
    }
    SmallFromBits(TimeLow(x), 32);
  }

  lemma GettersInRange(x: nat)
    requires x < LIMIT
    ensures FieldError(GetFields(x)).None?
  {
    TimeLowFits(x);
  }

  /** The bits above a field's width are clear. */
  lemma FieldHigh(f: Fields, i: nat)
    requires FieldError(f).None?
    ensures i >= 32 ==> !Bit(f.timeLow, i)
    ensures i >= 16 ==> !Bit(f.timeMid, i) && !Bit(f.timeHiVersion, i)
    ensures i >= 8 ==> !Bit(f.clockSeqHiVariant, i) && !Bit(f.clockSeqLow, i)
    ensures i >= 48 ==> !Bit(f.node, i)
  {
    Powers();
    if i >= 32 {
      HighBitsClear(f.timeLow, 32, i);
    }
    if i >= 16 {
      HighBitsClear(f.timeMid, 16, i);
      HighBitsClear(f.timeHiVersion, 16, i);
    }
    if i >= 8 {
      HighBitsClear(f.clockSeqHiVariant, 8, i);
      HighBitsClear(f.clockSeqLow, 8, i);
    }
    if i >= 48 {
      HighBitsClear(f.node, 48, i);
    }
  }

  /** Which field a bit of the packed number belongs to. */
  lemma PackSegments(f: Fields, i: nat)
    requires FieldError(f).None?
    ensures Bit(Pack(f), i) <==>
      if i < 48 then Bit(f.node, i)
      else if i < 56 then Bit(f.clockSeqLow, i - 48)
      else if i < 64 then Bit(f.clockSeqHiVariant, i - 56)
      else if i < 80 then Bit(f.timeHiVersion, i - 64)
      else if i < 96 then Bit(f.timeMid, i - 80)
      else Bit(f.timeLow, i - 96)
  {
    PackBit(f, i);
    FieldHigh(f, i);
    if i >= 48 {
      FieldHigh(f, i - 48);
    }
    if i >= 56 {
      FieldHigh(f, i - 56);
    }
    if i >= 64 {
      FieldHigh(f, i - 64);
    }
    if i >= 80 {
      FieldHigh(f, i - 80);
    }
  }

  lemma PackFits(f: Fields)
    requires FieldError(f).None?
    ensures Pack(f) < LIMIT
  {
    forall i: nat ensures i >= 128 ==> !Bit(Pack(f), i) {
      PackSegments(f, i);
      if i >= 128 {
        FieldHigh(f, i - 96);
      }
    }
    SmallFromBits(Pack(f), 128);
  }

  lemma FieldBits(f: Fields, i: nat)
    requires FieldError(f).None?
    ensures Bit(TimeLow(Pack(f)), i) <==> Bit(f.timeLow, i)
    ensures Bit(TimeMid(Pack(f)), i) <==> Bit(f.timeMid, i)
    ensures Bit(TimeHiVersion(Pack(f)), i) <==> Bit(f.timeHiVersion, i)
    ensures Bit(ClockSeqHiVariant(Pack(f)), i) <==> Bit(f.clockSeqHiVariant, i)
    ensures Bit(ClockSeqLow(Pack(f)), i) <==> Bit(f.clockSeqLow, i)
    ensures Bit(Node(Pack(f)), i) <==> Bit(f.node, i)
  {
    GetterBits(Pack(f), i);
    FieldHigh(f, i);
    PackSegments(f, i);
    PackSegments(f, i + 48);
    PackSegments(f, i + 56);
    PackSegments(f, i + 64);
    PackSegments(f, i + 80);
    PackSegments(f, i + 96);
  }

  /** Reading the fields of a UUID built from fields gives those fields. */
  lemma GetFieldsPack(f: Fields)
    requires FieldError(f).None?
    ensures GetFields(Pack(f)) == f && Pack(f) < LIMIT
  {
    PackFits(f);
    var x := Pack(f);
    forall i: nat
      ensures Bit(TimeLow(x), i) <==> Bit(f.timeLow, i)
      ensures Bit(TimeMid(x), i) <==> Bit(f.timeMid, i)
      ensures Bit(TimeHiVersion(x), i) <==> Bit(f.timeHiVersion, i)
      ensures Bit(ClockSeqHiVariant(x), i) <==> Bit(f.clockSeqHiVariant, i)
      ensures Bit(ClockSeqLow(x), i) <==> Bit(f.clockSeqLow, i)
      ensures Bit(Node(x), i) <==> Bit(f.node, i)
    {
      FieldBits(f, i);
    }
    SameBits(TimeLow(x), f.timeLow);
    SameBits(TimeMid(x), f.timeMid);
    SameBits(TimeHiVersion(x), f.timeHiVersion);
    SameBits(ClockSeqHiVariant(x), f.clockSeqHiVariant);
    SameBits(ClockSeqLow(x), f.clockSeqLow);
    SameBits(Node(x), f.node);
  }

  lemma PackedBit(x: nat, i: nat)
    requires FieldError(GetFields(x)).None?
    ensures Bit(Pack(GetFields(x)), i) <==> Bit(x, i)
  {
    PackSegments(GetFields(x), i);
    if i < 48 {
      GetterBits(x, i);
    } else if i < 56 {
      GetterBits(x, i - 48);
    } else if i < 64 {
      GetterBits(x, i - 56);
    } else if i < 80 {
      GetterBits(x, i - 64);
    } else if i < 96 {
      GetterBits(x, i - 80);
    } else {
      GetterBits(x, i - 96);
    }
  }

  /** Rebuilding a UUID from its fields gives the same value. */
  lemma PackGetFields(x: nat)
    requires x < LIMIT
    ensures FieldError(GetFields(x)).None? && Pack(GetFields(x)) == x
  {
    GettersInRange(x);
    var y := Pack(GetFields(x));
    forall i: nat ensures Bit(y, i) <==> Bit(x, i) {
      PackedBit(x, i);
    }
    SameBits(y, x);
  }

  // ---------- Variant and version ----------

  /** The constructor's `version` argument. */
  function Stamp(x: nat, version: nat): nat
  {
    var a := BitClear(x, Shl(0xc000, 48));
    var b := BitOr(a, Shl(0x8000, 48));
    var c := BitClear(b, Shl(0xf000, 64));
    BitOr(c, Shl(version, 76))
  }

  function GetVariant(x: nat): Variant
  {
    if BitAnd(x, Shl(0x8000, 48)) == 0 then ReservedNcs
    else if BitAnd(x, Shl(0x4000, 48)) == 0 then Rfc4122
    else if BitAnd(x, Shl(0x2000, 48)) == 0 then ReservedMicrosoft
    else ReservedFuture
  }

  function GetVersion(x: nat): Option<nat>
  {
    if GetVariant(x) == Rfc4122 then Some(BitAnd(Shr(x, 76), 0xf)) else None
  }

  lemma Powers16()
    ensures Pow(2, 12) == 0x1000 && Pow(2, 13) == 0x2000 && Pow(2, 14) == 0x4000 && Pow(2, 15) == 0x8000
  {
    assert Pow(2, 4) == 16 && Pow(2, 8) == 256;
  }

  /** The constants of the stamp as runs of ones. */
  lemma VariantMask()
    ensures Shl(0xc000, 48) == Shl(Mask(2), 62)
  {
    Masks();
    Powers16();
    ShlShl(3, 14, 48);
  }

  lemma VersionMask()
    ensures Shl(0xf000, 64) == Shl(Mask(4), 76)
  {
    Masks();
    Powers16();
    ShlShl(0xf, 12, 64);
  }

  lemma SingleBits()
    ensures Shl(0x8000, 48) == Shl(1, 63) && Shl(0x4000, 48) == Shl(1, 62) && Shl(0x2000, 48) == Shl(1, 61)
  {
    Powers16();
    ShlShl(1, 13, 48);
    ShlShl(1, 14, 48);
    ShlShl(1, 15, 48);
  }

  lemma VersionHigh(version: nat, i: nat)
    requires version < 16 && i >= 4
    ensures !Bit(version, i)
  {
    assert Pow(2, 2) == 4 && Pow(2, 4) == 16;
    HighBitsClear(version, 4, i);
  }

  lemma StampMaskBits(i: nat)
    ensures Bit(Shl(0xc000, 48), i) <==> i == 62 || i == 63
    ensures Bit(Shl(0x8000, 48), i) <==> i == 63
    ensures Bit(Shl(0xf000, 64), i) <==> 76 <= i < 80
  {
    VariantMask();
    VersionMask();
    SingleBits();
    Masks();
    RunBit(2, 62, i);
    RunBit(1, 63, i);
    RunBit(4, 76, i);
  }

  /** The four steps of the stamp at one bit, for any masks. */
  lemma StepsBit(x: nat, both: nat, set1: nat, nibble: nat, shifted: nat, i: nat)
    ensures Bit(BitOr(BitClear(BitOr(BitClear(x, both), set1), nibble), shifted), i) <==>
      (((Bit(x, i) && !Bit(both, i)) || Bit(set1, i)) && !Bit(nibble, i)) || Bit(shifted, i)
  {
    var a := BitClear(x, both);
    var b := BitOr(a, set1);
    var c := BitClear(b, nibble);
    ClearBit(x, both, i);
    OrBit(a, set1, i);
    ClearBit(b, nibble, i);
    OrBit(c, shifted, i);
  }

  /** Stamping sets two variant bits and four version bits and leaves the other 122 alone. */
  lemma StampBit(x: nat, version: nat, i: nat)
    requires version < 16
    ensures Bit(Stamp(x, version), i) <==>
      if i == 63 then true else if i == 62 then false else if 76 <= i < 80 then Bit(version, i - 76) else Bit(x, i)
  {
    StepsBit(x, Shl(0xc000, 48), Shl(0x8000, 48), Shl(0xf000, 64), Shl(version, 76), i);
    StampMaskBits(i);
    ShlBit(version, 76, i);
    if i >= 80 {
      VersionHigh(version, i - 76);
    }
  }

  lemma VariantBits(x: nat)
    ensures GetVariant(x) ==
      if !Bit(x, 63) then ReservedNcs
      else if !Bit(x, 62) then Rfc4122
      else if !Bit(x, 61) then ReservedMicrosoft
      else ReservedFuture
  {
    SingleBits();
    AndSingle(x, 63);
    AndSingle(x, 62);
    AndSingle(x, 61);
  }

  lemma StampFits(x: nat, version: nat)
    requires x < LIMIT && version < 16
    ensures Stamp(x, version) < LIMIT
  {
    var y := Stamp(x, version);
    forall i: nat | i >= 128 ensures !Bit(y, i) {
      StampBit(x, version, i);
      HighBitsClear(x, 128, i);
    }
    SmallFromBits(y, 128);
  }

  /** A stamped value reads back as the RFC 4122 variant with the stamped version. */
  lemma StampReadsBack(x: nat, version: nat)
    requires version < 16
    ensures GetVariant(Stamp(x, version)) == Rfc4122 && GetVersion(Stamp(x, version)) == Some(version)
  {
    var y := Stamp(x, version);
    VariantBits(y);
    StampBit(x, version, 63);
    StampBit(x, version, 62);
    var v := BitAnd(Shr(y, 76), 0xf);
    forall i: nat ensures Bit(v, i) <==> Bit(version, i) {
      Masks();
      PartBit(y, 76, 0xf, 4, i);
      StampBit(x, version, i + 76);
      if i >= 4 {
        VersionHigh(version, i);
      }
    }
    SameBits(v, version);
  }

  lemma NibbleBit(x: nat, j: nat)
    requires j < 4
    ensures Bit(BitAnd(Shr(x, 76), 0xf), j) <==> Bit(x, j + 76)
  {
    assert Mask(2) == 3 && Mask(4) == 0xf;
    PartBit(x, 76, 0xf, 4, j);
  }

  lemma IdleBit(x: nat, version: nat, i: nat)
    requires version < 16 && Bit(x, 63) && !Bit(x, 62) && BitAnd(Shr(x, 76), 0xf) == version
    ensures Bit(Stamp(x, version), i) <==> Bit(x, i)
  {
    StampBit(x, version, i);
    if 76 <= i < 80 {
      NibbleBit(x, i - 76);
    }
  }

  /** A value is left as it was exactly when it already carried that variant and version. */
  lemma StampIdle(x: nat, version: nat)
    requires version < 16
    ensures Stamp(x, version) == x <==> GetVersion(x) == Some(version)
  {
    StampReadsBack(x, version);
    if GetVersion(x) == Some(version) {
      VariantBits(x);
      var y := Stamp(x, version);
      forall i: nat ensures Bit(y, i) <==> Bit(x, i) {
        IdleBit(x, version, i);
      }
      SameBits(y, x);
    }
  }

  // ---------- Bytes ----------

  lemma LimitInBytes()
    ensures Pow(256, 16) == LIMIT && Pow(16, 32) == LIMIT
  {
    assert Pow(2, 2) == 4 && Pow(2, 4) == 16;
    Powers();
    PowPow(2, 8, 16);
    PowPow(2, 4, 32);
  }

  lemma {:induction false} DigitsCons(b: nat, n: nat, w: nat)
    requires b >= 2
    ensures Digits(b, n, w + 1) == [n / Pow(b, w) % b] + Digits(b, n, w)
  {
    if w == 0 {
      assert Pow(b, 0) == 1;
    } else {
      DigitsCons(b, n / b, w - 1);
      DivideTwice(n, b, Pow(b, w - 1));
    }
  }

  lemma Regroup(q: nat, p: nat, r: nat, b: nat, s: nat)
    ensures (q * p + r) * b + s == q * (b * p) + (r * b + s)
  {
  }

  lemma DivideTwice(n: nat, b: nat, p: nat)
    requires b > 0 && p > 0
    ensures (n / b) / p == n / (b * p)
  {
    var m, s := n / b, n % b;
    var q, r := m / p, m % p;
    assert n == m * b + s by {
      DivModIdentity(n, b);
    }
    assert m == q * p + r by {
      DivModIdentity(m, p);
    }
    Regroup(q, p, r, b, s);
    BelowProduct(b, r, s, p);
    DivModUnique(b * p, q, r * b + s);
  }

  /** get_bytes: the loop over shifts. */
  method GetBytes(x: nat) returns (bytes: Bytes)
    ensures bytes == BE(x, 16)
  {
    bytes := [];
    for j := 0 to 16
      invariant bytes == BE(x, j)
    {
      var shift := 8 * j;
      ShiftedByte(x, j);
      DigitsCons(256, x, j);
      bytes := [BitAnd(Shr(x, shift), 0xff)] + bytes;
    }
  }

  lemma ShiftedByte(x: nat, j: nat)
    ensures BitAnd(Shr(x, 8 * j), 0xff) == x / Pow(256, j) % 256
  {
    Masks();
    Powers();
    PowPow(2, 8, j);
    ShrIsDivide(x, 8 * j);
    MaskIsModulo(Shr(x, 8 * j), 8);
  }

  /** Integer order is the order of the bytes. */
  lemma OrderAgrees(x: nat, y: nat)
    requires x < LIMIT && y < LIMIT
    ensures x < y <==> LexLess(BE(x, 16), BE(y, 16))
    ensures x == y <==> BE(x, 16) == BE(y, 16)
  {
    LimitInBytes();
    DigitsOrder(256, x, y, 16);
  }

  /** Each byte as two hexadecimal digits. */
  function HexPairs(bytes: Bytes): seq<nat>
  {
    if bytes == [] then [] else HexPairs(bytes[..|bytes| - 1]) + Digits(16, bytes[|bytes| - 1], 2)
  }

  /** Reading the pairs in base 16 is reading the bytes in base 256. */
  lemma {:induction false} PairsAreBytes(bytes: Bytes)
    ensures Value(16, HexPairs(bytes)) == UnBE(bytes)
  {
    if bytes != [] {
      var init, b := bytes[..|bytes| - 1], bytes[|bytes| - 1];
      PairsAreBytes(init);
      var s := HexPairs(init);
      assert Digits(16, b, 2) == [b / 16 % 16, b % 16];
      assert s + Digits(16, b, 2) == (s + [b / 16 % 16]) + [b % 16];
      ValueSnoc(16, s, b / 16 % 16);
      ValueSnoc(16, s + [b / 16 % 16], b % 16);
    }
  }

  function FromBytes(bytes: Bytes): Result
  {
    if |bytes| != 16 then Failed(BadBytes) else Made(Value(16, HexPairs(bytes)))
  }

  /** Rebuilding a UUID from its bytes gives the same value, and every 16 bytes are those of the UUID they make. */
  lemma BytesRoundTrip(x: nat)
    requires x < LIMIT
    ensures FromBytes(BE(x, 16)) == Made(x)
  {
    LimitInBytes();
    PairsAreBytes(BE(x, 16));
    BERoundTrip(x, 16);
  }

  lemma BytesMakeUuid(bytes: Bytes)
    requires |bytes| == 16
    ensures FromBytes(bytes).Made? && FromBytes(bytes).n < LIMIT && BE(FromBytes(bytes).n, 16) == bytes
  {
    LimitInBytes();
    PairsAreBytes(bytes);
    UnBERoundTrip(bytes);
  }
}
