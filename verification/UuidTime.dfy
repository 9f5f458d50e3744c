/** Time-based UUIDs: what uuid1 packs and what the time and clock-sequence getters recover. */
module UuidTime {
  import opened Radix
  import opened Bits
  import opened Wire
  import opened Uuid

  function Uuid1Fields(timestamp: int, clockSeq: int, node: int): Fields
  {
    Fields(BitAnd(timestamp, 0xffff_ffff), BitAnd(Shr(timestamp, 32), 0xffff), BitAnd(Shr(timestamp, 48), 0x0fff),
           BitAnd(Shr(clockSeq, 8), 0x3f), BitAnd(clockSeq, 0xff), node)
  }

  /** uuid1 once the clock, the sequence number and the host are known. */
  function Uuid1(timestamp: int, clockSeq: int, node: int): Result
  {
    var f := Uuid1Fields(timestamp, clockSeq, node);
    match FieldError(f)
    case Some(k) => Failed(FieldRange(k))
    case None => Made(Stamp(Pack(f), 1))
  }

  function GetTime(x: nat): nat
  {
    BitOr(BitOr(Shl(BitAnd(TimeHiVersion(x), 0x0fff), 48), Shl(TimeMid(x), 32)), TimeLow(x))
  }

  function GetClockSeq(x: nat): nat
  {
    BitOr(Shl(BitAnd(ClockSeqHiVariant(x), 0x3f), 8), ClockSeqLow(x))
  }

  /** Three parts placed side by side. */
  lemma JoinBit(hi: nat, mid: nat, low: nat, j: nat, k: nat, i: nat)
    ensures Bit(BitOr(BitOr(Shl(hi, j), Shl(mid, k)), low), i) <==> At(hi, j, i) || At(mid, k, i) || Bit(low, i)
  {
    OrBit(BitOr(Shl(hi, j), Shl(mid, k)), low, i);
    OrBit(Shl(hi, j), Shl(mid, k), i);
    ShlBit(hi, j, i);
    ShlBit(mid, k, i);
  }

  lemma HiBits(x: nat, i: nat)
    ensures Bit(BitAnd(TimeHiVersion(x), 0x0fff), i) <==> i < 12 && Bit(x, i + 64)
    ensures Bit(BitAnd(ClockSeqHiVariant(x), 0x3f), i) <==> i < 6 && Bit(x, i + 56)
  {
    Masks();
    GetterBits(x, i);
    AndBit(TimeHiVersion(x), 0x0fff, i);
    MaskBit(12, i);
    AndBit(ClockSeqHiVariant(x), 0x3f, i);
    MaskBit(6, i);
  }

  lemma TimeBit(x: nat, i: nat)
    requires x < LIMIT
    ensures Bit(GetTime(x), i) <==>
      if i < 32 then Bit(x, i + 96) else if i < 48 then Bit(x, i + 48) else i < 60 && Bit(x, i + 16)
  {
    JoinBit(BitAnd(TimeHiVersion(x), 0x0fff), TimeMid(x), TimeLow(x), 48, 32, i);
    GetterBits(x, i);
    if i >= 32 {
      GetterBits(x, i - 32);
      HighBitsClear(x, 128, i + 96);
    }
    if i >= 48 {
      HiBits(x, i - 48);
    }
  }

  lemma ClockSeqBit(x: nat, i: nat)
    ensures Bit(GetClockSeq(x), i) <==> i < 14 && Bit(x, i + 48)
  {
    var hi := BitAnd(ClockSeqHiVariant(x), 0x3f);
    OrBit(Shl(hi, 8), ClockSeqLow(x), i);
    ShlBit(hi, 8, i);
    GetterBits(x, i);
    if i >= 8 {
      HiBits(x, i - 8);
    }
  }

  lemma Uuid1FieldBits(timestamp: int, clockSeq: int, node: int, i: nat)
    ensures var f := Uuid1Fields(timestamp, clockSeq, node);
      && (Bit(f.timeLow, i) <==> i < 32 && Bit(timestamp, i))
      && (Bit(f.timeMid, i) <==> i < 16 && Bit(timestamp, i + 32))
      && (Bit(f.timeHiVersion, i) <==> i < 12 && Bit(timestamp, i + 48))
      && (Bit(f.clockSeqHiVariant, i) <==> i < 6 && Bit(clockSeq, i + 8))
      && (Bit(f.clockSeqLow, i) <==> i < 8 && Bit(clockSeq, i))
  {
    Masks();
    PartBit(timestamp, 0, 0xffff_ffff, 32, i);
    PartBit(timestamp, 32, 0xffff, 16, i);
    PartBit(timestamp, 48, 0x0fff, 12, i);
    PartBit(clockSeq, 8, 0x3f, 6, i);
    PartBit(clockSeq, 0, 0xff, 8, i);
  }

  lemma FieldsFit(timestamp: int, clockSeq: int, node: int)
    ensures
      FieldError(Uuid1Fields(timestamp, clockSeq, node)) == if 0 <= node < 0x1_0000_0000_0000 then None else Some(6)
  {
  }

  /** The bits of the timestamp end up where the getter looks for them, clear of the version. */
  lemma StampedTimeBit(f: Fields, i: nat)
    requires FieldError(f).None? && i < 60
    ensures Bit(Stamp(Pack(f), 1), if i < 32 then i + 96 else if i < 48 then i + 48 else i + 16) <==>
      if i < 32 then Bit(f.timeLow, i) else if i < 48 then Bit(f.timeMid, i - 32) else Bit(f.timeHiVersion, i - 48)
  {
    var p := if i < 32 then i + 96 else if i < 48 then i + 48 else i + 16;
    StampBit(Pack(f), 1, p);
    PackSegments(f, p);
  }

  lemma StampedClockBit(f: Fields, i: nat)
    requires FieldError(f).None? && i < 14
    ensures Bit(Stamp(Pack(f), 1), i + 48) <==> if i < 8 then Bit(f.clockSeqLow, i) else Bit(f.clockSeqHiVariant, i - 8)
  {
    StampBit(Pack(f), 1, i + 48);
    PackSegments(f, i + 48);
  }

  lemma TimeRecoveredBit(timestamp: int, clockSeq: int, node: int, u: nat, i: nat)
    requires Uuid1(timestamp, clockSeq, node) == Made(u) && u < LIMIT
    ensures Bit(GetTime(u), i) <==> i < 60 && Bit(timestamp, i)
  {
    TimeBit(u, i);
    if i < 60 {
      StampedTimeBit(Uuid1Fields(timestamp, clockSeq, node), i);
      Uuid1FieldBits(timestamp, clockSeq, node, if i < 32 then i else if i < 48 then i - 32 else i - 48);
    }
  }

  lemma TimeRecovered(timestamp: int, clockSeq: int, node: int, u: nat)
    requires Uuid1(timestamp, clockSeq, node) == Made(u) && u < LIMIT
    ensures GetTime(u) == timestamp % Pow(2, 60)
  {
    var t := GetTime(u);
    forall i: nat ensures Bit(t, i) <==> i < 60 && Bit(timestamp, i) {
      TimeRecoveredBit(timestamp, clockSeq, node, u, i);
    }
    ModuloFromBits(t, timestamp, 60);
  }

  lemma ClockSeqRecoveredBit(timestamp: int, clockSeq: int, node: int, u: nat, i: nat)
    requires Uuid1(timestamp, clockSeq, node) == Made(u)
    ensures Bit(GetClockSeq(u), i) <==> i < 14 && Bit(clockSeq, i)
  {
    ClockSeqBit(u, i);
    if i < 14 {
      StampedClockBit(Uuid1Fields(timestamp, clockSeq, node), i);
      Uuid1FieldBits(timestamp, clockSeq, node, if i < 8 then i else i - 8);
    }
  }

  lemma ClockSeqRecovered(timestamp: int, clockSeq: int, node: int, u: nat)
    requires Uuid1(timestamp, clockSeq, node) == Made(u)
    ensures GetClockSeq(u) == clockSeq % Pow(2, 14)
  {
    var t := GetClockSeq(u);
    forall i: nat ensures Bit(t, i) <==> i < 14 && Bit(clockSeq, i) {
      ClockSeqRecoveredBit(timestamp, clockSeq, node, u, i);
    }
    ModuloFromBits(t, clockSeq, 14);
  }

  lemma NodeRecovered(f: Fields)
    requires FieldError(f).None?
    ensures Node(Stamp(Pack(f), 1)) == f.node
  {
    var u := Stamp(Pack(f), 1);
    forall i: nat ensures Bit(Node(u), i) <==> Bit(f.node, i) {
      GetterBits(u, i);
      FieldHigh(f, i);
      if i < 48 {
        StampBit(Pack(f), 1, i);
        PackSegments(f, i);
      }
    }
    SameBits(Node(u), f.node);
  }

  /** uuid1 fails only on a host id of more than 48 bits; otherwise the getters recover the timestamp modulo 2^60,
      the clock sequence modulo 2^14 and the host, and the result is a version 1 UUID. */
  lemma Uuid1Recovers(timestamp: int, clockSeq: int, node: int)
    ensures Uuid1(timestamp, clockSeq, node).Made? <==> 0 <= node < 0x1_0000_0000_0000
    ensures Uuid1(timestamp, clockSeq, node).Made? ==>
      var u := Uuid1(timestamp, clockSeq, node).n;
      && u < LIMIT
      && GetTime(u) == timestamp % Pow(2, 60)
      && GetClockSeq(u) == clockSeq % Pow(2, 14)
      && Node(u) == node
      && GetVersion(u) == Some(1)
  {
    var f := Uuid1Fields(timestamp, clockSeq, node);
    FieldsFit(timestamp, clockSeq, node);
    if FieldError(f).None? {
      PackFits(f);
      StampFits(Pack(f), 1);
      var u := Stamp(Pack(f), 1);
      TimeRecovered(timestamp, clockSeq, node, u);
      ClockSeqRecovered(timestamp, clockSeq, node, u);
      NodeRecovered(f);
      StampReadsBack(Pack(f), 1);
    }
  }
}
