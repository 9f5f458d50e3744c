/** Byte strings, big-endian packing and the 24-byte packet header of the binary protocol. */
module Wire {
  import opened Radix

  type Byte = x: nat | x < 256
  type Bytes = seq<Byte>

  datatype Option<+T> = None | Some(value: T)

  lemma Assoc<T>(a: seq<T>, b: seq<T>, c: seq<T>)
    ensures a + (b + c) == (a + b) + c
  {
  }

  ghost predicate Distinct<T>(s: seq<T>)
  {
    forall i, j :: 0 <= i < j < |s| ==> s[i] != s[j]
  }

  lemma BothEmpty<T(!new)>(a: seq<T>, b: seq<T>)
    requires forall x :: x in a <==> x in b
    ensures a == [] <==> b == []
  {
    if a != [] {
      assert a[0] in b;
    }
    if b != [] {
      assert b[0] in a;
    }
  }

  const MIN_RECV_PACKET: nat := 24
  const REQ_MAGIC_BYTE: nat := 0x80
  const RES_MAGIC_BYTE: nat := 0x81

  /** An unsigned `w`-byte field of a struct format starting with ">". */
  function BE(n: nat, w: nat): (s: Bytes)
    ensures |s| == w
  {
    Digits(256, n, w)
  }

  function UnBE(s: Bytes): nat
  {
    Value(256, s)
  }

  /** Python slicing clamps both ends. */
  function Slice(s: Bytes, i: nat, j: nat): Bytes
  {
    var hi := if j <= |s| then j else |s|;
    if i <= hi then s[i..hi] else []
  }

  lemma BERoundTrip(n: nat, w: nat)
    requires n < Pow(256, w)
    ensures UnBE(BE(n, w)) == n
  {
    ValueOfDigits(256, n, w);
  }

  lemma UnBERoundTrip(s: Bytes)
    ensures BE(UnBE(s), |s|) == s && UnBE(s) < Pow(256, |s|)
  {
    DigitsOfValue(256, s);
    ValueBound(256, s);
  }

  lemma FieldSizes()
    ensures Pow(256, 1) == 0x100 && Pow(256, 2) == 0x1_0000
    ensures Pow(256, 4) == 0x1_0000_0000 && Pow(256, 8) == 0x1_0000_0000_0000_0000
  {
    assert Pow(256, 1) == 0x100;
    assert Pow(256, 2) == 0x1_0000;
    assert Pow(256, 3) == 0x100_0000;
    assert Pow(256, 4) == 0x1_0000_0000;
    assert Pow(256, 5) == 0x100_0000_0000;
    assert Pow(256, 6) == 0x1_0000_0000_0000;
    assert Pow(256, 7) == 0x100_0000_0000_0000;
  }

  /** Fields of ">BBHBBHIIQ"; `tag` is the protocol's opaque field. A request carries a vbucket id
      where a response carries a status. */
  datatype Header = Header(magic: nat, opcode: nat, keylen: nat, extlen: nat, dtype: nat,
                           vbucket: nat, bodylen: nat, tag: nat, cas: nat)

  /** What struct.pack accepts; it raises on every other value. */
  predicate Fits(h: Header)
  {
    && h.magic < 0x100 && h.opcode < 0x100 && h.keylen < 0x1_0000 && h.extlen < 0x100
    && h.dtype < 0x100 && h.vbucket < 0x1_0000 && h.bodylen < 0x1_0000_0000
    && h.tag < 0x1_0000_0000 && h.cas < 0x1_0000_0000_0000_0000
  }

  function PackHeader(h: Header): (s: Bytes)
    ensures |s| == MIN_RECV_PACKET
  {
    BE(h.magic, 1) + BE(h.opcode, 1) + BE(h.keylen, 2) + BE(h.extlen, 1) + BE(h.dtype, 1) +
    BE(h.vbucket, 2) + BE(h.bodylen, 4) + BE(h.tag, 4) + BE(h.cas, 8)
  }

  function UnpackHeader(s: Bytes): Header
    requires |s| >= MIN_RECV_PACKET
  {
    Header(UnBE(s[0..1]), UnBE(s[1..2]), UnBE(s[2..4]), UnBE(s[4..5]), UnBE(s[5..6]),
           UnBE(s[6..8]), UnBE(s[8..12]), UnBE(s[12..16]), UnBE(s[16..24]))
  }

  lemma HeaderFields(h: Header, tail: Bytes)
    ensures var s := PackHeader(h) + tail;
            && s[0..1] == BE(h.magic, 1) && s[1..2] == BE(h.opcode, 1) && s[2..4] == BE(h.keylen, 2)
            && s[4..5] == BE(h.extlen, 1) && s[5..6] == BE(h.dtype, 1) && s[6..8] == BE(h.vbucket, 2)
            && s[8..12] == BE(h.bodylen, 4) && s[12..16] == BE(h.tag, 4) && s[16..24] == BE(h.cas, 8)
  {
  }

  /** A header survives packing exactly when every field fits its width. */
  lemma HeaderRoundTrip(h: Header, tail: Bytes)
    ensures UnpackHeader(PackHeader(h) + tail) == h <==> Fits(h)
  {
    FieldSizes();
    HeaderFields(h, tail);
    if Fits(h) {
      BERoundTrip(h.magic, 1);
      BERoundTrip(h.opcode, 1);
      BERoundTrip(h.keylen, 2);
      BERoundTrip(h.extlen, 1);
      BERoundTrip(h.dtype, 1);
      BERoundTrip(h.vbucket, 2);
      BERoundTrip(h.bodylen, 4);
      BERoundTrip(h.tag, 4);
      BERoundTrip(h.cas, 8);
    } else {
      UnpackFits(PackHeader(h) + tail);
    }
  }

  lemma UnpackFits(s: Bytes)
    requires |s| >= MIN_RECV_PACKET
    ensures Fits(UnpackHeader(s))
  {
    FieldSizes();
    UnBERoundTrip(s[0..1]);
    UnBERoundTrip(s[1..2]);
    UnBERoundTrip(s[2..4]);
    UnBERoundTrip(s[4..5]);
    UnBERoundTrip(s[5..6]);
    UnBERoundTrip(s[6..8]);
    UnBERoundTrip(s[8..12]);
    UnBERoundTrip(s[12..16]);
    UnBERoundTrip(s[16..24]);
  }
}
