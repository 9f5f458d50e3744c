/** TAP messages: the sink's request builder and the source's reader, and that they undo each other. */
module Tap {
  import opened Codes
  import opened Radix
  import opened Wire
  import opened Framing

  const TAP_FLAG_ACK: nat := 0x01
  const TAP_FLAG_NETWORK_BYTE_ORDER: nat := 0x04

  /** Arguments of TapSink.cmd_request; `tag` is the opaque. */
  datatype Args = Args(cmd: nat, vbucket: nat, key: Bytes, val: Bytes, flg: nat, exp: nat,
                       cas: nat, meta: Bytes, tag: nat, needAck: bool)

  datatype Request = Request(hdr: Bytes, ext: Bytes, seqNo: Bytes, key: Bytes, val: Bytes)

  /** `MetaTypeError` is the TypeError of adding 1 to a string, `StructError` that of struct.pack. */
  datatype Built = Ok(req: Request) | MetaTypeError | UnknownCmd | StructError

  const ZEROS: Bytes := [0, 0, 0, 0, 0, 0, 0, 0]

  /** The 8-byte revision: longer metas are cut, shorter ones padded on the left. */
  function NormMeta(meta: Bytes): (s: Bytes)
    ensures |s| == 8
  {
    if |meta| > 8 then meta[..8] else (ZEROS + meta)[|meta|..]
  }

  lemma {:induction false} LeadingZeros(k: nat, s: Bytes)
    requires k <= 8
    ensures UnBE(ZEROS[..k] + s) == UnBE(s)
    decreases |s|
  {
    if s == [] {
      assert ZEROS[..k] + s == ZEROS[..k];
      ZeroValue(k);
    } else {
      var n := |s| - 1;
      LeadingZeros(k, s[..n]);
      assert (ZEROS[..k] + s)[..k + n] == ZEROS[..k] + s[..n];
    }
  }

  lemma {:induction false} ZeroValue(k: nat)
    requires k <= 8
    ensures UnBE(ZEROS[..k]) == 0
  {
    if k > 0 {
      ZeroValue(k - 1);
      assert ZEROS[..k][..k - 1] == ZEROS[..k - 1];
    }
  }

  /** A meta of up to eight bytes keeps its value, and its bytes at the end; of a longer one the first eight stay. */
  lemma MetaKept(meta: Bytes)
    ensures |meta| <= 8 ==> UnBE(NormMeta(meta)) == UnBE(meta) && NormMeta(meta)[8 - |meta|..] == meta
    ensures |meta| > 8 ==> NormMeta(meta) <= meta
  {
    if |meta| <= 8 {
      assert NormMeta(meta) == ZEROS[..8 - |meta|] + meta;
      LeadingZeros(8 - |meta|, meta);
    }
  }

  function TapFlags(needAck: bool): nat
  {
    TAP_FLAG_NETWORK_BYTE_ORDER + if needAck then TAP_FLAG_ACK else 0
  }

  /** ">HHbxxx": metalen, flags, the ttl of -1 as a signed byte, three pad bytes. */
  function GeneralExt(needAck: bool): (s: Bytes)
    ensures |s| == 8
  {
    BE(8, 2) + BE(TapFlags(needAck), 2) + [0xff, 0, 0, 0]
  }

  function ExtOf(a: Args): Bytes
  {
    if a.cmd == CMD_TAP_MUTATION then GeneralExt(a.needAck) + BE(a.flg, 4) + BE(a.exp, 4)
    else GeneralExt(a.needAck)
  }

  function HeaderOf(a: Args): Header
  {
    Header(REQ_MAGIC_BYTE, a.cmd, |a.key|, |ExtOf(a)|, 0, a.vbucket,
           8 + |a.key| + |a.val| + |ExtOf(a)|, a.tag, a.cas)
  }

  /** TapSink.cmd_request with cmd_header. */
  function CmdRequest(a: Args): Built
  {
    if a.meta == [] || UnBE(NormMeta(a.meta)) == 0 then MetaTypeError
    else if a.cmd != CMD_TAP_MUTATION && a.cmd != CMD_TAP_DELETE then UnknownCmd
    else if a.cmd == CMD_TAP_MUTATION && (a.flg >= 0x1_0000_0000 || a.exp >= 0x1_0000_0000) then StructError
    else if !Fits(HeaderOf(a)) then StructError
    else Ok(Request(PackHeader(HeaderOf(a)), ExtOf(a), NormMeta(a.meta), a.key, a.val))
  }

  function RequestBytes(a: Args): Bytes
  {
    PackHeader(HeaderOf(a)) + (ExtOf(a) + (NormMeta(a.meta) + (a.key + a.val)))
  }

  function Frames(args: seq<Args>): (fs: seq<Bytes>)
    ensures |fs| == |args|
  {
    seq(|args|, i requires 0 <= i < |args| => RequestBytes(args[i]))
  }

  /** TapSink.append_req: empty parts are left out of the list, not of the bytes. */
  method AppendReq(m: seq<Bytes>, req: Request) returns (m': seq<Bytes>)
    requires req.hdr != []
    ensures Flatten(m') == Flatten(m) + (req.hdr + (req.ext + (req.seqNo + (req.key + req.val))))
  {
    m' := m + [req.hdr];
    PartAdded(m, req.hdr);
    ghost var m1 := m';
    if req.ext != [] { m' := m' + [req.ext]; }
    PartAdded(m1, req.ext);
    ghost var m2 := m';
    if req.seqNo != [] { m' := m' + [req.seqNo]; }
    PartAdded(m2, req.seqNo);
    ghost var m3 := m';
    if req.key != [] { m' := m' + [req.key]; }
    PartAdded(m3, req.key);
    ghost var m4 := m';
    if req.val != [] { m' := m' + [req.val]; }
    PartAdded(m4, req.val);
    FiveParts(Flatten(m), req);
  }

  /** A part that is left out because it is empty changes nothing. */
  lemma PartAdded(m: seq<Bytes>, part: Bytes)
    ensures Flatten(if part != [] then m + [part] else m) == Flatten(m) + part
  {
    if part != [] {
      FlattenAppend(m, [part]);
      assert [part][1..] == [] && Flatten([part]) == part + [];
    }
  }

  lemma FiveParts(s: Bytes, req: Request)
    ensures ((((s + req.hdr) + req.ext) + req.seqNo) + req.key) + req.val ==
      s + (req.hdr + (req.ext + (req.seqNo + (req.key + req.val))))
  {
    Assoc(((s + req.hdr) + req.ext) + req.seqNo, req.key, req.val);
    Assoc((s + req.hdr) + req.ext, req.seqNo, req.key + req.val);
    Assoc(s + req.hdr, req.ext, req.seqNo + (req.key + req.val));
    Assoc(s, req.hdr, req.ext + (req.seqNo + (req.key + req.val)));
  }

  method AppendRequest(m: seq<Bytes>, a: Args) returns (r: Built, m': seq<Bytes>)
    ensures r == CmdRequest(a)
    ensures r.Ok? ==> Flatten(m') == Flatten(m) + RequestBytes(a)
  {
    r, m' := CmdRequest(a), m;
    if r.Ok? {
      m' := AppendReq(m, r.req);
    }
  }

  function FirstError(args: seq<Args>): Option<Built>
  {
    if args == [] then None
    else if !CmdRequest(args[0]).Ok? then Some(CmdRequest(args[0]))
    else FirstError(args[1..])
  }

  /** The building loop of TapSink.send_msgs: all the requests in order, or the first error. */
  method BuildRequests(args: seq<Args>) returns (err: Option<Built>, bytes: Bytes)
    ensures err == FirstError(args)
    ensures err.None? ==> bytes == Flatten(Frames(args))
  {
    var m: seq<Bytes> := [];
    for i := 0 to |args|
      invariant FirstError(args[i..]) == FirstError(args)
      invariant Flatten(m) == Flatten(Frames(args)[..i])
    {
      assert args[i..][0] == args[i] && args[i..][1..] == args[i + 1..];
      var r;
      r, m := AppendRequest(m, args[i]);
      if !r.Ok? {
        return Some(r), [];
      }
      FramesTake(args, i);
    }
    assert Frames(args)[..|args|] == Frames(args);
    return None, Flatten(m);
  }

  lemma FramesTake(args: seq<Args>, i: nat)
    requires i < |args|
    ensures Flatten(Frames(args)[..i + 1]) == Flatten(Frames(args)[..i]) + RequestBytes(args[i])
  {
    var fs := Frames(args);
    assert fs[i] == RequestBytes(args[i]);
    TakeSnoc(fs, i);
    FlattenSnoc(fs[..i], fs[i]);
  }

  lemma TakeSnoc(fs: seq<Bytes>, i: nat)
    requires i < |fs|
    ensures fs[..i + 1] == fs[..i] + [fs[i]]
  {
  }

  lemma FlattenSnoc(ss: seq<Bytes>, s: Bytes)
    ensures Flatten(ss + [s]) == Flatten(ss) + s
  {
    FlattenAppend(ss, [s]);
    assert [s][1..] == [] && s + [] == s;
  }

  // ---------- Reader ----------

  datatype Read =
    | EofError
    | MagicError
    | BodyError   // "could not read full TAP message body"
    | ExtError    // struct.unpack on a short ext
    | Msg(cmd: nat, vbucket: nat, key: Bytes, flg: nat, exp: nat, cas: nat, meta: Bytes, val: Bytes,
          tag: nat, needAck: bool, dtype: nat)

  /** socket.ntohl on a little-endian host. */
  function NetToHost(n: nat): nat
  {
    var b := BE(n, 4);
    UnBE([b[3], b[2], b[1], b[0]])
  }

  /** It reverses the four bytes, so twice it changes nothing. */
  lemma NetToHostReverses(n: nat)
    requires n < 0x1_0000_0000
    ensures var b, r := BE(n, 4), BE(NetToHost(n), 4); r[0] == b[3] && r[1] == b[2] && r[2] == b[1] && r[3] == b[0]
    ensures NetToHost(n) < 0x1_0000_0000 && NetToHost(NetToHost(n)) == n
  {
    FieldSizes();
    var b := BE(n, 4);
    UnBERoundTrip([b[3], b[2], b[1], b[0]]);
    BERoundTrip(n, 4);
    assert [b[0], b[1], b[2], b[3]] == b;
  }

  /** TAPDumpSource.read_tap_conn on what recv_msg returned. */
  function Parse(r: Received, fixByteOrder: bool): Read
  {
    match r
    case Eof => EofError
    case BadMagic => MagicError
    case NoBody(_) => BodyError
    case Packet(h, data) =>
      var ext := Slice(data, 0, h.extlen);
      if data == [] then Msg(h.opcode, h.vbucket, [], 0, 0, h.cas, [], [], h.tag, false, h.dtype)
      else if (h.extlen == 8 || h.extlen == 16) && |ext| != h.extlen then ExtError
      else
        var known := h.extlen == 8 || h.extlen == 16;
        var metalen := if known then UnBE(ext[0..2]) else 0;
        var flags := if known then UnBE(ext[2..4]) else 0;
        var flg := if h.extlen == 16 then UnBE(ext[8..12]) else 0;
        var exp := if h.extlen == 16 then UnBE(ext[12..16]) else 0;
        var keyStart := h.extlen + metalen;
        var valStart := keyStart + h.keylen;
        Msg(h.opcode, h.vbucket, Slice(data, keyStart, valStart),
            if h.extlen == 16 && !fixByteOrder then NetToHost(flg) else flg, exp, h.cas,
            Slice(data, h.extlen, keyStart), Slice(data, valStart, |data|), h.tag,
            flags % 2 == TAP_FLAG_ACK, h.dtype)
  }

  method ReadTapConn(conn: Conn, fixByteOrder: bool) returns (m: Read)
    modifies conn
    ensures m == Parse(Receive(old(conn.Pending()), REQ_MAGIC_BYTE), fixByteOrder)
    ensures Complete(old(conn.Pending())) && !m.MagicError? ==>
              conn.Pending() == old(conn.Pending())[HeadSize(old(conn.Pending()))..]
  {
    var r := conn.RecvRequest();
    m := Parse(r, fixByteOrder);
  }

  /** What a message says once it has been through a TAP request: deletes carry no flags or expiry,
      the meta is the normalised one. */
  function Carried(a: Args, fixByteOrder: bool): Read
  {
    var m := a.cmd == CMD_TAP_MUTATION;
    Msg(a.cmd, a.vbucket, a.key,
        if !m then 0 else if fixByteOrder then a.flg else NetToHost(a.flg),
        if m then a.exp else 0,
        a.cas, NormMeta(a.meta), a.val, a.tag, a.needAck, 0)
  }

  /** Exactly the arguments a request can be built from. */
  predicate Encodable(a: Args)
  {
    && a.meta != [] && NormMeta(a.meta) != ZEROS
    && (a.cmd == CMD_TAP_MUTATION || a.cmd == CMD_TAP_DELETE)
    && a.vbucket < 0x1_0000 && |a.key| < 0x1_0000 && a.tag < 0x1_0000_0000
    && a.cas < 0x1_0000_0000_0000_0000
    && (a.cmd == CMD_TAP_MUTATION ==> a.flg < 0x1_0000_0000 && a.exp < 0x1_0000_0000)
    && |a.key| + |a.val| + (if a.cmd == CMD_TAP_MUTATION then 24 else 16) < 0x1_0000_0000
  }

  lemma ZeroBytes(s: Bytes)
    requires |s| == 8
    ensures UnBE(s) == 0 <==> s == ZEROS
  {
    UnBERoundTrip(s);
    UnBERoundTrip(ZEROS);
    assert UnBE(ZEROS) == 0 by {
      var z: Bytes := [];
      for i := 0 to 8
        invariant UnBE(z) == 0 && |z| == i && forall j :: 0 <= j < i ==> z[j] == 0
      {
        ValueSnoc(256, z, 0);
        z := z + [0];
      }
      assert z == ZEROS;
    }
  }

  lemma BuildsIffEncodable(a: Args)
    ensures CmdRequest(a).Ok? <==> Encodable(a)
  {
    ZeroBytes(NormMeta(a.meta));
  }

  lemma ExtSlices(m: Bytes, f: Bytes, t: Bytes, g: Bytes, e: Bytes)
    requires |m| == |f| == 2 && |t| == |g| == |e| == 4
    ensures var s := m + f + t;
            s[0..2] == m && s[2..4] == f
    ensures var s := m + f + t + g + e;
            s[0..2] == m && s[2..4] == f && s[8..12] == g && s[12..16] == e
  {
  }

  lemma ExtFields(a: Args)
    requires Encodable(a)
    ensures var e := ExtOf(a);
            && UnBE(e[0..2]) == 8 && UnBE(e[2..4]) == TapFlags(a.needAck)
            && (a.cmd == CMD_TAP_MUTATION ==> UnBE(e[8..12]) == a.flg && UnBE(e[12..16]) == a.exp)
  {
    FieldSizes();
    ExtSlices(BE(8, 2), BE(TapFlags(a.needAck), 2), [0xff, 0, 0, 0], BE(a.flg, 4), BE(a.exp, 4));
    BERoundTrip(8, 2);
    BERoundTrip(TapFlags(a.needAck), 2);
    if a.cmd == CMD_TAP_MUTATION {
      BERoundTrip(a.flg, 4);
      BERoundTrip(a.exp, 4);
    }
  }

  lemma RequestIsFrame(a: Args)
    requires Encodable(a)
    ensures IsFrame(RequestBytes(a)) && UnpackHeader(RequestBytes(a)) == HeaderOf(a)
    ensures RequestBytes(a)[MIN_RECV_PACKET..] == ExtOf(a) + (NormMeta(a.meta) + (a.key + a.val))
  {
    HeaderRoundTrip(HeaderOf(a), ExtOf(a) + (NormMeta(a.meta) + (a.key + a.val)));
  }

  lemma BodyParts(e: Bytes, m: Bytes, k: Bytes, v: Bytes)
    ensures var d := e + (m + (k + v));
            && Slice(d, 0, |e|) == e && Slice(d, |e|, |e| + |m|) == m
            && Slice(d, |e| + |m|, |e| + |m| + |k|) == k && Slice(d, |e| + |m| + |k|, |d|) == v
  {
  }

  lemma ParseParts(h: Header, e: Bytes, m: Bytes, k: Bytes, v: Bytes, fix: bool)
    requires |e| == 8 || |e| == 16
    requires h.extlen == |e| && h.keylen == |k| && UnBE(e[0..2]) == |m|
    ensures var flg := if |e| == 16 then UnBE(e[8..12]) else 0;
            Parse(Packet(h, e + (m + (k + v))), fix) ==
            Msg(h.opcode, h.vbucket, k, if |e| == 16 && !fix then NetToHost(flg) else flg,
                if |e| == 16 then UnBE(e[12..16]) else 0, h.cas, m, v, h.tag,
                UnBE(e[2..4]) % 2 == TAP_FLAG_ACK, h.dtype)
  {
    BodyParts(e, m, k, v);
  }

  lemma ParseBody(a: Args, fix: bool)
    requires Encodable(a)
    ensures Parse(Packet(HeaderOf(a), ExtOf(a) + (NormMeta(a.meta) + (a.key + a.val))), fix) == Carried(a, fix)
  {
    ExtFields(a);
    ParseParts(HeaderOf(a), ExtOf(a), NormMeta(a.meta), a.key, a.val, fix);
  }

  function ParseFrame(f: Bytes, fix: bool): Read
  {
    Parse(Receive(f, REQ_MAGIC_BYTE), fix)
  }

  /** Every list of requests, followed by anything, is cut back into those requests, and each one
      reads as what it carries. */
  lemma RequestsReadBack(args: seq<Args>, rest: Bytes, fix: bool)
    requires forall i :: 0 <= i < |args| ==> Encodable(args[i])
    ensures Cut(Flatten(Frames(args)) + rest) == (Frames(args) + Cut(rest).0, Cut(rest).1)
    ensures forall i :: 0 <= i < |args| ==> WellMarked(Frames(args)[i])
    ensures forall i :: 0 <= i < |args| ==> ParseFrame(Frames(args)[i], fix) == Carried(args[i], fix)
  {
    forall i | 0 <= i < |args|
      ensures WellMarked(Frames(args)[i]) && IsFrame(Frames(args)[i])
      ensures ParseFrame(Frames(args)[i], fix) == Carried(args[i], fix)
    {
      RequestReadsBack(args[i], fix);
    }
    CutFrames(Frames(args), rest);
  }

  lemma RequestReadsBack(a: Args, fix: bool)
    requires Encodable(a)
    ensures WellMarked(RequestBytes(a)) && IsFrame(RequestBytes(a))
    ensures ParseFrame(RequestBytes(a), fix) == Carried(a, fix)
  {
    RequestIsFrame(a);
    ReceiveFrame(RequestBytes(a), REQ_MAGIC_BYTE);
    ParseBody(a, fix);
  }

  predicate WellMarked(f: Bytes)
  {
    |f| >= MIN_RECV_PACKET && UnpackHeader(f).magic == REQ_MAGIC_BYTE
  }

  /** The reads of the batch loop: the first `n` packets of whatever is on the stream come out one by
      one in whatever chunks they arrive, and the packets behind them are untouched. */
  method ReadMessages(conn: Conn, n: nat, fix: bool) returns (msgs: seq<Read>)
    requires n <= |Cut(conn.Pending()).0|
    requires forall i :: 0 <= i < n ==> WellMarked(Cut(conn.Pending()).0[i])
    modifies conn
    ensures |msgs| == n
    ensures forall i :: 0 <= i < n ==> msgs[i] == ParseFrame(old(Cut(conn.Pending())).0[i], fix)
    ensures Cut(conn.Pending()) == (old(Cut(conn.Pending())).0[n..], old(Cut(conn.Pending())).1)
  {
    ghost var (fs, rest) := Cut(conn.Pending());
    msgs := [];
    while |msgs| < n
      invariant |msgs| <= n
      invariant Cut(conn.Pending()) == (fs[|msgs|..], rest)
      invariant forall i :: 0 <= i < |msgs| ==> msgs[i] == ParseFrame(fs[i], fix)
    {
      assert fs[|msgs|..][0] == fs[|msgs|] && fs[|msgs|..][1..] == fs[|msgs| + 1..];
      ReceiveTakesHead(conn.Pending(), REQ_MAGIC_BYTE);
      var m := ReadTapConn(conn, fix);
      msgs := msgs + [m];
    }
  }
}
