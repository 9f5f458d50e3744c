/** Cutting a byte stream into packets. `Cut` is the meaning; the two blocking readers of the
    memcached and TAP clients and the buffer splitter of the DCP reader thread are proved against it,
    so the packets they see do not depend on how the network chunks the bytes. */
module Framing {
  import opened Wire

  /** The size the packet at the head of `s` announces: header and body. */
  function HeadSize(s: Bytes): nat
    requires |s| >= MIN_RECV_PACKET
  {
    MIN_RECV_PACKET + UnBE(s[8..12])
  }

  ghost predicate IsFrame(s: Bytes)
  {
    |s| >= MIN_RECV_PACKET && |s| == HeadSize(s)
  }

  /** True when `s` starts with a whole packet. */
  predicate Complete(s: Bytes)
  {
    |s| >= MIN_RECV_PACKET && |s| >= HeadSize(s)
  }

  function Flatten(ss: seq<Bytes>): Bytes
  {
    if ss == [] then [] else ss[0] + Flatten(ss[1..])
  }

  lemma {:induction false} FlattenAppend(ss: seq<Bytes>, tt: seq<Bytes>)
    ensures Flatten(ss + tt) == Flatten(ss) + Flatten(tt)
  {
    if ss == [] {
      assert ss + tt == tt;
    } else {
      FlattenAppend(ss[1..], tt);
      assert (ss + tt)[1..] == ss[1..] + tt && (ss + tt)[0] == ss[0];
      Assoc(ss[0], Flatten(ss[1..]), Flatten(tt));
    }
  }

  /** The whole packets of a byte stream, and the bytes left over. */
  function Cut(s: Bytes): (r: (seq<Bytes>, Bytes))
    decreases |s|
  {
    if Complete(s) then
      var r := Cut(s[HeadSize(s)..]);
      ([s[..HeadSize(s)]] + r.0, r.1)
    else ([], s)
  }

  lemma SizeOfPrefix(s: Bytes, t: Bytes)
    requires |s| >= MIN_RECV_PACKET
    ensures HeadSize(s + t) == HeadSize(s)
  {
    assert (s + t)[8..12] == s[8..12];
  }

  lemma HeaderOfPrefix(s: Bytes, t: Bytes)
    requires |s| >= MIN_RECV_PACKET
    ensures UnpackHeader(s + t) == UnpackHeader(s)
  {
    var u := s + t;
    assert u[0..1] == s[0..1] && u[1..2] == s[1..2] && u[2..4] == s[2..4] && u[4..5] == s[4..5];
    assert u[5..6] == s[5..6] && u[6..8] == s[6..8] && u[8..12] == s[8..12];
    assert u[12..16] == s[12..16] && u[16..24] == s[16..24];
  }

  ghost predicate AllFrames(fs: seq<Bytes>)
  {
    forall i :: 0 <= i < |fs| ==> IsFrame(fs[i])
  }

  lemma HeadIsFrame(s: Bytes)
    requires Complete(s)
    ensures IsFrame(s[..HeadSize(s)])
  {
    var k := HeadSize(s);
    assert s == s[..k] + s[k..];
    SizeOfPrefix(s[..k], s[k..]);
  }

  /** Cutting loses nothing, every piece is exactly one packet, and what is left is too short to be one. */
  lemma {:induction false} CutConserves(s: Bytes)
    ensures Flatten(Cut(s).0) + Cut(s).1 == s
    ensures AllFrames(Cut(s).0) && !Complete(Cut(s).1)
    decreases |s|
  {
    if Complete(s) {
      var k := HeadSize(s);
      CutConserves(s[k..]);
      HeadIsFrame(s);
      var r := Cut(s[k..]);
      assert Cut(s).0[1..] == r.0;
      Assoc(s[..k], Flatten(r.0), r.1);
    }
  }

  lemma CutHead(f: Bytes, t: Bytes)
    requires IsFrame(f)
    ensures Cut(f + t) == ([f] + Cut(t).0, Cut(t).1)
  {
    SizeOfPrefix(f, t);
    assert (f + t)[..|f|] == f && (f + t)[|f|..] == t;
  }

  /** Any list of packets followed by an incomplete one is recovered: the cut is the only one possible. */
  lemma {:induction false} CutUnique(fs: seq<Bytes>, rest: Bytes)
    requires AllFrames(fs) && !Complete(rest)
    ensures Cut(Flatten(fs) + rest) == (fs, rest)
  {
    if fs == [] {
      assert Flatten(fs) + rest == rest;
    } else {
      var tail := Flatten(fs[1..]) + rest;
      CutUnique(fs[1..], rest);
      CutHead(fs[0], tail);
      assert Flatten(fs) + rest == fs[0] + tail;
      assert fs == [fs[0]] + fs[1..];
    }
  }

  /** Whole packets in front of a stream do not disturb how the rest of it is cut. */
  lemma CutFrames(fs: seq<Bytes>, rest: Bytes)
    requires AllFrames(fs)
    ensures Cut(Flatten(fs) + rest) == (fs + Cut(rest).0, Cut(rest).1)
  {
    CutConserves(rest);
    CutUnique(fs + Cut(rest).0, Cut(rest).1);
    FlattenAppend(fs, Cut(rest).0);
    Assoc(Flatten(fs), Flatten(Cut(rest).0), Cut(rest).1);
  }

  /** Bytes may arrive later: cutting what has come and then the remainder with the next bytes is
      the same as cutting everything at once. */
  lemma {:induction false} CutAppend(s: Bytes, t: Bytes)
    ensures Cut(s + t) == (Cut(s).0 + Cut(Cut(s).1 + t).0, Cut(Cut(s).1 + t).1)
    decreases |s|
  {
    if Complete(s) {
      var k := HeadSize(s);
      CutAppend(s[k..], t);
      SizeOfPrefix(s, t);
      assert (s + t)[..k] == s[..k] && (s + t)[k..] == s[k..] + t;
      var r := Cut(s[k..]);
      Assoc([s[..k]], r.0, Cut(r.1 + t).0);
    } else {
      assert [] + Cut(s + t).0 == Cut(s + t).0;
    }
  }

  // ---------- Blocking readers ----------

  /** The bytes a list of socket reads delivers before the first empty one; an empty read stands
      for a closed peer, a timeout or a socket error, which the readers treat alike. */
  function Live(arrivals: seq<Bytes>): Bytes
  {
    if arrivals == [] || arrivals[0] == [] then [] else arrivals[0] + Live(arrivals[1..])
  }

  datatype Received = Eof | BadMagic | NoBody(hdr: Header) | Packet(hdr: Header, body: Bytes)

  /** What one packet read sees on a stream: no chunking in sight. */
  function Receive(s: Bytes, magic: nat): Received
  {
    if |s| < MIN_RECV_PACKET then Eof
    else if UnpackHeader(s).magic != magic then BadMagic
    else if !Complete(s) then NoBody(UnpackHeader(s))
    else Packet(UnpackHeader(s), s[MIN_RECV_PACKET..HeadSize(s)])
  }

  lemma ReceiveFrame(f: Bytes, magic: nat)
    requires IsFrame(f) && UnpackHeader(f).magic == magic
    ensures Receive(f, magic) == Packet(UnpackHeader(f), f[MIN_RECV_PACKET..])
  {
  }

  /** On a stream of well-marked packets, a packet read takes the first packet of the cut and
      leaves the others to later reads. */
  lemma ReceiveTakesHead(s: Bytes, magic: nat)
    requires Cut(s).0 != []
    requires UnpackHeader(Cut(s).0[0]).magic == magic
    ensures Receive(s, magic).Packet?
    ensures var f := Cut(s).0[0];
            && Receive(s, magic) == Receive(f, magic) == Packet(UnpackHeader(f), f[MIN_RECV_PACKET..])
            && Cut(s[HeadSize(s)..]) == (Cut(s).0[1..], Cut(s).1)
  {
    var k := HeadSize(s);
    HeaderOfPrefix(s[..k], s[k..]);
    HeadIsFrame(s);
    assert s == s[..k] + s[k..];
    assert s[..k][MIN_RECV_PACKET..] == s[MIN_RECV_PACKET..k];
  }

  class Conn {
    var arrivals: seq<Bytes>  // what the socket will deliver, one element per arrival
    var buf: Bytes         // bytes read past the last packet
    const recvMinBytes: int

    constructor (arrivals: seq<Bytes>, recvMinBytes: int)
      ensures this.arrivals == arrivals && this.buf == [] && this.recvMinBytes == recvMinBytes
    {
      this.arrivals, this.buf, this.recvMinBytes := arrivals, [], recvMinBytes;
    }

    function Pending(): Bytes
      reads this
    {
      buf + Live(arrivals)
    }

    /** skt.recv(n): part or all of the next arrival. */
    method SocketRecv(n: nat) returns (data: Bytes)
      requires n > 0
      modifies this`arrivals
      ensures |data| <= n
      ensures data == [] <==> Live(old(arrivals)) == []
      ensures data != [] ==> data + Live(arrivals) == Live(old(arrivals))
    {
      if arrivals == [] {
        return [];
      }
      data := arrivals[0];
      if |data| <= n {
        arrivals := arrivals[1..];
      } else {
        ghost var whole, later := data, arrivals[1..];
        arrivals := [data[n..]] + arrivals[1..];
        data := data[..n];
        assert arrivals[1..] == later;
        assert data + (whole[n..] + Live(later)) == whole + Live(later);
      }
    }

    /** MCSink.recv: grows one string. */
    method RecvString(nbytes: nat, buf0: Bytes) returns (pkt: Option<Bytes>, rest: Bytes)
      modifies this`arrivals
      ensures pkt.Some? <==> |buf0 + Live(old(arrivals))| >= nbytes
      ensures pkt.Some? ==> pkt.value == (buf0 + Live(old(arrivals)))[..nbytes]
      ensures pkt.Some? ==> rest + Live(arrivals) == (buf0 + Live(old(arrivals)))[nbytes..]
      ensures pkt.None? ==> rest == []
    {
      var b := buf0;
      while |b| < nbytes
        invariant b + Live(arrivals) == buf0 + Live(old(arrivals))
        decreases nbytes - |b|
      {
        var want := nbytes - |b|;
        ghost var before := Live(arrivals);
        var data := SocketRecv(if want >= 4096 then want else 4096);
        if data == [] {
          assert b + [] == b;
          return None, [];
        }
        assert b + before == (b + data) + Live(arrivals);
        b := b + data;
      }
      assert (b + Live(arrivals))[..nbytes] == b[..nbytes];
      assert (b + Live(arrivals))[nbytes..] == b[nbytes..] + Live(arrivals);
      return Some(b[..nbytes]), b[nbytes..];
    }

    /** TAPDumpSource.recv: collects pieces in a list and joins them at the end. */
    method RecvList(nbytes: nat, buf0: Bytes) returns (pkt: Option<Bytes>, rest: Bytes)
      modifies this`arrivals
      ensures pkt.Some? <==> |buf0 + Live(old(arrivals))| >= nbytes
      ensures pkt.Some? ==> pkt.value == (buf0 + Live(old(arrivals)))[..nbytes]
      ensures pkt.Some? ==> rest + Live(arrivals) == (buf0 + Live(old(arrivals)))[nbytes..]
      ensures pkt.None? ==> rest == []
    {
      var arr: seq<Bytes>, tot := [buf0], |buf0|;
      assert Flatten(arr) == buf0;
      while tot < nbytes
        invariant tot == |Flatten(arr)| >= |buf0|
        invariant Flatten(arr) + Live(arrivals) == buf0 + Live(old(arrivals))
        decreases nbytes - tot
      {
        var want: int := nbytes - |buf0|;
        ghost var before, got := Live(arrivals), Flatten(arr);
        var data := SocketRecv(if want >= recvMinBytes then want else recvMinBytes);
        if data == [] {
          assert got + [] == got;
          return None, [];
        }
        FlattenAppend(arr, [data]);
        assert Flatten([data]) == data;
        assert got + before == (got + data) + Live(arrivals);
        arr, tot := arr + [data], tot + |data|;
      }
      var joined := Flatten(arr);
      assert (joined + Live(arrivals))[..nbytes] == joined[..nbytes];
      assert (joined + Live(arrivals))[nbytes..] == joined[nbytes..] + Live(arrivals);
      return Some(joined[..nbytes]), joined[nbytes..];
    }

    /** MCSink.recv_msg and the buffer update of read_conn. */
    method RecvResponse() returns (r: Received)
      modifies this
      ensures r == Receive(old(Pending()), RES_MAGIC_BYTE)
      ensures r.Packet? ==> Pending() == old(Pending())[MIN_RECV_PACKET + r.hdr.bodylen..]
    {
      ghost var s := Pending();
      var pkt, b := RecvString(MIN_RECV_PACKET, buf);
      if pkt.None? {
        return Eof;
      }
      var hdr := UnpackHeader(pkt.value);
      HeaderOfPrefix(s[..MIN_RECV_PACKET], s[MIN_RECV_PACKET..]);
      assert s == s[..MIN_RECV_PACKET] + s[MIN_RECV_PACKET..];
      if hdr.magic != RES_MAGIC_BYTE {
        return BadMagic;
      }
      var data;
      data, b := RecvString(hdr.bodylen, b);
      buf := b;
      return if data.None? then NoBody(hdr) else Packet(hdr, data.value);
    }

    /** TAPDumpSource.recv_msg and the buffer update of read_tap_conn. */
    method RecvRequest() returns (r: Received)
      modifies this
      ensures r == Receive(old(Pending()), REQ_MAGIC_BYTE)
      ensures r.Packet? ==> Pending() == old(Pending())[MIN_RECV_PACKET + r.hdr.bodylen..]
    {
      ghost var s := Pending();
      var pkt, b := RecvList(MIN_RECV_PACKET, buf);
      if pkt.None? {
        return Eof;
      }
      var hdr := UnpackHeader(pkt.value);
      HeaderOfPrefix(s[..MIN_RECV_PACKET], s[MIN_RECV_PACKET..]);
      assert s == s[..MIN_RECV_PACKET] + s[MIN_RECV_PACKET..];
      if hdr.magic != REQ_MAGIC_BYTE {
        return BadMagic;
      }
      var data;
      data, b := RecvList(hdr.bodylen, b);
      buf := b;
      return if data.None? then NoBody(hdr) else Packet(hdr, data.value);
    }
  }

  // ---------- The DCP reader thread ----------

  datatype Delivery = Delivery(frame: Bytes, count: nat)  // count is the bytes_read slot of the tuple

  function FramesOf(ds: seq<Delivery>): (fs: seq<Bytes>)
  {
    seq(|ds|, i requires 0 <= i < |ds| => ds[i].frame)
  }

  /** What the splitting loop delivers from a buffer. */
  function Split(b: Bytes, extra: nat): seq<Delivery>
    decreases |b|
  {
    if Complete(b) then
      [Delivery(b[..HeadSize(b)], HeadSize(b) + extra)] + Split(b[HeadSize(b)..], 0)
    else []
  }

  lemma {:induction false} SplitIsCut(b: Bytes, extra: nat)
    ensures FramesOf(Split(b, extra)) == Cut(b).0
    ensures forall i :: 0 <= i < |Split(b, extra)| ==>
              Split(b, extra)[i].count == |Split(b, extra)[i].frame| + (if i == 0 then extra else 0)
    decreases |b|
  {
    if Complete(b) {
      SplitIsCut(b[HeadSize(b)..], 0);
    }
  }

  ghost predicate CountsBounded(ds: seq<Delivery>)
  {
    forall i :: 0 <= i < |ds| ==> |ds[i].frame| <= ds[i].count < 2 * |ds[i].frame|
  }

  /** The bytes of an unfinished packet that a whole header has already announced. */
  function Waiting(b: Bytes): nat
  {
    if |b| >= MIN_RECV_PACKET then |b| else 0
  }

  lemma FeedCounts(b: Bytes, data: Bytes)
    requires !Complete(b)
    ensures CountsBounded(Split(b + data, Waiting(b)))
  {
    var ds := Split(b + data, Waiting(b));
    SplitIsCut(b + data, Waiting(b));
    CutConserves(b + data);
    if |b| >= MIN_RECV_PACKET {
      SizeOfPrefix(b, data);
    }
    forall i | 0 <= i < |ds| ensures |ds[i].frame| <= ds[i].count < 2 * |ds[i].frame| {
      assert ds[i].frame == FramesOf(ds)[i];
      assert IsFrame(ds[i].frame);
    }
  }

  lemma CountsAppend(ds: seq<Delivery>, es: seq<Delivery>)
    requires CountsBounded(ds) && CountsBounded(es)
    ensures CountsBounded(ds + es) && FramesOf(ds + es) == FramesOf(ds) + FramesOf(es)
  {
  }

  /** What the reader thread has got right so far: the packets of the input, nothing lost or doubled. */
  ghost predicate Synced(input: Bytes, response: seq<Delivery>, b: Bytes, extra: nat)
  {
    (FramesOf(response), b) == Cut(input) && extra == Waiting(b) && CountsBounded(response)
  }

  lemma FeedKeepsSynced(input: Bytes, response: seq<Delivery>, b: Bytes, data: Bytes)
    requires Synced(input, response, b, Waiting(b))
    ensures var b' := Cut(b + data).1;
            Synced(input + data, response + Split(b + data, Waiting(b)), b', Waiting(b'))
    ensures !Complete(b + data) ==> Cut(b + data).1 == b + data
  {
    CutConserves(input);
    FeedCounts(b, data);
    SplitIsCut(b + data, Waiting(b));
    CountsAppend(response, Split(b + data, Waiting(b)));
    CutAppend(input, data);
  }

  class Splitter {
    var bytesRead: Bytes
    var extraBytes: nat
    var response: seq<Delivery>
    ghost var input: Bytes  // everything received so far

    ghost predicate Valid()
      reads this
    {
      Synced(input, response, bytesRead, extraBytes)
    }

    constructor ()
      ensures Valid() && input == [] && response == []
    {
      bytesRead, extraBytes, response, input := [], 0, [], [];
      assert FramesOf([]) == [];
    }

    /** The inner loop: empties the buffer of whole packets. */
    method SplitBuffer()
      modifies this`bytesRead, this`extraBytes, this`response
      ensures response == old(response) + Split(old(bytesRead), old(extraBytes))
      ensures bytesRead == Cut(old(bytesRead)).1
      ensures extraBytes == if |bytesRead| >= MIN_RECV_PACKET then |bytesRead|
                            else if Complete(old(bytesRead)) then 0 else old(extraBytes)
    {
      while |bytesRead| >= MIN_RECV_PACKET
        invariant response + Split(bytesRead, extraBytes) == old(response) + Split(old(bytesRead), old(extraBytes))
        invariant Cut(bytesRead).1 == Cut(old(bytesRead)).1
        invariant (bytesRead == old(bytesRead) && extraBytes == old(extraBytes)) ||
                  (Complete(old(bytesRead)) && extraBytes == 0)
        decreases |bytesRead|
      {
        var k := HeadSize(bytesRead);
        if |bytesRead| < k {
          extraBytes := |bytesRead|;
          break;
        }
        Assoc(response, [Delivery(bytesRead[..k], k + extraBytes)], Split(bytesRead[k..], 0));
        response := response + [Delivery(bytesRead[..k], k + extraBytes)];
        bytesRead := bytesRead[k..];
        extraBytes := 0;
      }
    }

    /** One arrival: whatever it completes is delivered, in order. Only the first packet an arrival
        completes can be over-reported, by the bytes that were already waiting with a whole header. */
    method Feed(data: Bytes)
      requires Valid()
      modifies this
      ensures Valid() && input == old(input) + data
      ensures response == old(response) + Split(old(bytesRead) + data, old(extraBytes))
    {
      FeedKeepsSynced(input, response, bytesRead, data);
      bytesRead := bytesRead + data;
      input := input + data;
      SplitBuffer();
    }
  }
}
