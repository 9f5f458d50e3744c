/** DCP packets as the server writes them, and that the source reads every field back from the bytes it was written
    to, whatever chunks the bytes arrive in. */
module DcpPackets {
  import opened Codes
  import opened Radix
  import opened Wire
  import opened Framing
  import opened Dcp

  /** A data packet: the message it carries, its opaque, and the two fields of a mutation that are not passed on. */
  datatype Packet = Packet(msg: Msg, tag: nat, lock: nat, nru: nat)

  /** ">QQIIIHB". */
  function MutationExt(seqno: nat, rev: nat, flg: nat, exp: nat, lock: nat, metalen: nat, nru: nat): (s: Bytes)
    ensures |s| == 31
  {
    BE(seqno, 8) + BE(rev, 8) + BE(flg, 4) + BE(exp, 4) + BE(lock, 4) + BE(metalen, 2) + BE(nru, 1)
  }

  /** ">QQH". */
  function DeleteExt(seqno: nat, rev: nat, metalen: nat): (s: Bytes)
    ensures |s| == 18
  {
    BE(seqno, 8) + BE(rev, 8) + BE(metalen, 2)
  }

  /** ">QQI". */
  function MarkerExt(start: nat, end: nat, flags: nat): (s: Bytes)
    ensures |s| == 20
  {
    BE(start, 8) + BE(end, 8) + BE(flags, 4)
  }

  function Ext(p: Packet): Bytes
  {
    var m := p.msg;
    if m.cmd == CMD_DCP_MUTATION then MutationExt(m.seqno, m.rev, m.flg, m.exp, p.lock, m.metalen, p.nru)
    else DeleteExt(m.seqno, m.rev, m.metalen)
  }

  function Body(p: Packet): Bytes
  {
    Ext(p) + (p.msg.key + p.msg.val)
  }

  function HeaderOf(p: Packet): Header
  {
    Header(REQ_MAGIC_BYTE, p.msg.cmd, |p.msg.key|, |Ext(p)|, p.msg.dtype, p.msg.vbucket, |Body(p)|, p.tag, p.msg.cas)
  }

  function PacketBytes(p: Packet): Bytes
  {
    PackHeader(HeaderOf(p)) + Body(p)
  }

  /** Every field fits its place; only mutations carry flags, an expiry and a value. */
  predicate Writable(p: Packet)
  {
    var m := p.msg;
    && Fits(HeaderOf(p))
    && m.seqno < Pow(256, 8) && m.rev < Pow(256, 8) && m.metalen < Pow(256, 2)
    && (m.cmd == CMD_DCP_MUTATION ==>
          m.flg < Pow(256, 4) && m.exp < Pow(256, 4) && p.lock < Pow(256, 4) && p.nru < Pow(256, 1))
    && (m.cmd != CMD_DCP_MUTATION ==>
          (m.cmd == CMD_DCP_DELETE || m.cmd == CMD_DCP_EXPIRATION) && m.flg == 0 && m.exp == 0 && m.val == [])
  }

  /** What the reader thread puts in the queue for a frame. */
  function EventOf(frame: Bytes, count: nat, sends: bool): Event
    requires |frame| >= MIN_RECV_PACKET
  {
    var h := UnpackHeader(frame);
    Event(h.opcode, h.vbucket, h.tag, h.cas, h.keylen, h.extlen, frame[MIN_RECV_PACKET..], h.dtype, count, sends)
  }

  // ---------- The fields of one packet ----------

  lemma MutationFields(seqno: nat, rev: nat, flg: nat, exp: nat, lock: nat, metalen: nat, nru: nat)
    ensures var s := MutationExt(seqno, rev, flg, exp, lock, metalen, nru);
      && s[0..8] == BE(seqno, 8) && s[8..16] == BE(rev, 8) && s[16..20] == BE(flg, 4) && s[20..24] == BE(exp, 4)
      && s[28..30] == BE(metalen, 2)
  {
  }

  lemma DeleteFields(seqno: nat, rev: nat, metalen: nat)
    ensures var s := DeleteExt(seqno, rev, metalen);
      s[0..8] == BE(seqno, 8) && s[8..16] == BE(rev, 8) && s[16..18] == BE(metalen, 2)
  {
  }

  /** A body falls into its extras, key and value. */
  lemma BodyParts(ext: Bytes, key: Bytes, val: Bytes)
    ensures var s := ext + (key + val);
      && Slice(s, 0, |ext|) == ext && Slice(s, |ext|, |ext| + |key|) == key
      && Slice(s, |ext| + |key|, |s|) == val
  {
  }

  lemma EventOfPacket(p: Packet, count: nat, sends: bool)
    requires Writable(p)
    ensures EventOf(PacketBytes(p), count, sends) ==
      Event(p.msg.cmd, p.msg.vbucket, p.tag, p.msg.cas, |p.msg.key|, |Ext(p)|, Body(p), p.msg.dtype, count, sends)
  {
    HeaderRoundTrip(HeaderOf(p), Body(p));
    assert PacketBytes(p)[MIN_RECV_PACKET..] == Body(p);
  }

  lemma MutationReadsBack(p: Packet, ev: Event)
    requires Writable(p) && p.msg.cmd == CMD_DCP_MUTATION
    requires ev.cmd == p.msg.cmd && ev.status == p.msg.vbucket && ev.cas == p.msg.cas && ev.dtype == p.msg.dtype
    requires ev.keylen == |p.msg.key| && ev.extlen == |Ext(p)| && ev.data == Body(p)
    ensures IsData(ev) && Unpackable(ev) && MsgOf(ev) == p.msg
  {
    var m := p.msg;
    BodyParts(Ext(p), m.key, m.val);
    MutationFields(m.seqno, m.rev, m.flg, m.exp, p.lock, m.metalen, p.nru);
    BERoundTrip(m.seqno, 8);
    BERoundTrip(m.rev, 8);
    BERoundTrip(m.flg, 4);
    BERoundTrip(m.exp, 4);
    BERoundTrip(m.metalen, 2);
  }

  lemma DeleteReadsBack(p: Packet, ev: Event)
    requires Writable(p) && p.msg.cmd != CMD_DCP_MUTATION
    requires ev.cmd == p.msg.cmd && ev.status == p.msg.vbucket && ev.cas == p.msg.cas && ev.dtype == p.msg.dtype
    requires ev.keylen == |p.msg.key| && ev.extlen == |Ext(p)| && ev.data == Body(p)
    ensures IsData(ev) && Unpackable(ev) && MsgOf(ev) == p.msg
  {
    var m := p.msg;
    BodyParts(Ext(p), m.key, m.val);
    DeleteFields(m.seqno, m.rev, m.metalen);
    BERoundTrip(m.seqno, 8);
    BERoundTrip(m.rev, 8);
    BERoundTrip(m.metalen, 2);
  }

  /** A data packet is one frame, and the source makes of it the message it carries. */
  lemma PacketReadsBack(p: Packet, count: nat, sends: bool)
    requires Writable(p)
    ensures IsFrame(PacketBytes(p))
    ensures var ev := EventOf(PacketBytes(p), count, sends);
      IsData(ev) && Unpackable(ev) && MsgOf(ev) == p.msg && ev.tag == p.tag && ev.bytesRead == count
  {
    HeaderRoundTrip(HeaderOf(p), Body(p));
    EventOfPacket(p, count, sends);
    var ev := EventOf(PacketBytes(p), count, sends);
    if p.msg.cmd == CMD_DCP_MUTATION {
      MutationReadsBack(p, ev);
    } else {
      DeleteReadsBack(p, ev);
    }
  }

  /** A snapshot marker is read as the seqnos it was written with. */
  lemma MarkerReadsBack(ev: Event, start: nat, end: nat, flags: nat, more: Bytes)
    requires ev.cmd == CMD_DCP_SNAPSHOT_MARKER && ev.extlen == 20 && ev.data == MarkerExt(start, end, flags) + more
    requires start < Pow(256, 8) && end < Pow(256, 8)
    ensures Unpackable(ev) && MarkerOf(ev) == (start, end)
  {
    var ext := MarkerExt(start, end, flags);
    assert Slice(ev.data, 0, 20) == ext;
    assert ext[0..8] == BE(start, 8) && ext[8..16] == BE(end, 8);
    BERoundTrip(start, 8);
    BERoundTrip(end, 8);
  }

  function PackPairs(pairs: seq<(nat, nat)>): Bytes
  {
    if pairs == [] then [] else BE(pairs[0].0, 8) + (BE(pairs[0].1, 8) + PackPairs(pairs[1..]))
  }

  /** A failover log is read as the pairs it was written with; less than a pair behind them is ignored. */
  lemma {:induction false} PairsReadBack(pairs: seq<(nat, nat)>, rest: Bytes)
    requires |rest| < 16 && forall i :: 0 <= i < |pairs| ==> pairs[i].0 < Pow(256, 8) && pairs[i].1 < Pow(256, 8)
    ensures Pairs(PackPairs(pairs) + rest) == pairs
  {
    if pairs == [] {
      assert PackPairs(pairs) + rest == rest;
    } else {
      var (uuid, seqno) := pairs[0];
      PairsReadBack(pairs[1..], rest);
      BERoundTrip(uuid, 8);
      BERoundTrip(seqno, 8);
      PairHead(uuid, seqno, PackPairs(pairs[1..]), rest);
      assert pairs == [(uuid, seqno)] + pairs[1..];
    }
  }

  lemma PairHead(uuid: nat, seqno: nat, more: Bytes, rest: Bytes)
    ensures var s := (BE(uuid, 8) + (BE(seqno, 8) + more)) + rest;
      s[0..8] == BE(uuid, 8) && s[8..16] == BE(seqno, 8) && s[16..] == more + rest
  {
  }

  /** A rollback moves the stream to the seqno the packet was written with. */
  lemma RollbackReadsBack(ev: Event, streams: map<nat, Stream>, seqno: nat)
    requires IsRollback(ev) && ev.tag in streams && ev.data == BE(seqno, 8) && seqno < Pow(256, 8)
    ensures StreamsAfter(streams, ev) ==
      streams[ev.tag := streams[ev.tag].(start := seqno, ssStart := seqno, ssEnd := seqno)]
  {
    BERoundTrip(seqno, 8);
  }

  // ---------- A stream of packets ----------

  function AllBytes(ps: seq<Packet>): (fs: seq<Bytes>)
    ensures |fs| == |ps| && forall i :: 0 <= i < |fs| ==> fs[i] == PacketBytes(ps[i])
  {
    if ps == [] then [] else AllBytes(ps[..|ps| - 1]) + [PacketBytes(ps[|ps| - 1])]
  }

  /** The messages the filter lets through. */
  function Unskipped(ps: seq<Packet>, skip: Skipper): seq<Msg>
  {
    if ps == [] then []
    else
      var m := ps[|ps| - 1].msg;
      Unskipped(ps[..|ps| - 1], skip) + if skip(m.key, m.vbucket) then [] else [m]
  }

  ghost predicate HasHeaders(ds: seq<Delivery>)
  {
    forall i :: 0 <= i < |ds| ==> |ds[i].frame| >= MIN_RECV_PACKET
  }

  /** What the source finds in its queue after some deliveries of the reader thread. */
  function Ticks(ds: seq<Delivery>, sends: bool): (ts: seq<Tick>)
    requires HasHeaders(ds)
    ensures |ts| == |ds|
    ensures forall i :: 0 <= i < |ds| ==> ts[i] == Arrived(EventOf(ds[i].frame, ds[i].count, sends))
  {
    if ds == [] then [] else
      Ticks(ds[..|ds| - 1], sends) + [Arrived(EventOf(ds[|ds| - 1].frame, ds[|ds| - 1].count, sends))]
  }

  /** Some deliveries hold the bytes of some packets. */
  ghost predicate Carry(ds: seq<Delivery>, ps: seq<Packet>)
  {
    |ds| == |ps| && forall i :: 0 <= i < |ps| ==> Writable(ps[i]) && ds[i].frame == PacketBytes(ps[i])
  }

  lemma CarryHeaders(ds: seq<Delivery>, ps: seq<Packet>)
    requires Carry(ds, ps)
    ensures HasHeaders(ds)
  {
    forall i | 0 <= i < |ds| ensures |ds[i].frame| >= MIN_RECV_PACKET {
      assert ds[i].frame == PacketBytes(ps[i]);
    }
  }

  lemma LastWanted(p: Packet, d: Delivery, sends: bool, skip: Skipper)
    requires Writable(p) && d.frame == PacketBytes(p)
    ensures WantedOf(Arrived(EventOf(d.frame, d.count, sends)), skip) ==
      if skip(p.msg.key, p.msg.vbucket) then [] else [p.msg]
  {
    PacketReadsBack(p, d.count, sends);
    EventOfPacket(p, d.count, sends);
  }

  lemma {:induction false} WantedReadsBack(ps: seq<Packet>, ds: seq<Delivery>, sends: bool, skip: Skipper)
    requires Carry(ds, ps) && HasHeaders(ds)
    ensures Wanted(Ticks(ds, sends), skip) == Unskipped(ps, skip)
  {
    if ps != [] {
      var k := |ps| - 1;
      WantedReadsBack(ps[..k], ds[..k], sends, skip);
      assert Ticks(ds, sends)[..k] == Ticks(ds[..k], sends);
      LastWanted(ps[k], ds[k], sends, skip);
    }
  }

  /** A list of packets is cut into those packets, with nothing left over. */
  lemma PacketsCut(ps: seq<Packet>)
    requires forall i :: 0 <= i < |ps| ==> Writable(ps[i])
    ensures Cut(Flatten(AllBytes(ps))) == (AllBytes(ps), [])
  {
    forall i | 0 <= i < |ps| ensures IsFrame(AllBytes(ps)[i]) {
      PacketReadsBack(ps[i], 0, true);
    }
    CutUnique(AllBytes(ps), []);
    assert Flatten(AllBytes(ps)) + [] == Flatten(AllBytes(ps));
  }

  lemma FramesCarry(ds: seq<Delivery>, ps: seq<Packet>)
    requires FramesOf(ds) == AllBytes(ps) && forall i :: 0 <= i < |ps| ==> Writable(ps[i])
    ensures Carry(ds, ps)
  {
    assert |FramesOf(ds)| == |ds|;
    forall i | 0 <= i < |ps| ensures ds[i].frame == PacketBytes(ps[i]) {
      assert FramesOf(ds)[i] == ds[i].frame;
    }
  }

  /** Whatever chunks a stream of packets arrives in, once the reader thread has seen all of it the source is handed
      exactly the messages the packets carry, in order. */
  lemma StreamReadsBack(ps: seq<Packet>, input: Bytes, response: seq<Delivery>, buffer: Bytes, extra: nat,
                        sends: bool, skip: Skipper)
    requires forall i :: 0 <= i < |ps| ==> Writable(ps[i])
    requires input == Flatten(AllBytes(ps)) && Synced(input, response, buffer, extra)
    ensures buffer == [] && HasHeaders(response) && Wanted(Ticks(response, sends), skip) == Unskipped(ps, skip)
  {
    PacketsCut(ps);
    FramesCarry(response, ps);
    CarryHeaders(response, ps);
    WantedReadsBack(ps, response, sends, skip);
  }
}
