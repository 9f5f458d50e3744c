/** DCPStreamSource: the per-vbucket stream bookkeeping, batching and flow-control accounting of a DCP
    consumer, fed by the packets its reader thread delivers. */
module Dcp {
  import opened Codes
  import opened Wire

  /** One element of the response queue; `status` is the errcode or vbucket slot, `tag` the opaque. `sends` is
      whether the socket accepts the message, if any, that is sent in answer. */
  datatype Event = Event(cmd: nat, status: nat, tag: nat, cas: nat, keylen: nat, extlen: nat,
                         data: Bytes, dtype: nat, bytesRead: nat, sends: bool)

  /** What a look at the queue finds. */
  datatype Tick = Quiet | Arrived(ev: Event)

  datatype Msg = Msg(cmd: nat, vbucket: nat, key: Bytes, flg: nat, exp: nat, cas: nat, rev: nat,
                     val: Bytes, seqno: nat, dtype: nat, metalen: nat)

  datatype Batch = Batch(msgs: seq<Msg>, bytes: nat, adjustSize: nat)

  datatype Stream = Stream(vbid: nat, flags: nat, start: nat, end: nat, uuid: nat, ssStart: nat, ssEnd: nat)

  datatype Ack = Ack(size: nat, ok: bool)

  type Skipper = (Bytes, nat) -> bool

  // ---------- What the packets say ----------

  predicate IsData(ev: Event)
  {
    ev.cmd == CMD_DCP_MUTATION || ev.cmd == CMD_DCP_DELETE || ev.cmd == CMD_DCP_EXPIRATION
  }

  /** struct.unpack accepts only extras of the format's own size: ">QQIIIHB", ">QQH" and ">QQI". */
  function ExtSize(cmd: nat): nat
  {
    if cmd == CMD_DCP_MUTATION then 31 else if cmd == CMD_DCP_SNAPSHOT_MARKER then 20 else 18
  }

  predicate Unpackable(ev: Event)
  {
    |Slice(ev.data, 0, ev.extlen)| == ExtSize(ev.cmd)
  }

  function MsgOf(ev: Event): Msg
    requires IsData(ev) && Unpackable(ev)
  {
    var ext := Slice(ev.data, 0, ev.extlen);
    var key := Slice(ev.data, ev.extlen, ev.extlen + ev.keylen);
    if ev.cmd == CMD_DCP_MUTATION then
      Msg(ev.cmd, ev.status, key, UnBE(ext[16..20]), UnBE(ext[20..24]), ev.cas, UnBE(ext[8..16]),
          Slice(ev.data, ev.extlen + ev.keylen, |ev.data|), UnBE(ext[0..8]), ev.dtype, UnBE(ext[28..30]))
    else
      Msg(ev.cmd, ev.status, key, 0, 0, ev.cas, UnBE(ext[8..16]), [], UnBE(ext[0..8]), ev.dtype, UnBE(ext[16..18]))
  }

  function WantedOf(t: Tick, skip: Skipper): seq<Msg>
  {
    if t.Arrived? && IsData(t.ev) && Unpackable(t.ev) && !skip(MsgOf(t.ev).key, t.ev.status)
    then [MsgOf(t.ev)] else []
  }

  /** The messages a trace asks to transfer: unskipped mutations, deletes and expirations in arrival order. */
  function Wanted(ts: seq<Tick>, skip: Skipper): seq<Msg>
  {
    if ts == [] then [] else Wanted(ts[..|ts| - 1], skip) + WantedOf(ts[|ts| - 1], skip)
  }

  function BytesRead(ts: seq<Tick>): nat
  {
    if ts == [] then 0 else BytesRead(ts[..|ts| - 1]) + (if ts[|ts| - 1].Arrived? then ts[|ts| - 1].ev.bytesRead else 0)
  }

  lemma WantedSnoc(ts: seq<Tick>, t: Tick, skip: Skipper)
    ensures Wanted(ts + [t], skip) == Wanted(ts, skip) + WantedOf(t, skip)
    ensures BytesRead(ts + [t]) == BytesRead(ts) + if t.Arrived? then t.ev.bytesRead else 0
  {
    assert (ts + [t])[..|ts|] == ts;
  }

  lemma {:induction false} WantedAppend(ts: seq<Tick>, us: seq<Tick>, skip: Skipper)
    ensures Wanted(ts + us, skip) == Wanted(ts, skip) + Wanted(us, skip)
  {
    if us == [] {
      assert ts + us == ts;
    } else {
      var init, last := us[..|us| - 1], us[|us| - 1];
      WantedAppend(ts, init, skip);
      Assoc(ts, init, [last]);
      WantedSplit(ts, init, last, skip);
      assert us == init + [last];
    }
  }

  lemma WantedSplit(ts: seq<Tick>, init: seq<Tick>, last: Tick, skip: Skipper)
    requires Wanted(ts + init, skip) == Wanted(ts, skip) + Wanted(init, skip)
    ensures Wanted((ts + init) + [last], skip) == Wanted(ts, skip) + Wanted(init + [last], skip)
  {
    WantedSnoc(init, last, skip);
    WantedSnoc(ts + init, last, skip);
    Assoc(Wanted(ts, skip), Wanted(init, skip), WantedOf(last, skip));
  }

  // ---------- Open streams ----------

  /** Whether a packet closes the stream named by its opaque. */
  predicate Closes(ev: Event)
  {
    || ev.cmd == CMD_DCP_END_STREAM
    || (ev.cmd == CMD_DCP_REQUEST_STREAM &&
        (ev.status == ERR_KEY_ENOENT || ev.status == ERR_NOT_MY_VBUCKET || ev.status == ERR_ERANGE))
  }

  predicate IsRollback(ev: Event)
  {
    ev.cmd == CMD_DCP_REQUEST_STREAM && ev.status == ERR_ROLLBACK
  }

  function OpenAfter(open: set<nat>, ts: seq<Tick>): set<nat>
  {
    if ts == [] then open
    else
      var t, before := ts[|ts| - 1], OpenAfter(open, ts[..|ts| - 1]);
      if t.Arrived? && Closes(t.ev) then before - {t.ev.tag} else before
  }

  /** A packet a correct producer may send while `open` are the open streams. */
  predicate Expected(open: set<nat>, ev: Event)
  {
    || (IsData(ev) && Unpackable(ev) && ev.tag in open)
    || (ev.cmd == CMD_DCP_SNAPSHOT_MARKER && Unpackable(ev))
    || (Closes(ev) && ev.tag in open)
    || (IsRollback(ev) && ev.tag in open && |ev.data| == 8)
    || (ev.cmd == CMD_DCP_REQUEST_STREAM && !Closes(ev) && !IsRollback(ev))
    || ev.cmd == CMD_DCP_NOOP || ev.cmd == CMD_DCP_BUFFER_ACK
  }

  /** A trace in which data comes only on open streams and nothing unexpected comes at all. */
  ghost predicate Orderly(open: set<nat>, ts: seq<Tick>)
  {
    forall i :: 0 <= i < |ts| && ts[i].Arrived? ==> Expected(OpenAfter(open, ts[..i]), ts[i].ev)
  }

  /** Every message sent in answer to a packet gets through. */
  ghost predicate Healthy(ts: seq<Tick>)
  {
    forall i :: 0 <= i < |ts| && ts[i].Arrived? ==> ts[i].ev.sends
  }

  ghost predicate KeysMatch(streams: map<nat, Stream>)
  {
    forall v :: v in streams ==> streams[v].vbid == v
  }

  function RolledBack(st: Stream, seqno: nat): Stream
  {
    st.(start := seqno, ssStart := seqno, ssEnd := seqno)
  }

  /** The start and end seqno of a snapshot marker. */
  function MarkerOf(ev: Event): (nat, nat)
    requires ev.cmd == CMD_DCP_SNAPSHOT_MARKER && Unpackable(ev)
  {
    var ext := Slice(ev.data, 0, ev.extlen);
    (UnBE(ext[0..8]), UnBE(ext[8..16]))
  }

  predicate Accepts(ev: Event)
  {
    ev.cmd == CMD_DCP_REQUEST_STREAM && ev.status == ERR_SUCCESS
  }

  /** The open streams after a packet that can be acted on. */
  function StreamsAfter(streams: map<nat, Stream>, ev: Event): map<nat, Stream>
  {
    if Closes(ev) then streams - {ev.tag}
    else if IsRollback(ev) && ev.tag in streams then streams[ev.tag := RolledBack(streams[ev.tag], UnBE(ev.data))]
    else streams
  }

  /** The uuid of a failover log's newest entry: sorted by seqno from the highest down, its first one. */
  function LatestUuid(log: seq<(nat, nat)>): (uuid: nat)
    ensures log != [] ==> exists i :: IsLatest(log, i) && log[i].0 == uuid
  {
    if log == [] then 0 else log[Latest(log)].0
  }

  /** No entry has a higher seqno, and none before it as high a one. */
  ghost predicate IsLatest(log: seq<(nat, nat)>, i: int)
  {
    && 0 <= i < |log| && (forall j :: 0 <= j < |log| ==> log[j].1 <= log[i].1)
    && (forall j :: 0 <= j < i ==> log[j].1 < log[i].1)
  }

  function Latest(log: seq<(nat, nat)>): (i: nat)
    requires log != []
    ensures IsLatest(log, i)
  {
    var k := |log| - 1;
    if k == 0 then 0
    else
      var i := Latest(log[..k]);
      assert log[..k][i] == log[i];
      if log[k].1 > log[i].1 then k else i
  }

  /** The (uuid, seqno) pairs of a failover log; a trailing fragment is ignored. */
  function Pairs(data: Bytes): seq<(nat, nat)>
    decreases |data|
  {
    if |data| < 16 then [] else [(UnBE(data[0..8]), UnBE(data[8..16]))] + Pairs(data[16..])
  }

  lemma PairsAt(data: Bytes, i: nat)
    requires i + 16 <= |data|
    ensures Pairs(data[i..]) == [(UnBE(data[i..i + 8]), UnBE(data[i + 8..i + 16]))] + Pairs(data[i + 16..])
  {
    var d := data[i..];
    assert d[0..8] == data[i..i + 8] && d[8..16] == data[i + 8..i + 16] && d[16..] == data[i + 16..];
  }

  type Logs = map<nat, seq<(nat, nat)>>

  function Extended(m: Logs, v: nat, pairs: seq<(nat, nat)>): Logs
  {
    if pairs == [] then m else m[v := (if v in m then m[v] else []) + pairs]
  }

  lemma ExtendedSnoc(m: Logs, v: nat, pairs: seq<(nat, nat)>, p: (nat, nat))
    ensures Extended(Extended(m, v, pairs), v, [p]) == Extended(m, v, pairs + [p])
  {
    var base := if v in m then m[v] else [];
    assert (base + pairs) + [p] == base + (pairs + [p]);
    assert pairs == [] ==> pairs + [p] == [p];
  }

  // ---------- Acknowledgements ----------

  /** What the acknowledgements that reached the wire add up to. */
  function Acked(acks: seq<Ack>): nat
  {
    if acks == [] then 0 else Acked(acks[..|acks| - 1]) + if acks[|acks| - 1].ok then acks[|acks| - 1].size else 0
  }

  lemma AckedSnoc(acks: seq<Ack>, a: Ack)
    ensures Acked(acks + [a]) == Acked(acks) + if a.ok then a.size else 0
  {
    assert (acks + [a])[..|acks|] == acks;
  }

  datatype ErrKind = UnexpectedMessage | SocketError | CannotConnect
  datatype Ret =
    | Zero(batch: Option<Batch>)
    | Err(kind: ErrKind)
    | Raise                // an exception: KeyError, struct.error, socket.error or RuntimeError
    | Blocked              // still waiting for packets

  function MsgsOf(r: Ret): seq<Msg>
  {
    if r.Zero? && r.batch.Some? then r.batch.value.msgs else []
  }

  /** How the event loop goes on after a packet. */
  datatype Flow = Next | Break | AnswerNoop | Unexpected | Crash

  function FlowOf(open: set<nat>, ev: Event): Flow
  {
    if ev.cmd == CMD_DCP_REQUEST_STREAM then
      if (Closes(ev) || IsRollback(ev)) && ev.tag !in open then Crash
      else if IsRollback(ev) && (|ev.data| != 8 || !ev.sends) then Crash
      else Next
    else if IsData(ev) || ev.cmd == CMD_DCP_SNAPSHOT_MARKER then (if Unpackable(ev) then Next else Crash)
    else if ev.cmd == CMD_DCP_FLUSH then Break
    else if ev.cmd == CMD_DCP_END_STREAM then (if ev.tag in open then Next else Crash)
    else if ev.cmd == CMD_DCP_NOOP then AnswerNoop
    else if ev.cmd == CMD_DCP_BUFFER_ACK then Next
    else Unexpected
  }

  lemma ExpectedFlow(open: set<nat>, ev: Event)
    requires Expected(open, ev)
    ensures ev.cmd != CMD_DCP_FLUSH && !FlowOf(open, ev).Break? && !FlowOf(open, ev).Unexpected?
    ensures ev.sends ==> FlowOf(open, ev).Next? || FlowOf(open, ev).AnswerNoop?
  {
  }

  /** The ledger of one call: what reached the wire in the loop is what counts as processed. */
  ghost predicate Ledger(flowControl: bool, acks0: seq<Ack>, acks: seq<Ack>, processed: nat, total: nat)
  {
    && processed <= total
    && acks0 <= acks
    && (if flowControl then Acked(acks[|acks0|..]) == processed else acks == acks0)
  }

  ghost predicate WithinBudget(acks0: seq<Ack>, acks: seq<Ack>, total: nat)
  {
    acks0 <= acks && Acked(acks[|acks0|..]) <= total
  }

  lemma LedgerStep(acks0: seq<Ack>, acks: seq<Ack>, processed: nat, total: nat, sent: bool)
    requires Ledger(true, acks0, acks, processed, total)
    ensures Ledger(true, acks0, acks + [Ack(total - processed, sent)], if sent then total else processed, total)
  {
    var a := Ack(total - processed, sent);
    assert (acks + [a])[|acks0|..] == acks[|acks0|..] + [a];
    AckedSnoc(acks[|acks0|..], a);
  }

  /** After a call that closes a batch: the in-loop acknowledgements that reached the wire and the final one
      together cover every byte read. */
  ghost predicate Covered(flowControl: bool, acks0: seq<Ack>, acks: seq<Ack>, total: nat)
  {
    if flowControl then
      acks0 < acks && Acked(acks[|acks0|..|acks| - 1]) + acks[|acks| - 1].size == total
    else acks == acks0
  }

  lemma FinalAckCovers(acks0: seq<Ack>, acks: seq<Ack>, processed: nat, total: nat, sent: bool)
    requires Ledger(true, acks0, acks, processed, total)
    ensures Covered(true, acks0, acks + [Ack(total - processed, sent)], total)
  {
    var all := acks + [Ack(total - processed, sent)];
    assert all[|acks0|..|all| - 1] == acks[|acks0|..];
  }

  lemma OpenSnoc(open: set<nat>, ts: seq<Tick>, t: Tick)
    ensures OpenAfter(open, ts + [t]) ==
            if t.Arrived? && Closes(t.ev) then OpenAfter(open, ts) - {t.ev.tag} else OpenAfter(open, ts)
  {
    assert (ts + [t])[..|ts|] == ts;
  }

  /** A batch after a packet. */
  function Grown(b: Batch, ev: Event, skip: Skipper): Batch
  {
    if !IsData(ev) || !Unpackable(ev) then b
    else
      var m := MsgOf(ev);
      Batch(if skip(m.key, m.vbucket) then b.msgs else b.msgs + [m],
            if skip(m.key, m.vbucket) then b.bytes else b.bytes + |m.val|,
            if ev.cmd == CMD_DCP_DELETE then b.adjustSize + 1 else b.adjustSize)
  }

  function StillOpen(open: set<nat>, ev: Event): set<nat>
  {
    if Closes(ev) then open - {ev.tag} else open
  }

  /** What has been taken from the queue by the time `i` ticks have passed. */
  ghost predicate InStep(ticks: seq<Tick>, i: nat, open0: set<nat>, open: set<nat>, batch: Batch, total: nat,
                         skip: Skipper)
    requires i <= |ticks|
  {
    && open == OpenAfter(open0, ticks[..i])
    && batch.msgs == Wanted(ticks[..i], skip) && (batch.msgs == [] ==> batch.bytes == 0)
    && total == BytesRead(ticks[..i])
  }

  lemma QuietStep(ticks: seq<Tick>, i: nat, open0: set<nat>, open: set<nat>, batch: Batch, total: nat, skip: Skipper)
    requires i < |ticks| && ticks[i].Quiet? && InStep(ticks, i, open0, open, batch, total, skip)
    ensures InStep(ticks, i + 1, open0, open, batch, total, skip)
  {
    assert ticks[..i + 1] == ticks[..i] + [ticks[i]];
    OpenSnoc(open0, ticks[..i], ticks[i]);
    WantedSnoc(ticks[..i], ticks[i], skip);
  }

  lemma EventStep(ticks: seq<Tick>, i: nat, open0: set<nat>, open: set<nat>, batch: Batch, total: nat, skip: Skipper)
    requires i < |ticks| && ticks[i].Arrived? && InStep(ticks, i, open0, open, batch, total, skip)
    ensures var ev := ticks[i].ev;
            InStep(ticks, i + 1, open0, StillOpen(open, ev), Grown(batch, ev, skip), total + ev.bytesRead, skip)
    ensures total + ticks[i].ev.bytesRead <= BytesRead(ticks)
  {
    assert ticks[..i + 1] == ticks[..i] + [ticks[i]];
    OpenSnoc(open0, ticks[..i], ticks[i]);
    WantedSnoc(ticks[..i], ticks[i], skip);
    BytesMono(ticks, i + 1);
  }

  /** The last look found an empty queue, no stream was open, and still the source is not done. */
  ghost predicate LooksDone(ticks: seq<Tick>, i: nat, done: bool, open: set<nat>)
    requires i <= |ticks|
  {
    i > 0 && ticks[i - 1].Quiet? && !done && open == {}
  }

  /** All that a correct producer behind a healthy connection can still bring about: an acknowledgement too large
      for its four-byte field. */
  predicate Excusable(r: Ret, flowControl: bool, bytes: nat)
  {
    !r.Err? && (r.Raise? ==> flowControl && bytes >= 0x1_0000_0000)
  }

  lemma {:induction false} BytesMono(ts: seq<Tick>, i: nat)
    requires i <= |ts|
    ensures BytesRead(ts[..i]) <= BytesRead(ts)
    decreases |ts|
  {
    if i < |ts| {
      var k := |ts| - 1;
      BytesMono(ts[..k], i);
      assert ts[..k][..i] == ts[..i];
    } else {
      assert ts[..i] == ts;
    }
  }

  /** The packet taken last is the reason: it cannot be acted on, is not known, or (for Zero) is a flush. */
  ghost predicate Blamed(ticks: seq<Tick>, i: nat, open0: set<nat>, r: Ret)
    requires i <= |ticks|
  {
    i > 0 && ticks[i - 1].Arrived? &&
    var flow := FlowOf(OpenAfter(open0, ticks[..i - 1]), ticks[i - 1].ev);
    match r
    case Raise => flow == Crash
    case Err(kind) => if kind == SocketError then flow == AnswerNoop && !ticks[i - 1].ev.sends else flow == Unexpected
    case Zero(_) => flow == Break
    case Blocked => false
  }

  /** A flush is among these packets. */
  predicate Flushes(ts: seq<Tick>)
  {
    ts != [] && (Flushes(ts[..|ts| - 1]) || IsFlush(ts[|ts| - 1]))
  }

  predicate IsFlush(t: Tick)
  {
    t.Arrived? && t.ev.cmd == CMD_DCP_FLUSH
  }

  /** A packet that cannot be acted on, is not known, or is a NOOP whose answer cannot be sent. */
  predicate IsBad(open: set<nat>, t: Tick)
  {
    t.Arrived? &&
    var flow := FlowOf(open, t.ev);
    flow == Crash || flow == Unexpected || (flow == AnswerNoop && !t.ev.sends)
  }

  /** Such a packet is among these, each taken with the streams open by then. */
  predicate GoesBad(open: set<nat>, ts: seq<Tick>)
  {
    ts != [] && (GoesBad(open, ts[..|ts| - 1]) || IsBad(OpenAfter(open, ts[..|ts| - 1]), ts[|ts| - 1]))
  }

  function TickFlow(open: set<nat>, t: Tick): Flow
  {
    if t.Quiet? then Next else FlowOf(open, t.ev)
  }

  lemma SeenSnoc(ticks: seq<Tick>, i: nat, open: set<nat>)
    requires i < |ticks|
    ensures Flushes(ticks[..i + 1]) <==> Flushes(ticks[..i]) || TickFlow(OpenAfter(open, ticks[..i]), ticks[i]) == Break
    ensures GoesBad(open, ticks[..i + 1]) <==>
      GoesBad(open, ticks[..i]) || IsBad(OpenAfter(open, ticks[..i]), ticks[i])
  {
    assert ticks[..i + 1][..i] == ticks[..i];
  }

  lemma {:induction false} FlushesAppend(ts: seq<Tick>, us: seq<Tick>)
    ensures Flushes(ts + us) <==> Flushes(ts) || Flushes(us)
  {
    if us == [] {
      assert ts + us == ts;
    } else {
      var k := |us| - 1;
      FlushesAppend(ts, us[..k]);
      assert (ts + us)[..|ts + us| - 1] == ts + us[..k];
    }
  }

  lemma {:induction false} GoesBadAppend(open: set<nat>, ts: seq<Tick>, us: seq<Tick>)
    ensures GoesBad(open, ts + us) <==> GoesBad(open, ts) || GoesBad(OpenAfter(open, ts), us)
  {
    if us == [] {
      assert ts + us == ts;
    } else {
      var k := |us| - 1;
      GoesBadAppend(open, ts, us[..k]);
      OpenAppend(open, ts, us[..k]);
      assert (ts + us)[..|ts + us| - 1] == ts + us[..k];
    }
  }

  lemma FirstIsBad(open: set<nat>, ticks: seq<Tick>, n: nat)
    requires 0 < n <= |ticks| && IsBad(open, ticks[0])
    ensures GoesBad(open, ticks[..n])
  {
    SeenSnoc(ticks, 0, open);
    assert ticks[..n] == ticks[..1] + ticks[1..n];
    GoesBadAppend(open, ticks[..1], ticks[1..n]);
  }

  /** What a result says about the packets taken: it is an error exactly when one of them was bad, but for an
      acknowledgement too large for its field; and the flush flag stands for a flush among them. */
  ghost predicate Accounts(taken: seq<Tick>, open0: set<nat>, r: Ret, flushed0: bool, flushed: bool, oversized: bool)
  {
    && (GoesBad(open0, taken) ==> r.Err? || r.Raise?)
    && (r.Err? || r.Raise? ==> GoesBad(open0, taken) || (r.Raise? && oversized))
    && (flushed ==> flushed0 || Flushes(taken))
    && (flushed0 || (Flushes(taken) && !r.Raise?) ==> flushed)
  }

  lemma AccountsJoin(before: seq<Tick>, taken: seq<Tick>, open0: set<nat>, r: Ret, flushed0: bool, flushed1: bool,
                     flushed: bool, oversized: bool)
    requires !GoesBad(open0, before) && (flushed1 <==> flushed0 || Flushes(before))
    requires Accounts(taken, OpenAfter(open0, before), r, flushed1, flushed, oversized)
    ensures Accounts(before + taken, open0, r, flushed0, flushed, oversized)
  {
    FlushesAppend(before, taken);
    GoesBadAppend(open0, before, taken);
  }

  /** The same at the end of the event loop, where a NOOP is still to be answered. */
  ghost predicate LoopAccounts(taken: seq<Tick>, open0: set<nat>, end: LoopEnd, flushed0: bool, flushed: bool,
                               oversized: bool)
  {
    match end
    case Finished => Accounts(taken, open0, Zero(None), flushed0, flushed, oversized)
    case NoopSeen =>
      && taken != [] && taken[|taken| - 1].Arrived? && flushed == flushed0 && !Flushes(taken)
      && (GoesBad(open0, taken) <==> !taken[|taken| - 1].ev.sends)
    case Failed(r) => Accounts(taken, open0, r, flushed0, flushed, oversized)
  }

  /** Neither a flush nor a bad packet is among these. */
  ghost predicate Uneventful(ts: seq<Tick>, open: set<nat>)
  {
    !Flushes(ts) && !GoesBad(open, ts)
  }

  /** The last of the packets decides, when none before it did. */
  lemma PacketAccounts(ticks: seq<Tick>, i: nat, open0: set<nat>, flow: Flow, flushed0: bool, flushed: bool,
                       oversized: bool)
    requires i < |ticks| && Uneventful(ticks[..i], open0)
    requires flow == TickFlow(OpenAfter(open0, ticks[..i]), ticks[i]) || (flow == Crash && oversized)
    requires flushed <==> flushed0 || flow == Break
    ensures flow == Next ==> Uneventful(ticks[..i + 1], open0)
    ensures flow != Next ==> LoopAccounts(ticks[..i + 1], open0, EndOf(flow), flushed0, flushed, oversized)
  {
    SeenSnoc(ticks, i, open0);
    assert ticks[..i + 1][i] == ticks[i];
  }

  datatype LoopEnd = Finished | NoopSeen | Failed(r: Ret)

  function EndOf(flow: Flow): LoopEnd
  {
    match flow
    case Crash => Failed(Raise)
    case Unexpected => Failed(Err(UnexpectedMessage))
    case AnswerNoop => NoopSeen
    case _ => Finished
  }

  /** Why the event loop ended after `i` looks: for everything but the regular end a packet is to blame, or an
      acknowledgement too large for its field, or there is nothing to take. */
  ghost predicate Explained(ticks: seq<Tick>, i: nat, open0: set<nat>, end: LoopEnd, flowControl: bool, done: bool)
    requires i <= |ticks|
  {
    match end
    case Finished => true
    case NoopSeen =>
      i > 0 && !done && ticks[i - 1].Arrived? && (ticks[i - 1].ev.sends || Blamed(ticks, i, open0, Err(SocketError)))
    case Failed(r) =>
      match r
      case Raise => Blamed(ticks, i, open0, r) || (flowControl && BytesRead(ticks) >= 0x1_0000_0000)
      case Err(kind) => kind == UnexpectedMessage && !done && Blamed(ticks, i, open0, r)
      case Blocked => i == |ticks| && !done
      case Zero(_) => false
  }

  /** A correct producer is never to blame for a flush or an unexpected message, nor behind a healthy connection
      for anything. */
  lemma OrderlyBlameless(ticks: seq<Tick>, i: nat, open0: set<nat>)
    requires i <= |ticks|
    ensures Orderly(open0, ticks) ==> forall r :: Blamed(ticks, i, open0, r) ==> r.Raise? || r == Err(SocketError)
    ensures Orderly(open0, ticks) && Healthy(ticks) ==> forall r :: !Blamed(ticks, i, open0, r)
  {
    if Orderly(open0, ticks) && i > 0 && ticks[i - 1].Arrived? {
      ExpectedFlow(OpenAfter(open0, ticks[..i - 1]), ticks[i - 1].ev);
    }
  }

  /** The queue has been seen empty with every stream closed: there is nothing left to wait for. */
  ghost predicate Exhausted(ticks: seq<Tick>, open0: set<nat>)
  {
    ticks != [] && ticks[|ticks| - 1].Quiet? && OpenAfter(open0, ticks) == {}
  }

  lemma {:induction false} OpenAppend(open: set<nat>, ts: seq<Tick>, us: seq<Tick>)
    ensures OpenAfter(open, ts + us) == OpenAfter(OpenAfter(open, ts), us)
  {
    if us == [] {
      assert ts + us == ts;
    } else {
      var init, last := us[..|us| - 1], us[|us| - 1];
      OpenAppend(open, ts, init);
      OpenSnoc(open, ts + init, last);
      Assoc(ts, init, [last]);
      assert us == init + [last];
    }
  }

  lemma {:induction false} BytesAppend(ts: seq<Tick>, us: seq<Tick>)
    ensures BytesRead(ts + us) == BytesRead(ts) + BytesRead(us)
  {
    if us == [] {
      assert ts + us == ts;
    } else {
      var k := |us| - 1;
      BytesAppend(ts, us[..k]);
      assert (ts + us)[..|ts + us| - 1] == ts + us[..k];
    }
  }

  /** The rest of an orderly trace is orderly, from the streams open by then. */
  lemma SuffixFacts(ticks: seq<Tick>, pos: nat, open0: set<nat>)
    requires pos <= |ticks|
    ensures Orderly(open0, ticks) ==> Orderly(OpenAfter(open0, ticks[..pos]), ticks[pos..])
    ensures BytesRead(ticks[pos..]) <= BytesRead(ticks)
    ensures OpenAfter(open0, ticks) == OpenAfter(OpenAfter(open0, ticks[..pos]), ticks[pos..])
  {
    var pre, suf := ticks[..pos], ticks[pos..];
    assert ticks == pre + suf;
    OpenAppend(open0, pre, suf);
    BytesAppend(pre, suf);
    if Orderly(open0, ticks) {
      forall i | 0 <= i < |suf| && suf[i].Arrived?
        ensures Expected(OpenAfter(OpenAfter(open0, pre), suf[..i]), suf[i].ev) {
        OpenAppend(open0, pre, suf[..i]);
        assert pre + suf[..i] == ticks[..pos + i];
        assert ticks[pos + i].Arrived?;
      }
    }
  }

  lemma LookFacts(ticks: seq<Tick>, pos: nat, used: nat, done: bool, open: set<nat>)
    requires pos + used <= |ticks| && used > 0
    ensures LooksDone(ticks[pos..], used, done, open) <==> LooksDone(ticks, pos + used, done, open)
  {
  }

  lemma StillWaiting(ticks: seq<Tick>, pos: nat, open0: set<nat>, done: bool, open: set<nat>)
    requires pos <= |ticks| && open == OpenAfter(OpenAfter(open0, ticks[..pos]), ticks[pos..]) && !done
    requires !LooksDone(ticks, |ticks|, done, open)
    ensures !Exhausted(ticks, open0)
  {
    SuffixFacts(ticks, pos, open0);
  }

  lemma {:induction false} ClosedStaysClosed(ts: seq<Tick>)
    ensures OpenAfter({}, ts) == {}
  {
    if ts != [] {
      ClosedStaysClosed(ts[..|ts| - 1]);
    }
  }

  /** No data comes once every stream is closed. */
  lemma {:induction false} NothingAfterClose(ts: seq<Tick>, skip: Skipper)
    requires Orderly({}, ts)
    ensures Wanted(ts, skip) == []
  {
    if ts != [] {
      var init, last := ts[..|ts| - 1], ts[|ts| - 1];
      forall i | 0 <= i < |init| && init[i].Arrived? ensures Expected(OpenAfter({}, init[..i]), init[i].ev) {
        assert init[..i] == ts[..i];
      }
      NothingAfterClose(init, skip);
      ClosedStaysClosed(init);
    }
  }

  lemma AllWanted(ticks: seq<Tick>, pos: nat, open0: set<nat>, skip: Skipper)
    requires pos <= |ticks| && Orderly(open0, ticks) && OpenAfter(open0, ticks[..pos]) == {}
    ensures Wanted(ticks[..pos], skip) == Wanted(ticks, skip)
  {
    SuffixFacts(ticks, pos, open0);
    NothingAfterClose(ticks[pos..], skip);
    WantedAppend(ticks[..pos], ticks[pos..], skip);
    assert ticks == ticks[..pos] + ticks[pos..];
  }

  class DcpSource {
    var streams: map<nat, Stream>
    var dcpDone: bool
    var failover: Logs
    var snapshot: map<nat, (nat, nat)>
    var requests: seq<Stream>   // stream requests sent
    var acks: seq<Ack>          // buffer acknowledgements attempted
    var connected: bool         // dcp_conn is set; the reader thread has been started
    ghost var flushed: bool
    const skip: Skipper
    const flowControl: bool
    const maxSize: int
    const maxBytes: int
    const maxRetry: int

    /** The source once its connection is open and its reader thread started. */
    constructor (skip: Skipper, flowControl: bool, maxSize: int, maxBytes: int, maxRetry: int)
      ensures Valid() && connected && streams == map[] && !dcpDone && requests == [] && acks == [] && !flushed
      ensures this.skip == skip && this.flowControl == flowControl && this.maxRetry == maxRetry
      ensures this.maxSize == maxSize && this.maxBytes == maxBytes
    {
      streams, dcpDone, failover, snapshot, requests, acks := map[], false, map[], map[], [], [];
      connected, flushed := true, false;
      this.skip, this.flowControl, this.maxRetry := skip, flowControl, maxRetry;
      this.maxSize, this.maxBytes := maxSize, maxBytes;
    }

    ghost predicate Valid()
      reads this
    {
      KeysMatch(streams) && (dcpDone ==> streams == map[] || flushed)
    }

    /** Asks for a stream; it is listed, under its own vbucket id, only once the request is on the wire. */
    method RequestStream(st: Stream, sends: bool)
      modifies this`streams, this`requests
      ensures old(KeysMatch(streams)) ==> KeysMatch(streams)
      ensures if sends then st in requests && streams == old(streams)[st.vbid := st]
              else streams == old(streams)
      ensures requests == if sends then old(requests) + [st] else old(requests)
    {
      if sends {
        requests := requests + [st];
        streams := streams[st.vbid := st];
      }
    }

    /** setup_dcp_streams: each chosen vbucket resumes after its recorded seqno and goes up to the current high one.
        `sends` says of which vbuckets the request gets through; the others raise, as a missing record does. */
    method SetupStreams(vbs: seq<(nat, nat)>, active: set<nat>, selected: Option<set<nat>>,
                        seqnos: Option<map<nat, nat>>, logs: Logs, markers: map<nat, (nat, nat)>,
                        sends: set<nat>) returns (ok: bool)
      requires Valid() && forall i, j :: 0 <= i < j < |vbs| ==> vbs[i].0 != vbs[j].0
      requires streams == map[]
      modifies this`streams, this`requests
      ensures KeysMatch(streams)
      ensures ok <==> forall i :: 0 <= i < |vbs| && Chosen(vbs[i].0, active, selected) ==>
                vbs[i].0 in sends && (seqnos.None? || vbs[i].0 in seqnos.value)
      ensures ok ==> forall i :: 0 <= i < |vbs| ==> (vbs[i].0 in streams <==> Chosen(vbs[i].0, active, selected))
      ensures ok ==> forall v :: v in streams ==> exists i :: 0 <= i < |vbs| && vbs[i].0 == v
      ensures ok ==> forall i :: 0 <= i < |vbs| && vbs[i].0 in streams ==>
                streams[vbs[i].0] == Resumed(vbs[i].0, vbs[i].1, seqnos, logs, markers)
    {
      for i := 0 to |vbs|
        invariant KeysMatch(streams)
        invariant forall k :: 0 <= k < i && Chosen(vbs[k].0, active, selected) ==>
                    vbs[k].0 in sends && (seqnos.None? || vbs[k].0 in seqnos.value)
        invariant forall k :: 0 <= k < i ==> (vbs[k].0 in streams <==> Chosen(vbs[k].0, active, selected))
        invariant forall v :: v in streams ==> exists k :: 0 <= k < i && vbs[k].0 == v
        invariant forall k :: 0 <= k < i && vbs[k].0 in streams ==>
                    streams[vbs[k].0] == Resumed(vbs[k].0, vbs[k].1, seqnos, logs, markers)
      {
        var (v, high) := vbs[i];
        if Chosen(v, active, selected) {
          if seqnos.Some? && v !in seqnos.value {
            return false;
          }
          var start := StartOf(v, seqnos);
          var (ssStart, ssEnd) := if v in markers then markers[v] else (start, start);
          var uuid := if v in logs then LatestUuid(logs[v]) else 0;
          RequestStream(Stream(v, 0, start, high, uuid, if start == ssEnd then start else ssStart, ssEnd), v in sends);
          if v !in sends {
            return false;
          }
        }
      }
      ok := true;
    }

    /** The answer to a stream request. */
    method OnRequestStream(ev: Event) returns (ok: bool)
      requires Valid() && ev.cmd == CMD_DCP_REQUEST_STREAM
      modifies this`streams, this`requests, this`failover
      ensures KeysMatch(streams) && (dcpDone ==> old(streams) == map[] ==> streams == map[])
      ensures ok <==> FlowOf(old(streams).Keys, ev) == Next
      ensures ok && Closes(ev) ==> streams == old(streams) - {ev.tag}
      ensures ok && IsRollback(ev) ==>
                var st := RolledBack(old(streams)[ev.tag], UnBE(ev.data));
                streams == old(streams)[ev.tag := st] && requests == old(requests) + [st]
      ensures !Closes(ev) && !IsRollback(ev) ==> streams == old(streams)
      ensures !ok || !IsRollback(ev) ==> requests == old(requests)
      ensures failover == Extended(old(failover), ev.tag, if ev.status == ERR_SUCCESS then Pairs(ev.data) else [])
    {
      ok := true;
      if ev.status == ERR_SUCCESS {
        RecordFailover(ev);
      } else if ev.status == ERR_KEY_ENOENT || ev.status == ERR_NOT_MY_VBUCKET || ev.status == ERR_ERANGE {
        ok := ev.tag in streams;
        streams := streams - {ev.tag};
      } else if ev.status == ERR_ROLLBACK {
        ok := ev.tag in streams && |ev.data| == 8;
        if ok {
          var st, start := streams[ev.tag], UnBE(ev.data);
          st := Stream(st.vbid, st.flags, start, st.end, st.uuid, start, start);
          RequestStream(st, ev.sends);
          ok := ev.sends;
          if ok {
            streams := streams - {ev.tag};
            streams := streams[ev.tag := st];
          }
        }
      }
    }

    method RecordFailover(ev: Event)
      modifies this`failover
      ensures failover == Extended(old(failover), ev.tag, Pairs(ev.data))
    {
      var start := 0;
      ghost var seen: seq<(nat, nat)> := [];
      while start + 16 <= |ev.data|
        invariant start <= |ev.data|
        invariant seen + Pairs(ev.data[start..]) == Pairs(ev.data)
        invariant failover == Extended(old(failover), ev.tag, seen)
      {
        var pair := (UnBE(ev.data[start..start + 8]), UnBE(ev.data[start + 8..start + 16]));
        PairsAt(ev.data, start);
        ExtendedSnoc(old(failover), ev.tag, seen, pair);
        failover := failover[ev.tag := (if ev.tag in failover then failover[ev.tag] else []) + [pair]];
        Assoc(seen, [pair], Pairs(ev.data[start + 16..]));
        seen := seen + [pair];
        start := start + 16;
      }
      assert seen + [] == seen;
    }

    static predicate Chosen(v: nat, active: set<nat>, selected: Option<set<nat>>)
    {
      v in active && (selected.None? || selected.value == {} || v in selected.value)
    }

    /** The stream that goes on where the last session stopped: a snapshot that was complete counts as ended there,
        one that was cut short is asked for again. */
    static function Resumed(v: nat, high: nat, seqnos: Option<map<nat, nat>>, logs: Logs,
                            markers: map<nat, (nat, nat)>): (st: Stream)
      ensures st.vbid == v && st.flags == 0 && st.end == high && st.start == StartOf(v, seqnos)
      ensures if v in logs && logs[v] != [] then exists i :: IsLatest(logs[v], i) && st.uuid == logs[v][i].0
              else st.uuid == 0
      ensures v in markers && st.start != markers[v].1 ==> (st.ssStart, st.ssEnd) == markers[v]
      ensures v !in markers || st.start == markers[v].1 ==> st.ssStart == st.ssEnd == st.start
    {
      var start, uuid := StartOf(v, seqnos), if v in logs then LatestUuid(logs[v]) else 0;
      if v !in markers then Stream(v, 0, start, high, uuid, start, start)
      else Stream(v, 0, start, high, uuid, if start == markers[v].1 then start else markers[v].0, markers[v].1)
    }

    static function StartOf(v: nat, seqnos: Option<map<nat, nat>>): nat
    {
      if seqnos.Some? && v in seqnos.value then seqnos.value[v] else 0
    }

    /** ack_buffer_size: sends nothing without flow control; a size over four bytes raises. */
    method AckBufferSize(size: nat) returns (raised: bool, sent: bool)
      modifies this`acks
      ensures raised <==> flowControl && size >= 0x1_0000_0000
      ensures raised || !flowControl ==> acks == old(acks) && (!flowControl ==> sent)
      ensures !raised && flowControl ==> acks == old(acks) + [Ack(size, sent)]
    {
      raised, sent := false, true;
      if flowControl {
        raised := size >= 0x1_0000_0000;
        if !raised {
          sent := *;
          acks := acks + [Ack(size, sent)];
        }
      }
    }

    method EndStream(v: nat)
      requires Valid() && !dcpDone && v in streams
      modifies this`streams, this`dcpDone
      ensures Valid() && streams == old(streams) - {v} && streams.Keys == old(streams).Keys - {v}
      ensures dcpDone <==> streams == map[]
    {
      streams := streams - {v};
      if |streams| == 0 {
        dcpDone := true;
      }
    }

    /** A mutation, delete or expiration. */
    method OnData(ev: Event, batch: Batch) returns (b: Batch)
      requires IsData(ev) && Unpackable(ev)
      ensures b == Grown(batch, ev, skip)
    {
      b := batch;
      var m := MsgOf(ev);
      if !skip(m.key, m.vbucket) {
        b := b.(msgs := b.msgs + [m], bytes := b.bytes + |m.val|);
      }
      if ev.cmd == CMD_DCP_DELETE {
        b := b.(adjustSize := b.adjustSize + 1);
      }
    }

    /** One packet of the event loop. */
    method Handle(ev: Event, batch: Batch) returns (flow: Flow, b: Batch)
      requires Valid() && !dcpDone
      modifies this`streams, this`requests, this`failover, this`snapshot, this`dcpDone, this`flushed
      ensures Valid()
      ensures flow == FlowOf(old(streams).Keys, ev)
      ensures flow != Crash ==>
        streams == StreamsAfter(old(streams), ev) && streams.Keys == StillOpen(old(streams).Keys, ev)
      ensures flow != Crash ==> b == Grown(batch, ev, skip)
      ensures if flow != Crash && IsRollback(ev) then requests == old(requests) + [streams[ev.tag]]
        else requests == old(requests)
      ensures snapshot ==
        if flow != Crash && ev.cmd == CMD_DCP_SNAPSHOT_MARKER then old(snapshot)[ev.tag := MarkerOf(ev)]
        else old(snapshot)
      ensures failover == Extended(old(failover), ev.tag, if Accepts(ev) then Pairs(ev.data) else [])
      ensures flushed == (old(flushed) || ev.cmd == CMD_DCP_FLUSH)
      ensures dcpDone == (ev.cmd == CMD_DCP_FLUSH || (flow == Next && ev.cmd == CMD_DCP_END_STREAM && streams == map[]))
    {
      b := batch;
      flow := Next;
      if ev.cmd == CMD_DCP_REQUEST_STREAM {
        var ok := OnRequestStream(ev);
        flow := if ok then Next else Crash;
      } else if ev.cmd == CMD_DCP_MUTATION || ev.cmd == CMD_DCP_DELETE || ev.cmd == CMD_DCP_EXPIRATION {
        if !Unpackable(ev) {
          flow := Crash;
          return;
        }
        b := OnData(ev, batch);
      } else if ev.cmd == CMD_DCP_FLUSH {
        dcpDone, flushed, flow := true, true, Break;
      } else if ev.cmd == CMD_DCP_END_STREAM {
        if ev.tag !in streams {
          flow := Crash;
          return;
        }
        EndStream(ev.tag);
      } else if ev.cmd == CMD_DCP_SNAPSHOT_MARKER {
        if !Unpackable(ev) {
          flow := Crash;
          return;
        }
        snapshot := snapshot[ev.tag := MarkerOf(ev)];
      } else if ev.cmd == CMD_DCP_NOOP {
        flow := AnswerNoop;
      } else if ev.cmd != CMD_DCP_BUFFER_ACK {
        flow := Unexpected;
      }
    }

    /** The acknowledgement at the head of the loop, once enough bytes are unprocessed. */
    method AckInLoop(total: nat, processed: nat, ghost acks0: seq<Ack>) returns (raised: bool, p: nat)
      requires Ledger(flowControl, acks0, acks, processed, total)
      modifies this`acks
      ensures raised ==> flowControl && total >= 0x1_0000_0000
      ensures Ledger(flowControl, acks0, acks, p, total)
      ensures total - processed <= maxBytes * 10 / 4 ==> acks == old(acks) && p == processed
      ensures total - processed > maxBytes * 10 / 4 && flowControl && !raised ==>
                || (acks == old(acks) + [Ack(total - processed, true)] && p == total)
                || (acks == old(acks) + [Ack(total - processed, false)] && p == processed)
    {
      raised, p := false, processed;
      if total - processed > maxBytes * 10 / 4 {
        var sent;
        if flowControl {
          LedgerStep(acks0, acks, processed, total, true);
          LedgerStep(acks0, acks, processed, total, false);
        }
        raised, sent := AckBufferSize(total - processed);
        if !raised && sent {
          p := total;
        }
      }
    }

    /** The acknowledgement that closes a batch. */
    method AckFinal(total: nat, processed: nat, ghost acks0: seq<Ack>) returns (raised: bool)
      requires Ledger(flowControl, acks0, acks, processed, total)
      modifies this`acks
      ensures raised ==> flowControl && total >= 0x1_0000_0000
      ensures !raised ==> Covered(flowControl, acks0, acks, total)
    {
      if flowControl {
        FinalAckCovers(acks0, acks, processed, total, true);
        FinalAckCovers(acks0, acks, processed, total, false);
      }
      var sent;
      raised, sent := AckBufferSize(total - processed);
    }

    method CloseBatch(batch: Batch, total: nat, processed: nat, ghost acks0: seq<Ack>) returns (r: Ret)
      requires Ledger(flowControl, acks0, acks, processed, total)
      modifies this`acks
      ensures r == Zero(Some(batch)) || r == Raise
      ensures r.Raise? ==> flowControl && total >= 0x1_0000_0000
      ensures r.Zero? ==> Covered(flowControl, acks0, acks, total)
    {
      var raised := AckFinal(total, processed, acks0);
      r := if raised then Raise else Zero(Some(batch));
    }

    /** A NOOP is answered, and its answer closes the batch, empty or not. Only socket.error can come out of the
        send, so the handler for EOFError is never entered. */
    method AnswerTheNoop(sends: bool, batch: Batch, total: nat, processed: nat, ghost acks0: seq<Ack>) returns (r: Ret)
      requires Ledger(flowControl, acks0, acks, processed, total)
      modifies this`acks
      ensures r == Zero(Some(batch)) || r == Raise || r == Err(SocketError)
      ensures r.Err? <==> !sends
      ensures r.Raise? ==> flowControl && total >= 0x1_0000_0000
      ensures r.Zero? ==> Covered(flowControl, acks0, acks, total)
    {
      if sends {
        r := CloseBatch(batch, total, processed, acks0);
      } else {
        r := Err(SocketError);
      }
    }

    /** One pass of the event loop over a packet: acknowledge if due, take the packet, act on it. */
    method Consume(ev: Event, batch: Batch, total: nat, processed: nat, ghost acks0: seq<Ack>)
      returns (flow: Flow, b: Batch, t: nat, p: nat)
      requires Valid() && !dcpDone && Ledger(flowControl, acks0, acks, processed, total)
      modifies this`streams, this`requests, this`failover, this`snapshot, this`dcpDone, this`flushed, this`acks
      ensures Valid()
      ensures Ledger(flowControl, acks0, acks, p, t)
      ensures flow == FlowOf(old(streams).Keys, ev) || (flow == Crash && flowControl && total >= 0x1_0000_0000)
      ensures flow != Crash ==> t == total + ev.bytesRead && b == Grown(batch, ev, skip)
      ensures flow != Crash ==> streams.Keys == StillOpen(old(streams).Keys, ev)
      ensures flushed == old(flushed) || (flow == Break && flow == FlowOf(old(streams).Keys, ev))
      ensures flow == Break ==> flushed
      ensures (dcpDone ==> flow == Break || flow == Next) && (flow == Break ==> dcpDone)
    {
      var raised;
      raised, p := AckInLoop(total, processed, acks0);
      if raised {
        return Crash, batch, total, p;
      }
      t := total + ev.bytesRead;
      flow, b := Handle(ev, batch);
    }

    /** Batch limits under which the event loop is entered at all. */
    predicate Limits()
    {
      maxSize > 0 && maxBytes > 0
    }

    ghost predicate Oversized(ticks: seq<Tick>)
    {
      flowControl && BytesRead(ticks) >= 0x1_0000_0000
    }

    /** One pass of the event loop: an empty queue with no stream open is the end, otherwise a reason to wait. */
    method Look(ticks: seq<Tick>, i: nat, batch: Batch, total: nat, processed: nat, ghost open0: set<nat>,
                ghost acks0: seq<Ack>)
      returns (flow: Flow, b: Batch, t: nat, p: nat)
      requires Valid() && !dcpDone && i < |ticks|
      requires InStep(ticks, i, open0, streams.Keys, batch, total, skip)
      requires Ledger(flowControl, acks0, acks, processed, total) && Uneventful(ticks[..i], open0)
      modifies this`streams, this`requests, this`failover, this`snapshot, this`dcpDone, this`flushed, this`acks
      ensures Valid() && !LooksDone(ticks, i + 1, dcpDone, streams.Keys)
      ensures flow != Crash ==>
        InStep(ticks, i + 1, open0, streams.Keys, b, t, skip) && Ledger(flowControl, acks0, acks, p, t)
      ensures flow != Next ==> Explained(ticks, i + 1, open0, EndOf(flow), flowControl, dcpDone)
      ensures flushed != old(flushed) ==> flow == Break && Blamed(ticks, i + 1, open0, Zero(None))
      ensures flow == Break ==> dcpDone && flushed
      ensures flow == Next ==> Uneventful(ticks[..i + 1], open0)
      ensures flow != Next ==>
        LoopAccounts(ticks[..i + 1], open0, EndOf(flow), old(flushed), flushed, Oversized(ticks))
      ensures flow != Crash ==> |b.msgs| <= |batch.msgs| + 1
    {
      if ticks[i].Quiet? {
        QuietStep(ticks, i, open0, streams.Keys, batch, total, skip);
        SeenSnoc(ticks, i, open0);
        if |streams| == 0 {
          dcpDone := true;
        }
        return Next, batch, total, processed;
      }
      flow, b, t, p := LookAtPacket(ticks, i, batch, total, processed, open0, acks0);
    }

    /** The same, of a queue that holds a packet. */
    method LookAtPacket(ticks: seq<Tick>, i: nat, batch: Batch, total: nat, processed: nat, ghost open0: set<nat>,
                        ghost acks0: seq<Ack>)
      returns (flow: Flow, b: Batch, t: nat, p: nat)
      requires Valid() && !dcpDone && i < |ticks| && ticks[i].Arrived?
      requires InStep(ticks, i, open0, streams.Keys, batch, total, skip)
      requires Ledger(flowControl, acks0, acks, processed, total) && Uneventful(ticks[..i], open0)
      modifies this`streams, this`requests, this`failover, this`snapshot, this`dcpDone, this`flushed, this`acks
      ensures Valid() && !LooksDone(ticks, i + 1, dcpDone, streams.Keys)
      ensures flow != Crash ==>
        InStep(ticks, i + 1, open0, streams.Keys, b, t, skip) && Ledger(flowControl, acks0, acks, p, t)
      ensures flow != Next ==> Explained(ticks, i + 1, open0, EndOf(flow), flowControl, dcpDone)
      ensures flushed != old(flushed) ==> flow == Break && Blamed(ticks, i + 1, open0, Zero(None))
      ensures flow == Break ==> dcpDone && flushed
      ensures flow == Next ==> Uneventful(ticks[..i + 1], open0)
      ensures flow != Next ==>
        LoopAccounts(ticks[..i + 1], open0, EndOf(flow), old(flushed), flushed, Oversized(ticks))
      ensures flow != Crash ==> |b.msgs| <= |batch.msgs| + 1
    {
      EventStep(ticks, i, open0, streams.Keys, batch, total, skip);
      flow, b, t, p := Consume(ticks[i].ev, batch, total, processed, acks0);
      PacketAccounts(ticks, i, open0, flow, old(flushed), flushed, Oversized(ticks));
    }

    /** The event loop of provide_dcp_batch_actual; `i` is how many looks at the queue it took. */
    method EventLoop(ticks: seq<Tick>) returns (end: LoopEnd, batch: Batch, total: nat, processed: nat, i: nat)
      requires Valid()
      modifies this`streams, this`requests, this`failover, this`snapshot, this`dcpDone, this`flushed, this`acks
      ensures Valid() && i <= |ticks| && !LooksDone(ticks, i, dcpDone, streams.Keys)
      ensures !end.Failed? ==> InStep(ticks, i, old(streams).Keys, streams.Keys, batch, total, skip)
      ensures !end.Failed? ==> Ledger(flowControl, old(acks), acks, processed, total)
      ensures end.Finished? ==> dcpDone || |batch.msgs| >= maxSize || batch.bytes >= maxBytes
      ensures !end.Failed? ==> batch.msgs == [] || |batch.msgs| <= maxSize
      ensures Explained(ticks, i, old(streams).Keys, end, flowControl, dcpDone)
      ensures end == Failed(Blocked) ==> streams.Keys == OpenAfter(old(streams).Keys, ticks)
      ensures flushed != old(flushed) ==> Blamed(ticks, i, old(streams).Keys, Zero(None))
      ensures LoopAccounts(ticks[..i], old(streams).Keys, end, old(flushed), flushed, Oversized(ticks))
      ensures i == 0 ==> ticks == [] || old(dcpDone) || !Limits()
      ensures !Limits() ==> end.Finished? && i == 0 && batch.msgs == [] && unchanged(this)
    {
      batch, total, processed, i := Batch([], 0, 0), 0, 0, 0;
      ghost var open0 := streams.Keys;
      while !dcpDone && |batch.msgs| < maxSize && batch.bytes < maxBytes
        invariant Valid() && i <= |ticks|
        invariant InStep(ticks, i, open0, streams.Keys, batch, total, skip)
        invariant Ledger(flowControl, old(acks), acks, processed, total)
        invariant flushed == old(flushed) && (batch.msgs == [] || |batch.msgs| <= maxSize)
        invariant !LooksDone(ticks, i, dcpDone, streams.Keys)
        invariant Uneventful(ticks[..i], open0)
        invariant i == 0 ==> batch.msgs == [] && batch.bytes == 0 && unchanged(this)
        invariant !Limits() ==> i == 0
        decreases |ticks| - i
      {
        if i == |ticks| {
          assert ticks[..i] == ticks;
          end := Failed(Blocked);
          return;
        }
        var flow;
        flow, batch, total, processed := Look(ticks, i, batch, total, processed, open0, old(acks));
        i := i + 1;
        if flow != Next {
          end := EndOf(flow);
          return;
        }
      }
      end := Finished;
    }

    /** provide_dcp_batch_actual. */
    method ProvideActual(ticks: seq<Tick>) returns (r: Ret, used: nat)
      requires Valid()
      modifies this
      ensures Valid() && used <= |ticks| && (r.Err? ==> !dcpDone) && connected == old(connected)
      ensures r.Zero? ==> streams.Keys == OpenAfter(old(streams).Keys, ticks[..used])
      ensures r.Zero? ==> MsgsOf(r) == Wanted(ticks[..used], skip) && (MsgsOf(r) == [] || |MsgsOf(r)| <= maxSize)
      ensures r.Zero? && r.batch.Some? ==> used > 0
      ensures r.Zero? && r.batch.None? && maxSize > 0 && maxBytes > 0 ==> dcpDone
      ensures r.Zero? && r.batch.Some? ==> Covered(flowControl, old(acks), acks, BytesRead(ticks[..used]))
      ensures r.Zero? && r.batch.None? ==> WithinBudget(old(acks), acks, BytesRead(ticks[..used]))
      ensures r.Blocked? ==> used == |ticks| && !dcpDone && streams.Keys == OpenAfter(old(streams).Keys, ticks)
      ensures Orderly(old(streams).Keys, ticks) ==> flushed == old(flushed)
      ensures Orderly(old(streams).Keys, ticks) && Healthy(ticks) ==> Excusable(r, flowControl, BytesRead(ticks))
      ensures !LooksDone(ticks, used, dcpDone, streams.Keys)
      ensures Accounts(ticks[..used], old(streams).Keys, r, old(flushed), flushed, Oversized(ticks))
      ensures used == 0 ==> ticks == [] || old(dcpDone) || !Limits()
      ensures !Limits() ==> r == Zero(None) && used == 0 && unchanged(this)
      ensures r.Err? ==> r.kind != CannotConnect
    {
      var end, batch, total, processed;
      end, batch, total, processed, used := EventLoop(ticks);
      BytesMono(ticks, used);
      OrderlyBlameless(ticks, used, old(streams).Keys);
      if end.Failed? {
        r := end.r;
      } else if end.NoopSeen? {
        r := AnswerTheNoop(ticks[used - 1].ev.sends, batch, total, processed, old(acks));
      } else if |batch.msgs| <= 0 {
        r := Zero(None);
      } else {
        r := CloseBatch(batch, total, processed, old(acks));
      }
    }

    /** What can come of an error. */
    predicate Final(r: Ret)
    {
      r == Raise || (if maxRetry < 0 then r.Err? && r.kind != CannotConnect else r == Err(CannotConnect))
    }

    /** provide_batch. After an error it goes round again to reconnect, but the reader thread cannot be started a
        second time: no error is ever made good, and none is swallowed. */
    method ProvideBatch(ticks: seq<Tick>) returns (r: Ret, used: nat)
      requires Valid() && connected
      modifies this
      ensures KeysMatch(streams) && used <= |ticks|
      ensures r.Zero? || r.Blocked? ==> Valid() && connected
      ensures r.Zero? ==> streams.Keys == OpenAfter(old(streams).Keys, ticks[..used])
      ensures r.Zero? ==> MsgsOf(r) == Wanted(ticks[..used], skip)
      ensures r.Zero? && r.batch.Some? ==> used > 0
      ensures r.Zero? && r.batch.None? && Limits() ==> dcpDone
      ensures r.Blocked? ==> used == |ticks| && !dcpDone && streams.Keys == OpenAfter(old(streams).Keys, ticks)
      ensures Orderly(old(streams).Keys, ticks) ==> flushed == old(flushed)
      ensures Orderly(old(streams).Keys, ticks) && Healthy(ticks) ==> Excusable(r, flowControl, BytesRead(ticks))
      ensures used > 0 ==> r.Err? || !LooksDone(ticks, used, dcpDone, streams.Keys)
      ensures r.Blocked? ==> !old(dcpDone)
      ensures Accounts(ticks[..used], old(streams).Keys, r, old(flushed), flushed, Oversized(ticks))
      ensures r.Err? || r.Raise? ==> Final(r) || (r.Raise? && Oversized(ticks))
      ensures used == 0 ==> ticks == [] || old(dcpDone) || !Limits()
      ensures !Limits() ==> r == Zero(None) && used == 0 && unchanged(this)
    {
      var curRetry := 0;
      used := 0;
      while true
        invariant KeysMatch(streams) && used <= |ticks|
        invariant connected ==> Valid() && used == 0
        invariant connected ==> unchanged(this)
        invariant !connected ==> !dcpDone && (Orderly(old(streams).Keys, ticks) ==> flushed == old(flushed))
        invariant !connected ==> !(Orderly(old(streams).Keys, ticks) && Healthy(ticks))
        invariant !connected && used > 0 ==> !LooksDone(ticks, used, dcpDone, streams.Keys)
        invariant curRetry == (if connected then 0 else 1) && (!connected ==> maxRetry >= 0 && Limits() && used > 0)
        invariant !connected ==>
          Accounts(ticks[..used], old(streams).Keys, Err(UnexpectedMessage), old(flushed), flushed, Oversized(ticks))
        decreases if connected then 1 else 0
      {
        if dcpDone {
          return Zero(None), 0;
        }
        if !connected {
          var connects: bool := *;
          if !connects {
            dcpDone := true;
            return Err(CannotConnect), used;
          }
          connected := true;
          return Raise, used;  // RuntimeError: threads can only be started once
        }
        r, used := ProvideActual(ticks);
        if !r.Err? {
          return;
        }
        connected := false;
        if curRetry > maxRetry {
          dcpDone := true;
          return;
        }
        curRetry := curRetry + 1;
      }
    }

    /** Any bad packet at the head of the queue is the end: with retries allowed the source is to reconnect, and what
        comes of it is an error or an exception. */
    method ErrorIsFinal(ev: Event, rest: seq<Tick>) returns (r: Ret, used: nat)
      requires Valid() && connected && !dcpDone && Limits() && maxRetry >= 0
      requires IsBad(streams.Keys, Arrived(ev))
      modifies this
      ensures r == Raise || r == Err(CannotConnect)
    {
      var ticks := [Arrived(ev)] + rest;
      r, used := ProvideBatch(ticks);
      assert used > 0;
      FirstIsBad(old(streams).Keys, ticks, used);
    }

    /** The same from a point of the whole trace; `slice` is what was taken from there. */
    method ProvideSlice(ticks: seq<Tick>, pos: nat, ghost open0: set<nat>)
      returns (r: Ret, next: nat, ghost slice: seq<Tick>)
      requires Valid() && connected
      requires pos <= |ticks| && streams.Keys == OpenAfter(open0, ticks[..pos])
      requires !LooksDone(ticks, pos, dcpDone, streams.Keys)
      modifies this
      ensures KeysMatch(streams) && (r.Zero? || r.Blocked? ==> Valid() && connected) && pos <= next <= |ticks|
      ensures ticks[..next] == ticks[..pos] + slice
      ensures r.Zero? ==> streams.Keys == OpenAfter(old(streams).Keys, slice) && MsgsOf(r) == Wanted(slice, skip)
      ensures r.Zero? && r.batch.Some? ==> next > pos
      ensures next > pos ==> r.Err? || !LooksDone(ticks, next, dcpDone, streams.Keys)
      ensures r.Zero? && r.batch.None? && Limits() ==> dcpDone
      ensures r.Blocked? ==> !Exhausted(ticks, open0)
      ensures Orderly(open0, ticks) ==> flushed == old(flushed)
      ensures Orderly(open0, ticks) && Healthy(ticks) ==> Excusable(r, flowControl, BytesRead(ticks))
      ensures Accounts(slice, old(streams).Keys, r, old(flushed), flushed, Oversized(ticks))
      ensures !Limits() ==> r == Zero(None) && next == pos && unchanged(this)
    {
      SuffixFacts(ticks, pos, open0);
      var used;
      r, used := ProvideBatch(ticks[pos..]);
      next := pos + used;
      slice := ticks[pos..][..used];
      if used > 0 && !r.Err? {
        LookFacts(ticks, pos, used, dcpDone, streams.Keys);
      }
      if r.Blocked? {
        StillWaiting(ticks, pos, open0, dcpDone, streams.Keys);
      }
    }

    /** The same in terms of the whole trace. */
    method ProvideFrom(ticks: seq<Tick>, pos: nat, ghost open0: set<nat>, ghost flushed0: bool)
      returns (r: Ret, next: nat)
      requires Valid() && connected
      requires pos <= |ticks| && streams.Keys == OpenAfter(open0, ticks[..pos])
      requires !LooksDone(ticks, pos, dcpDone, streams.Keys)
      requires !GoesBad(open0, ticks[..pos]) && (flushed <==> flushed0 || Flushes(ticks[..pos]))
      modifies this
      ensures KeysMatch(streams) && (r.Zero? || r.Blocked? ==> Valid() && connected) && pos <= next <= |ticks|
      ensures r.Zero? ==> streams.Keys == OpenAfter(open0, ticks[..next])
      ensures r.Zero? ==> Wanted(ticks[..next], skip) == Wanted(ticks[..pos], skip) + MsgsOf(r)
      ensures r.Zero? && r.batch.Some? ==> next > pos && !LooksDone(ticks, next, dcpDone, streams.Keys)
      ensures r.Zero? && r.batch.None? && Limits() ==> dcpDone
      ensures r.Blocked? ==> !Exhausted(ticks, open0)
      ensures Orderly(open0, ticks) ==> flushed == old(flushed)
      ensures Orderly(open0, ticks) && Healthy(ticks) ==> Excusable(r, flowControl, BytesRead(ticks))
      ensures Accounts(ticks[..next], open0, r, flushed0, flushed, Oversized(ticks))
      ensures !Limits() ==> r == Zero(None) && next == pos && unchanged(this)
    {
      ghost var slice;
      r, next, slice := ProvideSlice(ticks, pos, open0);
      OpenAppend(open0, ticks[..pos], slice);
      WantedAppend(ticks[..pos], slice, skip);
      AccountsJoin(ticks[..pos], slice, open0, r, flushed0, old(flushed), flushed, Oversized(ticks));
    }

    /** All the batches a pump gets, one after the other. */
    method Drain(ticks: seq<Tick>) returns (all: seq<Msg>, pos: nat, last: Ret)
      requires Valid() && connected
      modifies this
      ensures pos <= |ticks| && KeysMatch(streams)
      ensures last.Zero? ==> all == Wanted(ticks[..pos], skip)
      ensures last.Zero? && Limits() ==> dcpDone && (streams == map[] || old(flushed) || Flushes(ticks[..pos]))
      ensures last.Zero? && Orderly(old(streams).Keys, ticks) && !old(flushed) && Limits() ==>
                all == Wanted(ticks, skip) && streams == map[]
      ensures last.Blocked? ==> !Exhausted(ticks, old(streams).Keys)
      ensures Orderly(old(streams).Keys, ticks) && Healthy(ticks) ==> Excusable(last, flowControl, BytesRead(ticks))
      ensures Accounts(ticks[..pos], old(streams).Keys, last, old(flushed), flushed, Oversized(ticks))
      ensures !Limits() ==> last == Zero(None) && pos == 0 && unchanged(this)
    {
      ghost var open0 := streams.Keys;
      all, pos := [], 0;
      while true
        invariant Valid() && connected && pos <= |ticks|
        invariant streams.Keys == OpenAfter(open0, ticks[..pos]) && all == Wanted(ticks[..pos], skip)
        invariant Orderly(open0, ticks) ==> flushed == old(flushed)
        invariant !GoesBad(open0, ticks[..pos]) && (flushed <==> old(flushed) || Flushes(ticks[..pos]))
        invariant !LooksDone(ticks, pos, dcpDone, streams.Keys) && (!Limits() ==> pos == 0 && unchanged(this))
        decreases |ticks| - pos
      {
        last, pos := ProvideFrom(ticks, pos, open0, old(flushed));
        all := all + MsgsOf(last);
        if !last.Zero? {
          return;
        }
        if last.batch.None? {
          if Orderly(open0, ticks) && streams == map[] {
            AllWanted(ticks, pos, open0, skip);
          }
          return;
        }
      }
    }
  }

  /** An opcode the source does not know, with a stream open: it is not made good by a second connection. */
  method AnUnknownOpcode() returns (r: Ret)
    ensures r == Raise || r == Err(CannotConnect)
  {
    var source := new DcpSource((key, v) => false, false, 1000, 400000, 10);
    source.RequestStream(Stream(0, 0, 0, 100, 0, 0, 0), true);
    var ev := Event(0x99, 0, 0, 0, 0, 0, [], 0, 24, true);
    var used;
    r, used := source.ErrorIsFinal(ev, []);
  }
}
