/** A run of the cluster sink in which the map grows between two attempts of a batch, and what the first attempt wrote
    stays behind. */
module Resize {
  import opened Codes
  import opened Bits
  import opened Crc
  import opened Wire
  import opened Batches
  import opened Store
  import opened ClusterSink

  const HOST: Host := "node"
  const ONE: SinkMap := SinkMap(1, [[0]], [HOST])       // one vbucket
  const TWO: SinkMap := SinkMap(1, [[0], [0]], [HOST])  // two, on the same server
  const KEY: Bytes := [255, 255, 255, 255]
  const NO_FILTER: Filter := Filter(None, None)

  /** A mutation without a vbucket id, as the stdin or the CSV source makes it. */
  function Mutation(flg: nat): Msg
  {
    Msg(CMD_TAP_MUTATION, NO_VBUCKET, KEY, flg, 0, 0, Text([]), [], 0, 0, 0)
  }

  function Version(flg: nat): Item
  {
    Item([], flg % 0x1_0000_0000, 0)
  }

  /** Two versions of one key. */
  const BATCH: seq<Msg> := [Mutation(1), Mutation(2)]

  // ---------- The checksum of the key ----------

  lemma {:induction false} XorLow(h: nat, k: nat)
    ensures BitXor(Shl(h, k) + Mask(k), Mask(k)) == Shl(h, k)
    decreases k
  {
    var x, m := Shl(h, k) + Mask(k), Mask(k);
    XorHalves(x, m);
    if k == 0 {
      NothingXored(x, m);
    } else {
      XorLow(h, k - 1);
      assert x / 2 == Shl(h, k - 1) + Mask(k - 1) && m / 2 == Mask(k - 1);
    }
  }

  lemma {:induction false} NothingXored(x: nat, z: nat)
    requires z == 0
    ensures BitXor(x, z) == x
  {
    if x > 0 {
      NothingXored(x / 2, z);
    }
  }

  lemma {:induction false} StepsDown(h: nat, k: nat)
    ensures CrcStep(Shl(h, k), k) == h
    decreases k
  {
    if k > 0 {
      StepsDown(h, k - 1);
    }
  }

  /** A byte of ones meets a register that ends in ones: nothing but a shift happens. */
  lemma OnesByte(h: nat, c: nat)
    requires c == 256 * h + 255
    ensures CrcStep(BitXor(c, 255), 8) == h
  {
    var k := 8;
    assert Shl(h, 1) == 2 * h && Shl(h, 2) == 4 * h && Shl(h, 3) == 8 * h && Shl(h, 4) == 16 * h;
    assert Shl(h, 5) == 32 * h && Shl(h, 6) == 64 * h && Shl(h, 7) == 128 * h && Shl(h, 8) == 256 * h;
    assert Mask(1) == 1 && Mask(2) == 3 && Mask(3) == 7 && Mask(4) == 15;
    assert Mask(5) == 31 && Mask(6) == 63 && Mask(7) == 127 && Mask(8) == 255;
    XorLow(h, k);
    StepsDown(h, k);
  }

  lemma {:induction false} OnesFold(c: nat, s: Bytes, h: nat)
    requires s != [] && s[0] == 255 && c == 256 * h + 255
    ensures CrcFold(c, s) == CrcFold(h, s[1..])
  {
    OnesByte(h, c);
  }

  lemma Checksum()
    ensures Crc32(KEY) == 0xffff_ffff
  {
    var c := 0xffff_ffff;
    OnesFold(c, KEY, 0xff_ffff);
    OnesFold(c / 256, KEY[1..], 0xffff);
    OnesFold(c / 65536, KEY[1..][1..], 0xff);
    OnesFold(c / 65536 / 256, KEY[1..][1..][1..], 0);
    assert KEY[1..][1..][1..][1..] == [];
    FromZero(CrcFold(c, KEY), c);
  }

  lemma FromZero(x: nat, y: nat)
    requires x == 0
    ensures BitXor(x, y) == y
  {
  }

  /** The key's id is 0 while there is one vbucket and 1 once there are two. */
  lemma IdMoves()
    ensures VbucketOf(KEY, 1) == 0 && VbucketOf(KEY, 2) == 1
  {
    Checksum();
    assert PowerOfTwo(1) && PowerOfTwo(2);
    HashInRange(KEY, 1);
    HashInRange(KEY, 2);
  }

  function Versions(v: int): seq<Msg>
  {
    [Mutation(1).(vbucket := v), Mutation(2).(vbucket := v)]
  }

  lemma BatchTagged(n: nat, v: int)
    requires VbucketOf(KEY, n) == v
    ensures Retagged(BATCH, n, false) == Versions(v)
  {
  }

  function Write(v: int, flg: nat): Op
  {
    Op(v, KEY, Put(Version(flg)))
  }

  lemma BatchAsks(v: int)
    ensures BatchOps(Versions(v), NO_FILTER) == [Write(v, 1), Write(v, 2)]
    ensures Project(Versions(v), v) == Versions(v)
    ensures Reqs(v, Versions(v), NO_FILTER) == [Req(Write(v, 1), 0), Req(Write(v, 2), 1)]
  {
    var all := Versions(v);
    var one := [Mutation(1).(vbucket := v)];
    assert all[..|all| - 1] == one && one[..|one| - 1] == [];
    assert Project([], v) == [] && BatchOps([], NO_FILTER) == [] && Reqs(v, [], NO_FILTER) == [];
    assert Project(one, v) == [] + one && BatchOps(one, NO_FILTER) == [] + [Write(v, 1)];
    assert Reqs(v, one, NO_FILTER) == [] + [Req(Write(v, 1), 0)];
  }

  lemma AtMostOne(order: seq<int>, v: int)
    requires Distinct(order)
    ensures (forall i :: 0 <= i < |order| ==> order[i] == v) ==> |order| <= 1
  {
    if |order| > 1 {
      assert order[0] != order[1];
    }
  }

  lemma OneGroup(v: int, order: seq<int>)
    requires Lists(order, Tags(Versions(v)))
    ensures order == [v]
  {
    var all := Versions(v);
    assert all[0].vbucket == v && Tags(all) == {v};
    assert v in order;
    AtMostOne(order, v);
  }

  /** The first version is accepted, the second gets `status`. */
  function Answers(status: nat): seq<(Host, nat)>
  {
    [(HOST, ERR_SUCCESS), (HOST, status)]
  }

  lemma Queue(m: map<Host, Conn>, v: int, sm: SinkMap)
    requires Scattered(m, [v], Versions(v), sm, NO_FILTER) && Route(sm, v) == At(HOST)
    ensures HOST in m && m[HOST] == Conn([Req(Write(v, 1), 0), Req(Write(v, 2), 1)], [])
    ensures forall h :: h in m && h != HOST ==> m[h] == Conn([], [])
  {
    BatchAsks(v);
    assert Route(sm, [v][0]).At?;
    forall h | h in m
      ensures m[h] == Conn(if h == HOST then [Req(Write(v, 1), 0), Req(Write(v, 2), 1)] else [], [])
    {
      assert [v][1..] == [];
      assert Sent([v], Versions(v), sm, NO_FILTER, h) == SentFor(v, Versions(v), sm, NO_FILTER, h) + [];
    }
  }

  lemma Answering(s: Data, m: map<Host, Conn>, v: int, status: nat)
    requires HOST in m && m[HOST] == Conn([Req(Write(v, 1), 0), Req(Write(v, 2), 1)], [])
    requires status == ERR_SUCCESS || status == ERR_NOT_MY_VBUCKET
    ensures var (t, n) := ServeAll(s, m, Answers(status));
      && n == m[HOST := Conn([], [Resp(ERR_SUCCESS, 0), Resp(status, 1)])]
      && t == ApplyAll(s, if status == ERR_SUCCESS then [Write(v, 1), Write(v, 2)] else [Write(v, 1)])
  {
    var as2 := Answers(status);
    var as1 := as2[..1];
    assert as1 == [as2[0]] && as1[..0] == [];
    assert ServeAll(s, m, as1[..0]) == (s, m);
    var s1, m1 := ApplyOp(s, Write(v, 1)), m[HOST := Answered(m[HOST], ERR_SUCCESS)];
    assert ServeAll(s, m, as1) == (s1, m1);
    assert m1[HOST] == Conn([Req(Write(v, 2), 1)], [Resp(ERR_SUCCESS, 0)]);
    assert CanServe(s1, m1, HOST, status);
    var last := Answered(m1[HOST], status);
    assert last.requests == [] && last.responses == [Resp(ERR_SUCCESS, 0), Resp(status, 1)];
    assert m1[HOST := last] == m[HOST := last];
    ApplyOne(s, Write(v, 1));
    ApplySnoc(s, [Write(v, 1)], Write(v, 2));
    assert [Write(v, 1)] + [Write(v, 2)] == [Write(v, 1), Write(v, 2)];
  }

  lemma Judged(m: map<Host, Conn>, status: nat)
    requires status == ERR_SUCCESS || status == ERR_NOT_MY_VBUCKET
    requires HOST in m && m[HOST] == Conn([], [Resp(ERR_SUCCESS, 0), Resp(status, 1)])
    requires forall h :: h in m && h != HOST ==> m[h] == Conn([], [])
    ensures Drained(m) && AllBearable(m, true)
    ensures AllSettled(m) <==> status == ERR_SUCCESS
    ensures NoneMoved(m) <==> status == ERR_SUCCESS
  {
    assert m[HOST].responses[1].status == status;
  }

  /** What the servers make of an attempt at the batch with both versions in vbucket `v`. */
  lemma Outcome(t: Attempt, v: int, sm: SinkMap, s: Data, s': Data, status: nat)
    requires Lists(t.order, Tags(Versions(v))) && Scattered(t.sent, t.order, Versions(v), sm, NO_FILTER)
    requires Route(sm, v) == At(HOST) && (status == ERR_SUCCESS || status == ERR_NOT_MY_VBUCKET)
    requires (s', t.answered) == ServeAll(s, t.sent, Answers(status))
    ensures Drained(t.answered) && AllBearable(t.answered, true)
    ensures AllSettled(t.answered) <==> status == ERR_SUCCESS
    ensures NoneMoved(t.answered) <==> status == ERR_SUCCESS
    ensures s' == ApplyAll(s, if status == ERR_SUCCESS then [Write(v, 1), Write(v, 2)] else [Write(v, 1)])
  {
    OneGroup(v, t.order);
    Queue(t.sent, v, sm);
    Answering(s, t.sent, v, status);
    Judged(t.answered, status);
  }

  /** A sink about to make an attempt with both versions in vbucket `v`. */
  ghost predicate Ready(sink: CBSink, v: int)
    reads sink
  {
    && Idle(sink.mconns) && sink.filter == NO_FILTER && !sink.rehash && sink.nmvRetry
    && sink.Packable(Mutation(1).(vbucket := v)) && sink.Packable(Mutation(2).(vbucket := v))
    && sink.sinkMap.buckets == 1 && Route(sink.sinkMap, v) == At(HOST)
    && Retagged(BATCH, |sink.sinkMap.chains|, false) == Versions(v)
  }

  lemma CanSend(sink: CBSink, v: int)
    requires Ready(sink, v)
    ensures sink.Tagged(BATCH, sink.sinkMap) == Versions(v) && sink.Sendable(Versions(v), sink.sinkMap, {HOST})
  {
    var all := Versions(v);
    assert all[0].vbucket == v && all[1].vbucket == v;
  }

  /** One attempt at the batch. */
  method Try(sink: CBSink, v: int, status: nat, newMap: Option<SinkMap>) returns (rv: Rv, retry: bool)
    requires Ready(sink, v) && (status == ERR_SUCCESS || status == ERR_NOT_MY_VBUCKET)
    modifies sink
    ensures rv.Zero? && Idle(sink.mconns) && (retry <==> status != ERR_SUCCESS)
    ensures sink.store == ApplyAll(old(sink.store), if retry then [Write(v, 1)] else [Write(v, 1), Write(v, 2)])
    ensures sink.sinkMap == if retry && newMap.Some? then newMap.value else old(sink.sinkMap)
  {
    CanSend(sink, v);
    var backoff;
    ghost var t;
    rv, retry, backoff, t := sink.ScatterGather(BATCH, Env(Answers(status), {HOST}, newMap));
    Outcome(t, v, old(sink.sinkMap), old(sink.store), sink.store, status);
  }

  lemma Routes()
    ensures Route(ONE, 0) == At(HOST) && Route(TWO, 1) == At(HOST)
    ensures ONE.buckets == 1 && |ONE.chains| == 1 && TWO.buckets == 1 && |TWO.chains| == 2
  {
  }

  lemma BothTagged()
    ensures Retagged(BATCH, 1, false) == Versions(0) && Retagged(BATCH, 2, false) == Versions(1)
  {
    IdMoves();
    BatchTagged(1, 0);
    BatchTagged(2, 1);
  }

  /** What the batch asks for while there are `n` vbuckets. */
  ghost function Asked(n: nat): seq<Op>
  {
    BatchOps(Retagged(BATCH, n, false), NO_FILTER)
  }

  /** The retry loop on a batch of two versions of one key: the first attempt gets the first version accepted and
      NOT_MY_VBUCKET for the second, the refreshed map has another size, the second attempt goes through. What the
      first attempt wrote stays, and the result is not the batch applied in order under either map. */
  method StrayRun() returns (store: Data)
    ensures (0, KEY) in store && store[(0, KEY)] == Version(1) && (1, KEY) in store && store[(1, KEY)] == Version(2)
    ensures store != ApplyAll(map[], Asked(1)) && store != ApplyAll(map[], Asked(2))
  {
    BothTagged();
    Routes();
    var sink := new CBSink(ONE, map[], NO_FILTER, false, true, false, (m, meta) => true);
    var rv, retry := Try(sink, 0, ERR_NOT_MY_VBUCKET, Some(TWO));
    rv, retry := Try(sink, 1, ERR_SUCCESS, None);
    store := sink.store;
    StrayStays(store);
  }

  lemma StrayStays(store: Data)
    requires store == ApplyAll(ApplyAll(map[], [Write(0, 1)]), [Write(1, 1), Write(1, 2)])
    ensures (0, KEY) in store && store[(0, KEY)] == Version(1) && (1, KEY) in store && store[(1, KEY)] == Version(2)
    ensures store != ApplyAll(map[], Asked(1)) && store != ApplyAll(map[], Asked(2))
  {
    var e: Data := map[];
    var s := ApplyAll(e, [Write(0, 1)]);
    BothTagged();
    BatchAsks(0);
    BatchAsks(1);
    ApplyOne(e, Write(0, 1));
    ApplyTwo(s, 1);
    ApplyTwo(e, 0);
    ApplyTwo(e, 1);
  }

  /** The first attempt could write a key that the second does not. */
  lemma NotOverwritten()
    ensures !Overwritten([Asked(1)], Asked(2))
  {
    BothTagged();
    BatchAsks(0);
    BatchAsks(1);
    assert Touches(Asked(1)[0], (0, KEY));
    assert Writes([Asked(1)][0], (0, KEY)) && !Writes(Asked(2), (0, KEY));
  }

  lemma ApplyTwo(s: Data, v: int)
    ensures ApplyAll(s, [Write(v, 1), Write(v, 2)]) == s[(v, KEY) := Version(2)]
  {
    ApplyOne(s, Write(v, 1));
    ApplySnoc(s, [Write(v, 1)], Write(v, 2));
    assert [Write(v, 1)] + [Write(v, 2)] == [Write(v, 1), Write(v, 2)];
  }
}
