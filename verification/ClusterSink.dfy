/** CBSink: scatter a batch over per-server connections, gather the answers, retry the whole batch
    until it goes through. For set transfers. */
module ClusterSink {
  import opened Codes
  import opened Wire
  import opened Batches
  import opened Store

  type Host = string

  datatype ErrKind = BucketCount | MissingVbucket | Connect | Send | UnknownCmd | OpaqueMismatch
                   | NotMyVbucket | UnknownCommand | McError | SinkException
  datatype Rv = Zero | Error(kind: ErrKind) | Raised  // Raised: an exception that ends the worker thread

  /** EndPoint.skip: a key pattern and a vbucket id, either of which may be absent. */
  datatype Filter = Filter(keyRe: Option<Bytes -> bool>, onlyVbucket: Option<int>)

  predicate Skip(f: Filter, key: Bytes, v: int)
  {
    || (f.keyRe.Some? && !f.keyRe.value(key))
    || (f.onlyVbucket.Some? && f.onlyVbucket.value != v)
  }

  // ---------- What a batch asks for ----------

  predicate KnownCmd(cmd: nat)
  {
    cmd in {CMD_TAP_MUTATION, CMD_DCP_MUTATION, CMD_TAP_DELETE, CMD_DCP_DELETE, CMD_GET}
  }

  function OpOf(m: Msg, v: int): Op
  {
    Op(v, m.key,
       if m.cmd == CMD_TAP_MUTATION || m.cmd == CMD_DCP_MUTATION then
         Put(Item(m.val, m.flg % 0x1_0000_0000, m.exp))
       else if m.cmd == CMD_TAP_DELETE || m.cmd == CMD_DCP_DELETE then Remove
       else Keep)
  }

  /** The batch as operations: unskipped messages in batch order. */
  function BatchOps(ms: seq<Msg>, f: Filter): seq<Op>
  {
    if ms == [] then []
    else
      var m := ms[|ms| - 1];
      BatchOps(ms[..|ms| - 1], f) + if Skip(f, m.key, m.vbucket) then [] else [OpOf(m, m.vbucket)]
  }

  // ---------- The same by messages ----------

  predicate Sets(m: Msg)
  {
    m.cmd == CMD_TAP_MUTATION || m.cmd == CMD_DCP_MUTATION
  }

  predicate Deletes(m: Msg)
  {
    m.cmd == CMD_TAP_DELETE || m.cmd == CMD_DCP_DELETE
  }

  /** A message that changes a key, and that both parts of the filter let through. */
  predicate Changes(m: Msg, f: Filter, k: Key)
  {
    && m.vbucket == k.0 && m.key == k.1 && (Sets(m) || Deletes(m))
    && (f.keyRe.Some? ==> f.keyRe.value(m.key)) && (f.onlyVbucket.Some? ==> m.vbucket == f.onlyVbucket.value)
  }

  /** Message `i` is the last that changes the key. */
  ghost predicate LastChange(ms: seq<Msg>, f: Filter, k: Key, i: nat)
  {
    i < |ms| && Changes(ms[i], f, k) && forall j :: i < j < |ms| ==> !Changes(ms[j], f, k)
  }

  /** What a key holds after a batch: what the last mutation for it carried, nothing after a delete, and what it held
      before if no message is for it. */
  ghost predicate HoldsLast(ms: seq<Msg>, f: Filter, k: Key, before: Option<Item>, after: Option<Item>)
  {
    && (forall i: nat :: LastChange(ms, f, k, i) && Sets(ms[i]) ==>
          after == Some(Item(ms[i].val, ms[i].flg % 0x1_0000_0000, ms[i].exp)))
    && (forall i: nat :: LastChange(ms, f, k, i) && Deletes(ms[i]) ==> after == None)
    && ((forall i :: 0 <= i < |ms| ==> !Changes(ms[i], f, k)) ==> after == before)
  }

  ghost predicate HoldsBatch(ms: seq<Msg>, f: Filter, before: Data, after: Data)
  {
    forall k :: HoldsLast(ms, f, k, Look(before, k), Look(after, k))
  }

  lemma LastSnoc(ms: seq<Msg>, m: Msg, f: Filter, k: Key, i: nat)
    ensures LastChange(ms + [m], f, k, i) <==>
      if Changes(m, f, k) then i == |ms| else LastChange(ms, f, k, i)
  {
    var all := ms + [m];
    assert all[|ms|] == m && forall j :: 0 <= j < |ms| ==> all[j] == ms[j];
  }

  /** What one message makes of what a key holds. */
  function Made(m: Msg, f: Filter, k: Key, x: Option<Item>): Option<Item>
  {
    if !Changes(m, f, k) then x
    else if Sets(m) then Some(Item(m.val, m.flg % 0x1_0000_0000, m.exp)) else None
  }

  lemma HoldsSnoc(ms: seq<Msg>, m: Msg, f: Filter, k: Key, x: Option<Item>, y: Option<Item>)
    requires HoldsLast(ms, f, k, x, y)
    ensures HoldsLast(ms + [m], f, k, x, Made(m, f, k, y))
  {
    var all := ms + [m];
    assert all[|ms|] == m;
    forall i: nat
      ensures LastChange(all, f, k, i) <==> if Changes(m, f, k) then i == |ms| else LastChange(ms, f, k, i)
    {
      LastSnoc(ms, m, f, k, i);
    }
    if (forall i :: 0 <= i < |all| ==> !Changes(all[i], f, k)) {
      forall i | 0 <= i < |ms| ensures !Changes(ms[i], f, k) {
        assert all[i] == ms[i];
      }
    }
  }

  lemma OpMakes(ops: seq<Op>, m: Msg, f: Filter, k: Key, x: Option<Item>)
    ensures After(ops + if Skip(f, m.key, m.vbucket) then [] else [OpOf(m, m.vbucket)], k, x) ==
      Made(m, f, k, After(ops, k, x))
  {
    if Skip(f, m.key, m.vbucket) {
      assert ops + [] == ops;
    } else {
      AfterSnoc(ops, OpOf(m, m.vbucket), k, x);
    }
  }

  lemma {:induction false} OpsHold(ms: seq<Msg>, f: Filter, k: Key, x: Option<Item>)
    ensures HoldsLast(ms, f, k, x, After(BatchOps(ms, f), k, x))
  {
    if ms != [] {
      var init, m := ms[..|ms| - 1], ms[|ms| - 1];
      assert ms == init + [m];
      var y := After(BatchOps(init, f), k, x);
      assert After(BatchOps(ms, f), k, x) == Made(m, f, k, y) by {
        OpMakes(BatchOps(init, f), m, f, k, x);
      }
      OpsHold(init, f, k, x);
      HoldsSnoc(init, m, f, k, x, y);
    }
  }

  /** Applying a batch's operations does to every key what its messages say. */
  lemma BatchHolds(ms: seq<Msg>, f: Filter, s: Data)
    ensures HoldsBatch(ms, f, s, ApplyAll(s, BatchOps(ms, f)))
  {
    forall k ensures HoldsLast(ms, f, k, Look(s, k), Look(ApplyAll(s, BatchOps(ms, f)), k)) {
      LookApply(s, BatchOps(ms, f), k);
      OpsHold(ms, f, k, Look(s, k));
    }
  }

  /** A request carries its index in its group as the opaque `tag`. */
  datatype Req = Req(op: Op, tag: nat)
  datatype Resp = Resp(status: nat, tag: nat)
  datatype Conn = Conn(requests: seq<Req>, responses: seq<Resp>)  // unanswered, and answered but unread

  function Reqs(v: int, msgs: seq<Msg>, f: Filter): seq<Req>
  {
    if msgs == [] then []
    else
      var k := |msgs| - 1;
      Reqs(v, msgs[..k], f) + if Skip(f, msgs[k].key, v) then [] else [Req(OpOf(msgs[k], v), k)]
  }

  function ReqTags(rs: seq<Req>): seq<nat>
  {
    seq(|rs|, i requires 0 <= i < |rs| => rs[i].tag)
  }

  function RespTags(rs: seq<Resp>): seq<nat>
  {
    seq(|rs|, i requires 0 <= i < |rs| => rs[i].tag)
  }

  function ReqOps(rs: seq<Req>): seq<Op>
  {
    seq(|rs|, i requires 0 <= i < |rs| => rs[i].op)
  }

  lemma {:induction false} ReqsAreOps(v: int, msgs: seq<Msg>, f: Filter)
    requires forall i :: 0 <= i < |msgs| ==> msgs[i].vbucket == v
    ensures ReqOps(Reqs(v, msgs, f)) == BatchOps(msgs, f)
  {
    if msgs != [] {
      var k := |msgs| - 1;
      ReqsAreOps(v, msgs[..k], f);
    }
  }

  lemma {:induction false} BatchProject(ms: seq<Msg>, v: int, f: Filter)
    ensures ProjectOps(BatchOps(ms, f), v) == BatchOps(Project(ms, v), f)
  {
    if ms != [] {
      var k, m := |ms| - 1, ms[|ms| - 1];
      BatchProject(ms[..k], v, f);
      var p := Project(ms[..k], v);
      assert (p + [m])[..|p|] == p;
      assert Project(ms, v) == if m.vbucket == v then p + [m] else p;
      assert BatchOps(ms[..k], f) + [] == BatchOps(ms[..k], f);
      assert BatchOps(p, f) + [] == BatchOps(p, f);
      if !Skip(f, m.key, m.vbucket) {
        ProjectSnoc(BatchOps(ms[..k], f), OpOf(m, m.vbucket), v);
      }
    }
  }

  lemma {:induction false} ReqsPrefix(v: int, msgs: seq<Msg>, f: Filter, i: nat)
    requires i <= |msgs|
    ensures Reqs(v, msgs[..i], f) <= Reqs(v, msgs, f)
    decreases |msgs|
  {
    if i < |msgs| {
      var k := |msgs| - 1;
      ReqsPrefix(v, msgs[..k], f, i);
      assert msgs[..k][..i] == msgs[..i];
    } else {
      assert msgs[..i] == msgs;
    }
  }

  // ---------- Where it goes ----------

  /** vBucketMap as server chains, and serverList. */
  datatype SinkMap = SinkMap(buckets: nat, chains: seq<seq<int>>, servers: seq<Host>)

  /** Python list indexing: negative indices count from the end, others raise. */
  function PyIndex<T>(s: seq<T>, i: int): Option<T>
  {
    if 0 <= i < |s| then Some(s[i])
    else if -|s| <= i < 0 then Some(s[|s| + i])
    else None
  }

  datatype Found = At(host: Host) | NoSuchVbucket | IndexError

  /** The routing part of find_conn. The bound check is `>`, so the id equal to the number of
      vbuckets is not reported as missing but raises. */
  function Route(sm: SinkMap, v: int): Found
  {
    if v > |sm.chains| then NoSuchVbucket
    else match PyIndex(sm.chains, v)
      case None => IndexError
      case Some(chain) => match PyIndex(chain, 0)
        case None => IndexError
        case Some(primary) => match PyIndex(sm.servers, primary)
          case None => IndexError
          case Some(host) => At(host)
  }

  /** At that edge the lookup raises, and only beyond it is the vbucket reported as missing. */
  lemma RouteEdge(sm: SinkMap, v: int)
    ensures Route(sm, |sm.chains|) == IndexError
    ensures Route(sm, v) == NoSuchVbucket <==> v > |sm.chains|
  {
  }

  /** An id within the map goes to the first server of its chain. */
  lemma RoutePrimary(sm: SinkMap, v: nat)
    requires v < |sm.chains| && sm.chains[v] != [] && 0 <= sm.chains[v][0] < |sm.servers|
    ensures Route(sm, v) == At(sm.servers[sm.chains[v][0]])
  {
  }

  function SentFor(v: int, ms: seq<Msg>, sm: SinkMap, f: Filter, h: Host): seq<Req>
  {
    if Route(sm, v) == At(h) then Reqs(v, Project(ms, v), f) else []
  }

  /** The requests one server gets when the groups are visited in a given order. */
  function Sent(order: seq<int>, ms: seq<Msg>, sm: SinkMap, f: Filter, h: Host): seq<Req>
  {
    if order == [] then [] else SentFor(order[0], ms, sm, f, h) + Sent(order[1..], ms, sm, f, h)
  }

  lemma {:induction false} SentSnoc(order: seq<int>, v: int, ms: seq<Msg>, sm: SinkMap, f: Filter, h: Host)
    ensures Sent(order + [v], ms, sm, f, h) == Sent(order, ms, sm, f, h) + SentFor(v, ms, sm, f, h)
  {
    var o := order + [v];
    if order != [] {
      SentSnoc(order[1..], v, ms, sm, f, h);
      assert o[1..] == order[1..] + [v];
    } else {
      assert o[1..] == [];
    }
  }

  lemma {:induction false} SentVbuckets(order: seq<int>, ms: seq<Msg>, sm: SinkMap, f: Filter, h: Host)
    ensures forall r :: r in Sent(order, ms, sm, f, h) ==>
              r.op.vbucket in order && Route(sm, r.op.vbucket) == At(h) && r.op in BatchOps(ms, f)
  {
    if order != [] {
      SentVbuckets(order[1..], ms, sm, f, h);
      var v := order[0];
      ReqsAreOps(v, Project(ms, v), f);
      BatchProject(ms, v, f);
      forall r | r in Reqs(v, Project(ms, v), f) ensures r.op.vbucket == v && r.op in BatchOps(ms, f) {
        var rs := Reqs(v, Project(ms, v), f);
        var i :| 0 <= i < |rs| && rs[i] == r;
        assert ReqOps(rs)[i] == r.op;
        ProjectMember(BatchOps(ms, f), v, r.op);
      }
    }
  }

  lemma {:induction false} ProjectMember(ops: seq<Op>, v: int, op: Op)
    ensures op in ProjectOps(ops, v) <==> op in ops && op.vbucket == v
  {
    if ops != [] {
      ProjectMember(ops[..|ops| - 1], v, op);
      assert ops == ops[..|ops| - 1] + [ops[|ops| - 1]];
    }
  }

  lemma ReqOpsAppend(a: seq<Req>, b: seq<Req>)
    ensures ReqOps(a + b) == ReqOps(a) + ReqOps(b) && ReqTags(a + b) == ReqTags(a) + ReqTags(b)
  {
  }

  lemma {:induction false} NoneOf(rs: seq<Req>, v: int)
    requires forall r :: r in rs ==> r.op.vbucket != v
    ensures ProjectOps(ReqOps(rs), v) == []
  {
    if rs != [] {
      var k := |rs| - 1;
      NoneOf(rs[..k], v);
      assert rs == rs[..k] + [rs[k]];
      assert ReqOps(rs) == ReqOps(rs[..k]) + [rs[k].op];
      assert rs[k] in rs;
      ProjectSnoc(ReqOps(rs[..k]), rs[k].op, v);
    }
  }

  lemma DistinctTail(order: seq<int>)
    requires Distinct(order) && order != []
    ensures Distinct(order[1..]) && order[0] !in order[1..]
  {
  }

  /** A group on its own server: its operations, and nothing of any other vbucket. */
  lemma OwnShare(w: int, ms: seq<Msg>, sm: SinkMap, f: Filter, h: Host, v: int)
    requires Route(sm, v) == At(h)
    ensures ProjectOps(ReqOps(SentFor(w, ms, sm, f, h)), v) == if w == v then ProjectOps(BatchOps(ms, f), v) else []
  {
    if w == v {
      BatchProject(ms, w, f);
      ReqsAreOps(w, Project(ms, w), f);
      ProjectTwice(BatchOps(ms, f), v);
    } else {
      SentVbuckets([w], ms, sm, f, h);
      assert Sent([w], ms, sm, f, h) == SentFor(w, ms, sm, f, h) + [];
      NoneOf(SentFor(w, ms, sm, f, h), v);
    }
  }

  lemma SentCons(order: seq<int>, ms: seq<Msg>, sm: SinkMap, f: Filter, h: Host, v: int)
    requires order != []
    ensures ProjectOps(ReqOps(Sent(order, ms, sm, f, h)), v) ==
            ProjectOps(ReqOps(SentFor(order[0], ms, sm, f, h)), v)
            + ProjectOps(ReqOps(Sent(order[1..], ms, sm, f, h)), v)
  {
    var first, rest := SentFor(order[0], ms, sm, f, h), Sent(order[1..], ms, sm, f, h);
    ReqOpsAppend(first, rest);
    ProjectAppend(ReqOps(first), ReqOps(rest), v);
  }

  /** Of what its server gets, a vbucket's share is exactly its group, in order. */
  lemma {:induction false} SentProject(order: seq<int>, ms: seq<Msg>, sm: SinkMap, f: Filter, h: Host, v: int)
    requires Distinct(order) && Route(sm, v) == At(h)
    ensures
      ProjectOps(ReqOps(Sent(order, ms, sm, f, h)), v) == if v in order then ProjectOps(BatchOps(ms, f), v) else []
  {
    if order != [] {
      DistinctTail(order);
      Either(order, v);
      var first := ProjectOps(ReqOps(SentFor(order[0], ms, sm, f, h)), v);
      var rest := ProjectOps(ReqOps(Sent(order[1..], ms, sm, f, h)), v);
      SentProject(order[1..], ms, sm, f, h, v);
      OwnShare(order[0], ms, sm, f, h, v);
      SentCons(order, ms, sm, f, h, v);
      EmptyJoin(first, rest);
    }
  }

  lemma EmptyJoin<T>(a: seq<T>, b: seq<T>)
    ensures a == [] ==> a + b == b
    ensures b == [] ==> a + b == a
  {
  }

  lemma Either(order: seq<int>, v: int)
    requires order != []
    ensures v in order <==> v == order[0] || v in order[1..]
  {
  }

  lemma {:induction false} ProjectTwice(ops: seq<Op>, v: int)
    ensures ProjectOps(ProjectOps(ops, v), v) == ProjectOps(ops, v)
  {
    if ops != [] {
      var k := |ops| - 1;
      ProjectTwice(ops[..k], v);
      if ops[k].vbucket == v {
        ProjectSnoc(ProjectOps(ops[..k], v), ops[k], v);
      } else {
        assert ProjectOps(ops, v) == ProjectOps(ops[..k], v);
      }
    }
  }

  // ---------- Running it ----------

  /** A status after which the server holds what the request asked for. */
  predicate Settled(status: nat)
  {
    status == ERR_SUCCESS || status == ERR_KEY_ENOENT || status == ERR_KEY_EEXISTS
  }

  /** What a server may answer: "not found" and "exists" only when the request would change nothing. */
  predicate MayAnswer(s: Data, op: Op, status: nat)
  {
    status == ERR_KEY_ENOENT || status == ERR_KEY_EEXISTS ==> ApplyOp(s, op) == s
  }

  ghost predicate Idle(mconns: map<Host, Conn>)
  {
    forall h :: h in mconns ==> mconns[h] == Conn([], [])
  }

  ghost predicate AllSettled(mconns: map<Host, Conn>)
  {
    forall h :: h in mconns ==>
      forall i :: 0 <= i < |mconns[h].responses| ==> Settled(mconns[h].responses[i].status)
  }

  /** No answer says that a vbucket has moved. */
  ghost predicate NoneMoved(mconns: map<Host, Conn>)
  {
    forall h :: h in mconns ==>
      forall i :: 0 <= i < |mconns[h].responses| ==> mconns[h].responses[i].status != ERR_NOT_MY_VBUCKET
  }

  /** A status that does not end the run. */
  predicate Bearable(status: nat, nmvRetry: bool)
  {
    || Settled(status) || status == ERR_ETMPFAIL || status == ERR_EBUSY || status == ERR_ENOMEM
    || (status == ERR_NOT_MY_VBUCKET && nmvRetry)
  }

  ghost predicate AllBearable(mconns: map<Host, Conn>, nmvRetry: bool)
  {
    forall h :: h in mconns ==>
      forall i :: 0 <= i < |mconns[h].responses| ==> Bearable(mconns[h].responses[i].status, nmvRetry)
  }

  /** Every request has been answered. */
  ghost predicate Drained(mconns: map<Host, Conn>)
  {
    forall h :: h in mconns ==> mconns[h].requests == []
  }

  ghost predicate Grouped(g: map<int, seq<Msg>>, order: seq<int>, all: seq<Msg>)
  {
    && Lists(order, g.Keys) && g.Keys == Tags(all)
    && forall v :: v in g ==> g[v] == Project(all, v)
  }

  /** Every vbucket visited has its server among the connected ones. */
  ghost predicate Reachable(order: seq<int>, sm: SinkMap, hosts: set<Host>)
  {
    forall i :: 0 <= i < |order| ==> Route(sm, order[i]).At? && Route(sm, order[i]).host in hosts
  }

  /** Every connection holds the requests of the groups sent so far, and nothing is answered yet. */
  ghost predicate Scattered(mconns: map<Host, Conn>, order: seq<int>, all: seq<Msg>, sm: SinkMap, f: Filter)
  {
    && Reachable(order, sm, mconns.Keys)
    && forall h :: h in mconns ==> mconns[h] == Conn(Sent(order, all, sm, f, h), [])
  }

  lemma ConnectKeeps(m: map<Host, Conn>, m': map<Host, Conn>, order: seq<int>, all: seq<Msg>, sm: SinkMap, f: Filter)
    requires Scattered(m, order, all, sm, f)
    requires m' == m || exists h :: h !in m && m' == m[h := Conn([], [])]
    ensures Scattered(m', order, all, sm, f)
  {
    if m' != m {
      var h :| h !in m && m' == m[h := Conn([], [])];
      NothingSent(order, all, sm, f, h);
    }
  }

  lemma {:induction false} NothingSent(order: seq<int>, all: seq<Msg>, sm: SinkMap, f: Filter, h: Host)
    requires forall i :: 0 <= i < |order| ==> Route(sm, order[i]) != At(h)
    ensures Sent(order, all, sm, f, h) == []
  {
    if order != [] {
      NothingSent(order[1..], all, sm, f, h);
    }
  }

  lemma ScatterStep(m: map<Host, Conn>, order: seq<int>, v: int, all: seq<Msg>, sm: SinkMap, f: Filter, h: Host)
    requires Scattered(m, order, all, sm, f) && Route(sm, v) == At(h) && h in m
    ensures
      Scattered(m[h := Conn(m[h].requests + Reqs(v, Project(all, v), f), m[h].responses)], order + [v], all, sm, f)
  {
    forall k | k in m
      ensures Sent(order + [v], all, sm, f, k) == Sent(order, all, sm, f, k) + SentFor(v, all, sm, f, k) {
      SentSnoc(order, v, all, sm, f, k);
    }
  }

  /** The answers still owed on each connection are those of the groups not yet gathered. */
  ghost predicate Owes(mconns: map<Host, Conn>, order: seq<int>, ms: seq<Msg>, sm: SinkMap, f: Filter)
  {
    forall h :: h in mconns ==>
      RespTags(mconns[h].responses) + ReqTags(mconns[h].requests) == ReqTags(Sent(order, ms, sm, f, h))
  }

  function Answered(c: Conn, status: nat): Conn
    requires c.requests != []
  {
    Conn(c.requests[1..], c.responses + [Resp(status, c.requests[0].tag)])
  }

  /** Whether a server can give this answer now. */
  predicate CanServe(s: Data, m: map<Host, Conn>, h: Host, status: nat)
  {
    h in m && m[h].requests != [] && MayAnswer(s, m[h].requests[0].op, status)
  }

  /** The data and the connections after some answers; one that cannot be given is passed over. */
  function ServeAll(s: Data, m: map<Host, Conn>, answers: seq<(Host, nat)>): (Data, map<Host, Conn>)
  {
    if answers == [] then (s, m)
    else
      var (h, status) := answers[|answers| - 1];
      var (t, n) := ServeAll(s, m, answers[..|answers| - 1]);
      if !CanServe(t, n, h, status) then (t, n)
      else (if status == ERR_SUCCESS then ApplyOp(t, n[h].requests[0].op) else t, n[h := Answered(n[h], status)])
  }

  // ---------- Servers that accept everything ----------

  function CountFor(answers: seq<(Host, nat)>, h: Host): nat
  {
    if answers == [] then 0
    else CountFor(answers[..|answers| - 1], h) + if answers[|answers| - 1].0 == h then 1 else 0
  }

  ghost predicate AllAccept(answers: seq<(Host, nat)>)
  {
    forall i :: 0 <= i < |answers| ==> answers[i].1 == ERR_SUCCESS
  }

  /** Every server gives at least `n` answers, and accepts whatever it is asked. */
  ghost predicate Willing(env: Env, n: nat)
  {
    AllAccept(env.answers) && forall h :: h in env.up ==> CountFor(env.answers, h) >= n
  }

  ghost predicate Accepted(rs: seq<Resp>)
  {
    forall i :: 0 <= i < |rs| ==> rs[i].status == ERR_SUCCESS
  }

  lemma {:induction false} AcceptingDrains(s: Data, m: map<Host, Conn>, answers: seq<(Host, nat)>, h: Host)
    requires AllAccept(answers) && h in m && Accepted(m[h].responses)
    ensures var n := ServeAll(s, m, answers).1;
      && n.Keys == m.Keys && Accepted(n[h].responses)
      && |n[h].requests| == if CountFor(answers, h) < |m[h].requests| then |m[h].requests| - CountFor(answers, h) else 0
  {
    if answers != [] {
      AcceptingDrains(s, m, answers[..|answers| - 1], h);
    }
  }

  function GroupTotal(order: seq<int>, ms: seq<Msg>): nat
  {
    if order == [] then 0 else |Project(ms, order[0])| + GroupTotal(order[1..], ms)
  }

  function Occurs(order: seq<int>, v: int): nat
  {
    if order == [] then 0 else (if order[0] == v then 1 else 0) + Occurs(order[1..], v)
  }

  lemma {:induction false} OccursOnce(order: seq<int>, v: int)
    requires Distinct(order)
    ensures Occurs(order, v) == if v in order then 1 else 0
  {
    if order != [] {
      DistinctTail(order);
      Either(order, v);
      OccursOnce(order[1..], v);
    }
  }

  lemma {:induction false} TotalSnoc(order: seq<int>, ms: seq<Msg>)
    requires ms != []
    ensures GroupTotal(order, ms) == GroupTotal(order, ms[..|ms| - 1]) + Occurs(order, ms[|ms| - 1].vbucket)
    decreases order
  {
    if order != [] {
      TotalSnoc(order[1..], ms);
    }
  }

  lemma {:induction false} TotalFits(order: seq<int>, ms: seq<Msg>)
    requires Distinct(order)
    ensures GroupTotal(order, ms) <= |ms|
    decreases ms
  {
    if ms == [] {
      NoTotal(order, ms);
    } else {
      TotalFits(order, ms[..|ms| - 1]);
      TotalSnoc(order, ms);
      OccursOnce(order, ms[|ms| - 1].vbucket);
    }
  }

  lemma {:induction false} NoTotal(order: seq<int>, ms: seq<Msg>)
    requires ms == []
    ensures GroupTotal(order, ms) == 0
  {
    if order != [] {
      NoTotal(order[1..], ms);
    }
  }

  lemma {:induction false} ReqsFit(v: int, msgs: seq<Msg>, f: Filter)
    ensures |Reqs(v, msgs, f)| <= |msgs|
  {
    if msgs != [] {
      ReqsFit(v, msgs[..|msgs| - 1], f);
    }
  }

  lemma {:induction false} SentFits(order: seq<int>, ms: seq<Msg>, sm: SinkMap, f: Filter, h: Host)
    ensures |Sent(order, ms, sm, f, h)| <= GroupTotal(order, ms)
  {
    if order != [] {
      SentFits(order[1..], ms, sm, f, h);
      ReqsFit(order[0], Project(ms, order[0]), f);
    }
  }

  /** A server that gets nothing has nothing to answer; one that gets something gets no more than the batch. */
  lemma SentBound(order: seq<int>, all: seq<Msg>, sm: SinkMap, f: Filter, up: set<Host>, h: Host)
    requires Lists(order, Tags(all))
    requires forall i :: 0 <= i < |all| ==> Route(sm, all[i].vbucket).At? && Route(sm, all[i].vbucket).host in up
    ensures |Sent(order, all, sm, f, h)| <= if h in up then |all| else 0
  {
    SentFits(order, all, sm, f, h);
    TotalFits(order, all);
    if h !in up {
      forall i | 0 <= i < |order| ensures Route(sm, order[i]) != At(h) {
        assert order[i] in Tags(all);
      }
      NothingSent(order, all, sm, f, h);
    }
  }

  /** When all servers are willing, an attempt that can be sent is answered in full. */
  lemma WillingSettles(s: Data, sent: map<Host, Conn>, order: seq<int>, all: seq<Msg>, sm: SinkMap, f: Filter, env: Env)
    requires Lists(order, Tags(all)) && Scattered(sent, order, all, sm, f) && Willing(env, |all|)
    requires forall i :: 0 <= i < |all| ==> Route(sm, all[i].vbucket).At? && Route(sm, all[i].vbucket).host in env.up
    ensures var answered := ServeAll(s, sent, env.answers).1;
      Drained(answered) && AllSettled(answered) && forall nmv :: AllBearable(answered, nmv)
  {
    var answered := ServeAll(s, sent, env.answers).1;
    forall h | h in answered ensures answered[h].requests == [] && Accepted(answered[h].responses) {
      ServeKeys(s, sent, env.answers);
      AcceptingDrains(s, sent, env.answers, h);
      SentBound(order, all, sm, f, env.up, h);
    }
  }

  lemma {:induction false} ServeKeys(s: Data, m: map<Host, Conn>, answers: seq<(Host, nat)>)
    ensures ServeAll(s, m, answers).1.Keys == m.Keys
  {
    if answers != [] {
      ServeKeys(s, m, answers[..|answers| - 1]);
    }
  }

  /** Every request waits at the server `home` names for its vbucket. */
  ghost predicate Homed(m: map<Host, Conn>, ops: seq<Op>, home: map<int, Host>)
  {
    forall h, r :: h in m && r in m[h].requests ==> r.op in ops && r.op.vbucket in home && home[r.op.vbucket] == h
  }

  /** Answered and unanswered opaques together are, in order, those that were sent. */
  ghost predicate TagsKept(m0: map<Host, Conn>, m: map<Host, Conn>)
  {
    m.Keys == m0.Keys &&
    forall h :: h in m ==> RespTags(m[h].responses) + ReqTags(m[h].requests) == ReqTags(m0[h].requests)
  }

  /** Served and waiting operations of a vbucket together are, in order, those that were sent. */
  ghost predicate SharesKept(m0: map<Host, Conn>, m: map<Host, Conn>, served: seq<Op>, home: map<int, Host>)
  {
    && m.Keys == m0.Keys
    && (forall v :: v in home && home[v] in m ==>
          ProjectOps(served, v) + ProjectOps(ReqOps(m[home[v]].requests), v)
          == ProjectOps(ReqOps(m0[home[v]].requests), v))
    && (forall v :: v !in home ==> ProjectOps(served, v) == [])
  }

  ghost predicate Serving(m0: map<Host, Conn>, m: map<Host, Conn>, served: seq<Op>, ops: seq<Op>, home: map<int, Host>)
  {
    Homed(m, ops, home) && TagsKept(m0, m) && SharesKept(m0, m, served, home)
  }

  lemma AnsweredTags(c: Conn, status: nat)
    requires c.requests != []
    ensures var d := Answered(c, status);
            RespTags(d.responses) + ReqTags(d.requests) == RespTags(c.responses) + ReqTags(c.requests)
  {
  }

  lemma HeadOps(rs: seq<Req>, v: int)
    requires rs != []
    ensures ProjectOps(ReqOps(rs), v) ==
            (if rs[0].op.vbucket == v then [rs[0].op] else []) + ProjectOps(ReqOps(rs[1..]), v)
  {
    var head := [rs[0].op];
    assert ReqOps(rs) == head + ReqOps(rs[1..]);
    ProjectAppend(head, ReqOps(rs[1..]), v);
    assert head[..0] == [];
  }

  /** Serving the head of a queue moves one operation from "left" to "served"; the total is unchanged. */
  lemma ServeShare(served: seq<Op>, queue: seq<Req>, v: int)
    requires queue != []
    ensures ProjectOps(served + [queue[0].op], v) + ProjectOps(ReqOps(queue[1..]), v)
         == ProjectOps(served, v) + ProjectOps(ReqOps(queue), v)
  {
    var a, b := ProjectOps(served, v), ProjectOps(ReqOps(queue[1..]), v);
    var mid := if queue[0].op.vbucket == v then [queue[0].op] else [];
    ProjectSnoc(served, queue[0].op, v);
    HeadOps(queue, v);
    assert a + (mid + b) == (a + mid) + b;
  }

  lemma ServeStart(m: map<Host, Conn>, ops: seq<Op>, home: map<int, Host>)
    requires forall h :: h in m ==> m[h].responses == []
    requires Homed(m, ops, home)
    ensures Serving(m, m, [], ops, home)
  {
    assert RespTags([]) == [];
    forall h | h in m ensures RespTags(m[h].responses) + ReqTags(m[h].requests) == ReqTags(m[h].requests) {
    }
  }

  lemma HomedStep(m: map<Host, Conn>, ops: seq<Op>, home: map<int, Host>, h: Host, status: nat)
    requires Homed(m, ops, home) && h in m && m[h].requests != []
    ensures Homed(m[h := Answered(m[h], status)], ops, home)
  {
    var m' := m[h := Answered(m[h], status)];
    forall k, q | k in m' && q in m'[k].requests
      ensures q.op in ops && q.op.vbucket in home && home[q.op.vbucket] == k
    {
      assert q in m[k].requests;
    }
  }

  lemma TagsStep(m0: map<Host, Conn>, m: map<Host, Conn>, h: Host, status: nat)
    requires TagsKept(m0, m) && h in m && m[h].requests != []
    ensures TagsKept(m0, m[h := Answered(m[h], status)])
  {
    AnsweredTags(m[h], status);
  }

  lemma SharesStep(m0: map<Host, Conn>, m: map<Host, Conn>, served: seq<Op>, home: map<int, Host>, h: Host, status: nat)
    requires SharesKept(m0, m, served, home) && h in m && m[h].requests != []
    requires m[h].requests[0].op.vbucket in home && home[m[h].requests[0].op.vbucket] == h
    ensures SharesKept(m0, m[h := Answered(m[h], status)], served + [m[h].requests[0].op], home)
  {
    var op := m[h].requests[0].op;
    forall v
      ensures v !in home ==> ProjectOps(served + [op], v) == []
      ensures v in home && home[v] != h ==> ProjectOps(served + [op], v) == ProjectOps(served, v)
    {
      ProjectSnoc(served, op, v);
    }
    forall v | v in home && home[v] == h
      ensures ProjectOps(served + [op], v) + ProjectOps(ReqOps(m[h].requests[1..]), v)
              == ProjectOps(ReqOps(m0[h].requests), v)
    {
      ServeShare(served, m[h].requests, v);
    }
  }

  lemma ServeStep(m0: map<Host, Conn>, m: map<Host, Conn>, served: seq<Op>, ops: seq<Op>, home: map<int, Host>,
                  h: Host, status: nat)
    requires Serving(m0, m, served, ops, home) && h in m && m[h].requests != []
    ensures Serving(m0, m[h := Answered(m[h], status)], served + [m[h].requests[0].op], ops, home)
  {
    assert m[h].requests[0] in m[h].requests;
    HomedStep(m, ops, home, h, status);
    TagsStep(m0, m, h, status);
    SharesStep(m0, m, served, home, h, status);
  }

  /** What the servers have done to the data: the accepted operations, in the order they were served. */
  ghost predicate Progress(s0: Data, s: Data, applied: seq<Op>, served: seq<Op>, ops: seq<Op>, m: map<Host, Conn>)
  {
    && s == ApplyAll(s0, applied) && SubOps(applied, ops)
    && |applied| <= |served| && (if AllSettled(m) then applied == served else |applied| < |served|)
  }

  lemma ProgressStep(s0: Data, s: Data, applied: seq<Op>, served: seq<Op>, ops: seq<Op>, m: map<Host, Conn>,
                     h: Host, status: nat)
    requires Progress(s0, s, applied, served, ops, m)
    requires h in m && m[h].requests != [] && m[h].requests[0].op in ops
    requires MayAnswer(s, m[h].requests[0].op, status)
    ensures var op := m[h].requests[0].op;
            Progress(s0, if status == ERR_SUCCESS then ApplyOp(s, op) else s,
                     if Settled(status) then applied + [op] else applied, served + [op], ops,
                     m[h := Answered(m[h], status)])
  {
    var op := m[h].requests[0].op;
    PushSettled(m, h, status);
    if Settled(status) {
      ApplySnoc(s0, applied, op);
      forall i | 0 <= i < |applied + [op]| ensures (applied + [op])[i] in ops {
      }
    }
  }

  lemma PushSettled(m: map<Host, Conn>, h: Host, status: nat)
    requires h in m && m[h].requests != []
    ensures AllSettled(m[h := Answered(m[h], status)]) <==> AllSettled(m) && Settled(status)
  {
    var m' := m[h := Answered(m[h], status)];
    if AllSettled(m') {
      var n := |m[h].responses|;
      assert Settled(m'[h].responses[n].status);
      forall k, i | k in m && 0 <= i < |m[k].responses| ensures Settled(m[k].responses[i].status) {
        assert m'[k].responses[i] == m[k].responses[i];
        assert Settled(m'[k].responses[i].status);
      }
    }
  }

  lemma PopSettled(m: map<Host, Conn>, h: Host)
    requires h in m && m[h].responses != []
    ensures var m' := m[h := Conn(m[h].requests, m[h].responses[1..])];
            AllSettled(m') && Settled(m[h].responses[0].status) <==> AllSettled(m)
  {
    var m' := m[h := Conn(m[h].requests, m[h].responses[1..])];
    if AllSettled(m') && Settled(m[h].responses[0].status) {
      forall k, i | k in m && 0 <= i < |m[k].responses| ensures Settled(m[k].responses[i].status) {
        if k == h && i > 0 {
          assert Settled(m'[h].responses[i - 1].status);
        } else if k != h {
          assert Settled(m'[k].responses[i].status);
        }
      }
    }
  }

  lemma PopMoved(m: map<Host, Conn>, h: Host)
    requires h in m && m[h].responses != []
    ensures var m' := m[h := Conn(m[h].requests, m[h].responses[1..])];
            NoneMoved(m') && m[h].responses[0].status != ERR_NOT_MY_VBUCKET <==> NoneMoved(m)
  {
    var m' := m[h := Conn(m[h].requests, m[h].responses[1..])];
    if NoneMoved(m') && m[h].responses[0].status != ERR_NOT_MY_VBUCKET {
      forall k, i | k in m && 0 <= i < |m[k].responses| ensures m[k].responses[i].status != ERR_NOT_MY_VBUCKET {
        if k == h && i > 0 {
          assert m'[h].responses[i - 1].status != ERR_NOT_MY_VBUCKET;
        } else if k != h {
          assert m'[k].responses[i].status != ERR_NOT_MY_VBUCKET;
        }
      }
    }
  }

  lemma PopBearable(m: map<Host, Conn>, h: Host, nmvRetry: bool)
    requires h in m && m[h].responses != [] && AllBearable(m, nmvRetry)
    ensures Bearable(m[h].responses[0].status, nmvRetry)
    ensures AllBearable(m[h := Conn(m[h].requests, m[h].responses[1..])], nmvRetry)
  {
  }

  /** The flags say of the responses read so far whether all were settled and whether any vbucket had moved. */
  ghost predicate Tally(m0: map<Host, Conn>, m: map<Host, Conn>, retry: bool, refresh: bool, nmvRetry: bool)
  {
    && (AllSettled(m0) <==> !retry && AllSettled(m))
    && (NoneMoved(m0) <==> !refresh && NoneMoved(m))
    && (AllBearable(m0, nmvRetry) ==> AllBearable(m, nmvRetry))
  }

  lemma TallyStep(m0: map<Host, Conn>, m: map<Host, Conn>, h: Host, retry: bool, refresh: bool, nmvRetry: bool)
    requires Tally(m0, m, retry, refresh, nmvRetry) && h in m && m[h].responses != []
    ensures var status := m[h].responses[0].status;
      && Tally(m0, m[h := Conn(m[h].requests, m[h].responses[1..])], retry || !Settled(status),
               refresh || status == ERR_NOT_MY_VBUCKET, nmvRetry)
      && (AllBearable(m0, nmvRetry) ==> Bearable(status, nmvRetry))
  {
    PopSettled(m, h);
    PopMoved(m, h);
    if AllBearable(m, nmvRetry) {
      PopBearable(m, h, nmvRetry);
    }
  }

  lemma TallyJoin(m0: map<Host, Conn>, m: map<Host, Conn>, m': map<Host, Conn>, retry: bool, refresh: bool,
                  again: bool, moved: bool, nmvRetry: bool)
    requires Tally(m0, m, retry, refresh, nmvRetry) && Tally(m, m', again, moved, nmvRetry)
    ensures Tally(m0, m', retry || again, refresh || moved, nmvRetry)
  {
  }

  /** When every request is answered, the answer to an unskipped message is there to be read. */
  lemma AnswerWaits(v: int, msgs: seq<Msg>, f: Filter, i: nat, c: Conn, rest: seq<nat>)
    requires i < |msgs| && !Skip(f, msgs[i].key, v) && Reading(c, v, msgs, i, f, rest) && c.requests == []
    ensures c.responses != []
  {
    ReqsPrefix(v, msgs, f, i + 1);
    assert msgs[..i + 1][..i] == msgs[..i];
    assert |Reqs(v, msgs[..i + 1], f)| == |Reqs(v, msgs[..i], f)| + 1;
    assert |ReqTags(Reqs(v, msgs[..i], f)) + (RespTags(c.responses) + ReqTags(c.requests))|
        == |ReqTags(Reqs(v, msgs, f)) + rest|;
  }

  lemma Cancel<T>(a: seq<T>, b: seq<T>, c: seq<T>)
    requires a + b == a + c
    ensures b == c
  {
    assert (a + b)[|a|..] == b && (a + c)[|a|..] == c;
  }

  /** Only answers of one connection have been consumed. */
  ghost predicate OnlyReads(m0: map<Host, Conn>, m: map<Host, Conn>, h: Host)
  {
    && m.Keys == m0.Keys && h in m && m[h].requests == m0[h].requests
    && forall k :: k in m && k != h ==> m[k] == m0[k]
  }

  /** The group's answers up to message `i` are consumed; the others, then `rest`, are still to come. */
  ghost predicate Reading(c: Conn, v: int, msgs: seq<Msg>, i: nat, f: Filter, rest: seq<nat>)
    requires i <= |msgs|
  {
    ReqTags(Reqs(v, msgs[..i], f)) + (RespTags(c.responses) + ReqTags(c.requests)) == ReqTags(Reqs(v, msgs, f)) + rest
  }

  /** The next answer on the connection belongs to message `i`. */
  lemma PairedTag(v: int, msgs: seq<Msg>, f: Filter, i: nat, c: Conn, rest: seq<nat>)
    requires i < |msgs| && !Skip(f, msgs[i].key, v) && c.responses != []
    requires Reading(c, v, msgs, i, f, rest)
    ensures c.responses[0].tag == i
    ensures Reading(Conn(c.requests, c.responses[1..]), v, msgs, i + 1, f, rest)
  {
    var done, next := Reqs(v, msgs[..i], f), Reqs(v, msgs[..i + 1], f);
    assert msgs[..i + 1][..i] == msgs[..i];
    assert next == done + [Req(OpOf(msgs[i], v), i)];
    ReqsPrefix(v, msgs, f, i + 1);
    NextOwed(ReqTags(done), RespTags(c.responses), ReqTags(c.requests), ReqTags(Reqs(v, msgs, f)), rest);
    assert ReqTags(next) == ReqTags(done) + [i];
    assert RespTags(c.responses) == [i] + RespTags(c.responses[1..]);
    Regroup(ReqTags(done), i, RespTags(c.responses[1..]), ReqTags(c.requests));
  }

  lemma NextOwed(done: seq<nat>, here: seq<nat>, later: seq<nat>, all: seq<nat>, rest: seq<nat>)
    requires done + (here + later) == all + rest && here != [] && |done| < |all|
    ensures here[0] == all[|done|]
  {
    assert (done + (here + later))[|done|] == here[0];
    assert (all + rest)[|done|] == all[|done|];
  }

  lemma Regroup(a: seq<nat>, x: nat, b: seq<nat>, c: seq<nat>)
    ensures a + (([x] + b) + c) == (a + [x]) + (b + c)
  {
  }

  lemma SkippedTag(v: int, msgs: seq<Msg>, f: Filter, i: nat, c: Conn, rest: seq<nat>)
    requires i < |msgs| && Skip(f, msgs[i].key, v) && Reading(c, v, msgs, i, f, rest)
    ensures Reading(c, v, msgs, i + 1, f, rest)
  {
    assert msgs[..i + 1][..i] == msgs[..i];
    assert Reqs(v, msgs[..i + 1], f) == Reqs(v, msgs[..i], f);
  }

  lemma ReadAll(v: int, msgs: seq<Msg>, f: Filter, c: Conn, rest: seq<nat>)
    requires Reading(c, v, msgs, |msgs|, f, rest)
    ensures RespTags(c.responses) + ReqTags(c.requests) == rest
  {
    assert msgs[..|msgs|] == msgs;
    Cancel(ReqTags(Reqs(v, msgs, f)), RespTags(c.responses) + ReqTags(c.requests), rest);
  }

  lemma GroupAt(g: map<int, seq<Msg>>, order: seq<int>, all: seq<Msg>, i: nat)
    requires Grouped(g, order, all) && i < |order|
    ensures order[i] in g && g[order[i]] == Project(all, order[i])
    ensures order[i..] == [order[i]] + order[i + 1..] && order[..i + 1] == order[..i] + [order[i]]
  {
    SplitAt(order, i);
    assert order[i] in g.Keys;
  }

  lemma SplitAt<T>(s: seq<T>, i: nat)
    requires i < |s|
    ensures s[i..] == [s[i]] + s[i + 1..] && s[..i + 1] == s[..i] + [s[i]]
  {
  }

  ghost predicate SameRequests(m0: map<Host, Conn>, m: map<Host, Conn>)
  {
    m.Keys == m0.Keys && forall h :: h in m ==> m[h].requests == m0[h].requests
  }

  lemma OwesHead(m: map<Host, Conn>, order: seq<int>, all: seq<Msg>, sm: SinkMap, f: Filter, h: Host)
    requires Owes(m, order, all, sm, f) && order != [] && h in m
    ensures RespTags(m[h].responses) + ReqTags(m[h].requests)
         == ReqTags(SentFor(order[0], all, sm, f, h)) + ReqTags(Sent(order[1..], all, sm, f, h))
  {
    ReqOpsAppend(SentFor(order[0], all, sm, f, h), Sent(order[1..], all, sm, f, h));
  }

  lemma GatherStep(m: map<Host, Conn>, m': map<Host, Conn>, order: seq<int>, all: seq<Msg>, sm: SinkMap, f: Filter,
                   h: Host)
    requires Owes(m, order, all, sm, f) && order != [] && Route(sm, order[0]) == At(h)
    requires OnlyReads(m, m', h)
    requires RespTags(m'[h].responses) + ReqTags(m'[h].requests) == ReqTags(Sent(order[1..], all, sm, f, h))
    ensures Owes(m', order[1..], all, sm, f)
  {
    forall k | k in m' && k != h
      ensures RespTags(m'[k].responses) + ReqTags(m'[k].requests) == ReqTags(Sent(order[1..], all, sm, f, k))
    {
      OwesHead(m, order, all, sm, f, k);
      assert SentFor(order[0], all, sm, f, k) == [];
      assert ReqTags([]) == [];
    }
  }

  lemma OwesNothing(m: map<Host, Conn>, all: seq<Msg>, sm: SinkMap, f: Filter)
    requires Owes(m, [], all, sm, f)
    ensures Idle(m) && AllSettled(m) && NoneMoved(m)
  {
    forall h | h in m ensures m[h] == Conn([], []) {
      assert |RespTags(m[h].responses) + ReqTags(m[h].requests)| == 0;
    }
  }

  function HomeOf(order: seq<int>, sm: SinkMap): map<int, Host>
  {
    map v | v in order && Route(sm, v).At? :: Route(sm, v).host
  }

  lemma ScatteredIsHomed(m: map<Host, Conn>, order: seq<int>, all: seq<Msg>, sm: SinkMap, f: Filter)
    requires Scattered(m, order, all, sm, f)
    ensures Homed(m, BatchOps(all, f), HomeOf(order, sm))
  {
    forall h | h in m
      ensures forall r :: r in m[h].requests ==>
                r.op in BatchOps(all, f) && r.op.vbucket in HomeOf(order, sm) && HomeOf(order, sm)[r.op.vbucket] == h
    {
      SentVbuckets(order, all, sm, f, h);
    }
  }

  lemma ServedTags(m0: map<Host, Conn>, m: map<Host, Conn>, order: seq<int>, all: seq<Msg>, sm: SinkMap, f: Filter)
    requires Scattered(m0, order, all, sm, f) && TagsKept(m0, m)
    ensures Owes(m, order, all, sm, f)
  {
  }

  /** When no request is left waiting, every vbucket has been served its whole group, in order. */
  lemma FullyServed(m0: map<Host, Conn>, m: map<Host, Conn>, served: seq<Op>, order: seq<int>, all: seq<Msg>,
                    sm: SinkMap, f: Filter)
    requires Scattered(m0, order, all, sm, f) && SharesKept(m0, m, served, HomeOf(order, sm))
    requires Lists(order, Tags(all)) && forall h :: h in m ==> m[h].requests == []
    ensures SamePerVbucket(served, BatchOps(all, f))
  {
    forall v ensures ProjectOps(served, v) == ProjectOps(BatchOps(all, f), v) {
      if v in order {
        var i :| 0 <= i < |order| && order[i] == v;
        var h := Route(sm, v).host;
        SentProject(order, all, sm, f, h, v);
        assert ReqOps([]) == [];
      } else {
        ProjectMissing(all, v);
        BatchProject(all, v, f);
      }
    }
  }

  lemma {:induction false} CountInProject(ops: seq<Op>, op: Op)
    ensures multiset(ops)[op] == multiset(ProjectOps(ops, op.vbucket))[op]
  {
    if ops != [] {
      var k := |ops| - 1;
      CountInProject(ops[..k], op);
      assert ops == ops[..k] + [ops[k]];
    }
  }

  /** Serving every vbucket its share serves as many operations as were asked for. */
  lemma SameCount(ps: seq<Op>, ops: seq<Op>)
    requires SamePerVbucket(ps, ops)
    ensures |ps| == |ops|
  {
    forall op ensures multiset(ps)[op] == multiset(ops)[op] {
      CountInProject(ps, op);
      CountInProject(ops, op);
    }
    assert multiset(ps) == multiset(ops);
    assert |multiset(ps)| == |ps| && |multiset(ops)| == |ops|;
  }

  /** One attempt's surroundings: which server answers when and with which status, which servers take connections
      and data, and what a map refresh would fetch. */
  datatype Env = Env(answers: seq<(Host, nat)>, up: set<Host>, newMap: Option<SinkMap>)

  /** What happened in one attempt: the groups in the order visited, the connections when everything was sent and
      when the servers had answered, the operations they served and those they accepted. */
  datatype Attempt = Attempt(order: seq<int>, sent: map<Host, Conn>, answered: map<Host, Conn>,
                             served: seq<Op>, applied: seq<Op>)

  datatype Outcome = Done | Failed(rv: Rv) | Retrying

  type Packer = (Msg, bool) -> bool

  class CBSink {
    var sinkMap: SinkMap
    var mconns: map<Host, Conn>
    var withMeta: bool       // op_map is OP_MAP_WITH_META
    var store: Data          // the cluster's data
    const filter: Filter
    const rehash: bool
    const nmvRetry: bool
    const packs: Packer      // whether struct.pack takes a message's fields, with or without meta

    constructor (sinkMap: SinkMap, store: Data, filter: Filter, rehash: bool, nmvRetry: bool, tryXwm: bool,
                 packs: Packer)
      ensures this.sinkMap == sinkMap && this.store == store && mconns == map[]
      ensures this.filter == filter && this.rehash == rehash && this.nmvRetry == nmvRetry
      ensures withMeta == tryXwm && this.packs == packs
    {
      this.sinkMap, this.store, this.mconns := sinkMap, store, map[];
      this.filter, this.rehash, this.nmvRetry := filter, rehash, nmvRetry;
      this.withMeta, this.packs := tryXwm, packs;
    }

    method FindConn(v: int, up: set<Host>) returns (rv: Rv, h: Host)
      modifies this`mconns
      ensures rv.Zero? ==> Route(sinkMap, v) == At(h) && h in mconns
      ensures rv.Zero? <==> Route(sinkMap, v).At? && Route(sinkMap, v).host in old(mconns).Keys + up
      ensures rv == Raised <==> Route(sinkMap, v).IndexError?
      ensures rv == Error(MissingVbucket) <==> Route(sinkMap, v).NoSuchVbucket?
      ensures mconns == old(mconns) || (rv.Zero? && h !in old(mconns) && mconns == old(mconns)[h := Conn([], [])])
      ensures rv != Error(OpaqueMismatch)
    {
      match Route(sinkMap, v) {
        case NoSuchVbucket => return Error(MissingVbucket), "";
        case IndexError => return Raised, "";
        case At(host) =>
          if host !in mconns {
            if host !in up {
              return Error(Connect), "";
            }
            mconns := mconns[host := Conn([], [])];
          }
          return Zero, host;
      }
    }

    /** Has a command the sink knows and fields that fit the wire format. */
    predicate Packable(m: Msg)
    {
      KnownCmd(m.cmd) && packs(m, true) && packs(m, false)
    }

    ghost predicate AllPack(msgs: seq<Msg>)
    {
      forall i :: 0 <= i < |msgs| ==> Packable(msgs[i])
    }

    method SendMsgs(h: Host, v: int, msgs: seq<Msg>, up: set<Host>) returns (rv: Rv)
      requires h in mconns
      modifies this`mconns, this`withMeta
      ensures rv.Zero? ==> mconns == old(mconns)[h := Conn(old(mconns)[h].requests + Reqs(v, msgs, filter),
                                                          old(mconns)[h].responses)]
      ensures !rv.Zero? ==> mconns == old(mconns)
      ensures AllPack(msgs) ==> rv == if h in up || Reqs(v, msgs, filter) == [] then Zero else Error(Send)
      ensures rv != Error(OpaqueMismatch)
    {
      var m: seq<Req> := [];
      for i := 0 to |msgs|
        invariant m == Reqs(v, msgs[..i], filter) && mconns == old(mconns)
      {
        assert msgs[..i + 1][..i] == msgs[..i];
        if !Skip(filter, msgs[i].key, v) {
          if MetaText(msgs[i].meta) == [] {
            withMeta := false;
          }
          if !KnownCmd(msgs[i].cmd) {
            return Error(UnknownCmd);
          }
          assert AllPack(msgs) ==> Packable(msgs[i]);
          if !(if withMeta then packs(msgs[i], true) else packs(msgs[i], false)) {
            return Raised;  // struct.error from cmd_request
          }
          m := m + [Req(OpOf(msgs[i], v), i)];
        }
      }
      assert msgs[..|msgs|] == msgs;
      if m != [] && h !in up {
        return Error(Send);
      }
      mconns := mconns[h := Conn(mconns[h].requests + m, mconns[h].responses)];
      return Zero;
    }

    /** The servers at work. A server that gives no more answers is one that has stopped answering. */
    method Serve(answers: seq<(Host, nat)>, ghost ops: seq<Op>, ghost home: map<int, Host>)
      returns (ghost served: seq<Op>, ghost applied: seq<Op>)
      requires forall h :: h in mconns ==> mconns[h].responses == []
      requires Homed(mconns, ops, home)
      modifies this`mconns, this`store
      ensures (store, mconns) == ServeAll(old(store), old(mconns), answers)
      ensures Serving(old(mconns), mconns, served, ops, home)
      ensures Progress(old(store), store, applied, served, ops, mconns)
    {
      served, applied := [], [];
      ServeStart(mconns, ops, home);
      for i := 0 to |answers|
        invariant (store, mconns) == ServeAll(old(store), old(mconns), answers[..i])
        invariant Serving(old(mconns), mconns, served, ops, home)
        invariant Progress(old(store), store, applied, served, ops, mconns)
      {
        assert answers[..i + 1][..i] == answers[..i];
        var (h, status) := answers[i];
        if CanServe(store, mconns, h, status) {
          var r := mconns[h].requests[0];
          assert r in mconns[h].requests;
          ServeStep(old(mconns), mconns, served, ops, home, h, status);
          ProgressStep(old(store), store, applied, served, ops, mconns, h, status);
          if status == ERR_SUCCESS {
            store := ApplyOp(store, r.op);
          }
          applied := if Settled(status) then applied + [r.op] else applied;
          served := served + [r.op];
          mconns := mconns[h := Answered(mconns[h], status)];
        }
      }
      assert answers[..|answers|] == answers;
    }

    /** Reads the next answer on a connection, which belongs to message `i`, and acts on its status. */
    method TakeAnswer(h: Host, i: nat, retry: bool, refresh: bool, ghost m0: map<Host, Conn>)
      returns (rv: Rv, again: bool, moved: bool)
      requires h in mconns && mconns[h].responses != [] && Tally(m0, mconns, retry, refresh, nmvRetry)
      modifies this`mconns, this`withMeta
      ensures mconns == old(mconns)[h := Conn(old(mconns)[h].requests, old(mconns)[h].responses[1..])]
      ensures rv == Error(OpaqueMismatch) <==> old(mconns)[h].responses[0].tag != i
      ensures rv != Raised && (refresh ==> retry) ==> moved ==> again
      ensures rv.Zero? ==> Tally(m0, mconns, again, moved, nmvRetry)
      ensures rv != Raised && (AllBearable(m0, nmvRetry) ==> rv.Zero? || rv == Error(OpaqueMismatch))
    {
      var r := mconns[h].responses[0];
      TallyStep(m0, mconns, h, retry, refresh, nmvRetry);
      mconns := mconns[h := Conn(mconns[h].requests, mconns[h].responses[1..])];
      rv, again, moved := Zero, retry, refresh;
      if r.tag != i {
        rv := Error(OpaqueMismatch);
      } else if r.status == ERR_SUCCESS || r.status == ERR_KEY_ENOENT || r.status == ERR_KEY_EEXISTS {
      } else if r.status == ERR_ETMPFAIL || r.status == ERR_EBUSY || r.status == ERR_ENOMEM {
        again := true;
      } else if r.status == ERR_NOT_MY_VBUCKET {
        if !nmvRetry {
          rv := Error(NotMyVbucket);
        }
        again, moved := true, true;
      } else if r.status == ERR_UNKNOWN_COMMAND {
        if withMeta {
          withMeta, again := false, true;
        } else if !retry {
          rv := Error(UnknownCommand);
        }
      } else {
        rv := Error(McError);
      }
    }

    /** recv_msgs: one answer per unskipped message, paired by position and checked by opaque. */
    method RecvMsgs(h: Host, v: int, msgs: seq<Msg>, ghost rest: seq<nat>)
      returns (rv: Rv, retry: bool, refresh: bool)
      requires h in mconns
      requires RespTags(mconns[h].responses) + ReqTags(mconns[h].requests) == ReqTags(Reqs(v, msgs, filter)) + rest
      modifies this`mconns, this`withMeta
      ensures OnlyReads(old(mconns), mconns, h)
      ensures rv != Error(OpaqueMismatch) && rv != Raised
      ensures rv.Zero? ==> RespTags(mconns[h].responses) + ReqTags(mconns[h].requests) == rest
      ensures rv.Zero? && refresh ==> retry
      ensures rv.Zero? ==> Tally(old(mconns), mconns, retry, refresh, nmvRetry)
      ensures AllBearable(old(mconns), nmvRetry) && old(mconns)[h].requests == [] ==> rv.Zero?
    {
      ghost var m0 := mconns;
      retry, refresh := false, false;
      for i := 0 to |msgs|
        invariant OnlyReads(m0, mconns, h) && (refresh ==> retry)
        invariant Reading(mconns[h], v, msgs, i, filter, rest)
        invariant Tally(m0, mconns, retry, refresh, nmvRetry)
      {
        if !Skip(filter, msgs[i].key, v) {
          if mconns[h].requests == [] {
            AnswerWaits(v, msgs, filter, i, mconns[h], rest);
          }
          if mconns[h].responses == [] {
            return Error(SinkException), retry, refresh;  // EOFError from read_conn
          }
          PairedTag(v, msgs, filter, i, mconns[h], rest);
          rv, retry, refresh := TakeAnswer(h, i, retry, refresh, m0);
          if !rv.Zero? {
            return;
          }
        } else {
          SkippedTag(v, msgs, filter, i, mconns[h], rest);
        }
      }
      ReadAll(v, msgs, filter, mconns[h], rest);
      rv := Zero;
    }

    /** The requests of one group. */
    method ScatterGroup(v: int, msgs: seq<Msg>, up: set<Host>, ghost done: seq<int>, ghost all: seq<Msg>)
      returns (rv: Rv)
      requires msgs == Project(all, v) && Scattered(mconns, done, all, sinkMap, filter)
      modifies this`mconns, this`withMeta
      ensures rv != Error(OpaqueMismatch)
      ensures Scattered(mconns, if rv.Zero? then done + [v] else done, all, sinkMap, filter)
      ensures AllPack(msgs) && Route(sinkMap, v).At? && Route(sinkMap, v).host in up ==> rv.Zero?
    {
      var h;
      rv, h := FindConn(v, up);
      if rv.Zero? {
        ConnectKeeps(old(mconns), mconns, done, all, sinkMap, filter);
        ScatterStep(mconns, done, v, all, sinkMap, filter, h);
        rv := SendMsgs(h, v, msgs, up);
      }
    }

    /** Nothing keeps the messages from being sent: every vbucket has a server that takes them. */
    ghost predicate Sendable(all: seq<Msg>, sm: SinkMap, up: set<Host>)
    {
      sm.buckets == 1 && AllPack(all) && forall i :: 0 <= i < |all| ==>
        Route(sm, all[i].vbucket).At? && Route(sm, all[i].vbucket).host in up
    }

    lemma GroupSends(all: seq<Msg>, sm: SinkMap, up: set<Host>, v: int)
      requires Sendable(all, sm, up) && v in Tags(all)
      ensures AllPack(Project(all, v)) && Route(sm, v).At? && Route(sm, v).host in up
    {
      ProjectPacks(all, v);
    }

    lemma {:induction false} ProjectPacks(all: seq<Msg>, v: int)
      requires AllPack(all)
      ensures AllPack(Project(all, v))
    {
      if all != [] {
        ProjectPacks(all[..|all| - 1], v);
      }
    }

    /** Scatter: after it, every group's requests wait at its own server. When it fails, those of the groups before
        the failing one already do; `reached` are these groups. */
    method Scatter(g: map<int, seq<Msg>>, order: seq<int>, up: set<Host>, ghost all: seq<Msg>)
      returns (rv: Rv, ghost reached: seq<int>)
      requires Idle(mconns) && Grouped(g, order, all)
      modifies this`mconns, this`withMeta
      ensures rv != Error(OpaqueMismatch)
      ensures reached <= order && (rv.Zero? <==> reached == order)
      ensures Scattered(mconns, reached, all, sinkMap, filter)
      ensures Sendable(all, sinkMap, up) ==> rv.Zero?
    {
      reached := [];
      for i := 0 to |order|
        invariant reached == order[..i] && Scattered(mconns, reached, all, sinkMap, filter)
      {
        GroupAt(g, order, all, i);
        if Sendable(all, sinkMap, up) {
          GroupSends(all, sinkMap, up, order[i]);
        }
        rv := ScatterGroup(order[i], g[order[i]], up, reached, all);
        if !rv.Zero? {
          return;
        }
        reached := order[..i + 1];
      }
      assert order[..|order|] == order;
      rv := Zero;
    }

    /** The answers of one group. */
    method GatherGroup(v: int, msgs: seq<Msg>, ghost later: seq<int>, ghost all: seq<Msg>)
      returns (rv: Rv, retry: bool, refresh: bool)
      requires msgs == Project(all, v) && Owes(mconns, [v] + later, all, sinkMap, filter)
      requires Route(sinkMap, v).At? && Route(sinkMap, v).host in mconns
      modifies this`mconns, this`withMeta
      ensures SameRequests(old(mconns), mconns)
      ensures rv != Error(OpaqueMismatch) && rv != Raised
      ensures rv.Zero? ==> Owes(mconns, later, all, sinkMap, filter) && (refresh ==> retry)
      ensures rv.Zero? ==> Tally(old(mconns), mconns, retry, refresh, nmvRetry)
      ensures AllBearable(old(mconns), nmvRetry) && Drained(old(mconns)) ==> rv.Zero?
    {
      ghost var order := [v] + later;
      assert order[0] == v && order[1..] == later;
      var h;
      rv, h := FindConn(v, {});
      OwesHead(mconns, order, all, sinkMap, filter, h);
      rv, retry, refresh := RecvMsgs(h, v, msgs, ReqTags(Sent(later, all, sinkMap, filter, h)));
      if rv.Zero? {
        GatherStep(old(mconns), mconns, order, all, sinkMap, filter, h);
      }
    }

    /** Gather: the answers come back group by group, each to its own request. */
    method Gather(g: map<int, seq<Msg>>, order: seq<int>, ghost all: seq<Msg>)
      returns (rv: Rv, retry: bool, refresh: bool)
      requires Grouped(g, order, all) && Owes(mconns, order, all, sinkMap, filter)
      requires Reachable(order, sinkMap, mconns.Keys)
      modifies this`mconns, this`withMeta
      ensures SameRequests(old(mconns), mconns)
      ensures rv != Error(OpaqueMismatch) && rv != Raised
      ensures rv.Zero? ==> Idle(mconns) && (refresh ==> retry)
      ensures rv.Zero? ==> (retry <==> !AllSettled(old(mconns))) && (refresh <==> !NoneMoved(old(mconns)))
      ensures AllBearable(old(mconns), nmvRetry) && Drained(old(mconns)) ==> rv.Zero?
    {
      retry, refresh := false, false;
      ghost var m0 := mconns;
      assert order[0..] == order;
      for i := 0 to |order|
        invariant SameRequests(old(mconns), mconns) && (refresh ==> retry)
        invariant Owes(mconns, order[i..], all, sinkMap, filter)
        invariant Tally(m0, mconns, retry, refresh, nmvRetry)
      {
        GroupAt(g, order, all, i);
        var again, moved;
        ghost var before := mconns;
        rv, again, moved := GatherGroup(order[i], g[order[i]], order[i + 1..], all);
        if !rv.Zero? {
          return;
        }
        TallyJoin(m0, before, mconns, retry, refresh, again, moved, nmvRetry);
        retry, refresh := retry || again, refresh || moved;
      }
      OwesNothing(mconns, all, sinkMap, filter);
      rv := Zero;
    }

    /** What an attempt with nothing in its way comes to: the servers' answers alone decide. */
    ghost predicate Decided(t: Attempt, all: seq<Msg>, sm: SinkMap, env: Env, s0: Data, s: Data, rv: Rv)
    {
      && Lists(t.order, Tags(all)) && Scattered(t.sent, t.order, all, sm, filter)
      && (s, t.answered) == ServeAll(s0, t.sent, env.answers)
      && (AllBearable(t.answered, nmvRetry) && Drained(t.answered) ==> rv.Zero?)
    }

    /** The two phases, once the batch is grouped. */
    method SendAndReceive(g: map<int, seq<Msg>>, order: seq<int>, env: Env, ghost all: seq<Msg>)
      returns (rv: Rv, retry: bool, refresh: bool, ghost t: Attempt)
      requires Idle(mconns) && Grouped(g, order, all)
      modifies this`mconns, this`withMeta, this`store
      ensures rv != Error(OpaqueMismatch)
      ensures store == ApplyAll(old(store), t.applied) && SubOps(t.applied, BatchOps(all, filter))
      ensures rv.Zero? ==> Idle(mconns) && SamePerVbucket(t.served, BatchOps(all, filter))
      ensures rv.Zero? ==> if retry then |t.applied| < |t.served| else t.applied == t.served
      ensures rv.Zero? ==> (retry <==> !AllSettled(t.answered)) && (refresh <==> !NoneMoved(t.answered))
      ensures Sendable(all, sinkMap, env.up) ==> Decided(t, all, sinkMap, env, old(store), store, rv)
    {
      retry, refresh := false, false;
      ghost var reached;
      rv, reached := Scatter(g, order, env.up, all);
      t := Receive(reached, env, all);
      if !rv.Zero? {
        return;
      }
      rv, retry, refresh := Collect(g, order, all, t);
    }

    /** The receive phase of an attempt whose requests all went out. */
    method Collect(g: map<int, seq<Msg>>, order: seq<int>, ghost all: seq<Msg>, ghost t: Attempt)
      returns (rv: Rv, retry: bool, refresh: bool)
      requires Grouped(g, order, all) && Scattered(t.sent, order, all, sinkMap, filter) && t.answered == mconns
      requires Owes(mconns, order, all, sinkMap, filter) && Reachable(order, sinkMap, mconns.Keys)
      requires SharesKept(t.sent, t.answered, t.served, HomeOf(order, sinkMap))
      modifies this`mconns, this`withMeta
      ensures rv != Error(OpaqueMismatch) && rv != Raised
      ensures rv.Zero? ==> Idle(mconns) && SamePerVbucket(t.served, BatchOps(all, filter))
      ensures rv.Zero? ==> (retry <==> !AllSettled(t.answered)) && (refresh <==> !NoneMoved(t.answered))
      ensures AllBearable(t.answered, nmvRetry) && Drained(t.answered) ==> rv.Zero?
    {
      rv, retry, refresh := Gather(g, order, all);
      if rv.Zero? {
        FullyServed(t.sent, t.answered, t.served, order, all, sinkMap, filter);
      }
    }

    /** The servers answer what was sent, whether or not the sink stays to read it. */
    method Receive(ghost order: seq<int>, env: Env, ghost all: seq<Msg>) returns (ghost t: Attempt)
      requires Scattered(mconns, order, all, sinkMap, filter)
      modifies this`mconns, this`store
      ensures t.order == order && t.sent == old(mconns) && t.answered == mconns
      ensures Owes(mconns, order, all, sinkMap, filter) && Reachable(order, sinkMap, mconns.Keys)
      ensures (store, mconns) == ServeAll(old(store), old(mconns), env.answers)
      ensures SharesKept(t.sent, t.answered, t.served, HomeOf(order, sinkMap))
      ensures Progress(old(store), store, t.applied, t.served, BatchOps(all, filter), mconns)
    {
      ScatteredIsHomed(mconns, order, all, sinkMap, filter);
      ghost var served, applied := Serve(env.answers, BatchOps(all, filter), HomeOf(order, sinkMap));
      t := Attempt(order, old(mconns), mconns, served, applied);
      ServedTags(t.sent, mconns, order, all, sinkMap, filter);
    }

    /** scatter_gather. */
    method ScatterGather(batch: seq<Msg>, env: Env) returns (rv: Rv, retry: bool, backoff: bool, ghost t: Attempt)
      requires Idle(mconns)
      modifies this
      ensures rv != Error(OpaqueMismatch)
      ensures store == ApplyAll(old(store), t.applied) && SubOps(t.applied, Wanted(batch, |old(sinkMap).chains|))
      ensures rv.Zero? ==> Idle(mconns) && SamePerVbucket(t.served, Wanted(batch, |old(sinkMap).chains|))
      ensures rv.Zero? ==> if retry then |t.applied| < |t.served| else t.applied == t.served
      ensures rv.Zero? ==> (retry <==> !AllSettled(t.answered)) && (backoff <==> retry && NoneMoved(t.answered))
      ensures sinkMap == if rv.Zero? && !NoneMoved(t.answered) && env.newMap.Some? then env.newMap.value
                         else old(sinkMap)
      ensures Sendable(Tagged(batch, old(sinkMap)), old(sinkMap), env.up) ==>
                Decided(t, Tagged(batch, old(sinkMap)), old(sinkMap), env, old(store), store, rv)
    {
      if sinkMap.buckets != 1 {
        t := Attempt([], map[], map[], [], []);
        return Error(BucketCount), false, false, t;
      }
      var g := GroupByVbucketId(batch, |sinkMap.chains|, rehash);
      var order := ListKeys(g.Keys);
      var refresh;
      rv, retry, refresh, t := SendAndReceive(g, order, env, Tagged(batch, sinkMap));
      backoff := retry && !refresh;
      if rv.Zero? && refresh && env.newMap.Some? {
        sinkMap := env.newMap.value;
      }
    }

    ghost function Tagged(batch: seq<Msg>, sm: SinkMap): seq<Msg>
    {
      Retagged(batch, |sm.chains|, rehash)
    }

    /** What the batch asks for, as operations in batch order. */
    ghost function Wanted(batch: seq<Msg>, vbuckets: nat): seq<Op>
    {
      BatchOps(Retagged(batch, vbuckets, rehash), filter)
    }

    /** A map size some attempt may see. */
    ghost predicate Seen(n: nat, sm: SinkMap, envs: seq<Env>)
    {
      n == |sm.chains| || exists i :: 0 <= i < |envs| && envs[i].newMap.Some? && n == |envs[i].newMap.value.chains|
    }

    /** What the failed attempts asked for, with the map sizes they saw. */
    ghost predicate AskedUnder(asked: seq<seq<Op>>, counts: seq<nat>, batch: seq<Msg>)
    {
      |asked| == |counts| && forall j :: 0 <= j < |asked| ==> asked[j] == Wanted(batch, counts[j])
    }

    /** What the failed attempts saw, asked for and wrote. */
    ghost predicate Trail(counts: seq<nat>, asked: seq<seq<Op>>, passes: seq<seq<Op>>, batch: seq<Msg>, sm: SinkMap,
                          envs: seq<Env>)
    {
      && AskedUnder(asked, counts, batch) && Partial(passes, asked)
      && forall j :: 0 <= j < |counts| ==> Seen(counts[j], sm, envs)
    }

    lemma TrailSnoc(counts: seq<nat>, asked: seq<seq<Op>>, passes: seq<seq<Op>>, batch: seq<Msg>, sm: SinkMap,
                    envs: seq<Env>, last: nat, applied: seq<Op>, s: Data)
      requires Trail(counts, asked, passes, batch, sm, envs) && Seen(last, sm, envs)
      requires SubOps(applied, Wanted(batch, last)) && |applied| < |Wanted(batch, last)|
      ensures Trail(counts + [last], asked + [Wanted(batch, last)], passes + [applied], batch, sm, envs)
      ensures ApplyPasses(s, passes + [applied]) == ApplyAll(ApplyPasses(s, passes), applied)
    {
      PartialSnoc(passes, asked, applied, Wanted(batch, last));
      PassesSnoc(s, passes, applied);
    }

    /** A batch that can be sent, to servers that accept it. */
    ghost predicate Welcome(batch: seq<Msg>, sm: SinkMap, env: Env)
    {
      Sendable(Tagged(batch, sm), sm, env.up) && Willing(env, |batch|)
    }

    lemma WelcomeSucceeds(t: Attempt, batch: seq<Msg>, sm: SinkMap, env: Env, s0: Data, s: Data, rv: Rv)
      requires Welcome(batch, sm, env) && Decided(t, Tagged(batch, sm), sm, env, s0, s, rv)
      ensures rv.Zero? && AllSettled(t.answered)
    {
      WillingSettles(s0, t.sent, t.order, Tagged(batch, sm), sm, filter, env);
    }

    /** The retry loop of MCSink.run for one batch. Each element of `envs` is what the outside world does during one
        attempt; running out of them means the sink is still retrying. `counts` are the numbers of vbuckets seen by
        the failed attempts, `last` the one seen by the final attempt, `rest` what that one wrote. */
    method RunBatch(batch: seq<Msg>, envs: seq<Env>)
      returns (outcome: Outcome, retries: nat, ghost counts: seq<nat>, ghost last: nat,
               ghost asked: seq<seq<Op>>, ghost passes: seq<seq<Op>>, ghost rest: seq<Op>)
      requires Idle(mconns)
      modifies this
      ensures outcome != Failed(Error(OpaqueMismatch)) && outcome != Failed(Zero)
      ensures !outcome.Failed? ==> Idle(mconns)
      ensures if outcome.Retrying? then retries == |envs| else retries < |envs|
      ensures retries == |counts| && AskedUnder(asked, counts, batch) && Partial(passes, asked)
      ensures Seen(last, old(sinkMap), envs) && forall j :: 0 <= j < |counts| ==> Seen(counts[j], old(sinkMap), envs)
      ensures outcome.Retrying? ==> store == ApplyPasses(old(store), passes)
      ensures outcome.Failed? ==>
        store == ApplyAll(ApplyPasses(old(store), passes), rest) && SubOps(rest, Wanted(batch, last))
      ensures outcome.Done? ==> store == ApplyAll(ApplyPasses(old(store), passes), Wanted(batch, last))
      ensures outcome.Done? && Overwritten(asked, Wanted(batch, last)) ==>
                store == ApplyAll(old(store), Wanted(batch, last))
      ensures outcome.Done? ==>
                HoldsBatch(Retagged(batch, last, rehash), filter, ApplyPasses(old(store), passes), store)
      ensures outcome.Done? && Overwritten(asked, Wanted(batch, last)) ==>
                HoldsBatch(Retagged(batch, last, rehash), filter, old(store), store)
      ensures envs != [] && Welcome(batch, old(sinkMap), envs[0]) ==> outcome.Done? && retries == 0
    {
      retries, counts, asked, passes, rest := 0, [], [], [], [];
      for i := 0 to |envs|
        invariant Idle(mconns) && retries == i == |counts| && Seen(|sinkMap.chains|, old(sinkMap), envs)
        invariant Trail(counts, asked, passes, batch, old(sinkMap), envs) && store == ApplyPasses(old(store), passes)
        invariant if i == 0 then sinkMap == old(sinkMap) else !Welcome(batch, old(sinkMap), envs[0])
      {
        last := |sinkMap.chains|;
        ghost var wanted := Wanted(batch, last);
        var rv, retry, backoff;
        ghost var t;
        ghost var map0, store0 := sinkMap, store;
        rv, retry, backoff, t := ScatterGather(batch, envs[i]);
        if Welcome(batch, map0, envs[i]) {
          WelcomeSucceeds(t, batch, map0, envs[i], store0, store, rv);
        }
        if !rv.Zero? {
          return Failed(rv), retries, counts, last, asked, passes, t.applied;
        }
        SameCount(t.served, wanted);
        if !retry {
          Finish(old(store), passes, asked, t.applied, wanted);
          BatchHolds(Retagged(batch, last, rehash), filter, ApplyPasses(old(store), passes));
          BatchHolds(Retagged(batch, last, rehash), filter, old(store));
          return Done, retries, counts, last, asked, passes, t.applied;
        }
        TrailSnoc(counts, asked, passes, batch, old(sinkMap), envs, last, t.applied, old(store));
        counts, asked, passes, retries := counts + [last], asked + [wanted], passes + [t.applied], retries + 1;
      }
      last := |sinkMap.chains|;
      outcome := Retrying;
    }

    /** Nothing an attempt writes is left behind when no id changes with the size of the map: none has to be computed,
        or the computed ones agree. */
    lemma UnmovedIsOverwritten(batch: seq<Msg>, counts: seq<nat>, last: nat, asked: seq<seq<Op>>)
      requires AskedUnder(asked, counts, batch)
      requires forall j :: 0 <= j < |counts| ==> Retagged(batch, counts[j], rehash) == Retagged(batch, last, rehash)
      ensures Overwritten(asked, Wanted(batch, last))
    {
      forall j | 0 <= j < |asked| ensures asked[j] == Wanted(batch, last) {
        assert asked[j] == Wanted(batch, counts[j]);
      }
    }
  }

  lemma PassesSnoc(s: Data, passes: seq<seq<Op>>, applied: seq<Op>)
    ensures ApplyPasses(s, passes + [applied]) == ApplyAll(ApplyPasses(s, passes), applied)
  {
    assert (passes + [applied])[..|passes|] == passes;
  }

  lemma Finish(s: Data, passes: seq<seq<Op>>, asked: seq<seq<Op>>, applied: seq<Op>, last: seq<Op>)
    requires Partial(passes, asked) && SamePerVbucket(applied, last)
    ensures ApplyAll(ApplyPasses(s, passes), applied) == ApplyAll(ApplyPasses(s, passes), last)
    ensures Overwritten(asked, last) ==> ApplyAll(ApplyPasses(s, passes), applied) == ApplyAll(s, last)
  {
    var t := ApplyPasses(s, passes);
    CompletePassDecides(t, t, applied, last);
    if Overwritten(asked, last) {
      PassesStayInside(s, passes, asked, last);
      CompletePassDecides(s, t, applied, last);
    }
  }
}
