/** GenSource: a generated stream of SETs and GETs that keeps to a ratio. */
module Workload {
  import opened Codes
  import opened Wire
  import opened Reals

  datatype Cfg = Cfg(ratio: real, maxItems: int, exits: bool)

  datatype Counters = Counters(ops: nat, gets: nat, sets: nat, items: nat)

  datatype Op = Op(cmd: nat, key: nat)

  /** Whether the next operation is a SET. */
  predicate SetsNext(cfg: Cfg, c: Counters)
  {
    cfg.ratio >= c.sets as real / (if c.ops == 0 then 1 else c.ops) as real
  }

  function Step(cfg: Cfg, c: Counters): Counters
  {
    if SetsNext(cfg, c) then
      Counters(c.ops + 1, c.gets, c.sets + 1, if c.items < cfg.maxItems then c.items + 1 else c.items)
    else
      Counters(c.ops + 1, c.gets + 1, c.sets, c.items)
  }

  /** Python's `a % b`; None for a division by zero. */
  function Mod(a: nat, b: nat): Option<nat>
  {
    if b == 0 then None else Some(a % b)
  }

  /** The key of the next operation. */
  function NextKey(cfg: Cfg, c: Counters): Option<nat>
  {
    if SetsNext(cfg, c) then
      if c.items < cfg.maxItems then Some(c.items) else Mod(c.sets + 1, c.items)
    else
      Mod(c.gets + 1, c.items)
  }

  /** The counters after `n` operations. */
  function State(cfg: Cfg, n: nat): (c: Counters)
    ensures c.ops == n && c.gets + c.sets == n
  {
    if n == 0 then Counters(0, 0, 0, 0) else Step(cfg, State(cfg, n - 1))
  }

  /** Operation number `n` of the run, counting from zero. */
  function OpAt(cfg: Cfg, n: nat): Option<Op>
  {
    var c := State(cfg, n);
    match NextKey(cfg, c)
    case None => None
    case Some(key) => Some(Op(if SetsNext(cfg, c) then CMD_TAP_MUTATION else CMD_GET, key))
  }

  // ---------- The ratio ----------

  lemma SetsNextIff(cfg: Cfg, n: nat)
    ensures SetsNext(cfg, State(cfg, n)) <==>
      (if n == 0 then cfg.ratio >= 0.0 else Mul(cfg.ratio, n as real) >= State(cfg, n).sets as real)
  {
    if n > 0 {
      QuotientOrder(State(cfg, n).sets as real, n as real, cfg.ratio);
    }
  }

  lemma MulSucc(r: real, n: nat)
    ensures Mul(r, (n + 1) as real) == Mul(r, n as real) + r
  {
    assert (n + 1) as real == n as real + 1.0;
  }

  /** The share of SETs a run is to have; a ratio above one asks for nothing but SETs. */
  function Share(cfg: Cfg): real
  {
    if cfg.ratio > 1.0 then 1.0 else cfg.ratio
  }

  lemma {:induction false} AllSets(cfg: Cfg, n: nat)
    requires cfg.ratio >= 1.0
    ensures State(cfg, n).sets == n
  {
    if n > 0 {
      AllSets(cfg, n - 1);
      SetsNextIff(cfg, n - 1);
      if n > 1 {
        AtLeastFactor(cfg.ratio, (n - 1) as real);
      }
    }
  }

  lemma AtLeastFactor(r: real, x: real)
    requires r >= 1.0 && x >= 0.0
    ensures Mul(r, x) >= x
  {
  }

  /** After any number of operations the number of SETs is within one of its share. */
  lemma {:induction false} RatioBounds(cfg: Cfg, n: nat)
    requires 0.0 <= cfg.ratio
    ensures Mul(Share(cfg), n as real) - Share(cfg) <= State(cfg, n).sets as real <= Mul(Share(cfg), n as real) + 1.0
  {
    if cfg.ratio > 1.0 {
      AllSets(cfg, n);
      assert Mul(1.0, n as real) == n as real;
    } else if n > 0 {
      RatioBounds(cfg, n - 1);
      SetsNextIff(cfg, n - 1);
      MulSucc(cfg.ratio, n - 1);
    }
  }

  // ---------- Keys ----------

  /** Every SET creates an item until the items run out. */
  lemma {:induction false} ItemsAreSets(cfg: Cfg, n: nat)
    ensures State(cfg, n).items ==
      if State(cfg, n).sets < cfg.maxItems then State(cfg, n).sets
      else if cfg.maxItems < 0 then 0 else cfg.maxItems
  {
    if n > 0 {
      ItemsAreSets(cfg, n - 1);
    }
  }

  lemma {:induction false} SomeItem(cfg: Cfg, n: nat)
    requires cfg.ratio >= 0.0 && cfg.maxItems >= 1 && n > 0
    ensures State(cfg, n).items > 0
  {
    if n == 1 {
      SetsNextIff(cfg, 0);
      assert State(cfg, 0) == Counters(0, 0, 0, 0);
    } else {
      SomeItem(cfg, n - 1);
    }
  }

  /** Every key names an item that exists by then; a SET either creates the next item or overwrites one. */
  lemma KeyExists(cfg: Cfg, n: nat)
    requires cfg.ratio >= 0.0 && cfg.maxItems >= 1
    ensures OpAt(cfg, n).Some? && OpAt(cfg, n).value.key < State(cfg, n + 1).items
  {
    SomeItem(cfg, n + 1);
    if n == 0 {
      SetsNextIff(cfg, 0);
    } else {
      SomeItem(cfg, n);
    }
  }

  /** The modulo never divides by zero exactly when the ratio is not negative and an item is allowed. */
  lemma KeysSafeIff(cfg: Cfg)
    ensures (forall n: nat :: OpAt(cfg, n).Some?) <==> cfg.ratio >= 0.0 && cfg.maxItems >= 1
  {
    if cfg.ratio >= 0.0 && cfg.maxItems >= 1 {
      forall n: nat ensures OpAt(cfg, n).Some? {
        KeyExists(cfg, n);
      }
    } else {
      SetsNextIff(cfg, 0);
      assert OpAt(cfg, 0).None?;
    }
  }

  // ---------- Stopping ----------

  /** The first moment at which all items exist. */
  ghost predicate StopsAt(cfg: Cfg, n: nat)
  {
    n > 0 && State(cfg, n).items >= cfg.maxItems && State(cfg, n - 1).items < cfg.maxItems
  }

  /** While items are missing the run is short. */
  lemma NotYetStopped(cfg: Cfg, n: nat)
    requires 0.0 < cfg.ratio && State(cfg, n).items < cfg.maxItems
    ensures n as real <= (cfg.maxItems - 1) as real / Share(cfg) + 1.0
  {
    RatioBounds(cfg, n);
    ItemsAreSets(cfg, n);
    ShareBound(Share(cfg), n as real, (cfg.maxItems - 1) as real);
  }

  lemma ShareBound(r: real, n: real, m: real)
    requires r > 0.0 && Mul(r, n) - r <= m
    ensures n <= m / r + 1.0
  {
    assert Mul(n - 1.0, r) == Mul(r, n) - r;
    QuotientOrder(m, r, n - 1.0);
  }

  /** With exit-after-creates the run stops within one operation of (max - 1) / share + 1. */
  lemma StopBounds(cfg: Cfg, n: nat)
    requires 0.0 < cfg.ratio && StopsAt(cfg, n)
    ensures
      (cfg.maxItems - 1) as real / Share(cfg) + 1.0 <= n as real <= (cfg.maxItems - 1) as real / Share(cfg) + 2.0
    ensures cfg.ratio >= 1.0 ==> n == cfg.maxItems
  {
    NotYetStopped(cfg, n - 1);
    ItemsAreSets(cfg, n - 1);
    assert State(cfg, n - 1).sets == cfg.maxItems - 1;
    if cfg.ratio >= 1.0 {
      AllSets(cfg, n - 1);
      assert (cfg.maxItems - 1) as real / 1.0 == (cfg.maxItems - 1) as real;
    } else if n > 1 {
      SetsNextIff(cfg, n - 1);
      MulCommutes(cfg.ratio, (n - 1) as real);
      QuotientOrder((cfg.maxItems - 1) as real, cfg.ratio, (n - 1) as real);
    }
  }

  /** Somewhere before all items exist there is a last moment at which one is missing. */
  lemma {:induction false} FirstStop(cfg: Cfg, n: nat) returns (k: nat)
    requires cfg.maxItems >= 1 && State(cfg, n).items >= cfg.maxItems
    ensures StopsAt(cfg, k) && k <= n
  {
    assert State(cfg, 0).items == 0;
    if State(cfg, n - 1).items < cfg.maxItems {
      k := n;
    } else {
      k := FirstStop(cfg, n - 1);
    }
  }

  lemma PositiveStops(cfg: Cfg)
    requires 0.0 < cfg.ratio && cfg.maxItems >= 1
    ensures exists n: nat :: StopsAt(cfg, n)
  {
    NonNegativeQuotient((cfg.maxItems - 1) as real, Share(cfg));
    var n: nat := ((cfg.maxItems - 1) as real / Share(cfg)).Floor + 3;
    if State(cfg, n).items < cfg.maxItems {
      NotYetStopped(cfg, n);
    }
    var k := FirstStop(cfg, n);
  }

  /** With ratio zero there is one SET and no more, with a negative one none. */
  lemma {:induction false} FewSets(cfg: Cfg, n: nat)
    requires cfg.ratio <= 0.0
    ensures State(cfg, n).sets == if n > 0 && cfg.ratio == 0.0 then 1 else 0
  {
    if n > 0 {
      FewSets(cfg, n - 1);
      SetsNextIff(cfg, n - 1);
      if n > 1 {
        NotAbove(cfg.ratio, (n - 1) as real);
      }
    }
  }

  lemma NotAbove(r: real, x: real)
    requires r <= 0.0 && x > 0.0
    ensures Mul(r, x) <= 0.0 && (r < 0.0 ==> Mul(r, x) < 0.0)
  {
    if r < 0.0 {
      PositiveProduct(-r, x);
      assert Mul(-r, x) == -Mul(r, x);
    }
  }

  /** Exit-after-creates does stop a run exactly when an item is allowed and either the ratio is positive or it is
      zero and one item is enough. */
  lemma StopExists(cfg: Cfg)
    ensures (exists n: nat :: StopsAt(cfg, n)) <==>
      cfg.maxItems >= 1 && (cfg.ratio > 0.0 || (cfg.ratio == 0.0 && cfg.maxItems == 1))
  {
    if cfg.maxItems >= 1 && cfg.ratio > 0.0 {
      PositiveStops(cfg);
    } else if cfg.maxItems == 1 && cfg.ratio == 0.0 {
      FewSets(cfg, 1);
      ItemsAreSets(cfg, 1);
      assert State(cfg, 0).items == 0;
      assert StopsAt(cfg, 1);
    } else {
      forall n: nat ensures !StopsAt(cfg, n) {
        NeverStops(cfg, n);
      }
    }
  }

  lemma NeverStops(cfg: Cfg, n: nat)
    requires cfg.maxItems < 1 || cfg.ratio < 0.0 || (cfg.ratio == 0.0 && cfg.maxItems > 1)
    ensures !StopsAt(cfg, n)
  {
    ItemsAreSets(cfg, n);
    if cfg.ratio <= 0.0 {
      FewSets(cfg, n);
    }
  }

  /** int() of a float truncates. */
  function Truncate(x: real): int
  {
    if x >= 0.0 then x.Floor else -((-x).Floor)
  }

  function TotalMsgs(cfg: Cfg): Option<int>
  {
    if cfg.exits && cfg.ratio > 0.0 then Some(Truncate(cfg.maxItems as real / cfg.ratio)) else None
  }

  lemma DivideSplit(m: int, r: real)
    requires r > 0.0
    ensures (m - 1) as real / r == m as real / r - 1.0 / r
  {
    Scaled((m - 1) as real, r);
    Scaled(m as real, r);
    Scaled(1.0, r);
    assert Mul(m as real / r - 1.0 / r, r) == Mul(m as real / r, r) - Mul(1.0 / r, r);
    Cancel((m - 1) as real / r, m as real / r - 1.0 / r, r);
  }

  lemma NonNegativeQuotient(m: real, r: real)
    requires r > 0.0 && m >= 0.0
    ensures m / r >= 0.0
  {
  }

  /** How far the announced total is from the number of operations a run makes. */
  lemma EstimateError(cfg: Cfg, n: nat)
    requires 0.0 < cfg.ratio && cfg.exits && StopsAt(cfg, n)
    ensures TotalMsgs(cfg).Some?
    ensures var total := TotalMsgs(cfg).value as real;
      if cfg.ratio <= 1.0 then total + 1.0 - 1.0 / cfg.ratio <= n as real < total + 3.0 - 1.0 / cfg.ratio
      else n == cfg.maxItems && total <= n as real / cfg.ratio < total + 1.0
  {
    StopBounds(cfg, n);
    DivideSplit(cfg.maxItems, cfg.ratio);
    NonNegativeQuotient(cfg.maxItems as real, cfg.ratio);
  }

  // ---------- The source ----------

  datatype Outcome = Batch(ops: seq<Op>) | Nothing | ZeroDivision

  function ValueBytes(ops: seq<Op>, size: nat -> nat): nat
  {
    if ops == [] then 0 else ValueBytes(ops[..|ops| - 1], size) + size(ops[|ops| - 1].key)
  }

  /** Some operations are those of the run from `n` on. */
  ghost predicate FromRun(cfg: Cfg, n: nat, ops: seq<Op>)
  {
    ops == [] || (FromRun(cfg, n, ops[..|ops| - 1]) && OpAt(cfg, n + |ops| - 1) == Some(ops[|ops| - 1]))
  }

  lemma {:induction false} RunAppend(cfg: Cfg, n: nat, a: seq<Op>, b: seq<Op>)
    requires FromRun(cfg, n, a) && FromRun(cfg, n + |a|, b)
    ensures FromRun(cfg, n, a + b)
  {
    if b == [] {
      assert a + b == a;
    } else {
      var k := |b| - 1;
      RunAppend(cfg, n, a, b[..k]);
      assert (a + b)[..|a + b| - 1] == a + b[..k];
    }
  }

  // ---------- What is handed out ----------

  /** The keys of the mutations among some operations, in order, */
  function SetKeys(ops: seq<Op>): seq<nat>
  {
    if ops == [] then []
    else
      var op := ops[|ops| - 1];
      SetKeys(ops[..|ops| - 1]) + if op.cmd == CMD_TAP_MUTATION then [op.key] else []
  }

  /** and those of the reads. */
  function GetKeys(ops: seq<Op>): seq<nat>
  {
    if ops == [] then []
    else
      var op := ops[|ops| - 1];
      GetKeys(ops[..|ops| - 1]) + if op.cmd == CMD_GET then [op.key] else []
  }

  /** Every operation handed out is a mutation or a read, */
  lemma {:induction false} SetOrGet(cfg: Cfg, n: nat, ops: seq<Op>)
    requires FromRun(cfg, n, ops)
    ensures forall i :: 0 <= i < |ops| ==> ops[i].cmd == CMD_TAP_MUTATION || ops[i].cmd == CMD_GET
  {
    if ops != [] {
      SetOrGet(cfg, n, ops[..|ops| - 1]);
      LastCounts(cfg, n + |ops| - 1, ops[|ops| - 1]);
    }
  }

  /** and the counters count them. */
  lemma {:induction false} CountersCount(cfg: Cfg, n: nat, ops: seq<Op>)
    requires FromRun(cfg, n, ops)
    ensures State(cfg, n + |ops|).sets == State(cfg, n).sets + |SetKeys(ops)|
    ensures State(cfg, n + |ops|).gets == State(cfg, n).gets + |GetKeys(ops)|
  {
    if ops != [] {
      var k := |ops| - 1;
      CountersCount(cfg, n, ops[..k]);
      LastCounts(cfg, n + k, ops[k]);
    }
  }

  lemma LastCounts(cfg: Cfg, n: nat, op: Op)
    requires OpAt(cfg, n) == Some(op)
    ensures op.cmd == CMD_TAP_MUTATION || op.cmd == CMD_GET
    ensures State(cfg, n + 1).sets == State(cfg, n).sets + if op.cmd == CMD_TAP_MUTATION then 1 else 0
    ensures State(cfg, n + 1).gets == State(cfg, n).gets + if op.cmd == CMD_GET then 1 else 0
  {
  }

  /** So the mutations handed out keep to the ratio: of the first operations of a run they are within one of their
      share. */
  lemma MutationsKeepRatio(cfg: Cfg, ops: seq<Op>)
    requires cfg.ratio >= 0.0 && FromRun(cfg, 0, ops)
    ensures Mul(Share(cfg), |ops| as real) - Share(cfg) <= |SetKeys(ops)| as real
    ensures |SetKeys(ops)| as real <= Mul(Share(cfg), |ops| as real) + 1.0
    ensures |SetKeys(ops)| + |GetKeys(ops)| == |ops|
  {
    CountersCount(cfg, 0, ops);
    assert State(cfg, 0) == Counters(0, 0, 0, 0);
    RatioBounds(cfg, |ops|);
  }

  /** The key of mutation number `j`: the items are created in order, each once, and then gone round. */
  function SetKey(maxItems: nat, j: nat): nat
    requires maxItems > 0
  {
    if j < maxItems then j else (j + 1) % maxItems
  }

  lemma KeyOfSet(cfg: Cfg, n: nat, op: Op)
    requires cfg.maxItems >= 1 && OpAt(cfg, n) == Some(op) && op.cmd == CMD_TAP_MUTATION
    ensures op.key == SetKey(cfg.maxItems, State(cfg, n).sets)
  {
    ItemsAreSets(cfg, n);
  }

  /** The mutations of a run carry the keys 0, 1, 2 and so on up to the last item, and after that every key in turn. */
  lemma {:induction false} MutationKeys(cfg: Cfg, ops: seq<Op>)
    requires cfg.maxItems >= 1 && FromRun(cfg, 0, ops)
    ensures forall j :: 0 <= j < |SetKeys(ops)| ==> SetKeys(ops)[j] == SetKey(cfg.maxItems, j)
  {
    if ops != [] {
      var k := |ops| - 1;
      MutationKeys(cfg, ops[..k]);
      CountersCount(cfg, 0, ops[..k]);
      assert State(cfg, 0) == Counters(0, 0, 0, 0);
      if ops[k].cmd == CMD_TAP_MUTATION {
        KeyOfSet(cfg, k, ops[k]);
      }
    }
  }

  /** A read goes round the items created so far. */
  lemma ReadKey(cfg: Cfg, n: nat, op: Op)
    requires cfg.maxItems >= 1 && OpAt(cfg, n) == Some(op) && op.cmd == CMD_GET
    ensures var c := State(cfg, n);
      var created := if c.sets < cfg.maxItems then c.sets else cfg.maxItems;
      created > 0 && op.key == (c.gets + 1) % created
  {
    ItemsAreSets(cfg, n);
  }

  /** The counters are those of the run. */
  ghost predicate OnRun(cfg: Cfg, c: Counters)
  {
    State(cfg, c.ops) == c
  }

  /** The source has not passed the moment at which it should stop. */
  ghost predicate InTime(cfg: Cfg, n: nat)
  {
    cfg.exits && n > 0 ==> State(cfg, n).items < cfg.maxItems
  }

  lemma StopsHere(cfg: Cfg, n: nat)
    requires InTime(cfg, n) && OpAt(cfg, n).Some? && cfg.exits && State(cfg, n + 1).items >= cfg.maxItems
    ensures StopsAt(cfg, n + 1)
  {
    assert State(cfg, 0) == Counters(0, 0, 0, 0);
  }

  lemma RunSnoc(cfg: Cfg, n: nat, ops: seq<Op>, op: Op)
    requires FromRun(cfg, n, ops) && OpAt(cfg, n + |ops|) == Some(op)
    ensures FromRun(cfg, n, ops + [op])
  {
    assert (ops + [op])[..|ops|] == ops;
  }

  lemma BytesSnoc(ops: seq<Op>, op: Op, size: nat -> nat)
    ensures ValueBytes(ops + [op], size) == ValueBytes(ops, size) + size(op.key)
  {
    assert (ops + [op])[..|ops|] == ops;
  }

  class GenSource {
    const cfg: Cfg
    const size: nat -> nat  // the length of the value made for a key
    var done: bool
    var curOps: nat
    var curGets: nat
    var curSets: nat
    var curItems: nat

    function Now(): Counters
      reads this
    {
      Counters(curOps, curGets, curSets, curItems)
    }

    ghost predicate Valid()
      reads this
    {
      OnRun(cfg, Now()) && if done then cfg.exits && StopsAt(cfg, curOps) else InTime(cfg, curOps)
    }

    constructor (cfg: Cfg, size: nat -> nat)
      ensures Valid() && !done && curOps == 0 && this.cfg == cfg && this.size == size
    {
      this.cfg, this.size := cfg, size;
      done, curOps, curGets, curSets, curItems := false, 0, 0, 0, 0;
    }

    /** One turn of the loop: choose SET or GET, choose the key, count. */
    method Generate() returns (op: Option<Op>)
      requires OnRun(cfg, Now())
      modifies `curOps, `curGets, `curSets, `curItems
      ensures op == OpAt(cfg, old(curOps))
      ensures op.Some? ==> curOps == old(curOps) + 1 && OnRun(cfg, Now())
    {
      var cmd, key;
      if cfg.ratio >= curSets as real / (if curOps == 0 then 1 else curOps) as real {
        curSets := curSets + 1;
        cmd := CMD_TAP_MUTATION;
        if curItems < cfg.maxItems {
          key := Some(curItems);
          curItems := curItems + 1;
        } else {
          key := Mod(curSets, curItems);
        }
      } else {
        curGets := curGets + 1;
        cmd := CMD_GET;
        key := Mod(curGets, curItems);
      }
      if key.None? {
        return None;
      }
      curOps := curOps + 1;
      op := Some(Op(cmd, key.value));
    }

    /** One turn of the loop, with the test that ends the run. */
    method Turn(ops: seq<Op>, ghost start: nat) returns (op: Option<Op>)
      requires Valid() && !done && FromRun(cfg, start, ops) && curOps == start + |ops|
      modifies this
      ensures op.None? ==> !(cfg.ratio >= 0.0 && cfg.maxItems >= 1)
      ensures op.Some? ==> Valid() && FromRun(cfg, start, ops + [op.value]) && curOps == start + |ops| + 1
    {
      op := Generate();
      if op.None? {
        KeysSafeIff(cfg);
        return;
      }
      RunSnoc(cfg, start, ops, op.value);
      if cfg.exits && curItems >= cfg.maxItems {
        StopsHere(cfg, curOps - 1);
        done := true;
      }
    }

    /** One call of provide_batch: the next operations of the run, whatever the limits. */
    method ProvideBatch(maxSize: int, maxBytes: int) returns (r: Outcome)
      requires Valid()
      modifies this
      ensures old(done) ==> r == Nothing
      ensures r.Nothing? ==> Now() == old(Now()) && done == old(done) && (done || maxSize <= 0 || maxBytes <= 0)
      ensures r.Batch? ==> Valid() && FromRun(cfg, old(curOps), r.ops) && curOps == old(curOps) + |r.ops| && r.ops != []
      ensures r.Batch? ==> done || |r.ops| >= maxSize || ValueBytes(r.ops, size) >= maxBytes
      ensures r.Batch? ==> |r.ops| <= maxSize && ValueBytes(r.ops[..|r.ops| - 1], size) < maxBytes
      ensures cfg.ratio >= 0.0 && cfg.maxItems >= 1 ==> !r.ZeroDivision?
      ensures r.Batch? ==> forall i :: 0 <= i < |r.ops| ==> r.ops[i].cmd in {CMD_TAP_MUTATION, CMD_GET}
      ensures r.Batch? ==>
        curSets == old(curSets) + |SetKeys(r.ops)| && curGets == old(curGets) + |GetKeys(r.ops)|
    {
      r := NextBatch(maxSize, maxBytes);
      if r.Batch? {
        CountersCount(cfg, old(curOps), r.ops);
        SetOrGet(cfg, old(curOps), r.ops);
      }
    }

    /** Its loop. */
    method NextBatch(maxSize: int, maxBytes: int) returns (r: Outcome)
      requires Valid()
      modifies this
      ensures old(done) ==> r == Nothing
      ensures r.Nothing? ==> Now() == old(Now()) && done == old(done) && (done || maxSize <= 0 || maxBytes <= 0)
      ensures r.Batch? ==> Valid() && FromRun(cfg, old(curOps), r.ops) && curOps == old(curOps) + |r.ops| && r.ops != []
      ensures r.Batch? ==> done || |r.ops| >= maxSize || ValueBytes(r.ops, size) >= maxBytes
      ensures r.Batch? ==> |r.ops| <= maxSize && ValueBytes(r.ops[..|r.ops| - 1], size) < maxBytes
      ensures cfg.ratio >= 0.0 && cfg.maxItems >= 1 ==> !r.ZeroDivision?
    {
      if done {
        return Nothing;
      }
      var ops, bytes := [], 0;
      while |ops| < maxSize && bytes < maxBytes
        invariant Valid() && !done && bytes == ValueBytes(ops, size)
        invariant FromRun(cfg, old(curOps), ops) && curOps == old(curOps) + |ops|
        invariant ops == [] ==> Now() == old(Now())
        invariant ops != [] ==> |ops| <= maxSize && ValueBytes(ops[..|ops| - 1], size) < maxBytes
        decreases maxSize - |ops|
      {
        var op := Turn(ops, old(curOps));
        if op.None? {
          return ZeroDivision;
        }
        BytesSnoc(ops, op.value, size);
        assert (ops + [op.value])[..|ops|] == ops;
        ops := ops + [op.value];
        bytes := bytes + size(op.value.key);
        if done {
          return Batch(ops);
        }
      }
      r := if ops == [] then Nothing else Batch(ops);
    }
  }
}
