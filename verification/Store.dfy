/** What a cluster's data means: operations on a store keyed by vbucket and key, and why a batch may
    be reordered across vbuckets and partly repeated without changing the result. */
module Store {
  import opened Wire

  type Key = (int, Bytes)

  datatype Item = Item(val: Bytes, flg: nat, exp: nat)
  datatype Effect = Put(item: Item) | Remove | Keep
  datatype Op = Op(vbucket: int, key: Bytes, effect: Effect)

  type Data = map<Key, Item>

  function ApplyOp(s: Data, op: Op): Data
  {
    match op.effect
    case Put(item) => s[(op.vbucket, op.key) := item]
    case Remove => s - {(op.vbucket, op.key)}
    case Keep => s
  }

  function ApplyAll(s: Data, ops: seq<Op>): Data
  {
    if ops == [] then s else ApplyOp(ApplyAll(s, ops[..|ops| - 1]), ops[|ops| - 1])
  }

  lemma ApplySnoc(s: Data, ops: seq<Op>, op: Op)
    ensures ApplyAll(s, ops + [op]) == ApplyOp(ApplyAll(s, ops), op)
  {
    assert (ops + [op])[..|ops|] == ops;
  }

  function Look(s: Data, k: Key): Option<Item>
  {
    if k in s then Some(s[k]) else None
  }

  predicate Touches(op: Op, k: Key)
  {
    (op.vbucket, op.key) == k && !op.effect.Keep?
  }

  predicate Writes(ops: seq<Op>, k: Key)
  {
    exists i :: 0 <= i < |ops| && Touches(ops[i], k)
  }

  /** What one key holds after the operations, given what it held before. */
  function After(ops: seq<Op>, k: Key, x: Option<Item>): Option<Item>
  {
    if ops == [] then x
    else
      var op := ops[|ops| - 1];
      if !Touches(op, k) then After(ops[..|ops| - 1], k, x)
      else if op.effect.Put? then Some(op.effect.item) else None
  }

  lemma {:induction false} LookApply(s: Data, ops: seq<Op>, k: Key)
    ensures Look(ApplyAll(s, ops), k) == After(ops, k, Look(s, k))
  {
    if ops != [] {
      LookApply(s, ops[..|ops| - 1], k);
    }
  }

  function ProjectOps(ops: seq<Op>, v: int): seq<Op>
  {
    if ops == [] then []
    else
      var op := ops[|ops| - 1];
      ProjectOps(ops[..|ops| - 1], v) + if op.vbucket == v then [op] else []
  }

  lemma ProjectSnoc(ops: seq<Op>, op: Op, v: int)
    ensures ProjectOps(ops + [op], v) == ProjectOps(ops, v) + if op.vbucket == v then [op] else []
  {
    assert (ops + [op])[..|ops|] == ops;
  }

  lemma {:induction false} ProjectAppend(ops: seq<Op>, ps: seq<Op>, v: int)
    ensures ProjectOps(ops + ps, v) == ProjectOps(ops, v) + ProjectOps(ps, v)
  {
    if ps == [] {
      assert ops + ps == ops;
    } else {
      var k := |ps| - 1;
      ProjectAppend(ops, ps[..k], v);
      assert (ops + ps)[..|ops + ps| - 1] == ops + ps[..k];
    }
  }

  lemma AfterSnoc(ops: seq<Op>, op: Op, k: Key, x: Option<Item>)
    ensures After(ops + [op], k, x) ==
            if !Touches(op, k) then After(ops, k, x) else if op.effect.Put? then Some(op.effect.item) else None
  {
    assert (ops + [op])[..|ops|] == ops;
  }

  /** Only the key's own vbucket matters to what it ends up holding. */
  lemma {:induction false} AfterProject(ops: seq<Op>, k: Key, x: Option<Item>)
    ensures After(ops, k, x) == After(ProjectOps(ops, k.0), k, x)
  {
    if ops != [] {
      var op := ops[|ops| - 1];
      AfterProject(ops[..|ops| - 1], k, x);
      var p := ProjectOps(ops[..|ops| - 1], k.0);
      assert ProjectOps(ops, k.0) == if op.vbucket == k.0 then p + [op] else p;
      AfterSnoc(p, op, k, x);
    }
  }

  /** Once written, a key forgets what it held; never written, it keeps it. */
  lemma {:induction false} AfterForgets(ops: seq<Op>, k: Key, x: Option<Item>, y: Option<Item>)
    ensures Writes(ops, k) ==> After(ops, k, x) == After(ops, k, y)
    ensures !Writes(ops, k) ==> After(ops, k, x) == x
  {
    if ops != [] {
      var n := |ops| - 1;
      AfterForgets(ops[..n], k, x, y);
      if Writes(ops, k) && !Touches(ops[n], k) {
        var i :| 0 <= i < |ops| && Touches(ops[i], k);
        assert Touches(ops[..n][i], k);
      }
      if Writes(ops[..n], k) {
        var i :| 0 <= i < n && Touches(ops[..n][i], k);
        assert Touches(ops[i], k);
      }
    }
  }

  /** Two stores that differ at most where `ops` writes. */
  ghost predicate AgreeOutside(s: Data, t: Data, ops: seq<Op>)
  {
    forall k :: Writes(ops, k) || Look(s, k) == Look(t, k)
  }

  ghost predicate SubOps(ps: seq<Op>, ops: seq<Op>)
  {
    forall i :: 0 <= i < |ps| ==> ps[i] in ops
  }

  lemma WritesMono(ps: seq<Op>, ops: seq<Op>, k: Key)
    requires SubOps(ps, ops)
    ensures Writes(ps, k) ==> Writes(ops, k)
  {
    if Writes(ps, k) {
      var i :| 0 <= i < |ps| && Touches(ps[i], k);
      var j :| 0 <= j < |ops| && ops[j] == ps[i];
      assert Touches(ops[j], k);
    }
  }

  /** Any part of a batch, in any order, stays within the keys the batch writes. */
  lemma PartialStaysInside(s: Data, t: Data, ps: seq<Op>, ops: seq<Op>)
    requires AgreeOutside(s, t, ops) && SubOps(ps, ops)
    ensures AgreeOutside(s, ApplyAll(t, ps), ops)
  {
    forall k | !Writes(ops, k) ensures Look(s, k) == Look(ApplyAll(t, ps), k) {
      WritesMono(ps, ops, k);
      LookApply(t, ps, k);
      AfterForgets(ps, k, Look(t, k), Look(t, k));
    }
  }

  ghost predicate SamePerVbucket(ps: seq<Op>, ops: seq<Op>)
  {
    forall v :: ProjectOps(ps, v) == ProjectOps(ops, v)
  }

  /** One complete pass over the batch, in any order that keeps each vbucket's own order, erases
      every trace of earlier partial passes: the result is the batch applied once, in order. */
  lemma CompletePassDecides(s: Data, t: Data, ps: seq<Op>, ops: seq<Op>)
    requires AgreeOutside(s, t, ops) && SamePerVbucket(ps, ops)
    ensures ApplyAll(t, ps) == ApplyAll(s, ops)
  {
    var a, b := ApplyAll(t, ps), ApplyAll(s, ops);
    forall k ensures Look(a, k) == Look(b, k) {
      LookApply(t, ps, k);
      LookApply(s, ops, k);
      AfterProject(ps, k, Look(t, k));
      AfterProject(ops, k, Look(t, k));
      AfterForgets(ops, k, Look(s, k), Look(t, k));
      AfterForgets(ops, k, Look(t, k), Look(s, k));
    }
    SameLooks(a, b);
  }

  lemma SameLooks(a: Data, b: Data)
    requires forall k :: Look(a, k) == Look(b, k)
    ensures a == b
  {
    forall k | k in a ensures k in b && b[k] == a[k] {
      assert Look(a, k) == Look(b, k);
    }
    forall k | k in b ensures k in a {
      assert Look(a, k) == Look(b, k);
    }
  }

  lemma ApplyOne(s: Data, op: Op)
    ensures ApplyAll(s, [op]) == ApplyOp(s, op)
  {
    assert [op][..0] == [];
  }

  // ---------- Attempts that ask for different things ----------

  /** Passes over the store, one after the other. */
  function ApplyPasses(s: Data, passes: seq<seq<Op>>): Data
  {
    if passes == [] then s else ApplyAll(ApplyPasses(s, passes[..|passes| - 1]), passes[|passes| - 1])
  }

  /** What failed attempts may leave behind: each applied some of what it asked for, and was refused something. */
  ghost predicate Partial(passes: seq<seq<Op>>, asked: seq<seq<Op>>)
  {
    && |passes| == |asked|
    && forall j :: 0 <= j < |asked| ==> SubOps(passes[j], asked[j]) && |passes[j]| < |asked[j]|
  }

  lemma PartialSnoc(passes: seq<seq<Op>>, asked: seq<seq<Op>>, pass: seq<Op>, ops: seq<Op>)
    requires Partial(passes, asked) && SubOps(pass, ops) && |pass| < |ops|
    ensures Partial(passes + [pass], asked + [ops])
  {
    forall j | 0 <= j < |asked + [ops]|
      ensures SubOps((passes + [pass])[j], (asked + [ops])[j]) && |(passes + [pass])[j]| < |(asked + [ops])[j]|
    {
      if j < |asked| {
        assert SubOps(passes[j], asked[j]);
      }
    }
  }

  /** Whatever a failed attempt could have written, the last one writes too. An attempt that asks for one thing only
      writes nothing when it fails. */
  ghost predicate Overwritten(asked: seq<seq<Op>>, last: seq<Op>)
  {
    forall j, k :: 0 <= j < |asked| && |asked[j]| > 1 && Writes(asked[j], k) ==> Writes(last, k)
  }

  /** However the attempts before it failed, the last one decides. */
  ghost predicate LastDecides(asked: seq<seq<Op>>, last: seq<Op>)
  {
    forall s, passes :: Partial(passes, asked) ==> ApplyAll(ApplyPasses(s, passes), last) == ApplyAll(s, last)
  }

  lemma {:induction false} PassesStayInside(s: Data, passes: seq<seq<Op>>, asked: seq<seq<Op>>, last: seq<Op>)
    requires Partial(passes, asked) && Overwritten(asked, last)
    ensures AgreeOutside(s, ApplyPasses(s, passes), last)
  {
    if passes != [] {
      var n := |passes| - 1;
      PassesStayInside(s, passes[..n], asked[..n], last);
      var t := ApplyPasses(s, passes[..n]);
      forall k | !Writes(last, k) ensures Look(s, k) == Look(ApplyAll(t, passes[n]), k) {
        assert Look(s, k) == Look(t, k);
        PassKeeps(t, passes[n], asked[n], last, k);
      }
    }
  }

  lemma PassKeeps(t: Data, pass: seq<Op>, asked: seq<Op>, last: seq<Op>, k: Key)
    requires SubOps(pass, asked) && |pass| < |asked| && !Writes(last, k)
    requires |asked| > 1 && Writes(asked, k) ==> Writes(last, k)
    ensures Look(ApplyAll(t, pass), k) == Look(t, k)
  {
    if |asked| > 1 {
      WritesMono(pass, asked, k);
    }
    LookApply(t, pass, k);
    AfterForgets(pass, k, Look(t, k), Look(t, k));
  }

  /** A write that the last attempt does not repeat can show. */
  lemma StrayShows(op: Op, last: seq<Op>) returns (s: Data)
    requires !op.effect.Keep? && !Writes(last, (op.vbucket, op.key))
    ensures ApplyAll(ApplyAll(s, [op]), last) != ApplyAll(s, last)
  {
    var k := (op.vbucket, op.key);
    s := if op.effect.Put? then map[] else map[k := Item([], 0, 0)];
    ApplyOne(s, op);
    LookApply(s, last, k);
    LookApply(ApplyAll(s, [op]), last, k);
    AfterForgets(last, k, Look(s, k), Look(s, k));
    AfterForgets(last, k, Look(ApplyAll(s, [op]), k), Look(s, k));
    assert Look(s, k) != Look(ApplyAll(s, [op]), k);
  }

  function Nothing(n: nat): (passes: seq<seq<Op>>)
    ensures |passes| == n && forall j :: 0 <= j < n ==> passes[j] == []
  {
    if n == 0 then [] else Nothing(n - 1) + [[]]
  }

  lemma {:induction false} EmptyPasses(s: Data, passes: seq<seq<Op>>, j: nat, pass: seq<Op>)
    requires j < |passes| && passes[j] == pass && forall i :: 0 <= i < |passes| && i != j ==> passes[i] == []
    ensures ApplyPasses(s, passes) == ApplyAll(s, pass)
  {
    var n := |passes| - 1;
    if j < n {
      EmptyPasses(s, passes[..n], j, pass);
    } else {
      NoPasses(s, passes[..n]);
    }
  }

  lemma {:induction false} NoPasses(s: Data, passes: seq<seq<Op>>)
    requires forall i :: 0 <= i < |passes| ==> passes[i] == []
    ensures ApplyPasses(s, passes) == s
  {
    if passes != [] {
      NoPasses(s, passes[..|passes| - 1]);
    }
  }

  /** The last attempt decides whatever came before it if and only if it writes every key that a failed attempt
      could have written. */
  lemma LastDecidesIff(asked: seq<seq<Op>>, last: seq<Op>)
    requires forall j :: 0 <= j < |asked| ==> asked[j] != []
    ensures LastDecides(asked, last) <==> Overwritten(asked, last)
  {
    if Overwritten(asked, last) {
      forall s, passes | Partial(passes, asked) ensures ApplyAll(ApplyPasses(s, passes), last) == ApplyAll(s, last) {
        PassesStayInside(s, passes, asked, last);
        CompletePassDecides(s, ApplyPasses(s, passes), last, last);
      }
    } else {
      var j, k :| 0 <= j < |asked| && |asked[j]| > 1 && Writes(asked[j], k) && !Writes(last, k);
      var i :| 0 <= i < |asked[j]| && Touches(asked[j][i], k);
      var op := asked[j][i];
      var s := StrayShows(op, last);
      var passes := Nothing(|asked|)[j := [op]];
      assert Partial(passes, asked);
      EmptyPasses(s, passes, j, [op]);
    }
  }
}
