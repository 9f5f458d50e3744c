/** abnormal_extract: the stretches of samples on the wrong side of a threshold. */
module Runs {
  import opened Wire

  /** evalfunc: None for an operator outside the table, which lacks `<=`. */
  function Evaluate(value: real, threshold: real, op: string): Option<bool>
  {
    match op
    case ">=" => Some(value >= threshold)
    case ">" => Some(value > threshold)
    case "==" => Some(value == threshold)
    case "<" => Some(value < threshold)
    case "!=" => Some(value != threshold)
    case _ => None
  }

  /** What the operators mean: a sample is above, at or below the threshold, and the other two join or negate these. */
  lemma Operators(value: real, threshold: real, d: real)
    requires d > 0.0
    ensures Evaluate(threshold + d, threshold, ">") == Some(true) && Evaluate(threshold, threshold, "==") == Some(true)
    ensures Evaluate(threshold - d, threshold, "<") == Some(true)
    ensures var above, same, below := Evaluate(value, threshold, ">"), Evaluate(value, threshold, "=="),
                                      Evaluate(value, threshold, "<");
      && above.Some? && same.Some? && below.Some?
      && (above.value || same.value || below.value)
      && !(above.value && same.value) && !(above.value && below.value) && !(same.value && below.value)
      && Evaluate(value, threshold, ">=") == Some(above.value || same.value)
      && Evaluate(value, threshold, "!=") == Some(!same.value)
  {
  }

  lemma UnsupportedIsNone(value: real, threshold: real, op: string)
    ensures Evaluate(value, threshold, op).Some? <==> Supported(op)
  {
  }

  predicate Supported(op: string)
  {
    op in {">=", ">", "==", "<", "!="}
  }

  /** A begin index and a number of samples. */
  type Run = (nat, nat)

  function Last(r: Run): nat
  {
    r.0 + r.1
  }

  predicate Hit(vals: seq<real>, threshold: real, op: string, i: int)
    requires 0 <= i < |vals|
  {
    Evaluate(vals[i], threshold, op) == Some(true)
  }

  /** A run of samples that satisfy the condition and cannot be extended on either side. */
  ghost predicate Maximal(vals: seq<real>, threshold: real, op: string, r: Run)
  {
    && r.1 > 0 && Last(r) <= |vals|
    && (forall i :: r.0 <= i < Last(r) ==> Hit(vals, threshold, op, i))
    && (r.0 == 0 || !Hit(vals, threshold, op, r.0 - 1))
    && (Last(r) == |vals| || !Hit(vals, threshold, op, Last(r)))
  }

  /** Ordered, disjoint and not even adjacent. */
  ghost predicate Apart(runs: seq<Run>)
  {
    forall i, j :: 0 <= i < j < |runs| ==> Last(runs[i]) < runs[j].0
  }

  /** Exactly the maximal runs that end before `e`. */
  ghost predicate ListsTo(vals: seq<real>, threshold: real, op: string, runs: seq<Run>, e: int)
  {
    Apart(runs) && forall r :: r in runs <==> Maximal(vals, threshold, op, r) && Last(r) < e
  }

  ghost predicate Lists(vals: seq<real>, threshold: real, op: string, runs: seq<Run>)
  {
    Apart(runs) && forall r :: r in runs <==> Maximal(vals, threshold, op, r)
  }

  method AbnormalExtract(vals: seq<real>, threshold: real, op: string) returns (abnormal: seq<Run>)
    ensures Lists(vals, threshold, op, abnormal)
    ensures !Supported(op) ==> abnormal == []
  {
    abnormal := [];
    var begin, count := -1, 0;
    for i := 0 to |vals|
      invariant ListsTo(vals, threshold, op, abnormal, if begin < 0 then i else begin)
      invariant begin < 0 ==> count == 0 && (i == 0 || !Hit(vals, threshold, op, i - 1))
      invariant begin >= 0 ==> begin + count == i && count > 0 && (begin == 0 || !Hit(vals, threshold, op, begin - 1))
      invariant begin >= 0 ==> forall k :: begin <= k < i ==> Hit(vals, threshold, op, k)
      invariant !Supported(op) ==> abnormal == [] && begin < 0
    {
      var ev := Evaluate(vals[i], threshold, op);
      if ev.None? {
        Unsupported(vals, threshold, op);
        return;
      } else if ev.value {
        if begin < 0 {
          begin := i;
        }
        count := count + 1;
      } else {
        if begin >= 0 {
          CloseRun(vals, threshold, op, abnormal, begin, i);
          abnormal := abnormal + [(begin, count)];
          begin, count := -1, 0;
        } else {
          NoneEndsAt(vals, threshold, op, abnormal, i);
        }
      }
    }
    if begin >= 0 {
      CloseRun(vals, threshold, op, abnormal, begin, |vals|);
      abnormal := abnormal + [(begin, count)];
    } else {
      NoneEndsAt(vals, threshold, op, abnormal, |vals|);
    }
  }

  lemma Unsupported(vals: seq<real>, threshold: real, op: string)
    requires !Supported(op)
    ensures forall r: Run :: !Maximal(vals, threshold, op, r)
  {
    forall r: Run ensures !Maximal(vals, threshold, op, r) {
      assert r.0 < |vals| ==> !Hit(vals, threshold, op, r.0);
    }
  }

  /** Two maximal runs that do not lie apart are the same run. */
  lemma SameRun(vals: seq<real>, threshold: real, op: string, r: Run, s: Run)
    requires Maximal(vals, threshold, op, r) && Maximal(vals, threshold, op, s)
    requires r.0 <= Last(s) && s.0 <= Last(r)
    ensures r == s
  {
    if r.0 < s.0 {
      Starts(vals, threshold, op, r, s);
    } else if s.0 < r.0 {
      Starts(vals, threshold, op, s, r);
    }
  }

  /** A run that starts after another starts after its end. */
  lemma Starts(vals: seq<real>, threshold: real, op: string, r: Run, s: Run)
    requires Maximal(vals, threshold, op, r) && Maximal(vals, threshold, op, s) && r.0 < s.0
    ensures Last(r) < s.0
  {
    assert !Hit(vals, threshold, op, s.0 - 1);
  }

  lemma CloseRun(vals: seq<real>, threshold: real, op: string, runs: seq<Run>, begin: nat, i: nat)
    requires begin < i <= |vals| && ListsTo(vals, threshold, op, runs, begin)
    requires Maximal(vals, threshold, op, (begin, i - begin))
    ensures ListsTo(vals, threshold, op, runs + [(begin, i - begin)], i + 1)
  {
    var r: Run := (begin, i - begin);
    assert Last(r) == i;
    forall s: Run ensures s in runs + [r] <==> Maximal(vals, threshold, op, s) && Last(s) < i + 1 {
      if Maximal(vals, threshold, op, s) && begin <= Last(s) <= i {
        SameRun(vals, threshold, op, r, s);
      }
    }
    assert forall k :: 0 <= k < |runs| ==> runs[k] in runs;
  }

  lemma NoneEndsAt(vals: seq<real>, threshold: real, op: string, runs: seq<Run>, i: nat)
    requires i <= |vals| && ListsTo(vals, threshold, op, runs, i)
    requires i == 0 || !Hit(vals, threshold, op, i - 1)
    ensures ListsTo(vals, threshold, op, runs, i + 1)
  {
    forall r: Run | Maximal(vals, threshold, op, r) ensures Last(r) != i {
      assert Hit(vals, threshold, op, Last(r) - 1);
    }
  }

  /** There is one such list: it is determined by the samples. */
  lemma {:induction false} RunsUnique(vals: seq<real>, threshold: real, op: string, a: seq<Run>, b: seq<Run>, e: int)
    requires ListsTo(vals, threshold, op, a, e) && ListsTo(vals, threshold, op, b, e)
    ensures a == b
    decreases |a|
  {
    BothEmpty(a, b);
    if a != [] {
      var k, l := |a| - 1, |b| - 1;
      assert a[k] in a && b[l] in b;
      LastIsGreatest(a, b[l]);
      LastIsGreatest(b, a[k]);
      SameRun(vals, threshold, op, a[k], b[l]);
      DropLast(vals, threshold, op, a, e);
      DropLast(vals, threshold, op, b, e);
      RunsUnique(vals, threshold, op, a[..k], b[..l], a[k].0);
      assert a == a[..k] + [a[k]] && b == b[..l] + [b[l]];
    }
  }

  lemma LastIsGreatest(a: seq<Run>, r: Run)
    requires Apart(a) && r in a && a != []
    ensures r.0 <= Last(a[|a| - 1])
  {
    var i :| 0 <= i < |a| && a[i] == r;
  }

  lemma DropLast(vals: seq<real>, threshold: real, op: string, a: seq<Run>, e: int)
    requires ListsTo(vals, threshold, op, a, e) && a != []
    ensures ListsTo(vals, threshold, op, a[..|a| - 1], a[|a| - 1].0)
  {
    var k := |a| - 1;
    forall r: Run ensures r in a[..k] <==> r in a && Last(r) < a[k].0 {
      BeforeLast(a, r);
    }
    assert a[k] in a;
  }

  lemma BeforeLast(a: seq<Run>, r: Run)
    requires Apart(a) && a != []
    ensures r in a[..|a| - 1] <==> r in a && Last(r) < a[|a| - 1].0
  {
    var k := |a| - 1;
    if r in a {
      var i :| 0 <= i < |a| && a[i] == r;
      assert i < k ==> a[..k][i] == r;
    }
  }

  /** An index satisfies the condition just when a listed run covers it, and no two runs cover it. */
  lemma Covered(vals: seq<real>, threshold: real, op: string, runs: seq<Run>, i: nat)
    requires Lists(vals, threshold, op, runs) && i < |vals|
    ensures Hit(vals, threshold, op, i) <==> exists r :: r in runs && r.0 <= i < Last(r)
    ensures forall r, s :: r in runs && s in runs && r.0 <= i < Last(r) && s.0 <= i < Last(s) ==> r == s
  {
    if Hit(vals, threshold, op, i) {
      var r := Grow(vals, threshold, op, i);
      assert r in runs;
    }
    forall r, s | r in runs && s in runs && r.0 <= i < Last(r) && s.0 <= i < Last(s) ensures r == s {
      SameRun(vals, threshold, op, r, s);
    }
  }

  /** Every satisfying index lies in a maximal run. */
  lemma Grow(vals: seq<real>, threshold: real, op: string, i: nat) returns (r: Run)
    requires i < |vals| && Hit(vals, threshold, op, i)
    ensures Maximal(vals, threshold, op, r) && r.0 <= i < Last(r)
  {
    var lo, hi := i, i + 1;
    while lo > 0 && Hit(vals, threshold, op, lo - 1)
      invariant 0 <= lo <= i && forall k :: lo <= k <= i ==> Hit(vals, threshold, op, k)
    {
      lo := lo - 1;
    }
    while hi < |vals| && Hit(vals, threshold, op, hi)
      invariant i < hi <= |vals| && forall k :: lo <= k < hi ==> Hit(vals, threshold, op, k)
    {
      hi := hi + 1;
    }
    r := (lo, hi - lo);
  }
}
