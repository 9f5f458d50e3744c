/** linreg over the reals: the line of least squared error. */
module Regression {
  import opened Reals

  /** One pair of the zipped lists. */
  datatype Sample = Sample(x: real, y: real)

  type Samples = seq<Sample>

  function SumX(p: Samples): real
  {
    if p == [] then 0.0 else SumX(p[..|p| - 1]) + p[|p| - 1].x
  }

  function SumY(p: Samples): real
  {
    if p == [] then 0.0 else SumY(p[..|p| - 1]) + p[|p| - 1].y
  }

  function SumXX(p: Samples): real
  {
    if p == [] then 0.0
    else
      var s := p[|p| - 1];
      SumXX(p[..|p| - 1]) + Mul(s.x, s.x)
  }

  function SumXY(p: Samples): real
  {
    if p == [] then 0.0
    else
      var s := p[|p| - 1];
      SumXY(p[..|p| - 1]) + Mul(s.x, s.y)
  }

  /** How far a sample lies above the line y = a*x + b. */
  function Residual(s: Sample, a: real, b: real): real
  {
    s.y - Mul(a, s.x) - b
  }

  function SquaredError(p: Samples, a: real, b: real): real
  {
    if p == [] then 0.0
    else
      var r := Residual(p[|p| - 1], a, b);
      SquaredError(p[..|p| - 1], a, b) + Mul(r, r)
  }

  function Det(p: Samples): real
  {
    Mul(SumXX(p), |p| as real) - Mul(SumX(p), SumX(p))
  }

  ghost predicate AllEqual(p: Samples)
  {
    forall i, j :: 0 <= i < |p| && 0 <= j < |p| ==> p[i].x == p[j].x
  }

  /** The first line has no greater error than the second, and the same only if they are the same line. */
  ghost predicate Better(p: Samples, a: real, b: real, a': real, b': real)
  {
    && SquaredError(p, a, b) <= SquaredError(p, a', b')
    && (SquaredError(p, a, b) == SquaredError(p, a', b') ==> a' == a && b' == b)
  }

  // ---------- The determinant ----------

  /** The squared distance of all x values from `c`. */
  function Spread(p: Samples, c: real): real
  {
    if p == [] then 0.0
    else
      var d := p[|p| - 1].x - c;
      Spread(p[..|p| - 1], c) + Mul(d, d)
  }

  lemma {:induction false} SpreadSign(p: Samples, c: real)
    ensures Spread(p, c) >= 0.0
    ensures Spread(p, c) == 0.0 <==> forall i :: 0 <= i < |p| ==> p[i].x == c
  {
    if p != [] {
      var k := |p| - 1;
      SpreadSign(p[..k], c);
      SquareSign(p[k].x - c);
      assert (forall i :: 0 <= i < |p| ==> p[i].x == c) <==>
        (forall i :: 0 <= i < k ==> p[..k][i].x == c) && p[k].x == c;
    }
  }

  lemma SpreadStep(n: real, sx: real, sxx: real, x: real, c: real, before: real, after: real, n': real, sx': real,
                   sxx': real)
    requires before == sxx - 2.0 * Mul(c, sx) + Mul(n, Mul(c, c)) && after == before + Mul(x - c, x - c)
    requires n' == n + 1.0 && sx' == sx + x && sxx' == sxx + Mul(x, x)
    ensures after == sxx' - 2.0 * Mul(c, sx') + Mul(n', Mul(c, c))
  {
  }

  lemma {:induction false} SpreadExpanded(p: Samples, c: real)
    ensures Spread(p, c) == SumXX(p) - 2.0 * Mul(c, SumX(p)) + Mul(|p| as real, Mul(c, c))
  {
    if p != [] {
      var init, s := p[..|p| - 1], p[|p| - 1];
      SpreadExpanded(init, c);
      SpreadStep(|init| as real, SumX(init), SumXX(init), s.x, c, Spread(init, c), Spread(p, c),
                 |p| as real, SumX(p), SumXX(p));
    }
  }

  lemma DetStep(n: real, sx: real, sxx: real, x: real, n': real, sx': real, sxx': real, spread: real)
    requires n' == n + 1.0 && sx' == sx + x && sxx' == sxx + Mul(x, x)
    requires spread == sxx - 2.0 * Mul(x, sx) + Mul(n, Mul(x, x))
    ensures Mul(sxx', n') - Mul(sx', sx') == Mul(sxx, n) - Mul(sx, sx) + spread
  {
    assert sxx' * n' == sxx * n + sxx + n * x * x + x * x;
    assert sx' * sx' == sx * sx + 2.0 * x * sx + x * x;
  }

  /** The determinant is the sum of the squared differences of all pairs, added one sample at a time. */
  lemma DetSnoc(p: Samples)
    requires p != []
    ensures Det(p) == Det(p[..|p| - 1]) + Spread(p[..|p| - 1], p[|p| - 1].x)
  {
    var init, s := p[..|p| - 1], p[|p| - 1];
    SpreadExpanded(init, s.x);
    DetStep(|init| as real, SumX(init), SumXX(init), s.x, |p| as real, SumX(p), SumXX(p), Spread(init, s.x));
  }

  lemma AllEqualSnoc(p: Samples)
    requires p != []
    ensures var k := |p| - 1; AllEqual(p) <==> AllEqual(p[..k]) && forall i :: 0 <= i < k ==> p[..k][i].x == p[k].x
  {
    var k := |p| - 1;
    assert forall i :: 0 <= i < k ==> p[..k][i] == p[i];
  }

  /** Never negative, and zero exactly when all x values are the same. */
  lemma {:induction false} DetSign(p: Samples)
    ensures Det(p) >= 0.0
    ensures Det(p) == 0.0 <==> AllEqual(p)
  {
    if p != [] {
      var k := |p| - 1;
      DetSnoc(p);
      DetSign(p[..k]);
      SpreadSign(p[..k], p[k].x);
      AllEqualSnoc(p);
    }
  }

  // ---------- The normal equations ----------

  ghost predicate Normal(p: Samples, a: real, b: real)
  {
    && SumXY(p) - Mul(a, SumXX(p)) - Mul(b, SumX(p)) == 0.0
    && SumY(p) - Mul(a, SumX(p)) - Mul(b, |p| as real) == 0.0
  }

  lemma FirstEquation(n: real, sx: real, sy: real, sxx: real, sxy: real, a: real, b: real, det: real)
    requires det == sxx * n - sx * sx && det != 0.0 && a * det == sxy * n - sy * sx && b * det == sxx * sy - sx * sxy
    ensures a * sxx + b * sx == sxy
  {
    calc {
      (a * sxx + b * sx) * det;
      (a * det) * sxx + (b * det) * sx;
      (sxy * n - sy * sx) * sxx + (sxx * sy - sx * sxy) * sx;
      sxy * det;
    }
    Cancel(a * sxx + b * sx, sxy, det);
  }

  lemma SecondEquation(n: real, sx: real, sy: real, sxx: real, sxy: real, a: real, b: real, det: real)
    requires det == sxx * n - sx * sx && det != 0.0 && a * det == sxy * n - sy * sx && b * det == sxx * sy - sx * sxy
    ensures a * sx + b * n == sy
  {
    calc {
      (a * sx + b * n) * det;
      (a * det) * sx + (b * det) * n;
      (sxy * n - sy * sx) * sx + (sxx * sy - sx * sxy) * n;
      sy * det;
    }
    Cancel(a * sx + b * n, sy, det);
  }

  /** The two closed forms of linreg. */
  method Solve(n: real, sx: real, sy: real, sxx: real, sxy: real) returns (a: real, b: real)
    requires Mul(sxx, n) - Mul(sx, sx) != 0.0
    ensures sxy - Mul(a, sxx) - Mul(b, sx) == 0.0 && sy - Mul(a, sx) - Mul(b, n) == 0.0
  {
    var det := sxx * n - sx * sx;
    a, b := (sxy * n - sy * sx) / det, (sxx * sy - sx * sxy) / det;
    Scaled(sxy * n - sy * sx, det);
    Scaled(sxx * sy - sx * sxy, det);
    FirstEquation(n, sx, sy, sxx, sxy, a, b, det);
    SecondEquation(n, sx, sy, sxx, sxy, a, b, det);
  }

  // ---------- Residuals of a solution cancel ----------

  /** The sum of the residuals. */
  function Plain(p: Samples, a: real, b: real): real
  {
    if p == [] then 0.0 else Plain(p[..|p| - 1], a, b) + Residual(p[|p| - 1], a, b)
  }

  /** The sum of the residuals, each weighted by its x. */
  function Inner(p: Samples, a: real, b: real): real
  {
    if p == [] then 0.0
    else
      var s := p[|p| - 1];
      Inner(p[..|p| - 1], a, b) + Mul(s.x, Residual(s, a, b))
  }

  lemma PlainStep(n: real, sx: real, sy: real, x: real, y: real, a: real, b: real, before: real, after: real,
                  n': real, sx': real, sy': real)
    requires before == sy - Mul(a, sx) - Mul(b, n) && after == before + (y - Mul(a, x) - b)
    requires n' == n + 1.0 && sx' == sx + x && sy' == sy + y
    ensures after == sy' - Mul(a, sx') - Mul(b, n')
  {
  }

  lemma {:induction false} PlainExpanded(p: Samples, a: real, b: real)
    ensures Plain(p, a, b) == SumY(p) - Mul(a, SumX(p)) - Mul(b, |p| as real)
  {
    if p != [] {
      var init, s := p[..|p| - 1], p[|p| - 1];
      PlainExpanded(init, a, b);
      PlainStep(|init| as real, SumX(init), SumY(init), s.x, s.y, a, b, Plain(init, a, b), Plain(p, a, b),
                |p| as real, SumX(p), SumY(p));
    }
  }

  lemma InnerStep(sx: real, sxx: real, sxy: real, x: real, y: real, a: real, b: real, r: real, before: real,
                  after: real, sx': real, sxx': real, sxy': real)
    requires before == sxy - Mul(a, sxx) - Mul(b, sx) && after == before + Mul(x, r) && r == y - Mul(a, x) - b
    requires sx' == sx + x && sxx' == sxx + Mul(x, x) && sxy' == sxy + Mul(x, y)
    ensures after == sxy' - Mul(a, sxx') - Mul(b, sx')
  {
    assert x * r == x * y - a * (x * x) - b * x;
    assert a * sxx' == a * sxx + a * (x * x);
    assert b * sx' == b * sx + b * x;
  }

  lemma {:induction false} InnerExpanded(p: Samples, a: real, b: real)
    ensures Inner(p, a, b) == SumXY(p) - Mul(a, SumXX(p)) - Mul(b, SumX(p))
  {
    if p != [] {
      var init, s := p[..|p| - 1], p[|p| - 1];
      InnerExpanded(init, a, b);
      InnerStep(SumX(init), SumXX(init), SumXY(init), s.x, s.y, a, b, Residual(s, a, b), Inner(init, a, b),
                Inner(p, a, b),
                SumX(p), SumXX(p), SumXY(p));
    }
  }

  // ---------- Moving a line ----------

  /** The height by which a line moves over a sample. */
  function Shift(s: Sample, u: real, v: real): real
  {
    Mul(u, s.x) + v
  }

  function Moved(p: Samples, u: real, v: real): real
  {
    if p == [] then 0.0
    else
      var d := Shift(p[|p| - 1], u, v);
      Moved(p[..|p| - 1], u, v) + Mul(d, d)
  }

  /** The sum of the residuals, each weighted by the movement at its sample. */
  function Weighted(p: Samples, a: real, b: real, u: real, v: real): real
  {
    if p == [] then 0.0
    else
      var s := p[|p| - 1];
      Weighted(p[..|p| - 1], a, b, u, v) + Mul(Shift(s, u, v), Residual(s, a, b))
  }

  lemma {:induction false} MovedNonNegative(p: Samples, u: real, v: real)
    ensures Moved(p, u, v) >= 0.0
  {
    if p != [] {
      MovedNonNegative(p[..|p| - 1], u, v);
      SquareSign(Shift(p[|p| - 1], u, v));
    }
  }

  lemma {:induction false} MovedZero(p: Samples, u: real, v: real, i: nat)
    requires Moved(p, u, v) == 0.0 && i < |p|
    ensures Shift(p[i], u, v) == 0.0
  {
    var k := |p| - 1;
    MovedNonNegative(p[..k], u, v);
    SquareSign(Shift(p[k], u, v));
    if i < k {
      MovedZero(p[..k], u, v, i);
    }
  }

  lemma WeightedStep(inner: real, plain: real, x: real, r: real, u: real, v: real, d: real, before: real, after: real,
                     inner': real, plain': real)
    requires before == Mul(u, inner) + Mul(v, plain) && after == before + Mul(d, r) && d == Mul(u, x) + v
    requires inner' == inner + Mul(x, r) && plain' == plain + r
    ensures after == Mul(u, inner') + Mul(v, plain')
  {
    assert d * r == u * (x * r) + v * r;
  }

  lemma {:induction false} WeightedExpanded(p: Samples, a: real, b: real, u: real, v: real)
    ensures Weighted(p, a, b, u, v) == Mul(u, Inner(p, a, b)) + Mul(v, Plain(p, a, b))
  {
    if p != [] {
      var init, s := p[..|p| - 1], p[|p| - 1];
      WeightedExpanded(init, a, b, u, v);
      WeightedStep(Inner(init, a, b), Plain(init, a, b), s.x, Residual(s, a, b), u, v, Shift(s, u, v),
                   Weighted(init, a, b, u, v), Weighted(p, a, b, u, v), Inner(p, a, b), Plain(p, a, b));
    }
  }

  lemma ShiftedResidual(s: Sample, a: real, b: real, u: real, v: real)
    ensures Residual(s, a + u, b + v) == Residual(s, a, b) - Shift(s, u, v)
  {
  }

  lemma SquareStep(r: real, d: real, r': real, e: real, g: real, w: real, f: real, e': real, g': real, w': real,
                   f': real)
    requires f == e + g - 2.0 * w && r' == r - d
    requires e' == e + Mul(r, r) && g' == g + Mul(d, d) && w' == w + Mul(d, r) && f' == f + Mul(r', r')
    ensures f' == e' + g' - 2.0 * w'
  {
    assert r' * r' == r * r + d * d - 2.0 * (d * r);
  }

  /** How the error changes when a line moves by `u` in slope and `v` in height. */
  lemma {:induction false} ErrorShift(p: Samples, a: real, b: real, u: real, v: real)
    ensures SquaredError(p, a + u, b + v) == SquaredError(p, a, b) + Moved(p, u, v) - 2.0 * Weighted(p, a, b, u, v)
  {
    if p != [] {
      var init, s := p[..|p| - 1], p[|p| - 1];
      ErrorShift(init, a, b, u, v);
      ShiftedResidual(s, a, b, u, v);
      SquareStep(Residual(s, a, b), Shift(s, u, v), Residual(s, a + u, b + v),
                 SquaredError(init, a, b), Moved(init, u, v), Weighted(init, a, b, u, v),
                 SquaredError(init, a + u, b + v),
                 SquaredError(p, a, b), Moved(p, u, v), Weighted(p, a, b, u, v), SquaredError(p, a + u, b + v));
    }
  }

  /** Against a solution of the normal equations the weighted residuals cancel. */
  lemma Balanced(p: Samples, a: real, b: real, u: real, v: real)
    requires Normal(p, a, b)
    ensures Weighted(p, a, b, u, v) == 0.0
  {
    PlainExpanded(p, a, b);
    InnerExpanded(p, a, b);
    WeightedExpanded(p, a, b, u, v);
  }

  lemma SlopeZero(u: real, v: real, x: real, x': real)
    requires Mul(u, x) + v == 0.0 && Mul(u, x') + v == 0.0 && x != x'
    ensures u == 0.0 && v == 0.0
  {
    assert u * (x - x') == 0.0;
    Cancel(u, 0.0, x - x');
  }

  /** Two lines that agree over two different x values are one. */
  lemma NoShift(p: Samples, u: real, v: real)
    requires Moved(p, u, v) == 0.0 && !AllEqual(p)
    ensures u == 0.0 && v == 0.0
  {
    var i, j :| 0 <= i < |p| && 0 <= j < |p| && p[i].x != p[j].x;
    MovedZero(p, u, v, i);
    MovedZero(p, u, v, j);
    SlopeZero(u, v, p[i].x, p[j].x);
  }

  /** A solution of the normal equations beats every other line. */
  lemma LeastSquares(p: Samples, a: real, b: real, a': real, b': real)
    requires Normal(p, a, b) && !AllEqual(p)
    ensures Better(p, a, b, a', b')
  {
    var u, v := a' - a, b' - b;
    ErrorShift(p, a, b, u, v);
    Balanced(p, a, b, u, v);
    MovedNonNegative(p, u, v);
    if Moved(p, u, v) == 0.0 {
      NoShift(p, u, v);
    }
  }

  // ---------- linreg ----------

  datatype Fit = Fit(a: real, b: real) | UnequalLength

  function Zip(xs: seq<real>, ys: seq<real>): (p: Samples)
    requires |xs| == |ys|
    ensures |p| == |xs| && forall i :: 0 <= i < |p| ==> p[i] == Sample(xs[i], ys[i])
  {
    if xs == [] then [] else Zip(xs[..|xs| - 1], ys[..|ys| - 1]) + [Sample(xs[|xs| - 1], ys[|ys| - 1])]
  }

  method Sums(p: Samples) returns (sx: real, sy: real, sxx: real, sxy: real)
    ensures sx == SumX(p) && sy == SumY(p) && sxx == SumXX(p) && sxy == SumXY(p)
  {
    sx, sy, sxx, sxy := 0.0, 0.0, 0.0, 0.0;
    var syy := 0.0;
    for i := 0 to |p|
      invariant sx == SumX(p[..i]) && sy == SumY(p[..i]) && sxx == SumXX(p[..i]) && sxy == SumXY(p[..i])
    {
      assert p[..i + 1][..i] == p[..i];
      var x, y := p[i].x, p[i].y;
      sx := sx + x;
      sy := sy + y;
      sxx := sxx + Mul(x, x);
      syy := syy + Mul(y, y);
      sxy := sxy + Mul(x, y);
    }
    assert p[..|p|] == p;
  }

  /** Least squares over samples whose determinant is not zero. */
  method FitLine(p: Samples) returns (f: Fit)
    ensures f.Fit?
    ensures AllEqual(p) ==> f == Fit(0.0, 0.0)
    ensures !AllEqual(p) ==> Normal(p, f.a, f.b)
  {
    var n := |p| as real;
    var sx, sy, sxx, sxy := Sums(p);
    DetSign(p);
    if Mul(sxx, n) - Mul(sx, sx) == 0.0 {
      return Fit(0.0, 0.0);
    }
    var a, b := Solve(n, sx, sy, sxx, sxy);
    f := Fit(a, b);
  }

  /** When the x values differ, the one line of least squared error; otherwise zeros. */
  method Linreg(xs: seq<real>, ys: seq<real>) returns (f: Fit)
    ensures f.UnequalLength? <==> |xs| != |ys|
    ensures |xs| == |ys| ==>
      var p := Zip(xs, ys);
      if AllEqual(p) then f == Fit(0.0, 0.0) else forall a, b :: Better(p, f.a, f.b, a, b)
  {
    if |xs| != |ys| {
      return UnequalLength;
    }
    var p := Zip(xs, ys);
    f := FitLine(p);
    if !AllEqual(p) {
      forall a, b ensures Better(p, f.a, f.b, a, b) {
        LeastSquares(p, f.a, f.b, a, b);
      }
    }
  }
}
