/** The rate of the phase detector is a least-squares slope: with the right intercept no other line
    is closer to the points of the window. */
module LineFit {
  import opened LeastSquares

  /** How far each point is above the line with this intercept and slope. */
  function Residuals(xs: seq<real>, ys: seq<real>, a: real, b: real): (rs: seq<real>)
    requires |xs| == |ys|
    ensures |rs| == |xs| && forall i :: 0 <= i < |rs| ==> rs[i] == ys[i] - a - Times(b, xs[i])
  {
    seq(|xs|, i requires 0 <= i < |xs| => ys[i] - a - Times(b, xs[i]))
  }

  /** The sum of the squared distances to the line. */
  function Error(xs: seq<real>, ys: seq<real>, a: real, b: real): real
    requires |xs| == |ys|
  {
    SumProducts(Residuals(xs, ys, a, b), Residuals(xs, ys, a, b))
  }

  // ------------------------------------------------------------ sums

  lemma {:induction false} SumAdds(zs: seq<real>, xs: seq<real>, ys: seq<real>)
    requires |zs| == |xs| == |ys| && forall i :: 0 <= i < |zs| ==> zs[i] == xs[i] + ys[i]
    ensures Sum(zs) == Sum(xs) + Sum(ys)
  {
    if zs != [] {
      var n := |zs| - 1;
      SumAdds(zs[..n], xs[..n], ys[..n]);
    }
  }

  function Same(n: nat, a: real): (zs: seq<real>)
    ensures |zs| == n && forall i :: 0 <= i < n ==> zs[i] == a
  {
    seq(n, _ => a)
  }

  lemma {:induction false} SumSame(n: nat, a: real)
    ensures Sum(Same(n, a)) == Times(n as real, a)
  {
    if n > 0 {
      SumSame(n - 1, a);
      assert Same(n, a)[..n - 1] == Same(n - 1, a);
    }
  }

  /** The sum of what is above the line. */
  lemma SumResiduals(xs: seq<real>, ys: seq<real>, a: real, b: real)
    requires |xs| == |ys|
    ensures Sum(Residuals(xs, ys, a, b)) == Sum(ys) - Times(|xs| as real, a) - Times(b, Sum(xs))
  {
    hide Times, Sum;
    var rs, line := Residuals(xs, ys, a, b), Line(xs, a, b);
    SumAdds(ys, rs, line);
    SumAdds(line, Same(|xs|, a), Scaled(b, xs));
    SumSame(|xs|, a);
    SumScales(b, xs);
  }

  function Line(xs: seq<real>, a: real, b: real): (zs: seq<real>)
    ensures |zs| == |xs| && forall i :: 0 <= i < |zs| ==> zs[i] == a + Times(b, xs[i])
  {
    seq(|xs|, i requires 0 <= i < |xs| => a + Times(b, xs[i]))
  }

  lemma DistributeOver(x: real, y: real, a: real, b: real, u: real)
    requires y == x + a + b
    ensures Times(u, y) == Times(u, x) + Times(u, a) + Times(u, b)
  {
  }

  lemma Rotate(x: real, b: real)
    ensures Times(x, Times(b, x)) == Times(b, Times(x, x)) && Times(x, b) == Times(b, x)
  {
  }

  /** One abscissa times its point, split along the line. */
  lemma Weighted(x: real, y: real, a: real, b: real)
    ensures Times(x, y) == Times(x, y - a - Times(b, x)) + Times(x, a + Times(b, x))
    ensures Times(x, a + Times(b, x)) == Times(a, x) + Times(b, Times(x, x))
  {
    hide Times;
    DistributeOver(y - a - Times(b, x), y, a, Times(b, x), x);
    Distribute(x, a, Times(b, x));
    Rotate(x, a);
    Rotate(x, b);
  }

  lemma WeightedSplit(xs: seq<real>, ys: seq<real>, a: real, b: real)
    requires |xs| == |ys|
    ensures SumProducts(xs, ys) == SumProducts(xs, Residuals(xs, ys, a, b)) + SumProducts(xs, Line(xs, a, b))
  {
    hide Times, Sum;
    var rs, ls := Residuals(xs, ys, a, b), Line(xs, a, b);
    var ps, qs, zs := Products(xs, ys), Products(xs, rs), Products(xs, ls);
    forall i | 0 <= i < |xs| ensures ps[i] == qs[i] + zs[i] {
      Weighted(xs[i], ys[i], a, b);
      assert qs[i] == Times(xs[i], rs[i]) && zs[i] == Times(xs[i], ls[i]);
    }
    SumAdds(ps, qs, zs);
  }

  lemma WeightedLine(xs: seq<real>, a: real, b: real)
    ensures SumProducts(xs, Line(xs, a, b)) == Times(a, Sum(xs)) + Times(b, SumProducts(xs, xs))
  {
    hide Times, Sum;
    var ls, squares := Line(xs, a, b), Products(xs, xs);
    var zs, us, vs := Products(xs, ls), Scaled(a, xs), Scaled(b, squares);
    forall i | 0 <= i < |xs| ensures zs[i] == us[i] + vs[i] {
      Weighted(xs[i], 0.0, a, b);
      assert zs[i] == Times(xs[i], ls[i]);
    }
    SumAdds(zs, us, vs);
    SumScales(a, xs);
    SumScales(b, squares);
  }

  lemma SumWeighted(xs: seq<real>, ys: seq<real>, a: real, b: real)
    requires |xs| == |ys|
    ensures SumProducts(xs, Residuals(xs, ys, a, b)) ==
            SumProducts(xs, ys) - Times(a, Sum(xs)) - Times(b, SumProducts(xs, xs))
  {
    hide *;
    WeightedSplit(xs, ys, a, b);
    WeightedLine(xs, a, b);
  }

  // ------------------------------------------------------------ the best line

  /** The residuals cancel, and so do their products with the abscissas. */
  ghost predicate Balanced(xs: seq<real>, ys: seq<real>, a: real, b: real)
    requires |xs| == |ys|
  {
    var rs := Residuals(xs, ys, a, b);
    Sum(rs) == 0.0 && SumProducts(xs, rs) == 0.0
  }

  function Intercept(xs: seq<real>, ys: seq<real>, b: real): real
    requires |xs| == |ys| && xs != []
  {
    (Sum(ys) - Times(b, Sum(xs))) / (|xs| as real)
  }

  lemma NormalEquation(n: real, sx: real, sy: real, sxy: real, sxx: real, a: real, b: real)
    requires n != 0.0 && Times(n, a) == sy - Times(b, sx)
    requires Times(b, Times(n, sxx) - Times(sx, sx)) == Times(n, sxy) - Times(sx, sy)
    ensures sxy - Times(a, sx) - Times(b, sxx) == 0.0
  {
    var r := sxy - a * sx - b * sxx;
    assert n * r == n * sxy - (n * a) * sx - b * (n * sxx);
    assert (n * a) * sx == sy * sx - b * sx * sx;
    assert b * (n * sxx - sx * sx) == b * (n * sxx) - b * sx * sx;
    assert n * r == 0.0;
  }

  lemma Quotient(x: real, d: real)
    requires d != 0.0
    ensures Times(x / d, d) == x && Times(d, x / d) == x
  {
  }

  /** The quotient of the moments solves both equations. */
  lemma MomentsBalance(xs: seq<real>, ys: seq<real>)
    requires |xs| == |ys| && xs != [] && Moment(xs, xs) != 0.0
    ensures var b := Moment(xs, ys) / Moment(xs, xs); Balanced(xs, ys, Intercept(xs, ys, b), b)
  {
    var b := Moment(xs, ys) / Moment(xs, xs);
    var a, n := Intercept(xs, ys, b), |xs| as real;
    Quotient(Moment(xs, ys), Moment(xs, xs));
    Quotient(Sum(ys) - Times(b, Sum(xs)), n);
    SumResiduals(xs, ys, a, b);
    SumWeighted(xs, ys, a, b);
    hide Times, Sum, SumProducts;
    NormalEquation(n, Sum(xs), Sum(ys), SumProducts(xs, ys), SumProducts(xs, xs), a, b);
  }

  lemma Square(r: real, d: real)
    ensures Times(r + d, r + d) == Times(r, r) + 2.0 * Times(r, d) + Times(d, d)
  {
  }

  lemma Combine(r: real, a: real, b: real, x: real)
    ensures Times(r, a + Times(b, x)) == Times(a, r) + Times(b, Times(x, r))
  {
  }

  lemma SumTwice(zs: seq<real>)
    ensures Sum(Scaled(2.0, zs)) == 2.0 * Sum(zs)
  {
    SumScales(2.0, zs);
  }

  lemma CrossVanishes(xs: seq<real>, rs: seq<real>, a: real, b: real)
    requires |xs| == |rs| && Sum(rs) == 0.0 && SumProducts(xs, rs) == 0.0
    ensures SumProducts(rs, Line(xs, a, b)) == 0.0
  {
    hide Times, Sum;
    var zs := Products(rs, Line(xs, a, b));
    forall i | 0 <= i < |xs| ensures zs[i] == Scaled(a, rs)[i] + Scaled(b, Products(xs, rs))[i] {
      Combine(rs[i], a, b, xs[i]);
    }
    SumAdds(zs, Scaled(a, rs), Scaled(b, Products(xs, rs)));
    SumScales(a, rs);
    SumScales(b, Products(xs, rs));
    TimesZero(a);
    TimesZero(b);
  }

  lemma LineDifference(xs: seq<real>, ys: seq<real>, a: real, b: real, c: real, d: real, i: nat)
    requires |xs| == |ys| && i < |xs|
    ensures Residuals(xs, ys, c, d)[i] == Residuals(xs, ys, a, b)[i] + Line(xs, a - c, b - d)[i]
  {
  }

  /** Any other line is further away by the squares of its distances to this one. */
  lemma ErrorSplits(xs: seq<real>, ys: seq<real>, a: real, b: real, c: real, d: real)
    requires |xs| == |ys| && Balanced(xs, ys, a, b)
    ensures Error(xs, ys, c, d) ==
            Error(xs, ys, a, b) + SumProducts(Line(xs, a - c, b - d), Line(xs, a - c, b - d))
  {
    var rs, ls, qs := Residuals(xs, ys, a, b), Line(xs, a - c, b - d), Residuals(xs, ys, c, d);
    var rr, rl, ll := Products(rs, rs), Products(rs, ls), Products(ls, ls);
    forall i | 0 <= i < |xs| ensures Products(qs, qs)[i] == rr[i] + Scaled(2.0, rl)[i] + ll[i] {
      LineDifference(xs, ys, a, b, c, d, i);
      Square(rs[i], ls[i]);
    }
    CrossVanishes(xs, rs, a - c, b - d);
    hide Times, Sum;
    SumTwice(rl);
    var half := seq(|xs|, i requires 0 <= i < |xs| => rr[i] + Scaled(2.0, rl)[i]);
    SumAdds(half, rr, Scaled(2.0, rl));
    SumAdds(Products(qs, qs), half, ll);
  }

  lemma SumOfSquares(zs: seq<real>)
    ensures SumProducts(zs, zs) >= 0.0
    ensures SumProducts(zs, zs) == 0.0 <==> forall i :: 0 <= i < |zs| ==> zs[i] == 0.0
  {
    var ps := Products(zs, zs);
    forall i | 0 <= i < |zs| ensures ps[i] >= 0.0 && (ps[i] == 0.0 <==> zs[i] == 0.0) {
      SquareSign(zs[i]);
    }
    SumSign(ps);
  }

  /** A line that vanishes at two different abscissas is zero. */
  lemma LineVanishes(xs: seq<real>, a: real, b: real, i: nat, j: nat)
    requires i < |xs| && j < |xs| && xs[i] != xs[j]
    requires Line(xs, a, b)[i] == 0.0 && Line(xs, a, b)[j] == 0.0
    ensures a == 0.0 && b == 0.0
  {
    assert b * (xs[i] - xs[j]) == 0.0;
  }

  /** The rate of a window whose times do not all coincide is the slope of the one line that is
      closest to its points. */
  lemma RateIsLeastSquares(points: seq<Point>, c: real, d: real)
    requires |points| >= 5 && Spread(points) >= EPSILON
    ensures var xs, ys, b := Minutes(points), Values(points), WindowRate(points);
            var a := Intercept(xs, ys, b);
            && Error(xs, ys, c, d) >= Error(xs, ys, a, b)
            && (Error(xs, ys, c, d) == Error(xs, ys, a, b) ==> c == a && d == b)
  {
    var xs, ys, b := Minutes(points), Values(points), WindowRate(points);
    var a := Intercept(xs, ys, b);
    MomentsBalance(xs, ys);
    ErrorSplits(xs, ys, a, b, c, d);
    SumOfSquares(Line(xs, a - c, b - d));
    MomentIsPairs(xs, xs);
    PairsSign(xs);
    var i, j :| 0 <= i < |xs| && 0 <= j < |xs| && xs[i] != xs[j];
    hide Times, Sum, Error, Intercept;
    if Error(xs, ys, c, d) == Error(xs, ys, a, b) {
      LineVanishes(xs, a - c, b - d, i, j);
    }
  }

  /** And the whole rate: of the points no older than one window before the last. */
  lemma RateOfWindow(buf: seq<Point>, windowS: real, recent: seq<Point>)
    requires |buf| >= 5 && recent == Since(buf, buf[|buf| - 1].t - windowS)
    ensures RateOf(buf, windowS) == WindowRate(recent)
    ensures forall p :: p in recent <==> p in buf && buf[|buf| - 1].t - p.t <= windowS
    ensures |recent| < 5 || Spread(recent) < EPSILON ==> RateOf(buf, windowS) == 0.0
  {
    hide Spread, Moment, Since;
    SpreadSign(recent);
    SinceMembers(buf, buf[|buf| - 1].t - windowS);
  }
}
