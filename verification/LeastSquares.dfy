/** The hand-written least-squares rate of the phase detector, over the reals: value per
    minute of the points in the last rate window. */
module LeastSquares {

  const EPSILON: real := 0.000000000001
  const MINUTE: real := 60.0

  datatype Point = Point(t: real, v: real)

  function Abs(x: real): real { if x < 0.0 then -x else x }

  function Sum(xs: seq<real>): real {
    if xs == [] then 0.0 else Sum(xs[..|xs| - 1]) + xs[|xs| - 1]
  }

  function Times(a: real, b: real): real { a * b }

  function Products(xs: seq<real>, ys: seq<real>): (zs: seq<real>)
    requires |xs| == |ys|
    ensures |zs| == |xs| && forall i :: 0 <= i < |zs| ==> zs[i] == Times(xs[i], ys[i])
  {
    seq(|xs|, i requires 0 <= i < |xs| => Times(xs[i], ys[i]))
  }

  function SumProducts(xs: seq<real>, ys: seq<real>): real
    requires |xs| == |ys|
  {
    Sum(Products(xs, ys))
  }

  /** n times the sum of products, less the product of the sums. */
  function Moment(xs: seq<real>, ys: seq<real>): real
    requires |xs| == |ys|
  {
    Times(|xs| as real, SumProducts(xs, ys)) - Times(Sum(xs), Sum(ys))
  }

  function Minutes(points: seq<Point>): (xs: seq<real>)
    ensures |xs| == |points| && forall i :: 0 <= i < |xs| ==> xs[i] == (points[i].t - points[0].t) / MINUTE
  {
    seq(|points|, i requires 0 <= i < |points| => (points[i].t - points[0].t) / MINUTE)
  }

  function Values(points: seq<Point>): (ys: seq<real>)
    ensures |ys| == |points| && forall i :: 0 <= i < |ys| ==> ys[i] == points[i].v
  {
    seq(|points|, i requires 0 <= i < |points| => points[i].v)
  }

  function Since(buf: seq<Point>, cutoff: real): seq<Point> {
    if buf == [] then [] else (if buf[0].t >= cutoff then [buf[0]] else []) + Since(buf[1..], cutoff)
  }

  function Spread(points: seq<Point>): real { Moment(Minutes(points), Minutes(points)) }

  /** The rate of one window of points. */
  function WindowRate(points: seq<Point>): real {
    if |points| < 5 || Abs(Spread(points)) < EPSILON then 0.0
    else Moment(Minutes(points), Values(points)) / Spread(points)
  }

  function RateOf(buf: seq<Point>, windowS: real): real {
    if |buf| < 5 then 0.0 else WindowRate(Since(buf, buf[|buf| - 1].t - windowS))
  }

  datatype Sums = Sums(x: real, y: real, xy: real, xx: real)

  function SumsOf(xs: seq<real>, ys: seq<real>): Sums
    requires |xs| == |ys|
  {
    Sums(Sum(xs), Sum(ys), SumProducts(xs, ys), SumProducts(xs, xs))
  }

  lemma SumsGrow(xs: seq<real>, ys: seq<real>, i: nat)
    requires |xs| == |ys| && i < |xs|
    ensures var s := SumsOf(xs[..i], ys[..i]);
            SumsOf(xs[..i + 1], ys[..i + 1])
            == Sums(s.x + xs[i], s.y + ys[i], s.xy + Times(xs[i], ys[i]), s.xx + Times(xs[i], xs[i]))
  {
    hide Times;
    assert xs[..i + 1][..i] == xs[..i] && ys[..i + 1][..i] == ys[..i];
    ProductsGrow(xs[..i + 1], ys[..i + 1]);
    ProductsGrow(xs[..i + 1], xs[..i + 1]);
  }

  lemma ProductsGrow(xs: seq<real>, ys: seq<real>)
    requires |xs| == |ys| && xs != []
    ensures var n := |xs| - 1;
            SumProducts(xs, ys) == SumProducts(xs[..n], ys[..n]) + Times(xs[n], ys[n])
  {
    var n := |xs| - 1;
    assert Products(xs, ys)[..n] == Products(xs[..n], ys[..n]);
  }

  /** The running sums over a window. */
  method Accumulate(points: seq<Point>) returns (sums: Sums)
    ensures sums == SumsOf(Minutes(points), Values(points))
  {
    hide Times;
    ghost var xs, ys := Minutes(points), Values(points);
    sums := Sums(0.0, 0.0, 0.0, 0.0);
    for i := 0 to |points|
      invariant sums == SumsOf(xs[..i], ys[..i])
    {
      var x, v := (points[i].t - points[0].t) / MINUTE, points[i].v;
      SumsGrow(xs, ys, i);
      sums := Sums(sums.x + x, sums.y + v, sums.xy + Times(x, v), sums.xx + Times(x, x));
    }
    assert xs[..|points|] == xs && ys[..|points|] == ys;
  }

  /** The least-squares rate of the last window of the buffer. */
  method ComputeRate(buf: seq<Point>, windowS: real) returns (rate: real)
    ensures rate == RateOf(buf, windowS)
  {
    hide Times;
    if |buf| < 5 {
      return 0.0;
    }
    var points := Since(buf, buf[|buf| - 1].t - windowS);
    if |points| < 5 {
      return 0.0;
    }
    var n := |points| as real;
    var sums := Accumulate(points);
    var denominator := Times(n, sums.xx) - Times(sums.x, sums.x);
    if Abs(denominator) < EPSILON {
      return 0.0;
    }
    return (Times(n, sums.xy) - Times(sums.x, sums.y)) / denominator;
  }

  // ---------------------------------------------------------------- sums

  lemma {:induction false} SumSign(zs: seq<real>)
    requires forall i :: 0 <= i < |zs| ==> zs[i] >= 0.0
    ensures Sum(zs) >= 0.0
    ensures Sum(zs) == 0.0 <==> forall i :: 0 <= i < |zs| ==> zs[i] == 0.0
  {
    if zs != [] {
      SumSign(zs[..|zs| - 1]);
    }
  }

  function Scaled(c: real, xs: seq<real>): (zs: seq<real>)
    ensures |zs| == |xs| && forall i :: 0 <= i < |zs| ==> zs[i] == Times(c, xs[i])
  {
    seq(|xs|, i requires 0 <= i < |xs| => Times(c, xs[i]))
  }

  lemma Distribute(c: real, a: real, b: real)
    ensures Times(c, a) + Times(c, b) == Times(c, a + b)
  {
  }

  lemma {:induction false} SumScales(c: real, xs: seq<real>)
    ensures Sum(Scaled(c, xs)) == Times(c, Sum(xs))
  {
    if xs != [] {
      hide Times;
      var n := |xs| - 1;
      SumScales(c, xs[..n]);
      assert Scaled(c, xs)[..n] == Scaled(c, xs[..n]);
      Distribute(c, Sum(xs[..n]), xs[n]);
    }
  }

  lemma {:induction false} SumCombines(zs: seq<real>, ps: seq<real>, xs: seq<real>, ys: seq<real>, k: real)
    requires |zs| == |ps| == |xs| == |ys|
    requires forall i :: 0 <= i < |zs| ==> zs[i] == ps[i] - xs[i] - ys[i] + k
    ensures Sum(zs) == Sum(ps) - Sum(xs) - Sum(ys) + Times(|zs| as real, k)
  {
    if zs != [] {
      hide Times;
      var n := |zs| - 1;
      SumCombines(zs[..n], ps[..n], xs[..n], ys[..n], k);
    }
  }

  // ---------------------------------------------------------------- moments

  function Shift(xs: seq<real>, x: real): (zs: seq<real>)
    ensures |zs| == |xs| && forall i :: 0 <= i < |zs| ==> zs[i] == xs[i] - x
  {
    seq(|xs|, i requires 0 <= i < |xs| => xs[i] - x)
  }

  /** The sum over earlier points of the products of their distances to (x, y). */
  function Cross(xs: seq<real>, ys: seq<real>, x: real, y: real): real
    requires |xs| == |ys|
  {
    SumProducts(Shift(xs, x), Shift(ys, y))
  }

  lemma Foil(u: real, x: real, v: real, y: real)
    ensures Times(u - x, v - y) == Times(u, v) - Times(y, u) - Times(x, v) + Times(x, y)
  {
  }

  lemma {:induction false} CrossExpands(xs: seq<real>, ys: seq<real>, x: real, y: real)
    requires |xs| == |ys|
    ensures Cross(xs, ys, x, y)
            == SumProducts(xs, ys) - Times(y, Sum(xs)) - Times(x, Sum(ys)) + Times(|xs| as real, Times(x, y))
  {
    hide Times, Sum;
    var zs := Products(Shift(xs, x), Shift(ys, y));
    forall i | 0 <= i < |zs| ensures zs[i] == Products(xs, ys)[i] - Scaled(y, xs)[i] - Scaled(x, ys)[i] + Times(x, y) {
      Foil(xs[i], x, ys[i], y);
    }
    SumCombines(zs, Products(xs, ys), Scaled(y, xs), Scaled(x, ys), Times(x, y));
    SumScales(y, xs);
    SumScales(x, ys);
  }

  lemma Expand(m: real, p: real, a: real, b: real, x: real, y: real)
    ensures Times(m + 1.0, p + Times(x, y)) - Times(a + x, b + y)
            == (Times(m, p) - Times(a, b)) + (p - Times(y, a) - Times(x, b) + Times(m, Times(x, y)))
  {
    var xy := x * y;
    assert (m + 1.0) * (p + xy) == m * p + m * xy + p + xy;
    assert (a + x) * (b + y) == a * b + a * y + x * b + xy;
  }

  /** One more point adds its cross products with all earlier ones. */
  lemma MomentGrows(xs: seq<real>, ys: seq<real>)
    requires |xs| == |ys| && xs != []
    ensures var n := |xs| - 1;
            Moment(xs, ys) == Moment(xs[..n], ys[..n]) + Cross(xs[..n], ys[..n], xs[n], ys[n])
  {
    hide Times;
    var n := |xs| - 1;
    var x, y, a, b, p, m := xs[n], ys[n], Sum(xs[..n]), Sum(ys[..n]), SumProducts(xs[..n], ys[..n]), n as real;
    CrossExpands(xs[..n], ys[..n], x, y);
    ProductsGrow(xs, ys);
    Expand(m, p, a, b, x, y);
  }

  /** The same moment, as a sum over all pairs of points. */
  function Pairs(xs: seq<real>, ys: seq<real>): real
    requires |xs| == |ys|
  {
    if xs == [] then 0.0 else
      var n := |xs| - 1;
      Pairs(xs[..n], ys[..n]) + Cross(xs[..n], ys[..n], xs[n], ys[n])
  }

  lemma {:induction false} MomentIsPairs(xs: seq<real>, ys: seq<real>)
    requires |xs| == |ys|
    ensures Moment(xs, ys) == Pairs(xs, ys)
  {
    if xs != [] {
      MomentGrows(xs, ys);
      MomentIsPairs(xs[..|xs| - 1], ys[..|xs| - 1]);
    }
  }

  /** Later x never goes with smaller y. */
  ghost predicate Comonotone(xs: seq<real>, ys: seq<real>)
    requires |xs| == |ys|
  {
    forall i, j :: 0 <= i < |xs| && 0 <= j < |xs| && xs[i] < xs[j] ==> ys[i] <= ys[j]
  }

  lemma CrossNonNegative(xs: seq<real>, ys: seq<real>, x: real, y: real)
    requires |xs| == |ys|
    requires forall i :: 0 <= i < |xs| ==> xs[i] == x || (xs[i] <= x && ys[i] <= y) || (xs[i] >= x && ys[i] >= y)
    ensures Cross(xs, ys, x, y) >= 0.0
  {
    var zs := Products(Shift(xs, x), Shift(ys, y));
    forall i | 0 <= i < |zs| ensures zs[i] >= 0.0 {
    }
    SumSign(zs);
  }

  lemma {:induction false} PairsNonNegative(xs: seq<real>, ys: seq<real>)
    requires |xs| == |ys| && Comonotone(xs, ys)
    ensures Pairs(xs, ys) >= 0.0
  {
    if xs != [] {
      var n := |xs| - 1;
      PairsNonNegative(xs[..n], ys[..n]);
      CrossNonNegative(xs[..n], ys[..n], xs[n], ys[n]);
    }
  }

  /** Chebyshev's sum inequality. */
  lemma MomentNonNegative(xs: seq<real>, ys: seq<real>)
    requires |xs| == |ys| && Comonotone(xs, ys)
    ensures Moment(xs, ys) >= 0.0
  {
    MomentIsPairs(xs, ys);
    PairsNonNegative(xs, ys);
  }

  ghost predicate OnLine(xs: seq<real>, ys: seq<real>, x: real, y: real, slope: real)
    requires |xs| == |ys|
  {
    forall i :: 0 <= i < |xs| ==> ys[i] - y == Times(slope, xs[i] - x)
  }

  lemma Associate(slope: real, d: real)
    ensures Times(d, Times(slope, d)) == Times(slope, Times(d, d))
  {
  }

  lemma CrossScales(xs: seq<real>, ys: seq<real>, x: real, y: real, slope: real)
    requires |xs| == |ys| && OnLine(xs, ys, x, y, slope)
    ensures Cross(xs, ys, x, y) == Times(slope, Cross(xs, xs, x, x))
  {
    hide Times;
    var zs, squares := Products(Shift(xs, x), Shift(ys, y)), Products(Shift(xs, x), Shift(xs, x));
    forall i | 0 <= i < |zs| ensures zs[i] == Scaled(slope, squares)[i] {
      Associate(slope, xs[i] - x);
    }
    assert zs == Scaled(slope, squares);
    SumScales(slope, squares);
  }

  ghost predicate Affine(xs: seq<real>, ys: seq<real>, slope: real)
    requires |xs| == |ys|
  {
    forall i, j :: 0 <= i < |xs| && 0 <= j < |xs| ==> ys[i] - ys[j] == Times(slope, xs[i] - xs[j])
  }

  lemma TimesZero(c: real)
    ensures Times(c, 0.0) == 0.0
  {
  }

  lemma {:induction false} PairsScale(xs: seq<real>, ys: seq<real>, slope: real)
    requires |xs| == |ys| && Affine(xs, ys, slope)
    ensures Pairs(xs, ys) == Times(slope, Pairs(xs, xs))
  {
    hide Times;
    if xs == [] {
      TimesZero(slope);
    } else {
      var n := |xs| - 1;
      PairsScale(xs[..n], ys[..n], slope);
      CrossScales(xs[..n], ys[..n], xs[n], ys[n], slope);
      Distribute(slope, Pairs(xs[..n], xs[..n]), Cross(xs[..n], xs[..n], xs[n], xs[n]));
    }
  }

  /** Points on a line: the mixed moment is the slope times the spread. */
  lemma MomentScales(xs: seq<real>, ys: seq<real>, slope: real)
    requires |xs| == |ys| && Affine(xs, ys, slope)
    ensures Moment(xs, ys) == Times(slope, Moment(xs, xs))
  {
    hide Times;
    MomentIsPairs(xs, ys);
    MomentIsPairs(xs, xs);
    PairsScale(xs, ys, slope);
  }

  lemma Positive(a: real, b: real)
    requires a > 0.0 && b > 0.0
    ensures Times(a, b) > 0.0
  {
  }

  lemma SquareSign(a: real)
    ensures Times(a, a) >= 0.0 && (Times(a, a) == 0.0 <==> a == 0.0)
  {
    hide Times;
    TimesZero(a);
    if a > 0.0 {
      Positive(a, a);
    } else if a < 0.0 {
      Positive(-a, -a);
      Negated(a);
    }
  }

  lemma Negated(a: real)
    ensures Times(-a, -a) == Times(a, a)
  {
  }

  lemma CrossSign(xs: seq<real>, x: real)
    ensures Cross(xs, xs, x, x) >= 0.0
    ensures Cross(xs, xs, x, x) == 0.0 <==> forall i :: 0 <= i < |xs| ==> xs[i] == x
  {
    var zs := Products(Shift(xs, x), Shift(xs, x));
    forall i | 0 <= i < |zs| ensures zs[i] >= 0.0 && (zs[i] == 0.0 <==> xs[i] == x) {
      SquareSign(xs[i] - x);
    }
    SumSign(zs);
  }

  lemma {:induction false} PairsSign(xs: seq<real>)
    ensures Pairs(xs, xs) >= 0.0
    ensures Pairs(xs, xs) == 0.0 <==> forall i, j :: 0 <= i < |xs| && 0 <= j < |xs| ==> xs[i] == xs[j]
  {
    if xs != [] {
      var n := |xs| - 1;
      PairsSign(xs[..n]);
      CrossSign(xs[..n], xs[n]);
    }
  }

  // ---------------------------------------------------------------- rates

  /** The denominator is never negative, and vanishes exactly when all times coincide. */
  lemma SpreadSign(points: seq<Point>)
    ensures Spread(points) >= 0.0
    ensures Spread(points) == 0.0
            <==> forall i, j :: 0 <= i < |points| && 0 <= j < |points| ==> points[i].t == points[j].t
  {
    var xs := Minutes(points);
    MomentIsPairs(xs, xs);
    PairsSign(xs);
    forall i, j | 0 <= i < |points| && 0 <= j < |points| ensures xs[i] == xs[j] <==> points[i].t == points[j].t {
      assert xs[i] * MINUTE == points[i].t - points[0].t && xs[j] * MINUTE == points[j].t - points[0].t;
    }
  }

  ghost predicate NonDecreasing(points: seq<Point>) {
    forall i, j :: 0 <= i < |points| && 0 <= j < |points| ==> NeverFalls(points[i], points[j])
  }

  lemma QuotientSign(a: real, b: real)
    requires a >= 0.0 && b > 0.0
    ensures a / b >= 0.0
  {
  }

  /** Data that never falls in time never has a negative rate. */
  lemma NonDecreasingRate(points: seq<Point>)
    requires NonDecreasing(points)
    ensures WindowRate(points) >= 0.0
  {
    hide Times;
    var xs, ys := Minutes(points), Values(points);
    forall i, j | 0 <= i < |xs| && 0 <= j < |xs| && xs[i] < xs[j] ensures ys[i] <= ys[j] {
    }
    MomentNonNegative(xs, ys);
    SpreadSign(points);
    if Spread(points) > 0.0 {
      QuotientSign(Moment(xs, ys), Spread(points));
    }
  }

  lemma QuotientExact(slope: real, b: real)
    requires b != 0.0
    ensures Times(slope, b) / b == slope
  {
  }

  /** Points on a line have exactly its slope per minute, once the window is not degenerate. */
  lemma AffineRate(points: seq<Point>, perMinute: real)
    requires |points| >= 5 && Spread(points) >= EPSILON
    requires forall i, j :: 0 <= i < |points| && 0 <= j < |points| ==>
               (points[i].v - points[j].v) * 60.0 == Times(perMinute, points[i].t - points[j].t)
    ensures WindowRate(points) == perMinute
  {
    hide Times;
    var xs, ys := Minutes(points), Values(points);
    forall i, j | 0 <= i < |xs| && 0 <= j < |xs| ensures ys[i] - ys[j] == Times(perMinute, xs[i] - xs[j]) {
      ScaleDown(ys[i] - ys[j], perMinute, xs[i] - xs[j], points[i].t - points[j].t);
    }
    MomentScales(xs, ys, perMinute);
    QuotientExact(perMinute, Spread(points));
  }

  lemma ScaleDown(dy: real, slope: real, dx: real, dt: real)
    requires dx * MINUTE == dt && dy * MINUTE == Times(slope, dt)
    ensures dy == Times(slope, dx)
  {
    assert slope * dt == slope * dx * MINUTE;
  }

  lemma {:induction false} SinceMembers(buf: seq<Point>, cutoff: real)
    ensures forall p :: p in Since(buf, cutoff) <==> p in buf && p.t >= cutoff
  {
    if buf != [] {
      SinceMembers(buf[1..], cutoff);
      assert buf == [buf[0]] + buf[1..];
    }
  }

  ghost predicate NeverFalls(a: Point, b: Point) { a.t < b.t ==> a.v <= b.v }

  lemma SinceKeepsOrder(buf: seq<Point>, cutoff: real)
    requires NonDecreasing(buf)
    ensures NonDecreasing(Since(buf, cutoff))
  {
    SinceMembers(buf, cutoff);
    var points := Since(buf, cutoff);
    forall i, j | 0 <= i < |points| && 0 <= j < |points| ensures NeverFalls(points[i], points[j]) {
      assert points[i] in buf && points[j] in buf;
    }
    assert NonDecreasing(points);
  }

  /** A buffer that never falls never has a negative rate, for any window. */
  lemma RateNonNegative(buf: seq<Point>, windowS: real)
    requires NonDecreasing(buf)
    ensures RateOf(buf, windowS) >= 0.0
  {
    if |buf| >= 5 {
      SinceKeepsOrder(buf, buf[|buf| - 1].t - windowS);
      NonDecreasingRate(Since(buf, buf[|buf| - 1].t - windowS));
    }
  }
}
