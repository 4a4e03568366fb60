/** The bounded median-pairwise slope (Theil-Sen) that decides resource leaks, over the
    reals. Times are in seconds, slopes in units per hour. */
module RobustSlope {
  import opened Counting
  import opened Ordering

  const MAX_SLOPE_POINTS := 257
  const HOUR: real := 3600.0

  datatype Point = Point(t: real, v: real)

  // ---------------------------------------------------------------- the estimator

  function Index(i: nat, last: nat, maxPoints: int): nat
    requires maxPoints >= 2
  {
    (i * last) / (maxPoints - 1)
  }

  /** Two quotients compare as the multiples of d that bound them. */
  lemma QuotientLess(x: int, k: int, d: int)
    requires d > 0 && x < k * d
    ensures x / d < k
  {
    if x / d >= k {
    }
  }

  lemma QuotientAtLeast(x: int, k: int, d: int)
    requires d > 0 && k * d <= x
    ensures k <= x / d
  {
    assert (x / d + 1) * d == (x / d) * d + d;
    if x / d + 1 <= k {
    }
  }

  lemma IndexInRange(i: nat, last: nat, maxPoints: int)
    requires 2 <= maxPoints && i < maxPoints
    ensures Index(i, last, maxPoints) <= last
    ensures Index(0, last, maxPoints) == 0 && Index(maxPoints - 1, last, maxPoints) == last
  {
    var d := maxPoints - 1;
    assert d * last == last * d < (last + 1) * d;
    QuotientLess(i * last, last + 1, d);
    QuotientLess(d * last, last + 1, d);
    QuotientAtLeast(d * last, last, d);
  }

  /** Evenly spaced points, including both ends; None where the source raises. */
  function BoundedSlopePoints(points: seq<Point>, maxPoints: int): (r: Option<seq<Point>>)
    ensures r.Some? <==> maxPoints >= 2
  {
    if maxPoints < 2 then None
    else if |points| <= maxPoints then Some(points)
    else
      Some(seq(maxPoints, i requires 0 <= i < maxPoints =>
        IndexInRange(i, |points| - 1, maxPoints);
        points[Index(i, |points| - 1, maxPoints)]))
  }

  function Bounded(points: seq<Point>): seq<Point> { BoundedSlopePoints(points, MAX_SLOPE_POINTS).value }

  function Rate(a: Point, b: Point): real
    requires b.t > a.t
  {
    (b.v - a.v) / (b.t - a.t) * HOUR
  }

  function SlopesFrom(a: Point, later: seq<Point>): seq<real> {
    if later == [] then [] else
      (if later[0].t > a.t then [Rate(a, later[0])] else []) + SlopesFrom(a, later[1..])
  }

  /** The slope of every pair, earlier point first. */
  function Slopes(points: seq<Point>): seq<real> {
    if points == [] then [] else SlopesFrom(points[0], points[1..]) + Slopes(points[1..])
  }

  function Identity(x: real): real { x }

  function Median(s: seq<real>): real
    requires s != []
  {
    SortCount(s, Identity, (x: real) => true);
    var sorted, n := Sort(s, Identity), |s|;
    if n % 2 == 1 then sorted[n / 2] else (sorted[n / 2 - 1] + sorted[n / 2]) / 2.0
  }

  function Slope(points: seq<Point>): real {
    var slopes := Slopes(Bounded(points));
    if slopes == [] then 0.0 else Median(slopes)
  }

  function FittedGrowth(points: seq<Point>): real {
    if |points| < 2 then 0.0 else Extrapolated(Slope(points), points[|points| - 1].t - points[0].t)
  }

  function Extrapolated(perHour: real, dt: real): real { perHour * dt / HOUR }

  // ---------------------------------------------------------------- subsampling

  lemma ProductMonotone(a: nat, b: nat, c: nat)
    requires a <= b
    ensures a * c <= b * c
  {
  }

  lemma ProductGap(i: nat, j: nat, last: nat)
    requires i < j
    ensures i * last + last <= j * last
  {
    ProductMonotone(i + 1, j, last);
    assert (i + 1) * last == i * last + last;
  }

  lemma QuotientBelow(x: nat, d: int)
    requires d > 0
    ensures (x / d) * d <= x
  {
  }

  lemma QuotientGap(x: nat, y: nat, d: int)
    requires d > 0 && x + d <= y
    ensures x / d < y / d
  {
    var q := x / d;
    QuotientBelow(x, d);
    assert (q + 1) * d == q * d + d;
    QuotientAtLeast(y, q + 1, d);
  }

  lemma IndexIncreasing(i: nat, j: nat, last: nat, maxPoints: int)
    requires 2 <= maxPoints <= last + 1 && i < j < maxPoints
    ensures Index(i, last, maxPoints) < Index(j, last, maxPoints)
  {
    ProductGap(i, j, last);
    QuotientGap(i * last, j * last, maxPoints - 1);
  }

  /** The subsample is a strictly increasing choice of indices that keeps both ends and
      never exceeds the bound; a short series is kept whole. */
  lemma SubsampleKeepsEnds(points: seq<Point>, maxPoints: int) returns (chosen: seq<nat>)
    requires maxPoints >= 2 && points != []
    ensures var r := BoundedSlopePoints(points, maxPoints).value;
            && |r| == |chosen| <= maxPoints && 0 < |r|
            && (forall i :: 0 <= i < |r| ==> chosen[i] < |points| && r[i] == points[chosen[i]])
            && (forall i, j :: 0 <= i < j < |r| ==> chosen[i] < chosen[j])
            && r[0] == points[0] && r[|r| - 1] == points[|points| - 1]
    ensures |points| <= maxPoints ==> BoundedSlopePoints(points, maxPoints).value == points
  {
    var last := |points| - 1;
    if |points| <= maxPoints {
      chosen := seq(|points|, i requires 0 <= i < |points| => i);
    } else {
      chosen := seq(maxPoints, i requires 0 <= i < maxPoints => Index(i, last, maxPoints));
      forall i | 0 <= i < maxPoints ensures chosen[i] < |points| {
        IndexInRange(i, last, maxPoints);
      }
      IndexInRange(0, last, maxPoints);
      forall i, j | 0 <= i < j < maxPoints ensures chosen[i] < chosen[j] {
        IndexIncreasing(i, j, last, maxPoints);
      }
    }
  }

  ghost predicate IncreasingTimes(points: seq<Point>) {
    forall i, j :: 0 <= i < j < |points| ==> points[i].t < points[j].t
  }

  // ---------------------------------------------------------------- pairwise slopes

  /** Every pair of the sequence has property p of its slope. */
  ghost predicate AllPairs(points: seq<Point>, p: real -> bool) {
    forall i, j :: 0 <= i < j < |points| && points[i].t < points[j].t ==> p(Rate(points[i], points[j]))
  }

  ghost predicate Each(s: seq<real>, p: real -> bool) { forall i :: 0 <= i < |s| ==> p(s[i]) }

  lemma {:induction false} SlopesFromAll(a: Point, later: seq<Point>, p: real -> bool)
    requires forall j :: 0 <= j < |later| && a.t < later[j].t ==> p(Rate(a, later[j]))
    ensures Each(SlopesFrom(a, later), p)
  {
    if later != [] {
      SlopesFromAll(a, later[1..], p);
      var head := if later[0].t > a.t then [Rate(a, later[0])] else [];
      assert Each(head, p) && SlopesFrom(a, later) == head + SlopesFrom(a, later[1..]);
    }
  }

  lemma {:induction false} SlopesAll(points: seq<Point>, p: real -> bool)
    requires AllPairs(points, p)
    ensures Each(Slopes(points), p)
  {
    if points != [] {
      forall j | 0 <= j < |points[1..]| && points[0].t < points[1..][j].t ensures p(Rate(points[0], points[1..][j])) {
        assert points[1..][j] == points[j + 1];
      }
      SlopesFromAll(points[0], points[1..], p);
      SlopesAll(points[1..], p);
    }
  }

  lemma SlopesExist(points: seq<Point>)
    requires IncreasingTimes(points) && |points| >= 2
    ensures Slopes(points) != []
  {
    assert points[1..][0] == points[1];
  }

  // ---------------------------------------------------------------- the median

  lemma {:induction false} PrefixCounts(s: seq<real>, k: nat, p: real -> bool)
    requires k <= |s| && forall i :: 0 <= i < k ==> p(s[i])
    ensures Count(s, p) >= k
  {
    if k > 0 {
      PrefixCounts(s[1..], k - 1, p);
    }
  }

  lemma {:induction false} CountBoth(s: seq<real>, level: real)
    ensures Count(s, AtLeast(level)) + Count(s, BelowLevel(level)) == |s|
  {
    if s != [] {
      CountBoth(s[1..], level);
    }
  }

  function AtLeast(level: real): real -> bool { (x: real) => x >= level }

  function BelowLevel(level: real): real -> bool { (x: real) => x < level }

  /** A strict majority decides: outliers that are fewer than half of the slopes cannot
      move the median across a level. */
  lemma MajorityDecides(s: seq<real>, level: real)
    requires s != []
    ensures 2 * Count(s, AtLeast(level)) > |s| ==> Median(s) >= level
    ensures 2 * Count(s, BelowLevel(level)) > |s| ==> Median(s) < level
  {
    var sorted, n := Sort(s, Identity), |s|;
    SortSorts(s, Identity);
    SortCount(s, Identity, AtLeast(level));
    SortCount(s, Identity, BelowLevel(level));
    hide Sort, Count;
    if 2 * Count(s, AtLeast(level)) > n {
      MiddleAtLeast(sorted, level);
    }
    if 2 * Count(s, BelowLevel(level)) > n {
      BelowMajority(sorted, level);
      assert n % 2 == 0 ==> Identity(sorted[n / 2 - 1]) <= Identity(sorted[n / 2]);
    }
  }

  lemma MiddleAtLeast(sorted: seq<real>, level: real)
    requires sorted != [] && Sorted(sorted, Identity) && 2 * Count(sorted, AtLeast(level)) > |sorted|
    ensures sorted[|sorted| / 2] >= level && (|sorted| % 2 == 0 ==> sorted[|sorted| / 2 - 1] >= level)
  {
    var n := |sorted|;
    CountBoth(sorted, level);
    var k := if n % 2 == 0 then n / 2 - 1 else n / 2;
    assert Identity(sorted[k]) <= Identity(sorted[n / 2]);
    if sorted[k] < level {
      forall i | 0 <= i < k + 1 ensures BelowLevel(level)(sorted[i]) {
        assert i < k ==> Identity(sorted[i]) <= Identity(sorted[k]);
      }
      PrefixCounts(sorted, k + 1, BelowLevel(level));
    }
  }

  /** In a sorted sequence the elements below a level come first. */
  lemma BelowMajority(sorted: seq<real>, level: real)
    requires sorted != [] && Sorted(sorted, Identity) && 2 * Count(sorted, BelowLevel(level)) > |sorted|
    ensures sorted[|sorted| / 2] < level
  {
    var n := |sorted|;
    if sorted[n / 2] >= level {
      SuffixCounts(sorted, n / 2, level);
      CountBoth(sorted, level);
    }
  }

  lemma {:induction false} SuffixCounts(sorted: seq<real>, k: nat, level: real)
    requires Sorted(sorted, Identity) && k < |sorted| && sorted[k] >= level
    ensures Count(sorted, AtLeast(level)) >= |sorted| - k
  {
    if k == 0 {
      forall i | 0 <= i < |sorted| ensures AtLeast(level)(sorted[i]) {
        assert i > 0 ==> Identity(sorted[0]) <= Identity(sorted[i]);
      }
      PrefixCounts(sorted, |sorted|, AtLeast(level));
    } else {
      assert Sorted(sorted[1..], Identity);
      SuffixCounts(sorted[1..], k - 1, level);
    }
  }

  // ---------------------------------------------------------------- leaks

  /** Growth over a span, measured against a rate per hour without dividing. */
  lemma RateVersusLevel(a: Point, b: Point, level: real)
    requires a.t < b.t
    ensures Rate(a, b) >= level <==> (b.v - a.v) * HOUR >= level * (b.t - a.t)
  {
    var dt := b.t - a.t;
    var q := (b.v - a.v) / dt;
    assert q * dt == b.v - a.v;
    assert Rate(a, b) * dt == (b.v - a.v) * HOUR by {
      assert q * HOUR * dt == q * dt * HOUR;
    }
    if Rate(a, b) >= level {
      MultiplyMonotone(level, Rate(a, b), dt);
    } else {
      MultiplyStrict(Rate(a, b), level, dt);
    }
  }

  lemma MultiplyMonotone(x: real, y: real, k: real)
    requires x <= y && k >= 0.0
    ensures x * k <= y * k
  {
  }

  lemma MultiplyStrict(x: real, y: real, k: real)
    requires x < y && k > 0.0
    ensures x * k < y * k
  {
  }

  ghost predicate StepsAtLeast(points: seq<Point>, level: real)
    requires IncreasingTimes(points)
  {
    forall i, j :: 0 <= i < |points| && 0 <= j < |points| && j == i + 1 ==> Rate(points[i], points[j]) >= level
  }

  ghost predicate StepsBelow(points: seq<Point>, level: real)
    requires IncreasingTimes(points)
  {
    forall i, j :: 0 <= i < |points| && 0 <= j < |points| && j == i + 1 ==> Rate(points[i], points[j]) < level
  }

  /** Growth adds up over steps. */
  lemma {:induction false} PairAtLeast(points: seq<Point>, level: real, i: nat, j: nat)
    requires IncreasingTimes(points) && StepsAtLeast(points, level) && i < j < |points|
    ensures (points[j].v - points[i].v) * HOUR >= level * (points[j].t - points[i].t)
    decreases j
  {
    RateVersusLevel(points[j - 1], points[j], level);
    if i < j - 1 {
      PairAtLeast(points, level, i, j - 1);
      var a, b, c := points[i], points[j - 1], points[j];
      assert level * (c.t - a.t) == level * (b.t - a.t) + level * (c.t - b.t);
    }
  }

  lemma {:induction false} PairBelow(points: seq<Point>, level: real, i: nat, j: nat)
    requires IncreasingTimes(points) && StepsBelow(points, level) && i < j < |points|
    ensures (points[j].v - points[i].v) * HOUR < level * (points[j].t - points[i].t)
    decreases j
  {
    RateVersusLevel(points[j - 1], points[j], level);
    if i < j - 1 {
      PairBelow(points, level, i, j - 1);
      var a, b, c := points[i], points[j - 1], points[j];
      assert level * (c.t - a.t) == level * (b.t - a.t) + level * (c.t - b.t);
    }
  }

  /** What holds of every pair of the series holds of every pair of its subsample. */
  lemma SubsamplePairs(points: seq<Point>, p: real -> bool)
    requires IncreasingTimes(points) && AllPairs(points, p) && points != []
    ensures IncreasingTimes(Bounded(points)) && AllPairs(Bounded(points), p)
    ensures |points| >= 2 ==> |Bounded(points)| >= 2
  {
    var chosen := SubsampleKeepsEnds(points, MAX_SLOPE_POINTS);
  }

  /** A property of every pairwise slope is a property of every slope the median sees. */
  lemma MedianInherits(points: seq<Point>, p: real -> bool)
    requires IncreasingTimes(points) && AllPairs(points, p) && |points| >= 2
    ensures var s := Slopes(Bounded(points)); s != [] && Count(s, p) == |s| && Slope(points) == Median(s)
  {
    SubsamplePairs(points, p);
    SlopesAll(Bounded(points), p);
    SlopesExist(Bounded(points));
    AllCounted(Slopes(Bounded(points)), p);
  }

  lemma {:induction false} AllCounted(s: seq<real>, p: real -> bool)
    requires Each(s, p)
    ensures Count(s, p) == |s|
  {
    if s != [] {
      AllCounted(s[1..], p);
    }
  }

  lemma PairsAtLeast(points: seq<Point>, level: real)
    requires IncreasingTimes(points) && StepsAtLeast(points, level)
    ensures AllPairs(points, AtLeast(level))
  {
    forall i, j | 0 <= i < j < |points| && points[i].t < points[j].t
      ensures AtLeast(level)(Rate(points[i], points[j]))
    {
      PairAtLeast(points, level, i, j);
      RateVersusLevel(points[i], points[j], level);
    }
  }

  lemma PairsBelow(points: seq<Point>, level: real)
    requires IncreasingTimes(points) && StepsBelow(points, level)
    ensures AllPairs(points, BelowLevel(level))
  {
    forall i, j | 0 <= i < j < |points| && points[i].t < points[j].t
      ensures BelowLevel(level)(Rate(points[i], points[j]))
    {
      PairBelow(points, level, i, j);
      RateVersusLevel(points[i], points[j], level);
    }
  }

  lemma GrowthAtLeast(slope: real, level: real, span: real)
    requires slope >= level && span >= 0.0
    ensures Extrapolated(slope, span) >= Extrapolated(level, span)
  {
    MultiplyMonotone(level, slope, span);
  }

  lemma SlopeAtLeast(points: seq<Point>, level: real)
    requires IncreasingTimes(points) && |points| >= 2 && StepsAtLeast(points, level)
    ensures Slope(points) >= level
  {
    PairsAtLeast(points, level);
    MedianInherits(points, AtLeast(level));
    MajorityDecides(Slopes(Bounded(points)), level);
  }

  /** A leak is always seen: when every step grows at least at this rate, so does the
      estimate, whatever the spacing of the samples, and the fitted growth over the run
      is at least the rate times its length. */
  lemma LeakAlwaysFlagged(points: seq<Point>, level: real)
    requires IncreasingTimes(points) && |points| >= 2 && StepsAtLeast(points, level)
    ensures Slope(points) >= level
    ensures FittedGrowth(points) >= level * (points[|points| - 1].t - points[0].t) / HOUR
  {
    SlopeAtLeast(points, level);
    hide Slope, StepsAtLeast;
    GrowthAtLeast(Slope(points), level, points[|points| - 1].t - points[0].t);
  }

  /** And nothing is flagged on slope when every step stays below the level. */
  lemma QuietNeverFlagged(points: seq<Point>, level: real)
    requires IncreasingTimes(points) && |points| >= 2 && StepsBelow(points, level)
    ensures Slope(points) < level
  {
    PairsBelow(points, level);
    MedianInherits(points, BelowLevel(level));
    MajorityDecides(Slopes(Bounded(points)), level);
  }

  /** Each pair lies on the line with this slope. */
  ghost predicate Affine(points: seq<Point>, perHour: real) {
    forall i, j :: 0 <= i < j < |points| ==>
      (points[j].v - points[i].v) * 3600.0 == perHour * (points[j].t - points[i].t)
  }

  lemma AffineSteps(points: seq<Point>, perHour: real, level: real)
    requires IncreasingTimes(points) && Affine(points, perHour)
    ensures StepsAtLeast(points, perHour)
    ensures level > perHour ==> StepsBelow(points, level)
  {
    forall i, j | 0 <= i < |points| && 0 <= j < |points| && j == i + 1
      ensures Rate(points[i], points[j]) >= perHour && (level > perHour ==> Rate(points[i], points[j]) < level)
    {
      AffineRate(points[i], points[j], perHour, level);
    }
  }

  lemma AffineRate(a: Point, b: Point, perHour: real, level: real)
    requires a.t < b.t && (b.v - a.v) * HOUR == perHour * (b.t - a.t)
    ensures Rate(a, b) >= perHour && (level > perHour ==> Rate(a, b) < level)
  {
    RateVersusLevel(a, b, perHour);
    RateVersusLevel(a, b, level);
    if level > perHour {
      MultiplyStrict(perHour, level, b.t - a.t);
    }
  }

  lemma AffineSlope(points: seq<Point>, perHour: real)
    requires IncreasingTimes(points) && |points| >= 2 && Affine(points, perHour)
    ensures Slope(points) == perHour
  {
    var slope := Slope(points);
    AffineSteps(points, perHour, slope);
    SlopeAtLeast(points, perHour);
    if slope > perHour {
      QuietNeverFlagged(points, slope);
    }
  }

  lemma GrowthExact(perHour: real, dt: real, dv: real)
    requires dv * HOUR == perHour * dt
    ensures Extrapolated(perHour, dt) == dv
  {
  }

  lemma AffineEnds(points: seq<Point>, perHour: real)
    requires |points| >= 2 && Affine(points, perHour)
    ensures Extrapolated(perHour, points[|points| - 1].t - points[0].t) == points[|points| - 1].v - points[0].v
  {
    var first, last := points[0], points[|points| - 1];
    GrowthExact(perHour, last.t - first.t, last.v - first.v);
  }

  /** An affine series gets its exact slope, and its fitted growth is its real growth. */
  lemma AffineExact(points: seq<Point>, perHour: real)
    requires IncreasingTimes(points) && |points| >= 2 && Affine(points, perHour)
    ensures Slope(points) == perHour
    ensures FittedGrowth(points) == points[|points| - 1].v - points[0].v
  {
    AffineSlope(points, perHour);
    AffineEnds(points, perHour);
    hide Slope, IncreasingTimes, Affine, Extrapolated;
  }

  // ---------------------------------------------------------------- mirror images

  /** The same times with the opposite values. */
  function Negated(points: seq<Point>): (r: seq<Point>)
    ensures |r| == |points| && forall i :: 0 <= i < |r| ==> r[i] == Point(points[i].t, -points[i].v)
  {
    seq(|points|, i requires 0 <= i < |points| => Point(points[i].t, -points[i].v))
  }

  function Minus(s: seq<real>): (r: seq<real>)
    ensures |r| == |s| && forall i :: 0 <= i < |r| ==> r[i] == -s[i]
  {
    seq(|s|, i requires 0 <= i < |s| => -s[i])
  }

  function Mirror(s: seq<real>): (r: seq<real>)
    ensures |r| == |s| && forall i :: 0 <= i < |r| ==> r[i] == -s[|s| - 1 - i]
  {
    seq(|s|, i requires 0 <= i < |s| => -s[|s| - 1 - i])
  }

  lemma BoundedNegated(points: seq<Point>)
    ensures Bounded(Negated(points)) == Negated(Bounded(points))
  {
    if |points| > MAX_SLOPE_POINTS {
      forall i | 0 <= i < MAX_SLOPE_POINTS ensures Bounded(Negated(points))[i] == Negated(Bounded(points))[i] {
        IndexInRange(i, |points| - 1, MAX_SLOPE_POINTS);
      }
    }
  }

  lemma RateNegated(a: Point, b: Point)
    requires a.t < b.t
    ensures Rate(Point(a.t, -a.v), Point(b.t, -b.v)) == -Rate(a, b)
  {
    assert -b.v - -a.v == -(b.v - a.v);
    QuotientNegated(b.v - a.v, b.t - a.t);
  }

  lemma QuotientNegated(x: real, d: real)
    requires d > 0.0
    ensures (-x) / d == -(x / d)
  {
  }

  lemma {:induction false} SlopesFromNegated(a: Point, later: seq<Point>)
    ensures SlopesFrom(Point(a.t, -a.v), Negated(later)) == Minus(SlopesFrom(a, later))
  {
    if later != [] {
      SlopesFromNegated(a, later[1..]);
      assert Negated(later)[1..] == Negated(later[1..]);
      if later[0].t > a.t {
        RateNegated(a, later[0]);
      }
    }
  }

  lemma {:induction false} SlopesNegated(points: seq<Point>)
    ensures Slopes(Negated(points)) == Minus(Slopes(points))
  {
    if points != [] {
      SlopesFromNegated(points[0], points[1..]);
      SlopesNegated(points[1..]);
      assert Negated(points)[1..] == Negated(points[1..]);
    }
  }

  lemma MinusFirst(x: real, s: seq<real>)
    ensures multiset(Minus([x] + s)) == multiset{-x} + multiset(Minus(s))
  {
    assert Minus([x] + s) == [-x] + Minus(s);
  }

  lemma {:induction false} InsertMinus(x: real, s: seq<real>)
    ensures multiset(Minus(Insert(x, s, Identity))) == multiset{-x} + multiset(Minus(s))
  {
    MinusFirst(x, s);
    if s != [] {
      var rest := s[1..];
      InsertMinus(x, rest);
      MinusFirst(s[0], rest);
      MinusFirst(s[0], Insert(x, rest, Identity));
      assert s == [s[0]] + rest;
    }
    hide Minus;
  }

  lemma {:induction false} SortMinus(s: seq<real>)
    ensures multiset(Minus(Sort(s, Identity))) == multiset(Minus(s))
  {
    if s != [] {
      var x, rest := s[0], s[1..];
      assert s == [x] + rest && Sort(s, Identity) == Insert(x, Sort(rest, Identity), Identity);
      SortMinus(rest);
      hide Minus, Insert, Sort;
      MinusFirst(x, rest);
      InsertMinus(x, Sort(rest, Identity));
    }
  }

  lemma {:induction false} MirrorMinus(s: seq<real>)
    ensures multiset(Mirror(s)) == multiset(Minus(s))
  {
    if s != [] {
      MirrorMinus(s[1..]);
      assert Mirror(s) == Mirror(s[1..]) + [-s[0]];
      assert Minus(s) == [-s[0]] + Minus(s[1..]);
    }
  }

  lemma {:induction false} InsertSame(x: real, s: seq<real>)
    ensures multiset(Insert(x, s, Identity)) == multiset{x} + multiset(s)
  {
    if s != [] && x > s[0] {
      InsertSame(x, s[1..]);
      assert s == [s[0]] + s[1..];
    }
  }

  lemma {:induction false} SortSame(s: seq<real>)
    ensures multiset(Sort(s, Identity)) == multiset(s)
  {
    if s != [] {
      SortSame(s[1..]);
      InsertSame(s[0], Sort(s[1..], Identity));
      assert s == [s[0]] + s[1..];
    }
  }

  lemma LeastFirst(a: seq<real>, b: seq<real>)
    requires Sorted(a, Identity) && Sorted(b, Identity) && multiset(a) == multiset(b) && a != [] && b != []
    ensures a[0] <= b[0]
  {
    assert b[0] in multiset(a);
    var i :| 0 <= i < |a| && a[i] == b[0];
    assert i > 0 ==> Identity(a[0]) <= Identity(a[i]);
  }

  /** A list has one order. */
  lemma {:induction false} OneOrder(a: seq<real>, b: seq<real>)
    requires Sorted(a, Identity) && Sorted(b, Identity) && multiset(a) == multiset(b)
    ensures a == b
  {
    assert |a| == |multiset(a)| == |multiset(b)| == |b|;
    if a != [] {
      LeastFirst(a, b);
      LeastFirst(b, a);
      assert a == [a[0]] + a[1..] && b == [b[0]] + b[1..];
      assert multiset(a[1..]) == multiset(a) - multiset{a[0]};
      assert multiset(b[1..]) == multiset(b) - multiset{b[0]};
      assert Sorted(a[1..], Identity) && Sorted(b[1..], Identity);
      OneOrder(a[1..], b[1..]);
    }
  }

  lemma MirrorSorted(s: seq<real>)
    requires Sorted(s, Identity)
    ensures Sorted(Mirror(s), Identity)
  {
    var m := Mirror(s);
    forall i, j | 0 <= i < j < |m| ensures Identity(m[i]) <= Identity(m[j]) {
      assert Identity(s[|s| - 1 - j]) <= Identity(s[|s| - 1 - i]);
    }
  }

  /** Sorting opposite values reverses the order. */
  lemma SortMirrors(s: seq<real>)
    ensures Sort(Minus(s), Identity) == Mirror(Sort(s, Identity))
  {
    SortSorts(s, Identity);
    SortSorts(Minus(s), Identity);
    MirrorSorted(Sort(s, Identity));
    SortSame(Minus(s));
    SortMinus(s);
    MirrorMinus(Sort(s, Identity));
    OneOrder(Sort(Minus(s), Identity), Mirror(Sort(s, Identity)));
  }

  lemma MedianMirrors(s: seq<real>)
    requires s != []
    ensures Median(Minus(s)) == -Median(s)
  {
    SortMirrors(s);
    SortCount(s, Identity, (x: real) => true);
    hide Sort;
  }

  /** The estimate has no preferred direction: opposite values have the opposite slope, whatever
      the number of pairs, their spacing and ties. */
  lemma SlopeMirrors(points: seq<Point>)
    ensures Slope(Negated(points)) == -Slope(points)
    ensures FittedGrowth(Negated(points)) == -FittedGrowth(points)
  {
    SlopeMirrored(points);
    hide Slope;
    if |points| >= 2 {
      ExtrapolatedNegated(Slope(points), points[|points| - 1].t - points[0].t);
    }
  }

  lemma SlopeMirrored(points: seq<Point>)
    ensures Slope(Negated(points)) == -Slope(points)
  {
    BoundedNegated(points);
    SlopesNegated(Bounded(points));
    var slopes := Slopes(Bounded(points));
    if slopes != [] {
      MedianMirrors(slopes);
    }
    hide Slopes, Bounded, Median, Negated;
  }

  lemma ExtrapolatedNegated(perHour: real, dt: real)
    ensures Extrapolated(-perHour, dt) == -Extrapolated(perHour, dt)
  {
    assert (-perHour) * dt == -(perHour * dt);
  }
}
