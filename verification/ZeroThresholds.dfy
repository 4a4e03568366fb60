/** Two runs of the phase detector from its fresh state, one for each zero rate threshold, in
    which the branch that divides by its threshold has already written the warmup flag. */
module ZeroThresholds {
  import opened Counting
  import opened LeastSquares
  import opened PhaseDetector
  import opened PhaseRuns
  import opened PhaseMemory

  /** A four-minute rate window, and the defaults otherwise. */
  predicate Ordinary(cfg: Config) {
    && cfg.tempChannel == "T" && cfg.pressureChannel == "" && cfg.rateWindow == 240.0
    && cfg.target == Target(4.2, 0.1, 120.0) && cfg.limits.room == 280.0
  }

  // ------------------------------------------------------------ a batch of ten readings

  /** Five points a minute apart, the last at time t. */
  function Ramp(t: real, v: real, slope: real): (points: seq<Point>)
    ensures |points| == 5
  {
    [Point(t - 240.0, v - 4.0 * slope), Point(t - 180.0, v - 3.0 * slope), Point(t - 120.0, v - 2.0 * slope),
     Point(t - 60.0, v - slope), Point(t, v)]
  }

  /** Five more, five minutes before the last and so outside its rate window. */
  function Ten(t: real, v: real, slope: real): (points: seq<Point>)
    ensures |points| == 10
  {
    var p := Point(t - 300.0, v - 5.0 * slope);
    [p, p, p, p, p] + Ramp(t, v, slope)
  }

  function Readings(points: seq<Point>): (readings: seq<Reading>)
    ensures |readings| == |points| && forall i :: 0 <= i < |points| ==> readings[i] == Reading("T", true, points[i])
  {
    seq(|points|, i requires 0 <= i < |points| => Reading("T", true, points[i]))
  }

  lemma SumFive(a: real, b: real, c: real, d: real, e: real)
    ensures Sum([a, b, c, d, e]) == a + b + c + d + e
  {
    assert Sum([a]) == a by { assert [a][..0] == []; }
    assert Sum([a, b]) == a + b by { assert [a, b][..1] == [a]; }
    assert Sum([a, b, c]) == a + b + c by { assert [a, b, c][..2] == [a, b]; }
    assert Sum([a, b, c, d]) == a + b + c + d by { assert [a, b, c, d][..3] == [a, b, c]; }
    assert [a, b, c, d, e][..4] == [a, b, c, d];
  }

  lemma RampSpread(t: real, v: real, slope: real)
    ensures Spread(Ramp(t, v, slope)) == 50.0
  {
    var xs := Minutes(Ramp(t, v, slope));
    assert xs == [0.0, 1.0, 2.0, 3.0, 4.0];
    SumFive(0.0, 1.0, 2.0, 3.0, 4.0);
    assert Products(xs, xs) == [0.0, 1.0, 4.0, 9.0, 16.0];
    SumFive(0.0, 1.0, 4.0, 9.0, 16.0);
  }

  ghost predicate Before(points: seq<Point>, cutoff: real) { forall i :: 0 <= i < |points| ==> points[i].t < cutoff }

  ghost predicate From(points: seq<Point>, cutoff: real) { forall i :: 0 <= i < |points| ==> points[i].t >= cutoff }

  lemma {:induction false} SinceAll(b: seq<Point>, cutoff: real)
    requires From(b, cutoff)
    ensures Since(b, cutoff) == b
  {
    if b != [] {
      SinceAll(b[1..], cutoff);
    }
  }

  lemma {:induction false} SinceSplit(a: seq<Point>, b: seq<Point>, cutoff: real)
    requires Before(a, cutoff) && From(b, cutoff)
    ensures Since(a + b, cutoff) == b
  {
    if a == [] {
      assert a + b == b;
      SinceAll(b, cutoff);
    } else {
      assert (a + b)[1..] == a[1..] + b && (a + b)[0] == a[0];
      SinceSplit(a[1..], b, cutoff);
    }
  }

  lemma {:induction false} TrimSplit(a: seq<Point>, b: seq<Point>, cutoff: real)
    requires b != [] && b[0].t >= cutoff && Before(a, cutoff)
    ensures Trim(a + b, cutoff) == b
  {
    if a == [] {
      assert a + b == b;
    } else {
      assert (a + b)[1..] == a[1..] + b && (a + b)[0] == a[0];
      TrimSplit(a[1..], b, cutoff);
    }
  }

  lemma TenRate(t: real, v: real, slope: real)
    ensures RateOf(Ten(t, v, slope), 240.0) == slope
  {
    var p, ramp := Point(t - 300.0, v - 5.0 * slope), Ramp(t, v, slope);
    SinceSplit([p, p, p, p, p], ramp, t - 240.0);
    RampSpread(t, v, slope);
    forall i, j | 0 <= i < |ramp| && 0 <= j < |ramp|
      ensures (ramp[i].v - ramp[j].v) * MINUTE == Times(slope, ramp[i].t - ramp[j].t)
    {
      RampLine(t, v, slope, i);
      RampLine(t, v, slope, j);
      Spaced(slope, i as real, j as real);
    }
    AffineRate(ramp, slope);
  }

  lemma RampLine(t: real, v: real, slope: real, i: nat)
    requires i < 5
    ensures Ramp(t, v, slope)[i].t == t - 240.0 + MINUTE * i as real
    ensures Ramp(t, v, slope)[i].v == v - 4.0 * slope + slope * i as real
  {
    assert i == 0 || i == 1 || i == 2 || i == 3 || i == 4;
  }

  lemma Spaced(slope: real, x: real, y: real)
    ensures (slope * x - slope * y) * MINUTE == Times(slope, MINUTE * x - MINUTE * y)
  {
  }

  // ------------------------------------------------------------ feeding it

  ghost predicate NoGap(points: seq<Point>) {
    forall i, j :: 0 <= i < j < |points| && j == i + 1 ==> points[j].t - points[i].t <= GAP
  }

  lemma {:induction false} FeedPoints(cfg: Config, s: State, points: seq<Point>)
    requires Ordinary(cfg) && |s.temp| + |points| <= MAXLEN && NoGap(s.temp + points)
    ensures FeedAll(cfg, s, Readings(points)) == Kept(s.(temp := s.temp + points))
    decreases |points|
  {
    if points == [] {
      assert s.temp + points == s.temp;
    } else {
      var n, all := |s.temp|, s.temp + points;
      assert n > 0 ==> all[n].t - all[n - 1].t <= GAP;
      var next := s.(temp := s.temp + [points[0]]);
      assert next.temp + points[1..] == all;
      assert Readings(points)[1..] == Readings(points[1..]);
      FeedPoints(cfg, next, points[1..]);
    }
  }

  /** Everything in the buffer is older than two rate windows before time t, and no gap. */
  ghost predicate Stale(temp: seq<Point>, t: real) {
    && |temp| <= 100 && NoGap(temp) && (temp != [] ==> temp[|temp| - 1].t >= t - 600.0)
    && Before(temp, t - 480.0)
  }

  lemma TenIsClose(t: real, v: real, slope: real)
    ensures NoGap(Ten(t, v, slope)) && From(Ten(t, v, slope), t - 300.0) && Ten(t, v, slope)[0].t == t - 300.0
    ensures Ten(t, v, slope)[9] == Point(t, v)
  {
    var p, ramp, ten := Point(t - 300.0, v - 5.0 * slope), Ramp(t, v, slope), Ten(t, v, slope);
    assert forall i :: 0 <= i < 5 ==> ten[i] == p;
    assert forall i :: 5 <= i < 10 ==> ten[i] == ramp[i - 5];
    assert ramp[0].t == t - 240.0;
    assert ramp[1].t == t - 180.0 && ramp[2].t == t - 120.0 && ramp[3].t == t - 60.0 && ramp[4].t == t;
    forall i | 5 <= i < 10 ensures ten[i].t == t - 240.0 + MINUTE * (i - 5) as real {
      RampLine(t, v, slope, i - 5);
    }
  }

  lemma TenIsOver(t: real, v: real, slope: real)
    ensures Before(Ten(t, v, slope), t + 1.0)
  {
  }

  lemma NoGapConcat(a: seq<Point>, b: seq<Point>)
    requires NoGap(a) && NoGap(b) && (a != [] && b != [] ==> b[0].t - a[|a| - 1].t <= GAP)
    ensures NoGap(a + b)
  {
    forall i, j | 0 <= i < j < |a + b| && j == i + 1 ensures (a + b)[j].t - (a + b)[i].t <= GAP {
      if j < |a| {
        assert a[j].t - a[i].t <= GAP;
      } else if i >= |a| {
        assert b[j - |a|].t - b[i - |a|].t <= GAP;
      }
    }
  }

  /** Ten readings after which only they are left. */
  lemma TenStep(cfg: Config, s: State, t: real, v: real, slope: real)
    requires Ordinary(cfg) && s.pres == [] && Stale(s.temp, t)
    ensures Act(cfg, s, Deliver(Readings(Ten(t, v, slope)))) == Evaluate(cfg, s.(temp := Ten(t, v, slope)))
  {
    var ten := Ten(t, v, slope);
    TenIsClose(t, v, slope);
    hide Ten, Evaluate, NoGap, From;
    NoGapConcat(s.temp, ten);
    FeedPoints(cfg, s, ten);
    var all := s.temp + ten;
    assert all[|all| - 1] == ten[9];
    TrimSplit(s.temp, ten, t - 480.0);
  }

  /** Between target and room temperature such a batch is judged by its rate alone. */
  lemma TenJudged(cfg: Config, s: State, t: real, v: real, slope: real)
    requires Ordinary(cfg) && s.pres == [] && s.temp == Ten(t, v, slope) && 10.0 < v < 280.0
    ensures Judge(cfg, s) == Classify(cfg, s.lastPhase, s.warmupStarted, v, slope, None, 0.0)
    ensures Seen(s.temp) == Observation(t, v) && Track(cfg.target, s.stableSince, Seen(s.temp)) == None
    ensures !Near(cfg.target, v)
  {
    assert s.temp[9] == Point(t, v);
    TenRate(t, v, slope);
  }

  /** The call that delivers them. */
  lemma TenCall(cfg: Config, s: State, t: real, v: real, slope: real)
    requires Ordinary(cfg) && s.pres == [] && Stale(s.temp, t) && 10.0 < v < 280.0
    ensures var (after, o) := Act(cfg, s, Deliver(Readings(Ten(t, v, slope))));
            var d := Classify(cfg, s.lastPhase, s.warmupStarted, v, slope, None, 0.0);
            && after == State(Ten(t, v, slope), [], None, PhaseAfter(s.lastPhase, d), d.flag)
            && match d.verdict
               case Failed(fault) => o == Raised(Some(Observation(t, v)), fault)
               case Found(phase, _) => Says(o, phase)
  {
    TenStep(cfg, s, t, v, slope);
    hide Act, Stale;
    TenJudged(cfg, s.(temp := Ten(t, v, slope)), t, v, slope);
    hide Ten, Judge, Classify, RateOf;
  }

  /** One reading at room temperature a minute later: teardown exactly when the test says so. */
  lemma RoomStep(cfg: Config, s: State, t: real, v: real, slope: real)
    requires Ordinary(cfg) && s.pres == [] && s.temp == Ten(t, v, slope)
    ensures var outcome := Act(cfg, s, Deliver(Readings([Point(t + 60.0, 290.0)]))).1;
            Says(outcome, Teardown) <==> s.warmupStarted || s.lastPhase == Warmup
  {
    TenIsClose(t, v, slope);
    assert NoGap([Point(t + 60.0, 290.0)]);
    hide RateOf, LogRate, Ten, NoGap, From;
    var p := Point(t + 60.0, 290.0);
    NoGapConcat(s.temp, [p]);
    FeedPoints(cfg, s, [p]);
    var all := s.temp + [p];
    assert all[10] == p && all[0] == s.temp[0];
  }

  // ------------------------------------------------------------ the two runs

  lemma TwoCalls(cfg: Config, first: Call, second: Call)
    ensures var s := Act(cfg, FRESH, first).0;
            && StateAfter(cfg, [first, second]) == Act(cfg, s, second).0
            && History(cfg, [first, second]) == [Act(cfg, FRESH, first).1, Act(cfg, s, second).1]
  {
    hide Act;
    assert [first, second][..1] == [first];
    assert StateAfter(cfg, [first]) == Act(cfg, FRESH, first).0 by { assert [first][..0] == []; }
    assert History(cfg, [first]) == [Act(cfg, FRESH, first).1] by { assert [first][..0] == []; }
  }

  /** A rising batch from the fresh state: with a non-zero warmup threshold a reported warmup,
      with a zero one an exception; either way the flag is set and the batch is all that is kept. */
  lemma RisingBatch(cfg: Config)
    requires Ordinary(cfg) && cfg.limits.cooldown <= 0.0 && (cfg.limits.warmup == 0.0 || cfg.limits.warmup == 0.1)
    ensures var ten := Ten(300.0, 100.0, 1.0);
            var (s, o) := Act(cfg, FRESH, Deliver(Readings(ten)));
            && s.temp == ten && s.pres == [] && s.warmupStarted
            && if cfg.limits.warmup == 0.0
               then o == Raised(Some(Observation(300.0, 100.0)), ZeroWarmup) && s.lastPhase == Unknown
               else Says(o, Warmup) && s.lastPhase == Warmup
  {
    TenCall(cfg, FRESH, 300.0, 100.0, 1.0);
    assert !Near(cfg.target, 100.0);
    hide Act, Ten, Near;
  }

  /** A zero warmup threshold: a rising batch raises after it has set the flag, and the next
      reading at room temperature is called a teardown though no warmup was ever reported. */
  lemma TeardownWithoutWarmup(cfg: Config)
    requires Ordinary(cfg) && cfg.limits.warmup == 0.0 && cfg.limits.cooldown == -0.1
    ensures var calls := [Deliver(Readings(Ten(300.0, 100.0, 1.0))), Deliver(Readings([Point(360.0, 290.0)]))];
            var h := History(cfg, calls);
            && h[0] == Raised(Some(Observation(300.0, 100.0)), ZeroWarmup)
            && Says(h[1], Teardown) && !WarmupPending(h[..1])
  {
    var first, second := Deliver(Readings(Ten(300.0, 100.0, 1.0))), Deliver(Readings([Point(360.0, 290.0)]));
    RisingBatch(cfg);
    hide Ten, Act;
    RoomStep(cfg, Act(cfg, FRESH, first).0, 300.0, 100.0, 1.0);
    TwoCalls(cfg, first, second);
  }

  /** A falling batch after that warmup, with a zero cooldown threshold: the flag is lost. */
  lemma FallingBatch(cfg: Config, s: State)
    requires Ordinary(cfg) && cfg.limits.cooldown == 0.0
    requires s.temp == Ten(300.0, 100.0, 1.0) && s.pres == [] && s.lastPhase == Warmup
    ensures var ten := Ten(840.0, 90.0, -1.0);
            var (after, o) := Act(cfg, s, Deliver(Readings(ten)));
            && after.temp == ten && after.pres == [] && !after.warmupStarted && after.lastPhase == Warmup
            && o == Raised(Some(Observation(840.0, 90.0)), ZeroCooldown)
  {
    TenIsClose(300.0, 100.0, 1.0);
    TenIsOver(300.0, 100.0, 1.0);
    TenCall(cfg, s, 840.0, 90.0, -1.0);
    assert !Near(cfg.target, 90.0);
    hide Act, Ten, Near;
  }

  /** A zero cooldown threshold: after a reported warmup a falling batch raises after it has
      cleared the flag, and only the second half of the teardown test fires afterwards. */
  lemma FlagForgotten(cfg: Config)
    requires Ordinary(cfg) && cfg.limits.cooldown == 0.0 && cfg.limits.warmup == 0.1
    ensures var calls := [Deliver(Readings(Ten(300.0, 100.0, 1.0))), Deliver(Readings(Ten(840.0, 90.0, -1.0)))];
            var h, s := History(cfg, calls), StateAfter(cfg, calls);
            && Says(h[0], Warmup) && h[1] == Raised(Some(Observation(840.0, 90.0)), ZeroCooldown)
            && s.lastPhase == Warmup && !s.warmupStarted
            && Says(Act(cfg, s, Deliver(Readings([Point(900.0, 290.0)]))).1, Teardown)
  {
    var first, second := Deliver(Readings(Ten(300.0, 100.0, 1.0))), Deliver(Readings(Ten(840.0, 90.0, -1.0)));
    RisingBatch(cfg);
    hide Ten, Act;
    var s := Act(cfg, FRESH, first).0;
    FallingBatch(cfg, s);
    RoomStep(cfg, Act(cfg, s, second).0, 840.0, 90.0, -1.0);
    TwoCalls(cfg, first, second);
  }
}
