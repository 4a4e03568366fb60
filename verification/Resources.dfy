/** The resource evaluation of a soak run: totals, every role, every restart epoch and
    every recovery against the profile's limits. */
module Resources {
  import opened Counting
  import opened SoakSeries
  import opened FaultLedger
  import Qualification
  import Slope = RobustSlope

  const RSS_GROWTH_LIMIT: int := 50 * 1024 * 1024

  datatype Profile = Profile(durationS: real, warmupS: real, rssSlope: Option<real>, descriptorSlope: Option<real>,
                             limits: Limits)

  datatype Limits = Limits(recoveryDescriptors: int, finalDescriptors: int, totalDescriptors: int, threads: int,
                           rssGrowth: int)

  datatype ResourceError =
    | SeriesRefused
    | TooFewSamples
    | TotalRss
    | TotalDescriptors
    | EpochGap(role: Role)
    | RoleOverall(role: Role)
    | InEpoch(role: Role, epoch: int)
    | InRecovery(role: Role, epoch: int)

  // ------------------------------------------------------------ series of one quantity

  type Quantity = Point -> int

  function Rss(role: Role): Quantity { (p: Point) => p.At(role).rssBytes }

  function Descriptors(role: Role): Quantity { (p: Point) => p.At(role).descriptors }

  function AllRss(): Quantity {
    (p: Point) => p.launcher.rssBytes + p.engine.rssBytes + p.bridge.rssBytes + p.assistant.rssBytes
  }

  function AllDescriptors(): Quantity {
    (p: Point) => p.launcher.descriptors + p.engine.descriptors + p.bridge.descriptors + p.assistant.descriptors
  }

  function Series(points: seq<Point>, q: Quantity): (s: seq<Slope.Point>)
    ensures |s| == |points| && forall i :: 0 <= i < |s| ==> s[i] == Slope.Point(points[i].elapsed, q(points[i]) as real)
  {
    seq(|points|, i requires 0 <= i < |points| => Slope.Point(points[i].elapsed, q(points[i]) as real))
  }

  predicate SlopeReaches(limit: Option<real>, points: seq<Point>, q: Quantity) {
    limit.Some? && Slope.Slope(Series(points, q)) >= limit.value
  }

  predicate SlopeExceeds(limit: Option<real>, points: seq<Point>, q: Quantity) {
    limit.Some? && Slope.Slope(Series(points, q)) > limit.value
  }

  predicate GrowthReaches(limit: int, points: seq<Point>, q: Quantity) {
    Slope.FittedGrowth(Series(points, q)) >= limit as real
  }

  // ------------------------------------------------------------ what is required

  predicate AfterWarmup(warmupS: real, p: Point) { p.elapsed >= warmupS }

  function Post(points: seq<Point>, warmupS: real): seq<Point> { Filter(points, p => AfterWarmup(warmupS, p)) }

  predicate PeakWithin(points: seq<Point>, q: Quantity, limit: int) {
    forall i :: 0 <= i < |points| ==> q(points[i]) <= limit
  }

  predicate TotalRssOk(post: seq<Point>, profile: Profile) {
    !GrowthReaches(RSS_GROWTH_LIMIT, post, AllRss()) && !SlopeReaches(profile.rssSlope, post, AllRss())
  }

  /** The last count is one of the counts, so the peak test decides both source tests. */
  predicate TotalDescriptorsOk(post: seq<Point>, profile: Profile)
    requires post != []
  {
    && !SlopeExceeds(profile.descriptorSlope, post, AllDescriptors())
    && PeakWithin(post, AllDescriptors(), AllDescriptors()(post[0]) + profile.limits.totalDescriptors)
  }

  predicate Within(from: RoleRecord, to: RoleRecord, descriptors: int, threads: int) {
    to.descriptors <= from.descriptors + descriptors && to.threads <= from.threads + threads
  }

  predicate Grows(from: RoleRecord, to: RoleRecord, limit: int) { to.rssBytes - from.rssBytes >= limit }

  predicate RoleOverallOk(post: seq<Point>, role: Role, profile: Profile)
    requires post != []
  {
    var first, final := post[0].At(role), post[|post| - 1].At(role);
    && !SlopeExceeds(profile.descriptorSlope, post, Descriptors(role))
    && Within(first, final, profile.limits.finalDescriptors, profile.limits.threads)
    && !Grows(first, final, profile.limits.rssGrowth)
  }

  predicate EpochOk(rows: seq<Point>, role: Role, profile: Profile)
    requires rows != []
  {
    var first, final := rows[0].At(role), rows[|rows| - 1].At(role);
    && Within(first, final, profile.limits.recoveryDescriptors, profile.limits.threads)
    && !SlopeExceeds(profile.descriptorSlope, rows, Descriptors(role))
    && !GrowthReaches(profile.limits.rssGrowth, rows, Rss(role)) && !Grows(first, final, profile.limits.rssGrowth)
    && !SlopeReaches(profile.rssSlope, rows, Rss(role))
  }

  predicate RecoveryOk(previous: RoleRecord, recovered: RoleRecord, profile: Profile) {
    && Within(previous, recovered, profile.limits.recoveryDescriptors, profile.limits.threads)
    && !Grows(previous, recovered, profile.limits.rssGrowth)
  }

  predicate InThisEpoch(role: Role, e: int, p: Point) { p.At(role).epoch == e }

  /** The samples of one role in one restart epoch. */
  function Rows(post: seq<Point>, role: Role, e: int): seq<Point> { Filter(post, p => InThisEpoch(role, e, p)) }

  function LastEpoch(post: seq<Point>, role: Role): int
    requires post != []
  {
    post[|post| - 1].At(role).epoch
  }

  predicate EpochHealthy(post: seq<Point>, role: Role, profile: Profile, e: int) {
    Rows(post, role, e) != [] && EpochOk(Rows(post, role, e), role, profile)
  }

  predicate RecoveryHealthy(post: seq<Point>, role: Role, profile: Profile, e: int) {
    && Rows(post, role, e) != [] && Rows(post, role, e + 1) != []
    && RecoveryOk(Rows(post, role, e)[0].At(role), Rows(post, role, e + 1)[0].At(role), profile)
  }

  ghost predicate RoleHealthy(post: seq<Point>, role: Role, profile: Profile)
    requires post != []
  {
    && post[0].At(role).epoch == 0 && RoleOverallOk(post, role, profile)
    && (forall e :: 0 <= e <= LastEpoch(post, role) ==> EpochHealthy(post, role, profile, e))
    && forall e :: 0 <= e < LastEpoch(post, role) ==> RecoveryHealthy(post, role, profile, e)
  }

  ghost predicate Healthy(post: seq<Point>, profile: Profile) {
    && |post| >= 2 && TotalRssOk(post, profile) && TotalDescriptorsOk(post, profile)
    && forall role :: RoleHealthy(post, role, profile)
  }

  // ------------------------------------------------------------ grouping

  lemma {:induction false} FilterAppend(s: seq<Point>, p: Point, keep: Point -> bool)
    ensures Filter(s + [p], keep) == Filter(s, keep) + if keep(p) then [p] else []
  {
    if s == [] {
      assert (s + [p])[1..] == [];
    } else {
      assert (s + [p])[1..] == s[1..] + [p];
      FilterAppend(s[1..], p, keep);
    }
  }

  /** The rows of every epoch that occurs, and of no other. */
  ghost predicate Groups(byEpoch: map<int, seq<Point>>, post: seq<Point>, role: Role) {
    && (forall e :: e in byEpoch <==> Rows(post, role, e) != [])
    && forall e :: e in byEpoch ==> byEpoch[e] == Rows(post, role, e)
  }

  method GroupByEpoch(post: seq<Point>, role: Role) returns (byEpoch: map<int, seq<Point>>)
    ensures Groups(byEpoch, post, role)
  {
    byEpoch := map[];
    for i := 0 to |post|
      invariant Groups(byEpoch, post[..i], role)
    {
      var e := post[i].At(role).epoch;
      assert post[..i + 1] == post[..i] + [post[i]];
      forall d ensures Rows(post[..i + 1], role, d) == Rows(post[..i], role, d) + if d == e then [post[i]] else [] {
        FilterAppend(post[..i], post[i], p => InThisEpoch(role, d, p));
      }
      byEpoch := byEpoch[e := (if e in byEpoch then byEpoch[e] else []) + [post[i]]];
    }
    assert post[..|post|] == post;
  }

  lemma {:induction false} RowsHold(post: seq<Point>, role: Role, e: int)
    ensures Rows(post, role, e) != [] <==> exists i :: 0 <= i < |post| && post[i].At(role).epoch == e
  {
    if post != [] {
      RowsHold(post[1..], role, e);
      assert forall i :: 1 <= i < |post| ==> post[i] == post[1..][i - 1];
      assert forall i :: 0 <= i < |post[1..]| ==> post[1..][i] == post[i + 1];
    }
  }

  /** Epochs that never fall and never jump leave no gap. */
  lemma {:induction false} EpochsFill(h: seq<RoleRecord>, e: int) returns (i: nat)
    requires h != [] && RunOk(h) && h[0].epoch <= e <= h[|h| - 1].epoch
    ensures i < |h| && h[i].epoch == e
  {
    var n := |h| - 1;
    if h[n].epoch == e {
      i := n;
    } else {
      assert h[n - 1].epoch <= h[n].epoch <= h[n - 1].epoch + 1;
      assert RunOk(h[..n]);
      i := EpochsFill(h[..n], e);
    }
  }

  lemma EpochsOccur(post: seq<Point>, role: Role, e: int)
    requires post != [] && RunOk(Qualification.History(post, role))
    requires post[0].At(role).epoch <= e <= LastEpoch(post, role)
    ensures Rows(post, role, e) != []
  {
    var i := EpochsFill(Qualification.History(post, role), e);
    RowsHold(post, role, e);
    assert post[i].At(role).epoch == e;
  }

  // ------------------------------------------------------------ after warm-up

  /** What is kept after warm-up is the end of the series. */
  lemma {:induction false} PostIsSuffix(points: seq<Point>, warmupS: real) returns (n: nat)
    requires Qualification.Rising(points)
    ensures n <= |points| && Post(points, warmupS) == points[n..]
    ensures forall i :: 0 <= i < |points| ==> (n <= i <==> points[i].elapsed >= warmupS)
  {
    if points == [] {
      n := 0;
    } else if AfterWarmup(warmupS, points[0]) {
      n := 0;
      AllAfter(points, warmupS);
    } else {
      FirstIsFirst(points);
      n := PostIsSuffix(points[1..], warmupS);
      assert Post(points, warmupS) == Post(points[1..], warmupS) && points[1..][n..] == points[n + 1..];
      hide Post, AfterWarmup, Qualification.Rising;
      assert forall i :: 1 <= i < |points| ==> points[i] == points[1..][i - 1];
      n := n + 1;
    }
  }

  lemma AllAfter(points: seq<Point>, warmupS: real)
    requires Qualification.Rising(points) && points != [] && AfterWarmup(warmupS, points[0])
    ensures Post(points, warmupS) == points && forall i :: 0 <= i < |points| ==> points[i].elapsed >= warmupS
  {
    assert forall i :: 0 < i < |points| ==> points[0].elapsed < points[i].elapsed;
    Qualification.FilterAll(points, p => AfterWarmup(warmupS, p));
  }

  lemma RunOkSuffix(h: seq<RoleRecord>, n: nat)
    requires RunOk(h) && n <= |h|
    ensures RunOk(h[n..])
  {
    var t := h[n..];
    assert forall i :: 0 <= i < |t| ==> t[i] == h[i + n];
    forall i, j | 0 <= i < |t| && 0 <= j < |t| && j == i + 1 ensures t[i].epoch <= t[j].epoch <= t[i].epoch + 1 {
      assert h[i + n].epoch <= h[j + n].epoch <= h[i + n].epoch + 1;
    }
  }

  lemma PostRegular(samples: seq<Sample>, durationS: real, warmupS: real)
    requires SeriesAccepted(samples, durationS)
    ensures var post := Post(Timeline(samples), warmupS);
            Qualification.Rising(post) && forall role :: RunOk(Qualification.History(post, role))
  {
    var points := Timeline(samples);
    Qualification.TimelineRises(samples);
    var n := PostIsSuffix(points, warmupS);
    var post := points[n..];
    forall role ensures RunOk(Qualification.History(post, role)) {
      Qualification.RegularTimeline(samples, durationS, role);
      RunOkSuffix(Qualification.History(points, role), n);
      assert Qualification.History(post, role) == Qualification.History(points, role)[n..];
    }
  }

  // ------------------------------------------------------------ the evaluation

  lemma GroupedEpoch(byEpoch: map<int, seq<Point>>, post: seq<Point>, role: Role, profile: Profile, e: int)
    requires Groups(byEpoch, post, role) && e in byEpoch
    ensures byEpoch[e] != [] && (EpochHealthy(post, role, profile, e) <==> EpochOk(byEpoch[e], role, profile))
  {
  }

  lemma GroupedRecovery(byEpoch: map<int, seq<Point>>, post: seq<Point>, role: Role, profile: Profile, e: int)
    requires Groups(byEpoch, post, role) && e in byEpoch && e + 1 in byEpoch
    ensures byEpoch[e] != [] && byEpoch[e + 1] != []
    ensures RecoveryHealthy(post, role, profile, e)
            <==> RecoveryOk(byEpoch[e][0].At(role), byEpoch[e + 1][0].At(role), profile)
  {
  }

  method EvaluateRole(post: seq<Point>, role: Role, profile: Profile) returns (errors: seq<ResourceError>)
    requires post != [] && RunOk(Qualification.History(post, role))
    ensures errors == [] <==> RoleHealthy(post, role, profile)
  {
    hide RoleOverallOk, EpochOk, RecoveryOk, Rows, EpochHealthy, RecoveryHealthy;
    errors := [];
    var byEpoch := GroupByEpoch(post, role);
    var first, last := post[0].At(role).epoch, LastEpoch(post, role);
    forall e | first <= e <= last ensures e in byEpoch {
      EpochsOccur(post, role, e);
    }
    if first != 0 {
      errors := errors + [EpochGap(role)];
    }
    if !RoleOverallOk(post, role, profile) {
      errors := errors + [RoleOverall(role)];
    }
    EpochsInOrder(post, role);
    for e := first to last + 1
      invariant errors == [] <==> first == 0 && RoleOverallOk(post, role, profile)
                                  && forall d :: first <= d < e ==> EpochHealthy(post, role, profile, d)
    {
      GroupedEpoch(byEpoch, post, role, profile, e);
      if !EpochOk(byEpoch[e], role, profile) {
        errors := errors + [InEpoch(role, e)];
      }
    }
    for e := first to last
      invariant errors == [] <==> first == 0 && RoleOverallOk(post, role, profile)
                                  && (forall d :: first <= d <= last ==> EpochHealthy(post, role, profile, d))
                                  && forall d :: first <= d < e ==> RecoveryHealthy(post, role, profile, d)
    {
      GroupedRecovery(byEpoch, post, role, profile, e);
      if !RecoveryOk(byEpoch[e][0].At(role), byEpoch[e + 1][0].At(role), profile) {
        errors := errors + [InRecovery(role, e + 1)];
      }
    }
  }

  lemma EpochsInOrder(post: seq<Point>, role: Role)
    requires post != [] && RunOk(Qualification.History(post, role))
    ensures post[0].At(role).epoch <= LastEpoch(post, role)
  {
    Qualification.EpochsRise(Qualification.History(post, role), 0, |post| - 1);
  }

  /** Some sampled total is above the limit; the source takes the maximum. */
  method PeakExceeds(post: seq<Point>, limit: int) returns (exceeds: bool)
    ensures exceeds <==> !PeakWithin(post, AllDescriptors(), limit)
  {
    for i := 0 to |post|
      invariant forall k :: 0 <= k < i ==> AllDescriptors()(post[k]) <= limit
    {
      if AllDescriptors()(post[i]) > limit {
        return true;
      }
    }
    return false;
  }

  method EvaluatePost(post: seq<Point>, profile: Profile) returns (errors: seq<ResourceError>)
    requires forall role :: RunOk(Qualification.History(post, role))
    ensures errors == [] <==> Healthy(post, profile)
  {
    hide RoleHealthy;
    if |post| < 2 {
      return [TooFewSamples];
    }
    errors := [];
    if !TotalRssOk(post, profile) {
      errors := errors + [TotalRss];
    }
    var limit := AllDescriptors()(post[0]) + profile.limits.totalDescriptors;
    var peak := PeakExceeds(post, limit);
    var final := AllDescriptors()(post[|post| - 1]) > limit;
    if SlopeExceeds(profile.descriptorSlope, post, AllDescriptors()) || final || peak {
      errors := errors + [TotalDescriptors];
    }
    for i := 0 to |ROLES|
      invariant errors == [] <==> TotalRssOk(post, profile) && TotalDescriptorsOk(post, profile)
                                  && forall k :: 0 <= k < i ==> RoleHealthy(post, ROLES[k], profile)
    {
      var found := EvaluateRole(post, ROLES[i], profile);
      errors := errors + found;
    }
    forall role ensures errors == [] ==> RoleHealthy(post, role, profile) {
      assert ROLES[Position(role)] == role;
    }
  }

  function Position(role: Role): (k: nat)
    ensures k < |ROLES| && ROLES[k] == role
  {
    match role case Launcher => 0 case Engine => 1 case Bridge => 2 case Assistant => 3
  }

  ghost predicate Passes(samples: seq<Sample>, profile: Profile) {
    SeriesAccepted(samples, profile.durationS) && Healthy(Post(Timeline(samples), profile.warmupS), profile)
  }

  /** The whole evaluation: nothing is reported exactly for an accepted series within every
      limit. */
  method EvaluateResources(samples: seq<Sample>, profile: Profile) returns (errors: seq<ResourceError>)
    ensures errors == [] <==> Passes(samples, profile)
  {
    hide Healthy, SeriesAccepted;
    var refused := ValidateSampleSeries(samples, profile.durationS);
    if refused != [] {
      return [SeriesRefused];
    }
    assert RowsOk(samples) by { AcceptedRows(samples, profile.durationS); }
    var post := Post(Timeline(samples), profile.warmupS);
    PostRegular(samples, profile.durationS, profile.warmupS);
    errors := EvaluatePost(post, profile);
  }

  lemma AcceptedRows(samples: seq<Sample>, durationS: real)
    requires SeriesAccepted(samples, durationS)
    ensures RowsOk(samples)
  {
  }

  // ------------------------------------------------------------ what passing means

  lemma FirstIsFirst(points: seq<Point>)
    requires Qualification.Rising(points) && points != []
    ensures Qualification.Rising(points[1..]) && forall p :: p in points[1..] ==> points[0].elapsed < p.elapsed
  {
    forall p | p in points[1..] ensures points[0].elapsed < p.elapsed {
      var i :| 0 <= i < |points[1..]| && points[1..][i] == p;
      assert points[i + 1] == p;
    }
  }

  lemma FirstThenRest(p: Point, rest: seq<Point>)
    requires Qualification.Rising(rest) && forall q :: q in rest ==> p.elapsed < q.elapsed
    ensures Qualification.Rising([p] + rest)
  {
  }

  lemma {:induction false} FilterRises(points: seq<Point>, keep: Point -> bool)
    requires Qualification.Rising(points)
    ensures Qualification.Rising(Filter(points, keep)) && forall p :: p in Filter(points, keep) ==> p in points
  {
    if points != [] {
      FirstIsFirst(points);
      hide Qualification.Rising;
      FilterRises(points[1..], keep);
      FirstThenRest(points[0], Filter(points[1..], keep));
    }
  }

  /** A quantity leaks when every step between samples grows at least at this rate. */
  ghost predicate Leaks(points: seq<Point>, q: Quantity, perHour: real) {
    |points| >= 2 && Slope.IncreasingTimes(Series(points, q)) && Slope.StepsAtLeast(Series(points, q), perHour)
  }

  /** A run that passes has no steady leak: not in its totals, not in any role over the whole
      run, and not in any role within one restart epoch. */
  lemma {:induction false} LeaksNeverPass(samples: seq<Sample>, profile: Profile, perHour: real)
    requires Passes(samples, profile)
    ensures var post := Post(Timeline(samples), profile.warmupS);
            && (profile.rssSlope.Some? && perHour >= profile.rssSlope.value ==>
                  && !Leaks(post, AllRss(), perHour)
                  && forall role, e :: 0 <= e <= LastEpoch(post, role) ==>
                       !Leaks(Rows(post, role, e), Rss(role), perHour))
            && (profile.descriptorSlope.Some? && perHour > profile.descriptorSlope.value ==>
                  && !Leaks(post, AllDescriptors(), perHour)
                  && (forall role :: !Leaks(post, Descriptors(role), perHour))
                  && forall role, e :: 0 <= e <= LastEpoch(post, role) ==>
                       !Leaks(Rows(post, role, e), Descriptors(role), perHour))
  {
    hide Leaks, Rows, Post, SlopeReaches, SlopeExceeds;
    var post := Post(Timeline(samples), profile.warmupS);
    assert forall role :: RoleHealthy(post, role, profile);
    if profile.rssSlope.Some? {
      NoLeak(post, AllRss(), profile.rssSlope, perHour);
      forall role, e | 0 <= e <= LastEpoch(post, role) && perHour >= profile.rssSlope.value
        ensures !Leaks(Rows(post, role, e), Rss(role), perHour)
      {
        assert RoleHealthy(post, role, profile) && EpochHealthy(post, role, profile, e);
        NoLeak(Rows(post, role, e), Rss(role), profile.rssSlope, perHour);
      }
    }
    if profile.descriptorSlope.Some? {
      NoLeak(post, AllDescriptors(), profile.descriptorSlope, perHour);
      forall role | perHour > profile.descriptorSlope.value ensures !Leaks(post, Descriptors(role), perHour) {
        assert RoleHealthy(post, role, profile);
        NoLeak(post, Descriptors(role), profile.descriptorSlope, perHour);
      }
      forall role, e | 0 <= e <= LastEpoch(post, role) && perHour > profile.descriptorSlope.value
        ensures !Leaks(Rows(post, role, e), Descriptors(role), perHour)
      {
        assert RoleHealthy(post, role, profile) && EpochHealthy(post, role, profile, e);
        NoLeak(Rows(post, role, e), Descriptors(role), profile.descriptorSlope, perHour);
      }
    }
  }

  lemma NoLeak(points: seq<Point>, q: Quantity, limit: Option<real>, perHour: real)
    requires limit.Some?
    ensures !SlopeReaches(limit, points, q) && perHour >= limit.value ==> !Leaks(points, q, perHour)
    ensures !SlopeExceeds(limit, points, q) && perHour > limit.value ==> !Leaks(points, q, perHour)
  {
    if Leaks(points, q, perHour) {
      Slope.LeakAlwaysFlagged(Series(points, q), perHour);
    }
  }

  // ------------------------------------------------------------ what passes

  ghost predicate SameResources(a: RoleRecord, b: RoleRecord) {
    a.rssBytes == b.rssBytes && a.descriptors == b.descriptors && a.threads == b.threads
  }

  /** No role's use of resources ever changes. */
  ghost predicate Still(points: seq<Point>) {
    forall p, q, role :: p in points && q in points ==> SameResources(p.At(role), q.At(role))
  }

  /** Limits that allow standing still. */
  predicate Generous(profile: Profile) {
    && (profile.rssSlope.Some? ==> profile.rssSlope.value > 0.0)
    && (profile.descriptorSlope.Some? ==> profile.descriptorSlope.value >= 0.0)
    && profile.limits.recoveryDescriptors >= 0 && profile.limits.finalDescriptors >= 0
    && profile.limits.totalDescriptors >= 0 && profile.limits.threads >= 0 && profile.limits.rssGrowth > 0
  }

  lemma FlatSlope(points: seq<Point>, q: Quantity)
    requires Qualification.Rising(points)
    requires forall i, j :: 0 <= i < |points| && 0 <= j < |points| ==> q(points[i]) == q(points[j])
    ensures Slope.Slope(Series(points, q)) == 0.0 && Slope.FittedGrowth(Series(points, q)) == 0.0
  {
    var s := Series(points, q);
    if |points| >= 2 {
      assert Slope.Affine(s, 0.0);
      Slope.AffineExact(s, 0.0);
    } else if |points| == 1 {
      assert s[1..] == [];
      assert Slope.Slopes(s) == [];
    }
  }

  lemma FlatRole(points: seq<Point>, role: Role)
    requires Qualification.Rising(points) && Still(points)
    ensures Slope.Slope(Series(points, Rss(role))) == 0.0 && Slope.FittedGrowth(Series(points, Rss(role))) == 0.0
    ensures Slope.Slope(Series(points, Descriptors(role))) == 0.0
  {
    forall i, j | 0 <= i < |points| && 0 <= j < |points|
      ensures Rss(role)(points[i]) == Rss(role)(points[j])
      ensures Descriptors(role)(points[i]) == Descriptors(role)(points[j])
    {
      assert SameResources(points[i].At(role), points[j].At(role));
    }
    FlatSlope(points, Rss(role));
    FlatSlope(points, Descriptors(role));
  }

  lemma FlatTotals(points: seq<Point>)
    requires Qualification.Rising(points) && Still(points)
    ensures Slope.Slope(Series(points, AllRss())) == 0.0 && Slope.FittedGrowth(Series(points, AllRss())) == 0.0
    ensures Slope.Slope(Series(points, AllDescriptors())) == 0.0
    ensures forall p, q :: p in points && q in points ==> AllDescriptors()(p) == AllDescriptors()(q)
  {
    forall p, q | p in points && q in points
      ensures AllRss()(p) == AllRss()(q) && AllDescriptors()(p) == AllDescriptors()(q)
    {
      assert SameResources(p.At(Launcher), q.At(Launcher)) && SameResources(p.At(Engine), q.At(Engine));
      assert SameResources(p.At(Bridge), q.At(Bridge)) && SameResources(p.At(Assistant), q.At(Assistant));
    }
    FlatSlope(points, AllRss());
    FlatSlope(points, AllDescriptors());
  }

  lemma RowsStill(post: seq<Point>, role: Role, e: int)
    requires Qualification.Rising(post) && Still(post)
    ensures Qualification.Rising(Rows(post, role, e)) && Still(Rows(post, role, e))
  {
    FilterRises(post, p => InThisEpoch(role, e, p));
    hide Qualification.Rising;
  }

  lemma StillEpoch(post: seq<Point>, role: Role, profile: Profile, e: int)
    requires Generous(profile) && Rows(post, role, e) != []
    requires Qualification.Rising(Rows(post, role, e)) && Still(Rows(post, role, e))
    ensures EpochHealthy(post, role, profile, e)
  {
    var rows := Rows(post, role, e);
    FlatRole(rows, role);
    assert rows[0] in rows && rows[|rows| - 1] in rows;
    hide Rows, Qualification.Rising;
    assert SameResources(rows[0].At(role), rows[|rows| - 1].At(role));
  }

  lemma StillEpochs(post: seq<Point>, role: Role, profile: Profile)
    requires post != [] && Qualification.Rising(post) && Still(post) && Generous(profile)
    requires RunOk(Qualification.History(post, role)) && post[0].At(role).epoch == 0
    ensures forall e :: 0 <= e <= LastEpoch(post, role) ==> EpochHealthy(post, role, profile, e)
  {
    hide EpochHealthy, Qualification.Rising, Still, RunOk;
    forall e | 0 <= e <= LastEpoch(post, role) ensures EpochHealthy(post, role, profile, e) {
      EpochsOccur(post, role, e);
      RowsStill(post, role, e);
      StillEpoch(post, role, profile, e);
    }
  }

  lemma StillRecovers(post: seq<Point>, role: Role, profile: Profile)
    requires post != [] && Qualification.Rising(post) && Still(post) && Generous(profile)
    requires forall e :: 0 <= e <= LastEpoch(post, role) ==> EpochHealthy(post, role, profile, e)
    ensures forall e :: 0 <= e < LastEpoch(post, role) ==> RecoveryHealthy(post, role, profile, e)
  {
    hide EpochOk, Qualification.Rising;
    forall e | 0 <= e < LastEpoch(post, role) ensures RecoveryHealthy(post, role, profile, e) {
      assert EpochHealthy(post, role, profile, e) && EpochHealthy(post, role, profile, e + 1);
      var a, b := Rows(post, role, e)[0], Rows(post, role, e + 1)[0];
      assert a in post by { Qualification.FilterMembers(post, p => InThisEpoch(role, e, p)); }
      assert b in post by { Qualification.FilterMembers(post, p => InThisEpoch(role, e + 1, p)); }
      assert SameResources(a.At(role), b.At(role));
    }
  }

  lemma StillRole(post: seq<Point>, role: Role, profile: Profile)
    requires post != [] && Qualification.Rising(post) && Still(post) && Generous(profile)
    requires RunOk(Qualification.History(post, role)) && post[0].At(role).epoch == 0
    ensures RoleHealthy(post, role, profile)
  {
    hide EpochHealthy, RecoveryHealthy, Qualification.Rising;
    FlatRole(post, role);
    StillEpochs(post, role, profile);
    StillRecovers(post, role, profile);
  }

  /** A run whose roles stand still after warm-up, and have not restarted before it, passes
      every profile that allows it, whatever restarts follow. */
  lemma {:induction false} StillPasses(samples: seq<Sample>, profile: Profile)
    requires SeriesAccepted(samples, profile.durationS) && Generous(profile)
    requires |Post(Timeline(samples), profile.warmupS)| >= 2 && Still(Post(Timeline(samples), profile.warmupS))
    requires forall role :: Post(Timeline(samples), profile.warmupS)[0].At(role).epoch == 0
    ensures Passes(samples, profile)
  {
    var post := Post(Timeline(samples), profile.warmupS);
    PostRegular(samples, profile.durationS, profile.warmupS);
    FlatTotals(post);
    forall role ensures RoleHealthy(post, role, profile) {
      StillRole(post, role, profile);
    }
  }
}
