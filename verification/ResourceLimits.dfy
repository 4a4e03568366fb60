/** The resource evaluation sample by sample: which differences between which samples a passing run
    keeps within its limits, with each restart epoch as a stretch of consecutive samples. */
module ResourceLimits {
  import opened Counting
  import opened SoakSeries
  import opened FaultLedger
  import opened Resources
  import Qualification
  import Slope = RobustSlope

  // ------------------------------------------------------------ the limits

  function TotalRss(p: Point): int {
    p.launcher.rssBytes + p.engine.rssBytes + p.bridge.rssBytes + p.assistant.rssBytes
  }

  function TotalDescriptors(p: Point): int {
    p.launcher.descriptors + p.engine.descriptors + p.bridge.descriptors + p.assistant.descriptors
  }

  function RssOf(role: Role): Quantity { (p: Point) => p.At(role).rssBytes }

  function DescriptorsOf(role: Role): Quantity { (p: Point) => p.At(role).descriptors }

  predicate Below(limit: Option<real>, x: real) { limit.Some? ==> x < limit.value }

  predicate UpTo(limit: Option<real>, x: real) { limit.Some? ==> x <= limit.value }

  /** Samples a to b, and no others, are in this epoch of the role. */
  ghost predicate Span(post: seq<Point>, role: Role, e: int, a: int, b: int) {
    0 <= a <= b < |post| && forall i :: 0 <= i < |post| ==> (a <= i <= b <==> post[i].At(role).epoch == e)
  }

  ghost predicate TotalsWithin(post: seq<Point>, profile: Profile)
    requires |post| >= 2
  {
    && Slope.FittedGrowth(Series(post, TotalRss)) < 52428800.0
    && Below(profile.rssSlope, Slope.Slope(Series(post, TotalRss)))
    && UpTo(profile.descriptorSlope, Slope.Slope(Series(post, TotalDescriptors)))
    && forall i :: 0 <= i < |post| ==>
         TotalDescriptors(post[i]) - TotalDescriptors(post[0]) <= profile.limits.totalDescriptors
  }

  /** From one record of a role to another: descriptors, threads and memory. */
  predicate Grown(from: RoleRecord, to: RoleRecord, descriptors: int, threads: int, rss: int) {
    && to.descriptors - from.descriptors <= descriptors
    && to.threads - from.threads <= threads
    && to.rssBytes - from.rssBytes < rss
  }

  ghost predicate EpochWithin(rows: seq<Point>, role: Role, profile: Profile)
    requires rows != []
  {
    var limits := profile.limits;
    && Grown(rows[0].At(role), rows[|rows| - 1].At(role), limits.recoveryDescriptors, limits.threads, limits.rssGrowth)
    && UpTo(profile.descriptorSlope, Slope.Slope(Series(rows, DescriptorsOf(role))))
    && Below(profile.rssSlope, Slope.Slope(Series(rows, RssOf(role))))
    && Slope.FittedGrowth(Series(rows, RssOf(role))) < limits.rssGrowth as real
  }

  ghost predicate RoleWithin(post: seq<Point>, role: Role, profile: Profile)
    requires |post| >= 2
  {
    var limits := profile.limits;
    && post[0].At(role).epoch == 0
    && UpTo(profile.descriptorSlope, Slope.Slope(Series(post, DescriptorsOf(role))))
    && Grown(post[0].At(role), post[|post| - 1].At(role), limits.finalDescriptors, limits.threads, limits.rssGrowth)
    && (forall e, a, b :: Span(post, role, e, a, b) ==> EpochWithin(post[a..b + 1], role, profile))
    && forall e, f, a, b, c, d :: Span(post, role, e, a, b) && Span(post, role, f, c, d) && f == e + 1 ==>
         Grown(post[a].At(role), post[c].At(role), limits.recoveryDescriptors, limits.threads, limits.rssGrowth)
  }

  ghost predicate WithinLimits(post: seq<Point>, profile: Profile) {
    |post| >= 2 && TotalsWithin(post, profile) && forall role :: RoleWithin(post, role, profile)
  }

  // ------------------------------------------------------------ epochs are spans

  lemma SpanRows(post: seq<Point>, role: Role, e: int, a: int, b: int)
    requires Span(post, role, e, a, b)
    ensures Rows(post, role, e) == post[a..b + 1]
  {
    var keep := p => InThisEpoch(role, e, p);
    var x, y, z := post[..a], post[a..b + 1], post[b + 1..];
    assert post == x + y + z;
    assert forall i :: 0 <= i < |z| ==> z[i] == post[b + 1 + i];
    Qualification.FilterConcat(x + y, z, keep);
    Qualification.FilterConcat(x, y, keep);
    Qualification.FilterNone(x, keep);
    Qualification.FilterAll(y, keep);
    Qualification.FilterNone(z, keep);
  }

  lemma {:induction false} FirstOf(post: seq<Point>, role: Role, e: int, n: nat) returns (a: nat)
    requires n < |post| && post[n].At(role).epoch == e
    ensures a <= n && post[a].At(role).epoch == e && forall i :: 0 <= i < a ==> post[i].At(role).epoch != e
  {
    if i: nat :| i < n && post[i].At(role).epoch == e {
      a := FirstOf(post, role, e, i);
    } else {
      a := n;
    }
  }

  lemma {:induction false} LastOf(post: seq<Point>, role: Role, e: int, n: nat) returns (b: nat)
    requires n < |post| && post[n].At(role).epoch == e
    ensures n <= b < |post| && post[b].At(role).epoch == e
    ensures forall i :: b < i < |post| ==> post[i].At(role).epoch != e
    decreases |post| - n
  {
    if i: nat :| n < i < |post| && post[i].At(role).epoch == e {
      b := LastOf(post, role, e, i);
    } else {
      b := n;
    }
  }

  /** Every epoch that occurs is one stretch of samples. */
  lemma EpochSpans(post: seq<Point>, role: Role, n: nat) returns (a: int, b: int)
    requires n < |post| && RunOk(Qualification.History(post, role))
    ensures Span(post, role, post[n].At(role).epoch, a, b)
  {
    var h, e := Qualification.History(post, role), post[n].At(role).epoch;
    a := FirstOf(post, role, e, n);
    b := LastOf(post, role, e, n);
    forall i | a <= i <= b ensures post[i].At(role).epoch == e {
      Qualification.EpochsRise(h, a, i);
      Qualification.EpochsRise(h, i, b);
    }
  }

  lemma OccurringSpan(post: seq<Point>, role: Role, e: int) returns (a: int, b: int)
    requires post != [] && RunOk(Qualification.History(post, role))
    requires post[0].At(role).epoch <= e <= LastEpoch(post, role)
    ensures Span(post, role, e, a, b) && Rows(post, role, e) == post[a..b + 1]
  {
    var n := EpochsFill(Qualification.History(post, role), e);
    a, b := EpochSpans(post, role, n);
    SpanRows(post, role, e, a, b);
  }

  lemma SpanInRange(post: seq<Point>, role: Role, e: int, a: int, b: int)
    requires RunOk(Qualification.History(post, role)) && Span(post, role, e, a, b)
    ensures post[0].At(role).epoch <= e <= LastEpoch(post, role)
  {
    var h := Qualification.History(post, role);
    Qualification.EpochsRise(h, 0, a);
    Qualification.EpochsRise(h, a, |post| - 1);
  }

  // ------------------------------------------------------------ what the evaluation means

  lemma EpochMeans(rows: seq<Point>, role: Role, profile: Profile)
    requires rows != []
    ensures EpochOk(rows, role, profile) <==> EpochWithin(rows, role, profile)
  {
    assert Series(rows, Rss(role)) == Series(rows, RssOf(role));
    assert Series(rows, Descriptors(role)) == Series(rows, DescriptorsOf(role));
    hide Slope.Slope, Slope.FittedGrowth;
  }

  lemma TotalsMean(post: seq<Point>, profile: Profile)
    requires |post| >= 2
    ensures TotalRssOk(post, profile) && TotalDescriptorsOk(post, profile) <==> TotalsWithin(post, profile)
  {
    assert Series(post, AllRss()) == Series(post, TotalRss);
    assert Series(post, AllDescriptors()) == Series(post, TotalDescriptors);
    assert forall p: Point :: AllDescriptors()(p) == TotalDescriptors(p);
    hide Slope.Slope, Slope.FittedGrowth, Series, AllDescriptors, TotalDescriptors;
  }

  lemma OverallMeans(post: seq<Point>, role: Role, profile: Profile)
    requires |post| >= 2
    ensures var limits := profile.limits;
            RoleOverallOk(post, role, profile) <==>
            && UpTo(profile.descriptorSlope, Slope.Slope(Series(post, DescriptorsOf(role))))
            && Grown(post[0].At(role), post[|post| - 1].At(role), limits.finalDescriptors, limits.threads,
                     limits.rssGrowth)
  {
    assert Series(post, Descriptors(role)) == Series(post, DescriptorsOf(role));
    hide Slope.Slope, Series;
  }

  ghost predicate EpochsHealthy(post: seq<Point>, role: Role, profile: Profile)
    requires post != []
  {
    forall e :: 0 <= e <= LastEpoch(post, role) ==> EpochHealthy(post, role, profile, e)
  }

  ghost predicate EpochsWithin(post: seq<Point>, role: Role, profile: Profile) {
    forall e, a, b :: Span(post, role, e, a, b) ==> EpochWithin(post[a..b + 1], role, profile)
  }

  lemma EpochsMean(post: seq<Point>, role: Role, profile: Profile)
    requires post != [] && RunOk(Qualification.History(post, role)) && post[0].At(role).epoch == 0
    ensures EpochsHealthy(post, role, profile) <==> EpochsWithin(post, role, profile)
  {
    hide RunOk, EpochOk, EpochWithin, Rows;
    if EpochsHealthy(post, role, profile) {
      forall e, a, b | Span(post, role, e, a, b) ensures EpochWithin(post[a..b + 1], role, profile) {
        SpanInRange(post, role, e, a, b);
        SpanRows(post, role, e, a, b);
        assert EpochHealthy(post, role, profile, e);
        EpochMeans(post[a..b + 1], role, profile);
      }
    }
    if EpochsWithin(post, role, profile) {
      forall e | 0 <= e <= LastEpoch(post, role) ensures EpochHealthy(post, role, profile, e) {
        var a, b := OccurringSpan(post, role, e);
        EpochMeans(post[a..b + 1], role, profile);
      }
    }
  }

  ghost predicate RecoveriesHealthy(post: seq<Point>, role: Role, profile: Profile)
    requires post != []
  {
    forall e :: 0 <= e < LastEpoch(post, role) ==> RecoveryHealthy(post, role, profile, e)
  }

  ghost predicate RecoveriesWithin(post: seq<Point>, role: Role, profile: Profile) {
    var limits := profile.limits;
    forall e, f, a, b, c, d :: Span(post, role, e, a, b) && Span(post, role, f, c, d) && f == e + 1 ==>
      Grown(post[a].At(role), post[c].At(role), limits.recoveryDescriptors, limits.threads, limits.rssGrowth)
  }

  lemma RecoveryMeans(from: RoleRecord, to: RoleRecord, profile: Profile)
    ensures var limits := profile.limits;
            RecoveryOk(from, to, profile) <==>
            Grown(from, to, limits.recoveryDescriptors, limits.threads, limits.rssGrowth)
  {
  }

  lemma RecoveriesMean(post: seq<Point>, role: Role, profile: Profile)
    requires post != [] && RunOk(Qualification.History(post, role)) && post[0].At(role).epoch == 0
    ensures RecoveriesHealthy(post, role, profile) <==> RecoveriesWithin(post, role, profile)
  {
    hide RunOk, RecoveryOk, Grown, Rows;
    var limits := profile.limits;
    if RecoveriesHealthy(post, role, profile) {
      forall e, f, a, b, c, d | Span(post, role, e, a, b) && Span(post, role, f, c, d) && f == e + 1
        ensures Grown(post[a].At(role), post[c].At(role), limits.recoveryDescriptors, limits.threads, limits.rssGrowth)
      {
        SpanInRange(post, role, e, a, b);
        SpanInRange(post, role, f, c, d);
        SpanRows(post, role, e, a, b);
        SpanRows(post, role, f, c, d);
        assert RecoveryHealthy(post, role, profile, e);
        RecoveryMeans(post[a].At(role), post[c].At(role), profile);
      }
    }
    if RecoveriesWithin(post, role, profile) {
      forall e | 0 <= e < LastEpoch(post, role) ensures RecoveryHealthy(post, role, profile, e) {
        var a, b := OccurringSpan(post, role, e);
        var c, d := OccurringSpan(post, role, e + 1);
        RecoveryMeans(post[a].At(role), post[c].At(role), profile);
      }
    }
  }

  lemma RoleMeans(post: seq<Point>, role: Role, profile: Profile)
    requires |post| >= 2 && RunOk(Qualification.History(post, role))
    ensures RoleHealthy(post, role, profile) <==> RoleWithin(post, role, profile)
  {
    OverallMeans(post, role, profile);
    if post[0].At(role).epoch == 0 {
      EpochsMean(post, role, profile);
      RecoveriesMean(post, role, profile);
    }
    hide RunOk, RoleOverallOk, EpochHealthy, RecoveryHealthy, Span, EpochWithin, Grown, Slope.Slope;
    assert RoleHealthy(post, role, profile) <==>
           post[0].At(role).epoch == 0 && RoleOverallOk(post, role, profile) &&
           EpochsHealthy(post, role, profile) && RecoveriesHealthy(post, role, profile);
  }

  /** An evaluation reports nothing exactly for a regular series whose totals, roles, epochs and
      recoveries stay within every limit. */
  lemma {:induction false} PassesExactly(samples: seq<Sample>, profile: Profile)
    ensures Passes(samples, profile) <==>
            SeriesAccepted(samples, profile.durationS) &&
            WithinLimits(Post(Timeline(samples), profile.warmupS), profile)
  {
    if SeriesAccepted(samples, profile.durationS) {
      var post := Post(Timeline(samples), profile.warmupS);
      PostRegular(samples, profile.durationS, profile.warmupS);
      hide SeriesAccepted, RunOk, RoleHealthy, RoleWithin, TotalsWithin, TotalRssOk, TotalDescriptorsOk;
      if |post| >= 2 {
        TotalsMean(post, profile);
        forall role ensures RoleHealthy(post, role, profile) <==> RoleWithin(post, role, profile) {
          RoleMeans(post, role, profile);
        }
      }
    }
  }
}
