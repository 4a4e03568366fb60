/** Every run of the phase detector: what its stability clock says about the evaluations made
    since the last reset, and what data that never fall in time rule out. */
module PhaseRuns {
  import opened Counting
  import opened LeastSquares
  import opened PhaseDetector

  /** A batch of readings, or a reset from outside. */
  datatype Call = Deliver(readings: seq<Reading>) | Clear

  function Act(cfg: Config, s: State, c: Call): (State, Outcome) {
    match c case Clear => (FRESH, Restarted) case Deliver(readings) => Step(cfg, s, readings)
  }

  function StateAfter(cfg: Config, calls: seq<Call>): State {
    if calls == [] then FRESH else Act(cfg, StateAfter(cfg, calls[..|calls| - 1]), calls[|calls| - 1]).0
  }

  function History(cfg: Config, calls: seq<Call>): (h: seq<Outcome>)
    ensures |h| == |calls|
  {
    if calls == [] then [] else
      var n := |calls| - 1;
      History(cfg, calls[..n]) + [Act(cfg, StateAfter(cfg, calls[..n]), calls[n]).1]
  }

  predicate Says(o: Outcome, phase: Phase) { o.Reported? && o.report.phase == phase }

  function PhaseAfter(last: Phase, d: Decision): Phase {
    match d.verdict case Failed(_) => last case Found(phase, _) => phase
  }

  /** Nothing but the buffers changes on the way to the evaluation. */
  lemma {:induction false} FeedKeepsMemory(cfg: Config, s: State, readings: seq<Reading>)
    ensures var fed := FeedAll(cfg, s, readings);
            fed.Kept? ==> fed.state == s.(temp := fed.state.temp, pres := fed.state.pres)
    decreases readings
  {
    if readings != [] {
      var fed := Feed(cfg, s, readings[0]);
      if fed.Kept? {
        FeedKeepsMemory(cfg, fed.state, readings[1..]);
      }
    }
  }

  lemma {:induction false} Prefixes(cfg: Config, calls: seq<Call>, k: nat)
    requires k < |calls|
    ensures History(cfg, calls[..k]) == History(cfg, calls)[..k]
    ensures History(cfg, calls)[k] == Act(cfg, StateAfter(cfg, calls[..k]), calls[k]).1
    decreases |calls|
  {
    var n := |calls| - 1;
    if k < n {
      Prefixes(cfg, calls[..n], k);
      assert calls[..n][..k] == calls[..k];
    }
  }

  // ------------------------------------------------------------ the stability clock

  /** The evaluations since the last reset. */
  function Observations(h: seq<Outcome>): seq<Observation> {
    if h == [] then [] else match h[|h| - 1]
      case Restarted => []
      case Reported(o, _) => Observations(h[..|h| - 1]) + [o]
      case Raised(Some(o), _) => Observations(h[..|h| - 1]) + [o]
      case _ => Observations(h[..|h| - 1])
  }

  predicate Steady(target: Target, o: Observation) { Inside(target, o.temperature) }

  /** The start of the streak of observations inside tolerance that reaches up to now. */
  function StreakStart(target: Target, seen: seq<Observation>): Option<real> {
    if seen == [] then None
    else Track(target, StreakStart(target, seen[..|seen| - 1]), seen[|seen| - 1])
  }

  ghost predicate StreakFrom(target: Target, seen: seq<Observation>, k: nat) {
    && k < |seen|
    && (forall i :: k <= i < |seen| ==> Steady(target, seen[i]))
    && (k > 0 ==> !Steady(target, seen[k - 1]))
  }

  /** The streak start is the time of the first of the unbroken observations inside tolerance. */
  lemma {:induction false} StreakStartMeans(target: Target, seen: seq<Observation>) returns (k: nat)
    ensures StreakStart(target, seen).None? <==> seen == [] || !Steady(target, seen[|seen| - 1])
    ensures StreakStart(target, seen).Some?
            ==> StreakFrom(target, seen, k) && seen[k].time == StreakStart(target, seen).value
  {
    k := 0;
    if seen != [] {
      var n := |seen| - 1;
      var before := seen[..n];
      var j := StreakStartMeans(target, before);
      k := if StreakStart(target, before).Some? then j else n;
      if StreakStart(target, seen).Some? && StreakStart(target, before).Some? {
        forall i | k <= i < |seen| ensures Steady(target, seen[i]) {
          if i < n {
            assert before[i] == seen[i];
          }
        }
      }
    }
  }

  /** The clock is the start of the streak since the last reset; no threshold matters. */
  lemma ActKeepsClock(cfg: Config, s: State, h: seq<Outcome>, c: Call)
    requires s.stableSince == StreakStart(cfg.target, Observations(h))
    ensures var (after, outcome) := Act(cfg, s, c);
            after.stableSince == StreakStart(cfg.target, Observations(h + [outcome]))
  {
    var outcome := Act(cfg, s, c).1;
    assert (h + [outcome])[..|h|] == h;
    if c.Deliver? && cfg.tempChannel != "" {
      FeedKeepsMemory(cfg, s, c.readings);
      var fed := FeedAll(cfg, s, c.readings);
      if fed.Kept? && |fed.state.temp| >= ENOUGH {
        EvaluateKeepsClock(cfg, Trimmed(cfg, fed.state), Observations(h));
      }
    }
  }

  function SeenIn(outcome: Outcome): seq<Observation> {
    match outcome case Reported(o, _) => [o] case Raised(Some(o), _) => [o] case _ => []
  }

  lemma EvaluateKeepsClock(cfg: Config, s: State, seen: seq<Observation>)
    requires s.stableSince == StreakStart(cfg.target, seen)
    ensures var (after, outcome) := Evaluate(cfg, s);
            after.stableSince == StreakStart(cfg.target, seen + SeenIn(outcome))
  {
    var more := SeenIn(Evaluate(cfg, s).1);
    if more == [] {
      assert seen + more == seen;
    } else {
      assert (seen + more)[..|seen|] == seen;
    }
  }

  lemma {:induction false} RunKeepsClock(cfg: Config, calls: seq<Call>)
    ensures StateAfter(cfg, calls).stableSince == StreakStart(cfg.target, Observations(History(cfg, calls)))
  {
    if calls != [] {
      var n := |calls| - 1;
      RunKeepsClock(cfg, calls[..n]);
      ActKeepsClock(cfg, StateAfter(cfg, calls[..n]), History(cfg, calls[..n]), calls[n]);
    }
  }

  ghost predicate InTimeOrder(seen: seq<Observation>) {
    forall i, j :: 0 <= i < j < |seen| ==> seen[i].time <= seen[j].time
  }

  /** What a report says about the clock it was made with. */
  lemma ReportedStable(cfg: Config, s: State, c: Call)
    ensures var (after, outcome) := Act(cfg, s, c);
            outcome.Reported? ==>
              && outcome.report.stable == Stable(after.stableSince, outcome.at.time)
              && (after.stableSince.Some? <==> Steady(cfg.target, outcome.at))
              && (outcome.report.stable >= cfg.target.window ==>
                    outcome.report.phase == Measurement && cfg.target.window != 0.0)
  {
    hide RateOf, LogRate;
  }

  /** A full-window report: every evaluation in the claimed period, back to its start,
      ended inside tolerance. Only a negative window makes one of a batch that did not, and
      then the period claimed is empty. */
  lemma {:induction false} FullWindowWasSteady(cfg: Config, calls: seq<Call>)
    requires calls != []
    requires TimesInOrder(AllGiven(cfg, calls))
    requires var outcome := History(cfg, calls)[|calls| - 1];
             outcome.Reported? && outcome.report.stable >= cfg.target.window
    ensures var outcome, seen := History(cfg, calls)[|calls| - 1], Observations(History(cfg, calls));
            && outcome.report.phase == Measurement
            && (forall i :: 0 <= i < |seen| && seen[i].time > outcome.at.time - outcome.report.stable
                            ==> Steady(cfg.target, seen[i]))
            && (if Steady(cfg.target, outcome.at) then
                  exists k :: 0 <= k < |seen| && seen[k].time == outcome.at.time - outcome.report.stable
                              && StreakFrom(cfg.target, seen, k)
                else cfg.target.window < 0.0 && outcome.report.stable == 0.0)
  {
    var n := |calls| - 1;
    hide Act, StreakFrom;
    var h := History(cfg, calls);
    RunKeepsClock(cfg, calls);
    RunTimely(cfg, calls);
    ReportedStable(cfg, StateAfter(cfg, calls[..n]), calls[n]);
    var seen := Observations(h);
    var k := StreakStartMeans(cfg.target, seen);
    assert seen == Observations(h[..n]) + [h[n].at] && InTimeOrder(seen);
    if Steady(cfg.target, h[n].at) {
      assert seen[k].time == h[n].at.time - h[n].report.stable && StreakFrom(cfg.target, seen, k);
      forall i | 0 <= i < |seen| && seen[i].time > seen[k].time ensures Steady(cfg.target, seen[i]) {
        SteadyAfter(cfg.target, seen, k, i);
      }
    }
  }

  lemma SteadyAfter(target: Target, seen: seq<Observation>, k: nat, i: nat)
    requires InTimeOrder(seen) && StreakFrom(target, seen, k) && i < |seen| && seen[i].time > seen[k].time
    ensures Steady(target, seen[i])
  {
  }

  // ------------------------------------------------------------ what the run was given

  /** Every temperature the run was given. */
  function Given(cfg: Config, readings: seq<Reading>): seq<Point> {
    if readings == [] then [] else
      (if IsTemperature(cfg, readings[0]) then [readings[0].at] else []) + Given(cfg, readings[1..])
  }

  function GivenBy(cfg: Config, c: Call): seq<Point> {
    match c case Clear => [] case Deliver(readings) => Given(cfg, readings)
  }

  function AllGiven(cfg: Config, calls: seq<Call>): seq<Point> {
    if calls == [] then [] else AllGiven(cfg, calls[..|calls| - 1]) + GivenBy(cfg, calls[|calls| - 1])
  }

  ghost predicate TimesInOrder(points: seq<Point>) {
    forall i, j :: 0 <= i < j < |points| ==> points[i].t <= points[j].t
  }

  /** The time of the last point. */
  function Latest(points: seq<Point>): Option<real> {
    if points == [] then None else Some(points[|points| - 1].t)
  }

  predicate AtMost(a: Option<real>, b: Option<real>) { a.Some? && b.Some? ==> a.value <= b.value }

  lemma {:induction false} FeedLatest(cfg: Config, s: State, readings: seq<Reading>)
    ensures var fed, given := FeedAll(cfg, s, readings), Given(cfg, readings);
            fed.Kept? ==> Latest(fed.state.temp) == if given == [] then Latest(s.temp) else Latest(given)
    decreases readings
  {
    if readings != [] {
      var fed := Feed(cfg, s, readings[0]);
      if fed.Kept? {
        FeedLatest(cfg, fed.state, readings[1..]);
      }
    }
  }

  lemma {:induction false} TrimLatest(buf: seq<Point>, cutoff: real)
    ensures var kept := Trim(buf, cutoff); kept == [] || Latest(kept) == Latest(buf)
  {
    if buf != [] && buf[0].t < cutoff {
      TrimLatest(buf[1..], cutoff);
    }
  }

  function LatestSeen(seen: seq<Observation>): Option<real> {
    if seen == [] then None else Some(seen[|seen| - 1].time)
  }

  /** Evaluations so far are in order, and none is later than what the buffer or the run holds. */
  ghost predicate Timely(s: State, seen: seq<Observation>, given: seq<Point>) {
    && InTimeOrder(seen)
    && AtMost(LatestSeen(seen), Latest(s.temp))
    && AtMost(Latest(s.temp), Latest(given))
    && AtMost(LatestSeen(seen), Latest(given))
    && (given == [] ==> s.temp == [] && seen == [])
  }

  /** An evaluation sees the last point of its buffer, if there is one, and keeps the buffer. */
  lemma EvaluateSees(cfg: Config, s: State)
    ensures var (after, outcome) := Evaluate(cfg, s);
            after.temp == s.temp && SeenIn(outcome) == if s.temp == [] then [] else [Seen(s.temp)]
  {
    hide Judge, Track, RateOf;
  }

  lemma AppendInOrder(seen: seq<Observation>, o: Observation)
    requires InTimeOrder(seen) && AtMost(LatestSeen(seen), Some(o.time))
    ensures InTimeOrder(seen + [o])
  {
  }

  lemma EvaluateTimely(cfg: Config, s: State, seen: seq<Observation>, given: seq<Point>)
    requires Timely(s, seen, given) && s.temp != []
    ensures Timely(Evaluate(cfg, Trimmed(cfg, s)).0, seen + SeenIn(Evaluate(cfg, Trimmed(cfg, s)).1), given)
  {
    TrimLatest(s.temp, s.temp[|s.temp| - 1].t - cfg.rateWindow * 2.0);
    var kept := Trimmed(cfg, s);
    assert kept.temp == [] || Latest(kept.temp) == Latest(s.temp);
    hide Trimmed, Trim;
    KeptTimely(cfg, s, kept, seen, given);
  }

  lemma KeptTimely(cfg: Config, s: State, kept: State, seen: seq<Observation>, given: seq<Point>)
    requires Timely(s, seen, given) && s.temp != [] && (kept.temp == [] || Latest(kept.temp) == Latest(s.temp))
    ensures Timely(Evaluate(cfg, kept).0, seen + SeenIn(Evaluate(cfg, kept).1), given)
  {
    EvaluateSees(cfg, kept);
    hide Evaluate, InTimeOrder;
    if kept.temp == [] {
      assert seen + [] == seen;
    } else {
      AppendInOrder(seen, Seen(kept.temp));
    }
  }

  lemma GivenGrows(given: seq<Point>, more: seq<Point>)
    requires TimesInOrder(given + more)
    ensures TimesInOrder(given) && AtMost(Latest(given), Latest(more))
    ensures Latest(given + more) == if more == [] then Latest(given) else Latest(more)
  {
    var all := given + more;
    assert forall i :: 0 <= i < |given| ==> all[i] == given[i];
    if given != [] && more != [] {
      assert all[|given| - 1].t <= all[|all| - 1].t;
    }
  }

  lemma ObservationsGrow(h: seq<Outcome>, o: Outcome)
    ensures Observations(h + [o]) == if o.Restarted? then [] else Observations(h) + SeenIn(o)
  {
    assert (h + [o])[..|h|] == h;
  }

  /** A call that evaluates nothing. */
  lemma NothingSeen(s: State, seen: seq<Observation>, given: seq<Point>, more: seq<Point>)
    requires Timely(s, seen, given) && TimesInOrder(given + more)
    ensures Timely(s, seen + [], given + more) && Timely(FRESH, [], given + more)
  {
    assert seen + [] == seen;
    GivenGrows(given, more);
    hide TimesInOrder;
  }

  lemma ActTimely(cfg: Config, s: State, h: seq<Outcome>, c: Call, given: seq<Point>)
    requires Timely(s, Observations(h), given) && TimesInOrder(given + GivenBy(cfg, c))
    ensures var (after, outcome) := Act(cfg, s, c);
            Timely(after, Observations(h + [outcome]), given + GivenBy(cfg, c))
  {
    var outcome, more := Act(cfg, s, c).1, GivenBy(cfg, c);
    ObservationsGrow(h, outcome);
    GivenGrows(given, more);
    NothingSeen(s, Observations(h), given, more);
    hide Evaluate, Trimmed, FeedAll, Given, TimesInOrder, Observations, InTimeOrder;
    if c.Deliver? && cfg.tempChannel != "" {
      FeedLatest(cfg, s, c.readings);
      var fed := FeedAll(cfg, s, c.readings);
      if fed.Kept? {
        assert Timely(fed.state, Observations(h), given + more);
        if |fed.state.temp| >= ENOUGH {
          EvaluateTimely(cfg, fed.state, Observations(h), given + more);
        }
      }
    }
  }

  lemma {:induction false} RunTimely(cfg: Config, calls: seq<Call>)
    requires TimesInOrder(AllGiven(cfg, calls))
    ensures Timely(StateAfter(cfg, calls), Observations(History(cfg, calls)), AllGiven(cfg, calls))
  {
    if calls != [] {
      var n := |calls| - 1;
      GivenGrows(AllGiven(cfg, calls[..n]), GivenBy(cfg, calls[n]));
      RunTimely(cfg, calls[..n]);
      ActTimely(cfg, StateAfter(cfg, calls[..n]), History(cfg, calls[..n]), calls[n], AllGiven(cfg, calls[..n]));
    }
  }

  // ------------------------------------------------------------ data that never falls

  ghost predicate Within(points: seq<Point>, whole: seq<Point>) { forall p :: p in points ==> p in whole }

  lemma {:induction false} FeedWithin(cfg: Config, s: State, readings: seq<Reading>, whole: seq<Point>)
    requires Within(s.temp, whole) && Within(Given(cfg, readings), whole)
    ensures var fed := FeedAll(cfg, s, readings); fed.Kept? ==> Within(fed.state.temp, whole)
    decreases readings
  {
    if readings != [] {
      var fed := Feed(cfg, s, readings[0]);
      assert Within(Given(cfg, readings[1..]), whole);
      if IsTemperature(cfg, readings[0]) {
        assert readings[0].at in Given(cfg, readings);
      }
      if fed.Kept? {
        FeedWithin(cfg, fed.state, readings[1..], whole);
      }
    }
  }

  lemma {:induction false} TrimWithin(buf: seq<Point>, cutoff: real)
    ensures Within(Trim(buf, cutoff), buf)
  {
    if buf != [] && buf[0].t < cutoff {
      TrimWithin(buf[1..], cutoff);
    }
  }

  lemma WithinTransitive(a: seq<Point>, b: seq<Point>, c: seq<Point>)
    requires Within(a, b) && Within(b, c)
    ensures Within(a, c)
  {
  }

  lemma WithinKeepsOrder(points: seq<Point>, whole: seq<Point>)
    requires Within(points, whole) && NonDecreasing(whole)
    ensures NonDecreasing(points)
  {
    forall i, j | 0 <= i < |points| && 0 <= j < |points| ensures NeverFalls(points[i], points[j]) {
      assert points[i] in whole && points[j] in whole;
    }
  }

  lemma RisingClassify(cfg: Config, last: Phase, flag: bool, temperature: real, rate: real, logRate: Option<real>,
                       stable: real)
    requires rate >= 0.0 && cfg.limits.cooldown <= 0.0
    ensures var d := Classify(cfg, last, flag, temperature, rate, logRate, stable);
            PhaseAfter(last, d) == Cooldown ==> last == Cooldown
  {
    hide NearConfidence, Share, Strength;
  }

  /** Over data that never falls, a non-positive threshold leaves cooldown to memory alone. */
  lemma RisingEvaluate(cfg: Config, s: State)
    requires NonDecreasing(s.temp) && cfg.limits.cooldown <= 0.0 && s.lastPhase != Cooldown
    ensures !Says(Evaluate(cfg, s).1, Cooldown) && Evaluate(cfg, s).0.lastPhase != Cooldown
  {
    hide RateOf, LogRate, NonDecreasing, Classify;
    if s.temp != [] {
      var o, rate := Seen(s.temp), RateOf(s.temp, cfg.rateWindow);
      RateNonNegative(s.temp, cfg.rateWindow);
      RisingClassify(cfg, s.lastPhase, s.warmupStarted, o.temperature, rate, LogRate(cfg, s.pres),
                     Stable(Track(cfg.target, s.stableSince, o), o.time));
    }
  }

  lemma RisingAct(cfg: Config, s: State, c: Call, whole: seq<Point>)
    requires NonDecreasing(whole) && cfg.limits.cooldown <= 0.0
    requires s.lastPhase != Cooldown && Within(s.temp, whole)
    requires Within(GivenBy(cfg, c), whole)
    ensures var (after, outcome) := Act(cfg, s, c);
            !Says(outcome, Cooldown) && after.lastPhase != Cooldown && Within(after.temp, whole)
  {
    if c.Deliver? && cfg.tempChannel != "" {
      FeedKeepsMemory(cfg, s, c.readings);
      FeedWithin(cfg, s, c.readings, whole);
      var fed := FeedAll(cfg, s, c.readings);
      hide NonDecreasing, Evaluate, Given, FeedAll, Within;
      if fed.Kept? && |fed.state.temp| >= ENOUGH {
        var trimmed := Trimmed(cfg, fed.state);
        TrimWithin(fed.state.temp, fed.state.temp[|fed.state.temp| - 1].t - cfg.rateWindow * 2.0);
        WithinTransitive(trimmed.temp, fed.state.temp, whole);
        WithinKeepsOrder(trimmed.temp, whole);
        RisingEvaluate(cfg, trimmed);
      }
    }
  }

  lemma {:induction false} RisingRun(cfg: Config, calls: seq<Call>, whole: seq<Point>)
    requires NonDecreasing(whole) && cfg.limits.cooldown <= 0.0 && Within(AllGiven(cfg, calls), whole)
    ensures StateAfter(cfg, calls).lastPhase != Cooldown && Within(StateAfter(cfg, calls).temp, whole)
    ensures forall k :: 0 <= k < |calls| ==> !Says(History(cfg, calls)[k], Cooldown)
  {
    if calls != [] {
      var n := |calls| - 1;
      RisingRun(cfg, calls[..n], whole);
      RisingAct(cfg, StateAfter(cfg, calls[..n]), calls[n], whole);
    }
  }

  /** A run whose temperatures never fall in time never reports a cooldown. */
  lemma {:induction false} RisingNeverCools(cfg: Config, calls: seq<Call>)
    requires NonDecreasing(AllGiven(cfg, calls)) && cfg.limits.cooldown <= 0.0
    ensures forall k :: 0 <= k < |calls| ==> !Says(History(cfg, calls)[k], Cooldown)
  {
    RisingRun(cfg, calls, AllGiven(cfg, calls));
  }
}
