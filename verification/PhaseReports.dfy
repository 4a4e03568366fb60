/** What each report of the phase detector says, told from the readings it was given and from the
    reports before it: which readings its buffers hold, when a gap empties them, and which phase
    each temperature zone is reported as. */
module PhaseReports {
  import opened Counting
  import opened LeastSquares
  import opened PhaseDetector
  import opened PhaseRuns
  import opened PhaseMemory

  // ------------------------------------------------------------ what the buffers hold

  /** A reading that is a temperature. */
  function TempOf(cfg: Config, r: Reading): seq<Point> {
    if r.ok && r.channel == cfg.tempChannel then [r.at] else []
  }

  /** The logarithm of a positive pressure; one channel cannot be both. */
  function PressureOf(cfg: Config, r: Reading): seq<Point> {
    if r.ok && cfg.pressureChannel != "" && r.channel == cfg.pressureChannel && r.channel != cfg.tempChannel &&
      r.at.v > 0.0
    then [Point(r.at.t, cfg.log10(r.at.v))] else []
  }

  function Temps(cfg: Config, readings: seq<Reading>): seq<Point> {
    if readings == [] then [] else TempOf(cfg, readings[0]) + Temps(cfg, readings[1..])
  }

  function Pressures(cfg: Config, readings: seq<Reading>): seq<Point> {
    if readings == [] then [] else PressureOf(cfg, readings[0]) + Pressures(cfg, readings[1..])
  }

  /** The last 2000 points. */
  function Newest(points: seq<Point>): seq<Point> {
    if |points| <= 2000 then points else points[|points| - 2000..]
  }

  lemma NewestStep(buf: seq<Point>, p: Point, rest: seq<Point>)
    requires |buf| <= 2000
    ensures |Push(buf, p)| <= 2000 && Newest(Push(buf, p) + rest) == Newest(buf + ([p] + rest))
  {
    var all := buf + ([p] + rest);
    assert Push(buf, p) + rest == if |buf| < 2000 then all else all[|buf| - 1999..];
  }

  lemma FedOne(cfg: Config, s: State, r: Reading, temps: seq<Point>, pressures: seq<Point>)
    requires |s.temp| <= 2000 && |s.pres| <= 2000 && Feed(cfg, s, r).Kept?
    ensures var t := Feed(cfg, s, r).state;
            && |t.temp| <= 2000 && Newest(t.temp + temps) == Newest(s.temp + (TempOf(cfg, r) + temps))
            && |t.pres| <= 2000 && Newest(t.pres + pressures) == Newest(s.pres + (PressureOf(cfg, r) + pressures))
  {
    NewestStep(s.temp, r.at, temps);
    NewestStep(s.pres, Point(r.at.t, cfg.log10(r.at.v)), pressures);
    assert [] + temps == temps && [] + pressures == pressures;
    hide Push, Newest;
  }

  /** A batch without a gap leaves the newest of what was there and what it brought. */
  lemma {:induction false} FedBuffers(cfg: Config, s: State, readings: seq<Reading>)
    requires |s.temp| <= 2000 && |s.pres| <= 2000
    ensures var fed := FeedAll(cfg, s, readings);
            fed.Kept? ==> fed.state.temp == Newest(s.temp + Temps(cfg, readings)) &&
                          fed.state.pres == Newest(s.pres + Pressures(cfg, readings))
    decreases readings
  {
    if readings == [] {
      assert s.temp + [] == s.temp && s.pres + [] == s.pres;
    } else {
      var r, rest := readings[0], readings[1..];
      hide Newest, Feed, TempOf, PressureOf;
      var fed := Feed(cfg, s, r);
      if fed.Kept? {
        FedOne(cfg, s, r, Temps(cfg, rest), Pressures(cfg, rest));
        FedBuffers(cfg, fed.state, rest);
      }
    }
  }

  ghost predicate GapIn(points: seq<Point>) {
    exists i, j :: 0 <= i < |points| && j == i + 1 && j < |points| && points[j].t - points[i].t > 300.0
  }

  lemma GapFirst(a: Point, b: Point, rest: seq<Point>)
    ensures GapIn([a, b] + rest) <==> b.t - a.t > 300.0 || GapIn([b] + rest)
  {
    var all, tail := [a, b] + rest, [b] + rest;
    assert all[0] == a && all[1] == b && forall i :: 0 <= i < |tail| ==> all[i + 1] == tail[i];
    if GapIn(tail) {
      var i, j :| 0 <= i < |tail| && j == i + 1 && j < |tail| && tail[j].t - tail[i].t > 300.0;
      assert all[j + 1].t - all[i + 1].t > 300.0;
    }
    if GapIn(all) {
      var i, j :| 0 <= i < |all| && j == i + 1 && j < |all| && all[j].t - all[i].t > 300.0;
      assert i > 0 ==> tail[j - 1].t - tail[i - 1].t > 300.0;
    }
  }

  /** The last buffered temperature, if there is one. */
  function LastOf(buf: seq<Point>): seq<Point> { if buf == [] then [] else [buf[|buf| - 1]] }

  /** A batch resets the detector exactly when two neighbouring temperatures, the last one before
      it included, are more than five minutes apart. */
  lemma {:induction false} GapMeans(cfg: Config, s: State, readings: seq<Reading>)
    ensures FeedAll(cfg, s, readings).Gap? <==> GapIn(LastOf(s.temp) + Temps(cfg, readings))
    decreases readings
  {
    if readings != [] {
      var r, rest := readings[0], readings[1..];
      var fed := Feed(cfg, s, r);
      if fed.Kept? {
        GapMeans(cfg, fed.state, rest);
      }
      if r.ok && r.channel == cfg.tempChannel {
        GapStep(s.temp, r.at, Temps(cfg, rest));
        assert Temps(cfg, readings) == [r.at] + Temps(cfg, rest);
        assert fed.Kept? ==> LastOf(fed.state.temp) == [r.at];
      } else {
        assert Temps(cfg, readings) == Temps(cfg, rest);
      }
      hide GapIn, Temps, FeedAll;
    }
  }

  lemma GapStep(buf: seq<Point>, p: Point, rest: seq<Point>)
    ensures GapIn(LastOf(buf) + ([p] + rest)) <==>
            (buf != [] && p.t - buf[|buf| - 1].t > 300.0) || GapIn([p] + rest)
  {
    if buf != [] {
      var last := buf[|buf| - 1];
      GapFirst(last, p, rest);
      assert LastOf(buf) + ([p] + rest) == [last, p] + rest;
    } else {
      assert LastOf(buf) + ([p] + rest) == [p] + rest;
    }
    hide GapIn;
  }

  lemma {:induction false} TrimMeans(buf: seq<Point>, cutoff: real) returns (m: nat)
    ensures m <= |buf| && Trim(buf, cutoff) == buf[m..]
    ensures (forall i :: 0 <= i < m ==> buf[i].t < cutoff) && (m < |buf| ==> buf[m].t >= cutoff)
  {
    m := 0;
    if buf != [] && buf[0].t < cutoff {
      m := TrimMeans(buf[1..], cutoff);
      assert forall i :: 1 <= i < |buf| ==> buf[i] == buf[1..][i - 1];
      m := m + 1;
    }
  }

  /** The buffer is the end of the series, as long as 2000 points allow; an older point is missing
      only beyond those or because it is from before the cutoff. */
  ghost predicate Recent(series: seq<Point>, buf: seq<Point>, cutoff: Option<real>) {
    exists m: nat :: RecentFrom(series, buf, cutoff, m)
  }

  ghost predicate RecentFrom(series: seq<Point>, buf: seq<Point>, cutoff: Option<real>, m: nat) {
    && m <= |series| && buf == series[m..] && |buf| <= 2000
    && (m == 0 || |buf| == 2000 || (cutoff.Some? && series[m - 1].t < cutoff.value))
  }

  lemma RecentFed(series: seq<Point>, buf: seq<Point>, cutoff: Option<real>, more: seq<Point>, later: Option<real>)
    requires Recent(series, buf, cutoff) && (cutoff.Some? ==> later.Some? && cutoff.value <= later.value)
    ensures Recent(series + more, Newest(buf + more), later)
  {
    var m: nat :| RecentFrom(series, buf, cutoff, m);
    var all := series + more;
    assert all[m..] == buf + more;
    var k := if |buf + more| <= 2000 then m else |all| - 2000;
    assert RecentFrom(all, Newest(buf + more), later, k);
  }

  lemma RecentTrimmed(series: seq<Point>, buf: seq<Point>, cutoff: real)
    requires Recent(series, buf, Some(cutoff))
    ensures Recent(series, Trim(buf, cutoff), Some(cutoff))
  {
    var m: nat :| RecentFrom(series, buf, Some(cutoff), m);
    var k := TrimMeans(buf, cutoff);
    assert series[m + k..] == buf[k..];
    assert k > 0 ==> series[m + k - 1] == buf[k - 1];
    assert RecentFrom(series, Trim(buf, cutoff), Some(cutoff), m + k);
  }

  function TempsIn(cfg: Config, c: Call): seq<Point> {
    if c.Clear? || cfg.tempChannel == "" then [] else Temps(cfg, c.readings)
  }

  function PressuresIn(cfg: Config, c: Call): seq<Point> {
    if c.Clear? || cfg.tempChannel == "" then [] else Pressures(cfg, c.readings)
  }

  /** The temperatures given since the last reset. */
  function TempsSince(cfg: Config, calls: seq<Call>): seq<Point> {
    if calls == [] || History(cfg, calls)[|calls| - 1].Restarted? then [] else
      TempsSince(cfg, calls[..|calls| - 1]) + TempsIn(cfg, calls[|calls| - 1])
  }

  function PressuresSince(cfg: Config, calls: seq<Call>): seq<Point> {
    if calls == [] || History(cfg, calls)[|calls| - 1].Restarted? then [] else
      PressuresSince(cfg, calls[..|calls| - 1]) + PressuresIn(cfg, calls[|calls| - 1])
  }

  /** Two windows before the last temperature. */
  function Cutoff(cfg: Config, temps: seq<Point>): Option<real> {
    if temps == [] then None else Some(temps[|temps| - 1].t - cfg.rateWindow * 2.0)
  }

  ghost predicate Holds(cfg: Config, s: State, temps: seq<Point>, pressures: seq<Point>) {
    Recent(temps, s.temp, Cutoff(cfg, temps)) && Recent(pressures, s.pres, Cutoff(cfg, temps))
  }

  lemma CutoffGrows(cfg: Config, temps: seq<Point>, more: seq<Point>)
    requires TimesInOrder(temps + more)
    ensures var a, b := Cutoff(cfg, temps), Cutoff(cfg, temps + more);
            a.Some? ==> b.Some? && a.value <= b.value
  {
    var all := temps + more;
    if temps != [] {
      assert all[|temps| - 1] == temps[|temps| - 1];
      assert |temps| < |all| ==> all[|temps| - 1].t <= all[|all| - 1].t;
    }
  }

  lemma FedHolds(cfg: Config, s: State, readings: seq<Reading>, temps: seq<Point>, pressures: seq<Point>)
    requires Holds(cfg, s, temps, pressures) && TimesInOrder(temps + Temps(cfg, readings))
    requires FeedAll(cfg, s, readings).Kept?
    ensures Holds(cfg, FeedAll(cfg, s, readings).state, temps + Temps(cfg, readings),
                  pressures + Pressures(cfg, readings))
  {
    var more := Temps(cfg, readings);
    CutoffGrows(cfg, temps, more);
    FedBuffers(cfg, s, readings);
    hide FeedAll, Temps, Pressures, TimesInOrder, Cutoff, Newest;
    RecentFed(temps, s.temp, Cutoff(cfg, temps), more, Cutoff(cfg, temps + more));
    RecentFed(pressures, s.pres, Cutoff(cfg, temps), Pressures(cfg, readings), Cutoff(cfg, temps + more));
  }

  /** Nothing in the buffers is from before the cutoff. */
  ghost predicate Fresh(cfg: Config, s: State, temps: seq<Point>) {
    && (s.temp != [] ==> Cutoff(cfg, temps).Some? && s.temp[0].t >= Cutoff(cfg, temps).value)
    && (s.pres != [] ==> Cutoff(cfg, temps).Some? && s.pres[0].t >= Cutoff(cfg, temps).value)
  }

  lemma TrimStarts(buf: seq<Point>, cutoff: real)
    ensures var kept := Trim(buf, cutoff); kept != [] ==> kept[0].t >= cutoff
  {
    var m := TrimMeans(buf, cutoff);
  }

  lemma BufferCutoff(cfg: Config, temps: seq<Point>, buf: seq<Point>)
    requires Recent(temps, buf, Cutoff(cfg, temps)) && buf != []
    ensures Cutoff(cfg, temps) == Some(buf[|buf| - 1].t - cfg.rateWindow * 2.0)
  {
    var m: nat :| RecentFrom(temps, buf, Cutoff(cfg, temps), m);
  }

  lemma TrimmedHolds(cfg: Config, s: State, temps: seq<Point>, pressures: seq<Point>)
    requires Holds(cfg, s, temps, pressures) && s.temp != []
    ensures Holds(cfg, Trimmed(cfg, s), temps, pressures) && Fresh(cfg, Trimmed(cfg, s), temps)
  {
    BufferCutoff(cfg, temps, s.temp);
    hide Recent, Cutoff, Trim;
    var cutoff := Cutoff(cfg, temps).value;
    RecentTrimmed(temps, s.temp, cutoff);
    RecentTrimmed(pressures, s.pres, cutoff);
    TrimStarts(s.temp, cutoff);
    TrimStarts(s.pres, cutoff);
  }

  lemma FreshHolds(cfg: Config)
    ensures Holds(cfg, FRESH, [], [])
  {
    assert RecentFrom([], FRESH.temp, None, 0) && RecentFrom([], FRESH.pres, None, 0);
  }

  lemma ActHolds(cfg: Config, s: State, c: Call, temps: seq<Point>, pressures: seq<Point>)
    requires Holds(cfg, s, temps, pressures)
    requires !Act(cfg, s, c).1.Restarted? ==> TimesInOrder(temps + TempsIn(cfg, c))
    ensures var (after, outcome) := Act(cfg, s, c);
            if outcome.Restarted? then Holds(cfg, after, [], [])
            else Holds(cfg, after, temps + TempsIn(cfg, c), pressures + PressuresIn(cfg, c)) &&
                 (outcome != Quiet ==> Fresh(cfg, after, temps + TempsIn(cfg, c)))
  {
    FreshHolds(cfg);
    hide Holds, TimesInOrder, Trimmed, Evaluate, Feed, FeedAll, Temps, Pressures;
    if c.Deliver? && cfg.tempChannel != "" {
      var fed := FeedAll(cfg, s, c.readings);
      if fed.Kept? {
        if |fed.state.temp| >= ENOUGH {
          NeverRestarted(cfg, Trimmed(cfg, fed.state));
        }
        FedHolds(cfg, s, c.readings, temps, pressures);
        if |fed.state.temp| >= ENOUGH {
          TrimmedHolds(cfg, fed.state, temps + TempsIn(cfg, c), pressures + PressuresIn(cfg, c));
          KeptBuffers(cfg, Trimmed(cfg, fed.state), temps + TempsIn(cfg, c), pressures + PressuresIn(cfg, c));
        }
      }
    } else {
      assert temps + [] == temps && pressures + [] == pressures;
    }
  }

  /** Evaluating leaves the buffers alone. */
  lemma KeptBuffers(cfg: Config, s: State, temps: seq<Point>, pressures: seq<Point>)
    requires Holds(cfg, s, temps, pressures)
    ensures Holds(cfg, Evaluate(cfg, s).0, temps, pressures)
    ensures Evaluate(cfg, s).0.temp == s.temp && Evaluate(cfg, s).0.pres == s.pres
    ensures !Evaluate(cfg, s).1.Quiet? && !Evaluate(cfg, s).1.Restarted?
  {
    hide Judge, RateOf, Track;
  }

  lemma OrderPrefix(a: seq<Point>, b: seq<Point>)
    requires TimesInOrder(a + b)
    ensures TimesInOrder(a)
  {
    assert forall i :: 0 <= i < |a| ==> a[i] == (a + b)[i];
  }

  /** After any run, temperatures in time order: the buffers are exactly the recent readings since
      the last reset, and after an evaluation none is more than two windows old. */
  lemma {:induction false} BuffersAreRecent(cfg: Config, calls: seq<Call>)
    requires TimesInOrder(TempsSince(cfg, calls))
    ensures Holds(cfg, StateAfter(cfg, calls), TempsSince(cfg, calls), PressuresSince(cfg, calls))
    ensures calls != [] && !History(cfg, calls)[|calls| - 1].Quiet? ==>
              Fresh(cfg, StateAfter(cfg, calls), TempsSince(cfg, calls))
  {
    FreshHolds(cfg);
    if calls != [] {
      var n := |calls| - 1;
      var s, c := StateAfter(cfg, calls[..n]), calls[n];
      if Act(cfg, s, c).1.Restarted? {
        RestartedFresh(cfg, s, c);
      } else {
        OrderPrefix(TempsSince(cfg, calls[..n]), TempsIn(cfg, c));
        BuffersAreRecent(cfg, calls[..n]);
        ActHolds(cfg, s, c, TempsSince(cfg, calls[..n]), PressuresSince(cfg, calls[..n]));
      }
      hide Holds, Fresh, Act, TimesInOrder;
    }
  }

  lemma RestartedFresh(cfg: Config, s: State, c: Call)
    requires Act(cfg, s, c).1.Restarted?
    ensures Act(cfg, s, c).0 == FRESH && Fresh(cfg, FRESH, [])
  {
    hide FeedAll, Evaluate;
    if c.Deliver? && cfg.tempChannel != "" {
      var fed := FeedAll(cfg, s, c.readings);
      if fed.Kept? && |fed.state.temp| >= ENOUGH {
        NeverRestarted(cfg, Trimmed(cfg, fed.state));
      }
    }
  }

  lemma NeverRestarted(cfg: Config, s: State)
    ensures !Evaluate(cfg, s).1.Restarted?
  {
    hide Judge, RateOf;
  }

  // ------------------------------------------------------------ which phase a zone is reported as

  function Least(a: real, b: real): real { if a <= b then a else b }

  function Magnitude(x: real): real { if x >= 0.0 then x else -x }

  predicate Close(target: Target, temperature: real, width: real) {
    target.temperature - width <= temperature <= target.temperature + width
  }

  /** What a report says in each zone, given whether the cryostat has been heated, what was reported
      last and whether it is being pumped. */
  ghost predicate ZoneSays(cfg: Config, r: Report, temperature: real, heated: bool, last: Phase, pumping: bool) {
    var target, limits := cfg.target, cfg.limits;
    if r.stable >= target.window then
      r.phase == Measurement && target.window != 0.0 && r.confidence == Least(1.0, r.stable / (2.0 * target.window))
    else if Close(target, temperature, 3.0 * target.tolerance) then
      if r.rate > limits.warmup then r.phase == Warmup && r.confidence == 0.7
      else r.phase == Measurement &&
           r.confidence == (if r.stable > 0.0 then 0.3 + 0.4 * (r.stable / target.window) else 0.3)
    else if temperature >= limits.room then
      if heated then r.phase == Teardown && r.confidence == 0.8
      else if pumping then r.phase == Vacuum && r.confidence == 0.7
      else r.phase == Preparation && r.confidence == 0.6
    else if r.rate < limits.cooldown then
      r.phase == Cooldown && limits.cooldown != 0.0 &&
      r.confidence == Least(1.0, 0.5 * Magnitude(r.rate / limits.cooldown))
    else if r.rate > limits.warmup then
      r.phase == Warmup && limits.warmup != 0.0 &&
      r.confidence == Least(1.0, 0.5 * Magnitude(r.rate / limits.warmup))
    else if last == Cooldown && temperature > 2.0 * target.temperature then r.phase == Cooldown && r.confidence == 0.4
    else if last == Warmup then r.phase == Warmup && r.confidence == 0.4
    else r.phase == Unknown && r.confidence == 0.1
  }

  /** Ten pressures or more, and their logarithm falls faster than the limit. */
  predicate Pumping(cfg: Config, pres: seq<Point>) {
    |pres| >= 10 && RateOf(pres, cfg.rateWindow) < cfg.limits.pump
  }

  /** Warmup was reported last, or the flag was last written by a warming branch. */
  predicate Heated(cfg: Config, h: seq<Outcome>) {
    LastReported(h) == Warmup || (LastWrite(cfg, h).Some? && LastWrite(cfg, h).value.flag)
  }

  lemma ClassifiedZone(cfg: Config, last: Phase, flag: bool, temperature: real, rate: real, logRate: Option<real>,
                       stable: real)
    ensures var d := Classify(cfg, last, flag, temperature, rate, logRate, stable);
            d.verdict.Found? ==>
              ZoneSays(cfg, Report(d.verdict.phase, d.verdict.confidence, rate, stable), temperature,
                       flag || last == Warmup, last, logRate.Some? && logRate.value < cfg.limits.pump)
  {
  }

  /** One evaluation's report, from the buffers it leaves. */
  lemma EvaluatedZone(cfg: Config, s: State)
    ensures var (after, outcome) := Evaluate(cfg, s);
            outcome.Reported? ==>
              && after.temp == s.temp && after.pres == s.pres && s.temp != []
              && outcome.at == Observation(s.temp[|s.temp| - 1].t, s.temp[|s.temp| - 1].v)
              && outcome.report.rate == RateOf(s.temp, cfg.rateWindow)
              && outcome.report.stable == Stable(after.stableSince, outcome.at.time)
              && ZoneSays(cfg, outcome.report, outcome.at.temperature, s.warmupStarted || s.lastPhase == Warmup,
                          s.lastPhase, Pumping(cfg, s.pres))
  {
    if s.temp != [] {
      var o := Seen(s.temp);
      ClassifiedZone(cfg, s.lastPhase, s.warmupStarted, o.temperature, RateOf(s.temp, cfg.rateWindow),
                     LogRate(cfg, s.pres), Stable(Track(cfg.target, s.stableSince, o), o.time));
    }
    hide RateOf, Classify, ZoneSays;
  }

  lemma ActedZone(cfg: Config, s: State, c: Call)
    ensures var (after, outcome) := Act(cfg, s, c);
            outcome.Reported? ==>
              && after.temp != []
              && outcome.at == Observation(after.temp[|after.temp| - 1].t, after.temp[|after.temp| - 1].v)
              && outcome.report.rate == RateOf(after.temp, cfg.rateWindow)
              && outcome.report.stable == Stable(after.stableSince, outcome.at.time)
              && ZoneSays(cfg, outcome.report, outcome.at.temperature, s.warmupStarted || s.lastPhase == Warmup,
                          s.lastPhase, Pumping(cfg, after.pres))
  {
    hide RateOf, Evaluate, ZoneSays, Pumping;
    if c.Deliver? && cfg.tempChannel != "" {
      FeedKeepsMemory(cfg, s, c.readings);
      var fed := FeedAll(cfg, s, c.readings);
      if fed.Kept? && |fed.state.temp| >= ENOUGH {
        EvaluatedZone(cfg, Trimmed(cfg, fed.state));
      }
    }
  }

  /** Every report of every run, from what the run had reported before: its rate is that of the
      buffered temperatures, the stable time runs from the start of the streak inside tolerance,
      and the phase is the one of its zone. With non-zero thresholds, heated means that a warmup
      was reported with no cooldown and no reset since. */
  lemma {:induction false} ReportsByZone(cfg: Config, calls: seq<Call>)
    requires calls != [] && History(cfg, calls)[|calls| - 1].Reported?
    ensures var h, s := History(cfg, calls), StateAfter(cfg, calls);
            var before, o := h[..|calls| - 1], h[|calls| - 1];
            && s.temp != [] && o.at == Observation(s.temp[|s.temp| - 1].t, s.temp[|s.temp| - 1].v)
            && o.report.rate == RateOf(s.temp, cfg.rateWindow)
            && o.report.stable == (match StreakStart(cfg.target, Observations(h))
                                   case None => 0.0
                                   case Some(start) => o.at.time - start)
            && ZoneSays(cfg, o.report, o.at.temperature, Heated(cfg, before), LastReported(before),
                        Pumping(cfg, s.pres))
            && (cfg.limits.cooldown != 0.0 && cfg.limits.warmup != 0.0 ==>
                  (Heated(cfg, before) <==> WarmupPending(before)))
  {
    var n := |calls| - 1;
    ActedZone(cfg, StateAfter(cfg, calls[..n]), calls[n]);
    RunMemory(cfg, calls[..n]);
    RunKeepsClock(cfg, calls);
    if cfg.limits.cooldown != 0.0 && cfg.limits.warmup != 0.0 {
      RunRemembers(cfg, calls[..n]);
    }
    assert History(cfg, calls)[..n] == History(cfg, calls[..n]);
    hide Act, ZoneSays, Pumping, RateOf, Lawful, StreakStart, Observations, WarmupPending, LastReported, LastWrite;
  }

  /** With a positive window and thresholds on their own sides of zero, a confidence lies between a
      tenth and one, and one that a rate decided is above a half. */
  lemma ConfidenceRange(cfg: Config, r: Report, temperature: real, heated: bool, last: Phase, pumping: bool)
    requires ZoneSays(cfg, r, temperature, heated, last, pumping)
    requires cfg.target.window > 0.0 && cfg.limits.cooldown < 0.0 < cfg.limits.warmup
    ensures 0.1 <= r.confidence <= 1.0
    ensures (r.phase == Cooldown && r.rate < cfg.limits.cooldown) || (r.phase == Warmup && r.rate > cfg.limits.warmup)
            ==> r.confidence > 0.5
  {
    if r.stable >= cfg.target.window {
      WindowShare(r.stable, cfg.target.window);
    } else if r.stable > 0.0 {
      RatioBetween(r.stable, cfg.target.window);
    }
    if r.rate < cfg.limits.cooldown {
      FasterThan(-r.rate, -cfg.limits.cooldown);
      SameRatio(r.rate, cfg.limits.cooldown);
    }
    if r.rate > cfg.limits.warmup {
      FasterThan(r.rate, cfg.limits.warmup);
    }
  }

  lemma WindowShare(stable: real, window: real)
    requires stable >= window > 0.0
    ensures 0.5 <= Least(1.0, stable / (2.0 * window)) <= 1.0
  {
    RatioAtLeast(stable, window, 2.0 * window, 0.5);
  }

  lemma FasterThan(rate: real, limit: real)
    requires rate > limit > 0.0
    ensures 0.5 < Least(1.0, 0.5 * Magnitude(rate / limit)) <= 1.0
  {
    RatioAbove(rate, limit);
  }

  lemma SameRatio(x: real, d: real)
    requires d < 0.0
    ensures x / d == (-x) / (-d)
  {
  }

  lemma RatioAtLeast(x: real, low: real, d: real, share: real)
    requires d > 0.0 && x >= low && low == share * d
    ensures x / d >= share
  {
  }

  lemma RatioBetween(x: real, d: real)
    requires 0.0 < x < d
    ensures 0.0 < x / d < 1.0
  {
    Factor(x / d, d, x);
  }

  lemma Factor(q: real, d: real, x: real)
    requires q * d == x && 0.0 < x < d
    ensures 0.0 < q < 1.0
  {
    if q >= 1.0 {
      ProductGrows(1.0, q, d);
    }
    if q <= 0.0 {
      ProductGrows(q, 0.0, d);
    }
  }

  lemma ProductGrows(a: real, b: real, d: real)
    requires a <= b && d > 0.0
    ensures a * d <= b * d
  {
  }

  lemma RatioAbove(x: real, d: real)
    requires x > d > 0.0
    ensures x / d > 1.0
  {
  }

  // ------------------------------------------------------------ when there is no report

  /** A division by a threshold or window that is zero. */
  ghost predicate Divides(cfg: Config, temperature: real, rate: real, stable: real) {
    if stable >= cfg.target.window then cfg.target.window == 0.0
    else
      && !Close(cfg.target, temperature, 3.0 * cfg.target.tolerance) && temperature < cfg.limits.room
      && if rate < cfg.limits.cooldown then cfg.limits.cooldown == 0.0
         else rate > cfg.limits.warmup && cfg.limits.warmup == 0.0
  }

  lemma EvaluationRaises(cfg: Config, s: State)
    ensures var (after, outcome) := Evaluate(cfg, s);
            && after.temp == s.temp
            && (outcome.Raised? || outcome.Reported?)
            && (outcome.Raised? <==>
                  s.temp == [] ||
                  Divides(cfg, s.temp[|s.temp| - 1].v, RateOf(s.temp, cfg.rateWindow),
                          Stable(after.stableSince, s.temp[|s.temp| - 1].t)))
  {
    hide RateOf, LogRate, NearConfidence;
  }

  /** A call with readings says nothing exactly when no channel is set or, without a gap, fewer than
      ten temperatures are at hand; it starts over exactly after a gap; and it raises exactly when
      trimming leaves nothing or a zero is divided by. Otherwise it reports. */
  lemma CallAnswers(cfg: Config, s: State, readings: seq<Reading>)
    requires |s.temp| <= 2000 && |s.pres| <= 2000
    ensures var (after, outcome) := Act(cfg, s, Deliver(readings));
            var gap := GapIn(LastOf(s.temp) + Temps(cfg, readings));
            && (outcome.Restarted? <==> cfg.tempChannel != "" && gap)
            && (outcome.Quiet? <==>
                  cfg.tempChannel == "" || (!gap && |Newest(s.temp + Temps(cfg, readings))| < 10))
            && (outcome.Raised? <==>
                  cfg.tempChannel != "" && !gap && |Newest(s.temp + Temps(cfg, readings))| >= 10 &&
                  (after.temp == [] ||
                   Divides(cfg, after.temp[|after.temp| - 1].v, RateOf(after.temp, cfg.rateWindow),
                           Stable(after.stableSince, after.temp[|after.temp| - 1].t))))
  {
    GapMeans(cfg, s, readings);
    FedBuffers(cfg, s, readings);
    hide GapIn, FeedAll, Newest, Temps, Pressures, Evaluate, Divides, RateOf;
    if cfg.tempChannel != "" {
      var fed := FeedAll(cfg, s, readings);
      if fed.Kept? && |fed.state.temp| >= ENOUGH {
        EvaluationRaises(cfg, Trimmed(cfg, fed.state));
      }
    }
  }
}
