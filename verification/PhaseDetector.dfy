/** The phase detector: two bounded buffers, a stability clock and two words of memory,
    fed one batch of readings at a time. */
module PhaseDetector {
  import opened Counting
  import opened LeastSquares

  const MAXLEN: nat := 2000
  const GAP: real := 300.0
  const ENOUGH: nat := 10

  datatype Phase = Unknown | Measurement | Warmup | Teardown | Vacuum | Preparation | Cooldown

  datatype Target = Target(temperature: real, tolerance: real, window: real)

  datatype Thresholds = Thresholds(cooldown: real, warmup: real, room: real, pump: real)

  /** log10 is only ever applied to positive pressures. */
  datatype Config = Config(tempChannel: string, pressureChannel: string, target: Target, limits: Thresholds,
                           rateWindow: real, log10: real -> real)

  datatype Reading = Reading(channel: string, ok: bool, at: Point)

  datatype State = State(temp: seq<Point>, pres: seq<Point>, stableSince: Option<real>, lastPhase: Phase,
                         warmupStarted: bool)

  const FRESH: State := State([], [], None, Unknown, false)

  /** The last temperature of a batch that reached the stability test. */
  datatype Observation = Observation(time: real, temperature: real)

  datatype Report = Report(phase: Phase, confidence: real, rate: real, stable: real)

  /** Where an evaluation raises: no points left after trimming, or one of its three divisions. */
  datatype Fault = NoPoints | ZeroWindow | ZeroCooldown | ZeroWarmup

  /** What one call gives back: nothing, nothing after a gap, an exception, or a report. */
  datatype Outcome =
    | Quiet
    | Restarted
    | Raised(seen: Option<Observation>, fault: Fault)
    | Reported(at: Observation, report: Report)

  datatype Verdict = Found(phase: Phase, confidence: real) | Failed(fault: Fault)

  /** The warmup flag is written before the confidence is computed, which can divide by zero. */
  datatype Decision = Decision(flag: bool, verdict: Verdict)

  datatype Fed = Kept(state: State) | Gap

  // ------------------------------------------------------------ one batch

  function Push(buf: seq<Point>, p: Point): seq<Point> {
    (if |buf| < MAXLEN then buf else buf[|buf| - (MAXLEN - 1)..]) + [p]
  }

  predicate IsTemperature(cfg: Config, r: Reading) { r.ok && r.channel == cfg.tempChannel }

  predicate IsPressure(cfg: Config, r: Reading) {
    r.ok && r.channel != cfg.tempChannel && cfg.pressureChannel != "" && r.channel == cfg.pressureChannel
  }

  function Feed(cfg: Config, s: State, r: Reading): Fed {
    if IsTemperature(cfg, r) then
      if s.temp != [] && r.at.t - s.temp[|s.temp| - 1].t > GAP then Gap else Kept(s.(temp := Push(s.temp, r.at)))
    else if IsPressure(cfg, r) && r.at.v > 0.0 then
      Kept(s.(pres := Push(s.pres, Point(r.at.t, cfg.log10(r.at.v)))))
    else Kept(s)
  }

  function FeedAll(cfg: Config, s: State, readings: seq<Reading>): Fed
    decreases readings
  {
    if readings == [] then Kept(s) else match Feed(cfg, s, readings[0])
      case Gap => Gap
      case Kept(next) => FeedAll(cfg, next, readings[1..])
  }

  function Trim(buf: seq<Point>, cutoff: real): seq<Point> {
    if buf != [] && buf[0].t < cutoff then Trim(buf[1..], cutoff) else buf
  }

  predicate Inside(target: Target, temperature: real) {
    Abs(temperature - target.temperature) <= target.tolerance
  }

  /** The stability clock after an observation. */
  function Track(target: Target, since: Option<real>, o: Observation): Option<real> {
    if !Inside(target, o.temperature) then None else if since.None? then Some(o.time) else since
  }

  function Stable(since: Option<real>, now: real): real {
    match since case None => 0.0 case Some(start) => now - start
  }

  function Min(a: real, b: real): real { if a <= b then a else b }

  /** A capped share, unless it divides by zero. */
  function Share(a: real, b: real): Option<real> {
    if b == 0.0 then None else Some(Min(1.0, a / b))
  }

  function Strength(rate: real, threshold: real): Option<real> {
    if threshold == 0.0 then None else Some(Min(1.0, Abs(rate / threshold) * 0.5))
  }

  function With(phase: Phase, confidence: Option<real>, fault: Fault): Verdict {
    match confidence case None => Failed(fault) case Some(c) => Found(phase, c)
  }

  predicate Near(target: Target, temperature: real) {
    Abs(temperature - target.temperature) <= target.tolerance * 3.0
  }

  function NearConfidence(target: Target, stable: real): real
    requires stable < target.window
  {
    if stable > 0.0 then 0.3 + 0.4 * (stable / target.window) else 0.3
  }

  function Classify(cfg: Config, last: Phase, flag: bool, temperature: real, rate: real, logRate: Option<real>,
                    stable: real): Decision {
    if stable >= cfg.target.window then
      Decision(flag, With(Measurement, Share(stable, cfg.target.window * 2.0), ZeroWindow))
    else if Near(cfg.target, temperature) then
      if rate > cfg.limits.warmup then Decision(true, Found(Warmup, 0.7))
      else Decision(flag, Found(Measurement, NearConfidence(cfg.target, stable)))
    else if temperature >= cfg.limits.room then
      if flag || last == Warmup then Decision(flag, Found(Teardown, 0.8))
      else if logRate.Some? && logRate.value < cfg.limits.pump then Decision(flag, Found(Vacuum, 0.7))
      else Decision(flag, Found(Preparation, 0.6))
    else if rate < cfg.limits.cooldown then
      Decision(false, With(Cooldown, Strength(rate, cfg.limits.cooldown), ZeroCooldown))
    else if rate > cfg.limits.warmup then
      Decision(true, With(Warmup, Strength(rate, cfg.limits.warmup), ZeroWarmup))
    else if last == Cooldown && temperature > cfg.target.temperature * 2.0 then
      Decision(flag, Found(Cooldown, 0.4))
    else if last == Warmup then Decision(flag, Found(Warmup, 0.4))
    else Decision(flag, Found(Unknown, 0.1))
  }

  function LogRate(cfg: Config, pres: seq<Point>): Option<real> {
    if |pres| >= ENOUGH then Some(RateOf(pres, cfg.rateWindow)) else None
  }

  /** The trimmed buffers; a negative rate window can trim everything away. */
  function Trimmed(cfg: Config, s: State): State
    requires s.temp != []
  {
    var cutoff := s.temp[|s.temp| - 1].t - cfg.rateWindow * 2.0;
    s.(temp := Trim(s.temp, cutoff), pres := Trim(s.pres, cutoff))
  }

  function Seen(temp: seq<Point>): Observation
    requires temp != []
  {
    Observation(temp[|temp| - 1].t, temp[|temp| - 1].v)
  }

  function Judge(cfg: Config, s: State): Decision
    requires s.temp != []
  {
    var o := Seen(s.temp);
    Classify(cfg, s.lastPhase, s.warmupStarted, o.temperature, RateOf(s.temp, cfg.rateWindow),
             LogRate(cfg, s.pres), Stable(Track(cfg.target, s.stableSince, o), o.time))
  }

  /** The evaluation of trimmed buffers. */
  function Evaluate(cfg: Config, s: State): (State, Outcome) {
    if s.temp == [] then (s, Raised(None, NoPoints)) else
      var o := Seen(s.temp);
      var since := Track(cfg.target, s.stableSince, o);
      var d := Judge(cfg, s);
      match d.verdict
      case Failed(fault) => (s.(stableSince := since, warmupStarted := d.flag), Raised(Some(o), fault))
      case Found(phase, confidence) =>
        (s.(stableSince := since, warmupStarted := d.flag, lastPhase := phase),
         Reported(o, Report(phase, confidence, RateOf(s.temp, cfg.rateWindow), Stable(since, o.time))))
  }

  function Step(cfg: Config, s: State, readings: seq<Reading>): (State, Outcome) {
    if cfg.tempChannel == "" then (s, Quiet) else match FeedAll(cfg, s, readings)
      case Gap => (FRESH, Restarted)
      case Kept(fed) => if |fed.temp| < ENOUGH then (fed, Quiet) else Evaluate(cfg, Trimmed(cfg, fed))
  }

  // ------------------------------------------------------------ the object

  class Detector {
    var config: Config
    var tempBuf: seq<Point>
    var presBuf: seq<Point>
    var stableSince: Option<real>
    var lastPhase: Phase
    var warmupStarted: bool

    ghost function Model(): State
      reads this
    {
      State(tempBuf, presBuf, stableSince, lastPhase, warmupStarted)
    }

    constructor (cfg: Config)
      ensures config == cfg && Model() == FRESH
    {
      config := cfg;
      tempBuf, presBuf, stableSince, lastPhase, warmupStarted := [], [], None, Unknown, false;
    }

    method Reset()
      modifies this
      ensures Model() == FRESH && config == old(config)
    {
      tempBuf, presBuf, stableSince, lastPhase, warmupStarted := [], [], None, Unknown, false;
    }

    method Configure(cfg: Config)
      modifies this
      ensures Model() == FRESH && config == cfg
    {
      Reset();
      config := cfg;
    }

    /** Feeds readings in order until one is too far from the last temperature. */
    method Ingest(readings: seq<Reading>) returns (gap: bool)
      modifies this
      ensures config == old(config)
      ensures gap <==> FeedAll(config, old(Model()), readings).Gap?
      ensures Model() == if gap then FRESH else FeedAll(config, old(Model()), readings).state
    {
      for i := 0 to |readings|
        invariant config == old(config)
        invariant FeedAll(config, old(Model()), readings) == FeedAll(config, Model(), readings[i..])
      {
        var r := readings[i];
        assert readings[i..][0] == r && readings[i..][1..] == readings[i + 1..];
        if !r.ok {
          continue;
        }
        if r.channel == config.tempChannel {
          if tempBuf != [] && r.at.t - tempBuf[|tempBuf| - 1].t > GAP {
            Reset();
            return true;
          }
          tempBuf := Push(tempBuf, r.at);
        } else if config.pressureChannel != "" && r.channel == config.pressureChannel {
          if r.at.v > 0.0 {
            presBuf := Push(presBuf, Point(r.at.t, config.log10(r.at.v)));
          }
        }
      }
      gap := false;
    }

    method TrimBuffers()
      requires tempBuf != []
      modifies this
      ensures config == old(config) && Model() == Trimmed(config, old(Model()))
    {
      var cutoff := tempBuf[|tempBuf| - 1].t - config.rateWindow * 2.0;
      while tempBuf != [] && tempBuf[0].t < cutoff
        invariant Model() == old(Model()).(temp := tempBuf) && config == old(config)
        invariant Trim(tempBuf, cutoff) == Trim(old(tempBuf), cutoff)
        decreases |tempBuf|
      {
        tempBuf := tempBuf[1..];
      }
      while presBuf != [] && presBuf[0].t < cutoff
        invariant Model() == old(Model()).(temp := Trim(old(tempBuf), cutoff), pres := presBuf) && config == old(config)
        invariant Trim(presBuf, cutoff) == Trim(old(presBuf), cutoff)
        decreases |presBuf|
      {
        presBuf := presBuf[1..];
      }
    }

    method TrackStability(o: Observation) returns (stable: real)
      modifies this`stableSince
      ensures stableSince == Track(config.target, old(stableSince), o) && stable == Stable(stableSince, o.time)
    {
      if Abs(o.temperature - config.target.temperature) <= config.target.tolerance {
        if stableSince.None? {
          stableSince := Some(o.time);
        }
        return o.time - stableSince.value;
      }
      stableSince := None;
      return 0.0;
    }

    method ClassifyNow(temperature: real, rate: real, logRate: Option<real>, stable: real)
      returns (verdict: Verdict)
      modifies this`warmupStarted
      ensures Decision(warmupStarted, verdict)
              == Classify(config, lastPhase, old(warmupStarted), temperature, rate, logRate, stable)
    {
      if stable >= config.target.window {
        return With(Measurement, Share(stable, config.target.window * 2.0), ZeroWindow);
      }
      if Near(config.target, temperature) {
        if rate > config.limits.warmup {
          warmupStarted := true;
          return Found(Warmup, 0.7);
        }
        return Found(Measurement, NearConfidence(config.target, stable));
      }
      if temperature >= config.limits.room {
        if warmupStarted || lastPhase == Warmup {
          return Found(Teardown, 0.8);
        }
        if logRate.Some? && logRate.value < config.limits.pump {
          return Found(Vacuum, 0.7);
        }
        return Found(Preparation, 0.6);
      }
      if rate < config.limits.cooldown {
        warmupStarted := false;
        return With(Cooldown, Strength(rate, config.limits.cooldown), ZeroCooldown);
      }
      if rate > config.limits.warmup {
        warmupStarted := true;
        return With(Warmup, Strength(rate, config.limits.warmup), ZeroWarmup);
      }
      if lastPhase == Cooldown && temperature > config.target.temperature * 2.0 {
        return Found(Cooldown, 0.4);
      }
      if lastPhase == Warmup {
        return Found(Warmup, 0.4);
      }
      return Found(Unknown, 0.1);
    }

    method EvaluateNow() returns (outcome: Outcome)
      modifies this
      ensures config == old(config) && (Model(), outcome) == Evaluate(config, old(Model()))
    {
      var rate := ComputeRate(tempBuf, config.rateWindow);
      if tempBuf == [] {
        return Raised(None, NoPoints);
      }
      var o := Observation(tempBuf[|tempBuf| - 1].t, tempBuf[|tempBuf| - 1].v);
      var logRate := None;
      if |presBuf| >= ENOUGH {
        var r := ComputeRate(presBuf, config.rateWindow);
        logRate := Some(r);
      }
      var stable := TrackStability(o);
      var verdict := ClassifyNow(o.temperature, rate, logRate, stable);
      if verdict.Failed? {
        return Raised(Some(o), verdict.fault);
      }
      lastPhase := verdict.phase;
      return Reported(o, Report(verdict.phase, verdict.confidence, rate, stable));
    }

    /** One batch: the object follows Step. */
    method Process(readings: seq<Reading>) returns (outcome: Outcome)
      modifies this
      ensures config == old(config) && (Model(), outcome) == Step(config, old(Model()), readings)
    {
      if config.tempChannel == "" {
        return Quiet;
      }
      var gap := Ingest(readings);
      if gap {
        return Restarted;
      }
      if |tempBuf| < ENOUGH {
        return Quiet;
      }
      TrimBuffers();
      outcome := EvaluateNow();
    }
  }
}
