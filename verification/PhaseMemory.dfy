/** What the detector's two words of memory, the warmup flag and the last phase, say about the
    reports made since the last reset, for all thresholds. */
module PhaseMemory {
  import opened Counting
  import opened LeastSquares
  import opened PhaseDetector
  import opened PhaseRuns

  // ------------------------------------------------------------ one classification

  /** The last phase and the warmup flag do not contradict each other. */
  predicate Consistent(s: State) {
    (s.lastPhase == Warmup ==> s.warmupStarted) && (s.lastPhase == Cooldown ==> !s.warmupStarted)
  }

  /** The step that raises in a rate branch because its own threshold is zero. */
  predicate DividesByZero(cfg: Config, temperature: real, rate: real, stable: real, limit: real) {
    limit == 0.0 && stable < cfg.target.window && !Near(cfg.target, temperature) && temperature < cfg.limits.room
  }

  /** The steps after which memory contradicts itself: a rate branch rewrites the flag, then
      raises before the phase is recorded. */
  predicate Contradicts(cfg: Config, last: Phase, temperature: real, rate: real, stable: real) {
    || (last == Warmup && DividesByZero(cfg, temperature, rate, stable, cfg.limits.cooldown) && rate < 0.0)
    || (last == Cooldown && DividesByZero(cfg, temperature, rate, stable, cfg.limits.warmup) && rate > 0.0
        && rate >= cfg.limits.cooldown)
  }

  /** One classification keeps memory consistent exactly when it is not one of those steps. */
  lemma ClassifyConsistent(cfg: Config, s: State, temperature: real, rate: real,
                           logRate: Option<real>, stable: real)
    requires Consistent(s)
    ensures var d := Classify(cfg, s.lastPhase, s.warmupStarted, temperature, rate, logRate, stable);
            Consistent(s.(warmupStarted := d.flag, lastPhase := PhaseAfter(s.lastPhase, d)))
            <==> !Contradicts(cfg, s.lastPhase, temperature, rate, stable)
  {
  }

  // ------------------------------------------------------------ the reports

  /** Some warmup was reported since the last reset, with no cooldown after it. */
  function WarmupPending(h: seq<Outcome>): bool {
    if h == [] then false else match h[|h| - 1]
      case Restarted => false
      case Reported(_, r) =>
        if r.phase == Warmup then true else if r.phase == Cooldown then false else WarmupPending(h[..|h| - 1])
      case _ => WarmupPending(h[..|h| - 1])
  }

  function LastReported(h: seq<Outcome>): Phase {
    if h == [] then Unknown else match h[|h| - 1]
      case Restarted => Unknown
      case Reported(_, r) => r.phase
      case _ => LastReported(h[..|h| - 1])
  }

  /** The recursive reading of the history, in words. */
  lemma {:induction false} WarmupPendingMeans(h: seq<Outcome>)
    ensures WarmupPending(h)
            <==> exists k :: 0 <= k < |h| && Says(h[k], Warmup)
                             && forall i :: k < i < |h| ==> !h[i].Restarted? && !Says(h[i], Cooldown)
  {
    if h != [] {
      var n := |h| - 1;
      WarmupPendingMeans(h[..n]);
      if WarmupPending(h) {
        if Says(h[n], Warmup) {
          assert WarmupPending(h);
        } else {
          var k :| 0 <= k < n && Says(h[..n][k], Warmup)
                   && forall i :: k < i < n ==> !h[..n][i].Restarted? && !Says(h[..n][i], Cooldown);
          assert Says(h[k], Warmup);
          forall i | k < i < |h| ensures !h[i].Restarted? && !Says(h[i], Cooldown) {
            if i < n {
              assert h[..n][i] == h[i];
            }
          }
        }
      } else if !h[n].Restarted? && !Says(h[n], Cooldown) {
        forall k | 0 <= k < |h| && Says(h[k], Warmup)
          ensures exists i :: k < i < |h| && (h[i].Restarted? || Says(h[i], Cooldown))
        {
          assert h[..n][k] == h[k];
          var i :| k < i < n && (h[..n][i].Restarted? || Says(h[..n][i], Cooldown));
          assert h[i].Restarted? || Says(h[i], Cooldown);
        }
      }
    }
  }

  // ------------------------------------------------------------ writes to the flag

  /** The flag is written by a branch that reports, or by one that raises right after. */
  datatype Write = ByReport(flag: bool) | ByRaise(flag: bool)

  function WriteOf(cfg: Config, o: Outcome): Option<Write> {
    match o
    case Raised(_, ZeroCooldown) => Some(ByRaise(false))
    case Raised(_, ZeroWarmup) => Some(ByRaise(true))
    case Reported(_, r) =>
      if r.phase == Warmup && r.rate > cfg.limits.warmup then Some(ByReport(true))
      else if r.phase == Cooldown && r.rate < cfg.limits.cooldown then Some(ByReport(false))
      else None
    case _ => None
  }

  /** The step since the last reset that wrote the flag last. */
  function LastWriteAt(cfg: Config, h: seq<Outcome>): (at: Option<nat>)
    ensures at.Some? ==> at.value < |h| && WriteOf(cfg, h[at.value]).Some?
  {
    if h == [] || h[|h| - 1].Restarted? then None
    else if WriteOf(cfg, h[|h| - 1]).Some? then Some(|h| - 1)
    else LastWriteAt(cfg, h[..|h| - 1])
  }

  function LastWrite(cfg: Config, h: seq<Outcome>): Option<Write> {
    match LastWriteAt(cfg, h) case None => None case Some(j) => WriteOf(cfg, h[j])
  }

  ghost predicate Undisturbed(cfg: Config, h: seq<Outcome>, j: nat, k: nat) {
    forall i :: j < i < k && i < |h| ==> !h[i].Restarted? && WriteOf(cfg, h[i]).None?
  }

  /** The recursive reading, in words. */
  lemma {:induction false} LastWriteMeans(cfg: Config, h: seq<Outcome>, j: nat)
    requires j < |h|
    ensures LastWriteAt(cfg, h) == Some(j) <==>
            WriteOf(cfg, h[j]).Some? && !h[j].Restarted? && Undisturbed(cfg, h, j, |h|)
  {
    var n := |h| - 1;
    if j < n {
      LastWriteMeans(cfg, h[..n], j);
      assert forall i :: j < i < n ==> h[..n][i] == h[i];
    }
  }

  /** What one call does to memory, and what its report needed of it. */
  lemma ActMemory(cfg: Config, s: State, c: Call)
    ensures var (after, o) := Act(cfg, s, c);
            && after.lastPhase == (match o
                                   case Restarted => Unknown
                                   case Reported(_, r) => r.phase
                                   case _ => s.lastPhase)
            && after.warmupStarted == (if o.Restarted? then false else match WriteOf(cfg, o)
                                       case None => s.warmupStarted
                                       case Some(w) => w.flag)
            && (forall phase :: phase in {Warmup, Cooldown} && Says(o, phase) && WriteOf(cfg, o).None?
                                ==> s.lastPhase == phase)
            && (Says(o, Teardown) ==> s.warmupStarted || s.lastPhase == Warmup)
            && (WriteOf(cfg, o) == Some(ByRaise(true)) ==> cfg.limits.warmup == 0.0)
            && (WriteOf(cfg, o) == Some(ByRaise(false)) ==> cfg.limits.cooldown == 0.0)
  {
    hide RateOf, LogRate, NearConfidence;
    if c.Deliver? && cfg.tempChannel != "" {
      FeedKeepsMemory(cfg, s, c.readings);
    }
  }

  // ------------------------------------------------------------ what a history can look like

  /** What the last write says about the reports. */
  predicate Lawful(cfg: Config, h: seq<Outcome>) {
    var last := LastReported(h);
    && (last == Warmup ==> WarmupPending(h))
    && (last == Cooldown ==> !WarmupPending(h))
    && match LastWriteAt(cfg, h)
       case None => !WarmupPending(h) && last != Warmup && last != Cooldown
       case Some(j) => match WriteOf(cfg, h[j]).value
         case ByReport(flag) => WarmupPending(h) == flag && last != (if flag then Cooldown else Warmup)
         case ByRaise(flag) => WarmupPending(h) == WarmupPending(h[..j])
  }

  lemma LawfulStep(cfg: Config, h: seq<Outcome>, o: Outcome)
    requires Lawful(cfg, h)
    requires forall phase :: phase in {Warmup, Cooldown} && Says(o, phase) && WriteOf(cfg, o).None?
                             ==> LastReported(h) == phase
    ensures Lawful(cfg, h + [o])
  {
    var more := h + [o];
    assert more[..|h|] == h;
    assert Says(o, Warmup) && WriteOf(cfg, o).None? ==> LastReported(h) == Warmup;
    assert Says(o, Cooldown) && WriteOf(cfg, o).None? ==> LastReported(h) == Cooldown;
    if LastWriteAt(cfg, h).Some? {
      var j := LastWriteAt(cfg, h).value;
      assert more[..j] == h[..j] && more[j] == h[j];
    }
  }

  /** In every run, whatever the thresholds: the last phase is the last one reported, the flag
      is the last one written, and the writes are lawful. */
  lemma {:induction false} RunMemory(cfg: Config, calls: seq<Call>)
    ensures var s, h := StateAfter(cfg, calls), History(cfg, calls);
            && s.lastPhase == LastReported(h) && Lawful(cfg, h)
            && s.warmupStarted == (LastWrite(cfg, h).Some? && LastWrite(cfg, h).value.flag)
  {
    if calls != [] {
      var n := |calls| - 1;
      RunMemory(cfg, calls[..n]);
      var s, h := StateAfter(cfg, calls[..n]), History(cfg, calls[..n]);
      var o := Act(cfg, s, calls[n]).1;
      ActMemory(cfg, s, calls[n]);
      hide Act, Lawful;
      LawfulStep(cfg, h, o);
      assert (h + [o])[..n] == h;
      WriteOfPrefix(cfg, h, o);
    }
  }

  lemma WriteOfPrefix(cfg: Config, h: seq<Outcome>, o: Outcome)
    ensures LastWrite(cfg, h + [o]) == if o.Restarted? then None
            else if WriteOf(cfg, o).Some? then WriteOf(cfg, o) else LastWrite(cfg, h)
  {
    assert (h + [o])[..|h|] == h;
  }

  /** A branch only raises on its own zero threshold. */
  lemma RaisedByZero(cfg: Config, calls: seq<Call>, j: nat)
    requires j < |calls|
    ensures var w := WriteOf(cfg, History(cfg, calls)[j]);
            (w == Some(ByRaise(true)) ==> cfg.limits.warmup == 0.0)
            && (w == Some(ByRaise(false)) ==> cfg.limits.cooldown == 0.0)
  {
    Prefixes(cfg, calls, j);
    ActMemory(cfg, StateAfter(cfg, calls[..j]), calls[j]);
  }

  // ------------------------------------------------------------ teardown

  /** Step j wrote the flag and raised, nothing wrote or reset it up to step k, and no warmup
      was pending at the time. */
  ghost predicate HeatedByRaise(cfg: Config, h: seq<Outcome>, j: nat, k: nat) {
    && j < k <= |h| && WriteOf(cfg, h[j]) == Some(ByRaise(true)) && Undisturbed(cfg, h, j, k)
    && !WarmupPending(h[..j])
  }

  lemma UnearnedFlag(cfg: Config, h: seq<Outcome>)
    requires Lawful(cfg, h)
    requires LastReported(h) == Warmup || (LastWrite(cfg, h).Some? && LastWrite(cfg, h).value.flag)
    ensures !WarmupPending(h)
            <==> LastWrite(cfg, h) == Some(ByRaise(true)) && !WarmupPending(h[..LastWriteAt(cfg, h).value])
  {
    hide WriteOf, WarmupPending, LastReported, LastWriteAt;
  }

  ghost predicate HeatAt(cfg: Config, h: seq<Outcome>, j: nat, k: nat)
    requires j < k <= |h|
  {
    LastWriteAt(cfg, h[..k]) == Some(j) && WriteOf(cfg, h[j]) == Some(ByRaise(true)) && !WarmupPending(h[..j])
  }

  lemma HeatedMeans(cfg: Config, h: seq<Outcome>, k: nat, j: nat)
    requires k <= |h|
    ensures HeatedByRaise(cfg, h, j, k) <==> j < k && HeatAt(cfg, h, j, k)
  {
    if j < k {
      var before := h[..k];
      RaiseIsNoReset(cfg, h[j]);
      LastWriteMeans(cfg, before, j);
      assert before[..j] == h[..j] && forall i :: 0 <= i < k ==> before[i] == h[i];
    }
  }

  lemma UnearnedAt(cfg: Config, h: seq<Outcome>, k: nat)
    requires k <= |h| && Lawful(cfg, h[..k])
    requires LastReported(h[..k]) == Warmup || (LastWrite(cfg, h[..k]).Some? && LastWrite(cfg, h[..k]).value.flag)
    ensures !WarmupPending(h[..k]) <==> exists j: nat :: HeatedByRaise(cfg, h, j, k)
  {
    UnearnedFlag(cfg, h[..k]);
    hide WriteOf, WarmupPending, LastReported, LastWriteAt, Lawful, HeatedByRaise;
    forall j: nat ensures HeatedByRaise(cfg, h, j, k) <==> j < k && HeatAt(cfg, h, j, k) {
      HeatedMeans(cfg, h, k, j);
    }
    if LastWriteAt(cfg, h[..k]).Some? {
      var j := LastWriteAt(cfg, h[..k]).value;
      assert h[..k][j] == h[j] && h[..k][..j] == h[..j];
      assert HeatedByRaise(cfg, h, j, k) <==> HeatAt(cfg, h, j, k);
    }
  }

  /** Teardown without a pending warmup is reported exactly when the flag was last written by a
      warming branch that raised. */
  lemma {:induction false} UnearnedTeardown(cfg: Config, calls: seq<Call>, k: nat)
    requires k < |calls| && Says(History(cfg, calls)[k], Teardown)
    ensures var h := History(cfg, calls);
            !WarmupPending(h[..k]) <==> exists j: nat :: HeatedByRaise(cfg, h, j, k)
  {
    hide Lawful, HeatedByRaise, WarmupPending, LastReported, LastWrite, Act;
    Prefixes(cfg, calls, k);
    RunMemory(cfg, calls[..k]);
    ActMemory(cfg, StateAfter(cfg, calls[..k]), calls[k]);
    UnearnedAt(cfg, History(cfg, calls), k);
  }

  lemma RaiseIsNoReset(cfg: Config, o: Outcome)
    ensures WriteOf(cfg, o).Some? ==> !o.Restarted?
  {
  }

  /** With a non-zero warmup threshold teardown is only reported after a warmup with no later
      cooldown and no later reset. */
  lemma {:induction false} TeardownFollowsWarmup(cfg: Config, calls: seq<Call>, k: nat)
    requires cfg.limits.warmup != 0.0 && k < |calls| && Says(History(cfg, calls)[k], Teardown)
    ensures var h := History(cfg, calls);
            exists j :: 0 <= j < k && Says(h[j], Warmup)
                        && forall i :: j < i < k ==> !h[i].Restarted? && !Says(h[i], Cooldown)
  {
    var h, before := History(cfg, calls), History(cfg, calls)[..k];
    UnearnedTeardown(cfg, calls, k);
    forall j: nat ensures !HeatedByRaise(cfg, h, j, k) {
      if j < k {
        RaisedByZero(cfg, calls, j);
      }
    }
    WarmupPendingMeans(before);
    var j :| 0 <= j < |before| && Says(before[j], Warmup)
             && forall i :: j < i < |before| ==> !before[i].Restarted? && !Says(before[i], Cooldown);
    assert Says(h[j], Warmup);
    forall i | j < i < k ensures !h[i].Restarted? && !Says(h[i], Cooldown) {
      assert before[i] == h[i];
    }
  }

  /** The second half of the teardown test decides exactly when warmup is the last phase
      reported and the flag was last written by a cooling branch that raised. */
  lemma {:induction false} SecondDisjunctDecides(cfg: Config, calls: seq<Call>)
    ensures var s, h := StateAfter(cfg, calls), History(cfg, calls);
            (s.lastPhase == Warmup && !s.warmupStarted)
            <==> LastReported(h) == Warmup && LastWrite(cfg, h) == Some(ByRaise(false))
  {
    RunMemory(cfg, calls);
  }

  /** With a non-zero cooldown threshold it never does. */
  lemma {:induction false} SecondDisjunctRedundant(cfg: Config, calls: seq<Call>)
    requires cfg.limits.cooldown != 0.0
    ensures var s := StateAfter(cfg, calls); (s.warmupStarted || s.lastPhase == Warmup) == s.warmupStarted
  {
    SecondDisjunctDecides(cfg, calls);
    var h := History(cfg, calls);
    if LastWrite(cfg, h) == Some(ByRaise(false)) {
      RaisedByZero(cfg, calls, LastWriteAt(cfg, h).value);
    }
  }

  predicate NonZero(limits: Thresholds) { limits.cooldown != 0.0 && limits.warmup != 0.0 }

  /** With both thresholds non-zero, memory is what was reported since the last reset. */
  lemma {:induction false} RunRemembers(cfg: Config, calls: seq<Call>)
    requires NonZero(cfg.limits)
    ensures var s, h := StateAfter(cfg, calls), History(cfg, calls);
            Consistent(s) && s.warmupStarted == WarmupPending(h) && s.lastPhase == LastReported(h)
  {
    RunMemory(cfg, calls);
    var h := History(cfg, calls);
    if LastWriteAt(cfg, h).Some? {
      RaisedByZero(cfg, calls, LastWriteAt(cfg, h).value);
    }
  }
}
