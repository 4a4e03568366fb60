/** The fault-ledger validator of the soak qualification, and what it establishes
    together with the sample-series validator: injected faults and observed process
    restarts are the same events.

    A record whose fields are missing or of the wrong type is Malformed; times are
    reals; a target that names no role is None. */
module FaultLedger {
  import opened Counting
  import opened SoakSeries

  const RECOVERY_CEILING_S: real := 60.0
  const CLOSE: real := 0.000000001

  datatype Event = Event(target: Role, atS: real)

  datatype Fault =
    | Malformed
    | Fault(exactKeys: bool, target: Option<Role>, scheduledS: real, observedS: real, contractExact: bool,
            pre: Identity, recheck: Identity, replacement: Identity, ready: bool, recoveryS: real,
            bridgeDataResumed: bool, newerHealth: bool)

  /** One sample of an accepted series. */
  datatype Point = Point(elapsed: real, launcher: RoleRecord, engine: RoleRecord, bridge: RoleRecord,
                         assistant: RoleRecord)
  {
    function At(role: Role): RoleRecord {
      match role
      case Launcher => launcher
      case Engine => engine
      case Bridge => bridge
      case Assistant => assistant
    }
  }

  /** A restart seen in the samples: between samples index - 1 and index the role moved
      to another epoch. */
  datatype Transition = Transition(role: Role, index: nat, time: real, before: Identity, after: Identity)

  datatype FaultError =
    | SchemaInvalid(fault: nat)
    | ContractInvalid(fault: nat)
    | ScheduledInvalid(fault: nat)
    | ObservedInvalid(fault: nat)
    | NotPositive(fault: nat)
    | RecheckFailed(fault: nat)
    | ReplacementUnchanged(fault: nat)
    | NotReady(fault: nat)
    | RecoveryExceeded(fault: nat)
    | LacksRecoveryProof(fault: nat)
    | NotBracketed(fault: nat)
    | PreIdentityMismatch(fault: nat)
    | ReplacementAbsent(fault: nat)
    | ReplacementEpoch(fault: nat)
    | RecoveryMismatch(fault: nat)
    | IntermediateIdentity(fault: nat)
    | ScheduleMismatch
    | LauncherRestarted
    | BridgeOutsideFault
    | BridgeNotReplaced
    | PhantomTransition
    | NotOneToOne

  function Filter<T>(s: seq<T>, p: T -> bool): seq<T> {
    if s == [] then [] else (if p(s[0]) then [s[0]] else []) + Filter(s[1..], p)
  }

  function Timeline(samples: seq<Sample>): (points: seq<Point>)
    requires RowsOk(samples)
    ensures |points| == |samples|
    ensures forall i, role :: 0 <= i < |samples| ==>
              points[i].elapsed == samples[i].elapsed.value && points[i].At(role) == Column(samples, role)[i]
  {
    assert RoleOk(samples, Launcher) && RoleOk(samples, Engine) && RoleOk(samples, Bridge)
      && RoleOk(samples, Assistant);
    seq(|samples|, i requires 0 <= i < |samples| =>
      Point(samples[i].elapsed.value, Column(samples, Launcher)[i], Column(samples, Engine)[i],
            Column(samples, Bridge)[i], Column(samples, Assistant)[i]))
  }

  // ---------------------------------------------------------------- specification

  function Abs(x: real): real { if x < 0.0 then -x else x }

  function Max(x: real, y: real): real { if x < y then y else x }

  /** math.isclose with its default relative tolerance. */
  predicate IsClose(a: real, b: real) {
    Abs(a - b) <= Max(CLOSE * Max(Abs(a), Abs(b)), CLOSE)
  }

  predicate Positive(id: Identity) { id.pid > 0 && id.startedNs > 0 }

  /** The fields a fault record must carry, samples aside. */
  predicate FieldsOk(f: Fault) {
    && f.Fault? && f.exactKeys && f.contractExact
    && f.scheduledS > 0.0 && f.observedS >= 0.0 && Abs(f.observedS - f.scheduledS) <= SAMPLE_INTERVAL_S
    && Positive(f.pre) && Positive(f.recheck) && Positive(f.replacement)
    && f.pre == f.recheck && f.pre != f.replacement
    && f.ready && 0.0 <= f.recoveryS <= RECOVERY_CEILING_S
    && (f.target == Some(Engine) ==> f.bridgeDataResumed)
    && (f.target == Some(Assistant) ==> f.newerHealth)
  }

  function UpTo(points: seq<Point>, t: real): seq<Point> { Filter(points, (p: Point) => p.elapsed <= t) }

  function Later(points: seq<Point>, t: real): seq<Point> { Filter(points, (p: Point) => p.elapsed > t) }

  /** The replacement takes over directly from the pre identity, in the next epoch, when
      the record says it did. */
  predicate TakesOver(f: Fault, role: Role, pre: RoleRecord, after: seq<Point>, k: nat)
    requires f.Fault? && k < |after|
  {
    && after[k].At(role).identity == f.replacement
    && after[k].At(role).epoch == pre.epoch + 1
    && after[k].elapsed - f.observedS <= RECOVERY_CEILING_S
    && IsClose(after[k].elapsed - f.observedS, f.recoveryS)
    && forall j :: 0 <= j < k ==> after[j].At(role).identity == f.pre && f.pre != f.replacement
  }

  ghost predicate TookOver(f: Fault, role: Role, pre: RoleRecord, after: seq<Point>)
    requires f.Fault?
  {
    exists k :: 0 <= k < |after| && TakesOver(f, role, pre, after, k)
  }

  ghost predicate HistoryOk(f: Fault, points: seq<Point>)
    requires f.Fault?
  {
    && f.target.Some?
    && var before, after, role := UpTo(points, f.observedS), Later(points, f.observedS), f.target.value;
    && before != []
    && before[|before| - 1].At(role).identity == f.pre
    && TookOver(f, role, before[|before| - 1].At(role), after)
  }

  ghost predicate FaultOk(f: Fault, points: seq<Point>) {
    FieldsOk(f) && HistoryOk(f, points)
  }

  predicate OnSchedule(f: Fault, e: Event) {
    f.Fault? && f.target == Some(e.target) && f.scheduledS == e.atS
  }

  /** The restarts of one role, oldest first. */
  function Transitions(points: seq<Point>, role: Role): seq<Transition> {
    if |points| <= 1 then [] else
      var n := |points| - 1;
      Transitions(points[..n], role) +
      (if points[n].At(role).epoch != points[n - 1].At(role).epoch then [TransitionAt(points, role, n)] else [])
  }

  function TransitionAt(points: seq<Point>, role: Role, i: nat): Transition
    requires 0 < i < |points|
  {
    Transition(role, i, points[i].elapsed, points[i - 1].At(role).identity, points[i].At(role).identity)
  }

  function AllTransitions(points: seq<Point>): seq<Transition> {
    Transitions(points, Launcher) + Transitions(points, Engine) + Transitions(points, Bridge) +
    Transitions(points, Assistant)
  }

  predicate InRecovery(faultS: real, transitionS: real) {
    faultS < transitionS <= faultS + RECOVERY_CEILING_S
  }

  /** A record that predicts exactly this restart. */
  predicate Explains(f: Fault, t: Transition) {
    f.Fault? && f.target == Some(t.role) && f.pre == t.before && f.replacement == t.after &&
    InRecovery(f.observedS, t.time)
  }

  /** An engine fault in whose recovery this restart falls. */
  predicate Accompanies(f: Fault, t: Transition) {
    EngineFault(f) && InRecovery(f.observedS, t.time)
  }

  function ExplainedBy(t: Transition): Fault -> bool { f => Explains(f, t) }

  function AccompaniedBy(t: Transition): Fault -> bool { f => Accompanies(f, t) }

  function Accompanying(f: Fault): Transition -> bool { t => Accompanies(f, t) }

  function RestartOf(role: Role): Transition -> bool { (t: Transition) => t.role == role }

  predicate FaultableRestart(t: Transition) { Faultable(t.role) }

  predicate EngineFault(f: Fault) { f.Fault? && f.target == Some(Engine) }

  predicate Faultable(role: Role) { role == Engine || role == Assistant }

  predicate FaultableTarget(f: Fault) { f.Fault? && f.target.Some? && Faultable(f.target.value) }

  function BridgeTransitions(points: seq<Point>): seq<Transition> {
    Filter(AllTransitions(points), RestartOf(Bridge))
  }

  function RoleTransitions(points: seq<Point>): seq<Transition> {
    Filter(AllTransitions(points), FaultableRestart)
  }

  /** Every listed restart has exactly one record that p pairs with it. */
  ghost predicate EachPaired(ts: seq<Transition>, records: seq<Fault>, p: Transition -> (Fault -> bool)) {
    forall i :: 0 <= i < |ts| ==> UniqueIndex(records, p(ts[i]))
  }

  /** Every listed engine fault has exactly one bridge restart in its recovery. */
  ghost predicate EachAccompanied(faults: seq<Fault>, bridge: seq<Transition>) {
    forall i :: 0 <= i < |faults| ==> UniqueIndex(bridge, Accompanying(faults[i]))
  }

  ghost predicate Correlated(records: seq<Fault>, points: seq<Point>) {
    && EachPaired(BridgeTransitions(points), Filter(records, EngineFault), AccompaniedBy)
    && EachAccompanied(Filter(records, EngineFault), BridgeTransitions(points))
    && EachPaired(RoleTransitions(points), Filter(records, FaultableTarget), ExplainedBy)
    && |RoleTransitions(points)| == |Filter(records, FaultableTarget)|
  }

  ghost predicate FaultsAccepted(records: seq<Fault>, events: seq<Event>, points: seq<Point>) {
    && (forall i :: 0 <= i < |records| ==> FaultOk(records[i], points))
    && |records| == |events|
    && (forall i :: 0 <= i < |records| ==> OnSchedule(records[i], events[i]))
    && (forall t :: t in AllTransitions(points) ==> t.role != Launcher)
    && Correlated(records, points)
  }

  // ---------------------------------------------------------------- the validator

  /** The first later sample that shows the replacement. */
  method FindReplacement(after: seq<Point>, role: Role, id: Identity) returns (found: Option<nat>)
    ensures found.Some? ==> found.value < |after| && after[found.value].At(role).identity == id &&
                            forall j :: 0 <= j < found.value ==> after[j].At(role).identity != id
    ensures found.None? ==> forall j :: 0 <= j < |after| ==> after[j].At(role).identity != id
  {
    for k := 0 to |after|
      invariant forall j :: 0 <= j < k ==> after[j].At(role).identity != id
    {
      if after[k].At(role).identity == id {
        return Some(k);
      }
    }
    return None;
  }

  method CheckFields(i: nat, f: Fault) returns (errors: seq<FaultError>)
    requires f.Fault?
    ensures errors == [] <==> FieldsOk(f)
  {
    errors := [];
    if !f.exactKeys { errors := errors + [SchemaInvalid(i)]; }
    if !f.contractExact { errors := errors + [ContractInvalid(i)]; }
    if f.scheduledS <= 0.0 { errors := errors + [ScheduledInvalid(i)]; }
    if f.observedS < 0.0 || Abs(f.observedS - f.scheduledS) > SAMPLE_INTERVAL_S {
      errors := errors + [ObservedInvalid(i)];
    }
    if !Positive(f.pre) || !Positive(f.recheck) || !Positive(f.replacement) { errors := errors + [NotPositive(i)]; }
    if f.pre != f.recheck { errors := errors + [RecheckFailed(i)]; }
    if f.pre == f.replacement { errors := errors + [ReplacementUnchanged(i)]; }
    if !f.ready { errors := errors + [NotReady(i)]; }
    if f.recoveryS < 0.0 || f.recoveryS > RECOVERY_CEILING_S { errors := errors + [RecoveryExceeded(i)]; }
    if (f.target == Some(Engine) && !f.bridgeDataResumed) || (f.target == Some(Assistant) && !f.newerHealth) {
      errors := errors + [LacksRecoveryProof(i)];
    }
  }

  method CheckHistory(i: nat, f: Fault, points: seq<Point>) returns (errors: seq<FaultError>)
    requires f.Fault?
    ensures errors == [] <==> HistoryOk(f, points)
  {
    errors := [];
    var before, after := UpTo(points, f.observedS), Later(points, f.observedS);
    if before == [] || after == [] {
      return [NotBracketed(i)];
    }
    if f.target.None? {
      return [SchemaInvalid(i)];
    }
    var role := f.target.value;
    var pre := before[|before| - 1].At(role);
    if pre.identity != f.pre {
      errors := errors + [PreIdentityMismatch(i)];
    }
    var found := FindReplacement(after, role, f.replacement);
    if found.None? {
      errors := errors + [ReplacementAbsent(i)];
      return;
    }
    var k := found.value;
    if after[k].At(role).epoch != pre.epoch + 1 {
      errors := errors + [ReplacementEpoch(i)];
    }
    var recovery := after[k].elapsed - f.observedS;
    if recovery > RECOVERY_CEILING_S || !IsClose(recovery, f.recoveryS) {
      errors := errors + [RecoveryMismatch(i)];
    }
    if exists j :: 0 <= j < k && after[j].At(role).identity != f.pre {
      errors := errors + [IntermediateIdentity(i)];
    }
    if errors == [] {
      assert TakesOver(f, role, pre, after, k);
    }
    assert TookOver(f, role, pre, after) ==> TakesOver(f, role, pre, after, k);
  }

  method CollectTransitions(points: seq<Point>) returns (ts: seq<Transition>)
    ensures ts == AllTransitions(points)
  {
    ts := [];
    for r := 0 to |ROLES|
      invariant r == 0 ==> ts == []
      invariant r == 1 ==> ts == Transitions(points, Launcher)
      invariant r == 2 ==> ts == Transitions(points, Launcher) + Transitions(points, Engine)
      invariant r == 3 ==> ts == Transitions(points, Launcher) + Transitions(points, Engine) + Transitions(points,
                Bridge)
      invariant r == 4 ==> ts == AllTransitions(points)
    {
      var role := ROLES[r];
      ghost var prior := ts;
      var i := 1;
      while i < |points|
        invariant 1 <= i
        invariant |points| <= 1 ==> ts == prior
        invariant |points| > 1 ==> i <= |points| && ts == prior + Transitions(points[..i], role)
      {
        assert points[..i + 1][..i] == points[..i];
        assert TransitionAt(points[..i + 1], role, i) == TransitionAt(points, role, i);
        if points[i].At(role).epoch != points[i - 1].At(role).epoch {
          ts := ts + [TransitionAt(points, role, i)];
        }
        i := i + 1;
      }
      assert points[..|points|] == points;
      assert ts == prior + Transitions(points, role);
    }
  }

  /** Every test the validator makes, in its order; no error exactly when the ledger is
      accepted. */
  method ValidateFaults(records: seq<Fault>, events: seq<Event>, points: seq<Point>)
    returns (errors: seq<FaultError>)
    ensures errors == [] <==> FaultsAccepted(records, events, points)
  {
    errors := [];
    var observed: seq<(Option<Role>, real)> := [];
    for i := 0 to |records|
      invariant errors == [] <==> forall j :: 0 <= j < i ==> FaultOk(records[j], points)
      invariant errors == [] ==> |observed| == i && forall j :: 0 <= j < i ==>
                                   records[j].Fault? && observed[j] == (records[j].target, records[j].scheduledS)
    {
      var f := records[i];
      if f.Malformed? {
        errors := errors + [SchemaInvalid(i)];
      } else {
        observed := observed + [(f.target, f.scheduledS)];
        var fields := CheckFields(i, f);
        var history := CheckHistory(i, f, points);
        errors := errors + fields + history;
      }
    }
    ghost var faultsOk := errors == [];
    var expected := seq(|events|, i requires 0 <= i < |events| => (Some(events[i].target), events[i].atS));
    if observed != expected {
      errors := errors + [ScheduleMismatch];
    }
    ghost var scheduleOk :=
      |records| == |events| && forall i :: 0 <= i < |records| ==> OnSchedule(records[i], events[i]);
    if faultsOk && scheduleOk {
      assert observed == expected;
    }
    if faultsOk && observed == expected {
      forall i | 0 <= i < |records| ensures OnSchedule(records[i], events[i]) {
        assert observed[i] == expected[i];
      }
    }
    assert errors == [] <==> faultsOk && scheduleOk;
    var transitions := CollectTransitions(points);
    if exists t :: t in transitions && t.role == Launcher {
      errors := errors + [LauncherRestarted];
    }
    var correlation := CheckCorrelation(records, points, transitions);
    errors := errors + correlation;
  }

  /** One correlation loop: every restart needs exactly one record. */
  method CheckPaired(ts: seq<Transition>, records: seq<Fault>, p: Transition -> (Fault -> bool), error: FaultError)
    returns (errors: seq<FaultError>)
    ensures errors == [] <==> EachPaired(ts, records, p)
  {
    errors := [];
    for i := 0 to |ts|
      invariant errors == [] <==> EachPaired(ts[..i], records, p)
    {
      assert ts[..i + 1] == ts[..i] + [ts[i]];
      assert EachPaired(ts[..i + 1], records, p)
             <==> EachPaired(ts[..i], records, p) && UniqueIndex(records, p(ts[i])) by {
        if EachPaired(ts[..i + 1], records, p) {
          assert forall j :: 0 <= j < i ==> ts[..i][j] == ts[..i + 1][j];
          assert ts[..i + 1][i] == ts[i];
        }
      }
      CountOne(records, p(ts[i]));
      if Count(records, p(ts[i])) != 1 {
        errors := errors + [error];
      }
    }
    assert ts[..|ts|] == ts;
  }

  /** The cross-checks between the ledger and the restarts. */
  method CheckCorrelation(records: seq<Fault>, points: seq<Point>, transitions: seq<Transition>)
    returns (errors: seq<FaultError>)
    requires transitions == AllTransitions(points)
    ensures errors == [] <==> Correlated(records, points)
  {
    var expected := Filter(records, FaultableTarget);
    var engineFaults := Filter(records, EngineFault);
    var bridge := Filter(transitions, RestartOf(Bridge));
    errors := CheckPaired(bridge, engineFaults, AccompaniedBy, BridgeOutsideFault);
    ghost var first := errors == [];
    for i := 0 to |engineFaults|
      invariant errors == [] <==> first && forall j :: 0 <= j < i ==> UniqueIndex(bridge, Accompanying(engineFaults[j]))
    {
      CountOne(bridge, Accompanying(engineFaults[i]));
      if Count(bridge, Accompanying(engineFaults[i])) != 1 {
        errors := errors + [BridgeNotReplaced];
      }
    }
    var restarts := Filter(transitions, FaultableRestart);
    var phantoms := CheckPaired(restarts, expected, ExplainedBy, PhantomTransition);
    errors := errors + phantoms;
    if |restarts| != |expected| {
      errors := errors + [NotOneToOne];
    }
  }
}
