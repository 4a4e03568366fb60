/** What an accepted run proves: the sample series and the fault ledger, each accepted
    by its own validator, describe the same restarts. */
module Qualification {
  import opened Counting
  import opened SoakSeries
  import opened FaultLedger

  /** A fault event may only target the engine or the assistant. */
  ghost predicate ValidEvents(events: seq<Event>) {
    forall i :: 0 <= i < |events| ==> Faultable(events[i].target)
  }

  /** Both validators accept. */
  ghost predicate Accepted(samples: seq<Sample>, durationS: real, records: seq<Fault>, events: seq<Event>) {
    && SeriesAccepted(samples, durationS)
    && ValidEvents(events)
    && FaultsAccepted(records, events, Timeline(samples))
  }

  ghost function Restarts(points: seq<Point>, role: Role): set<Transition> {
    Members(Transitions(points, role))
  }

  ghost function Identities(points: seq<Point>, role: Role): set<Identity> {
    set p | p in points :: p.At(role).identity
  }

  /** The records whose target is this role, by position. */
  ghost function FaultsOf(records: seq<Fault>, role: Role): set<int> {
    set i | 0 <= i < |records| && records[i].Fault? && records[i].target == Some(role)
  }

  ghost function EventsOf(events: seq<Event>, role: Role): set<int> {
    set i | 0 <= i < |events| && events[i].target == role
  }

  ghost function ExplainedAt(records: seq<Fault>): (Transition, int) -> bool {
    (t, i) => 0 <= i < |records| && Explains(records[i], t)
  }

  ghost function AccompaniedAt(records: seq<Fault>): (Transition, int) -> bool {
    (t, i) => 0 <= i < |records| && Accompanies(records[i], t)
  }

  // ---------------------------------------------------------------- lists and filters

  lemma {:induction false} FilterMembers<T>(s: seq<T>, p: T -> bool)
    ensures forall t :: t in Filter(s, p) <==> t in s && p(t)
  {
    if s != [] {
      FilterMembers(s[1..], p);
    }
  }

  lemma {:induction false} FilterAll<T>(s: seq<T>, p: T -> bool)
    requires forall t :: t in s ==> p(t)
    ensures Filter(s, p) == s
  {
    if s != [] {
      FilterAll(s[1..], p);
    }
  }

  lemma {:induction false} FilterNone<T>(s: seq<T>, p: T -> bool)
    requires forall t :: t in s ==> !p(t)
    ensures Filter(s, p) == []
  {
    if s != [] {
      FilterNone(s[1..], p);
    }
  }

  lemma {:induction false} FilterConcat<T>(s: seq<T>, t: seq<T>, p: T -> bool)
    ensures Filter(s + t, p) == Filter(s, p) + Filter(t, p)
  {
    if s == [] {
      assert s + t == t;
    } else {
      assert (s + t)[0] == s[0] && (s + t)[1..] == s[1..] + t;
      FilterConcat(s[1..], t, p);
      var head := if p(s[0]) then [s[0]] else [];
      assert Filter(s + t, p) == head + (Filter(s[1..], p) + Filter(t, p));
      assert Filter(s, p) == head + Filter(s[1..], p);
    }
  }

  // ---------------------------------------------------------------- restarts of one role

  predicate IsRestart(points: seq<Point>, role: Role, i: int) {
    0 < i < |points| && points[i].At(role).epoch != points[i - 1].At(role).epoch
  }

  /** t records an epoch change of this role. */
  ghost predicate Records(points: seq<Point>, role: Role, t: Transition) {
    t.role == role && IsRestart(points, role, t.index) && t == TransitionAt(points, role, t.index)
  }

  /** The list of restarts holds every epoch change and nothing else. */
  lemma {:induction false} TransitionsMembers(points: seq<Point>, role: Role)
    ensures forall t :: t in Transitions(points, role) <==> Records(points, role, t)
  {
    if |points| > 1 {
      var n := |points| - 1;
      TransitionsMembers(points[..n], role);
      forall t ensures t in Transitions(points, role) <==> Records(points, role, t) {
      }
    }
  }

  ghost predicate Ordered(ts: seq<Transition>) {
    forall a, c :: 0 <= a < c < |ts| ==> ts[a].index < ts[c].index
  }

  /** Each epoch change is listed once, oldest first. */
  lemma {:induction false} TransitionsOrdered(points: seq<Point>, role: Role)
    ensures Ordered(Transitions(points, role))
  {
    if |points| > 1 {
      var n := |points| - 1;
      var us := Transitions(points[..n], role);
      TransitionsOrdered(points[..n], role);
      TransitionsMembers(points[..n], role);
      forall a | 0 <= a < |us| ensures us[a].index < n {
        assert us[a] in us;
      }
      if IsRestart(points, role, n) {
        assert Ordered(us + [TransitionAt(points, role, n)]);
      } else {
        assert us + [] == us;
      }
    }
  }

  lemma RestartCount(points: seq<Point>, role: Role)
    ensures |Restarts(points, role)| == |Transitions(points, role)|
  {
    TransitionsOrdered(points, role);
    DistinctSize(Transitions(points, role));
  }

  lemma {:induction false} DistinctSize<T(!new)>(s: seq<T>)
    requires forall i, j :: 0 <= i < j < |s| ==> s[i] != s[j]
    ensures |Members(s)| == |s|
  {
    if s != [] {
      DistinctSize(s[1..]);
      assert Members(s) == {s[0]} + Members(s[1..]);
      assert s[0] !in s[1..];
    }
  }

  lemma ByRole(points: seq<Point>, role: Role)
    ensures forall t :: t in Transitions(points, role) ==> t.role == role
  {
    TransitionsMembers(points, role);
  }

  lemma KeepRole(points: seq<Point>, role: Role, p: Transition -> bool)
    requires forall t: Transition :: t.role == role ==> p(t)
    ensures Filter(Transitions(points, role), p) == Transitions(points, role)
  {
    ByRole(points, role);
    FilterAll(Transitions(points, role), p);
  }

  lemma DropRole(points: seq<Point>, role: Role, p: Transition -> bool)
    requires forall t: Transition :: t.role == role ==> !p(t)
    ensures Filter(Transitions(points, role), p) == []
  {
    ByRole(points, role);
    FilterNone(Transitions(points, role), p);
  }

  /** The two filtered lists are the lists of the roles they keep. */
  lemma BridgeFiltered(points: seq<Point>)
    ensures BridgeTransitions(points) == Transitions(points, Bridge)
  {
    var p := RestartOf(Bridge);
    AllFiltered(points, p);
    DropRole(points, Launcher, p);
    DropRole(points, Engine, p);
    KeepRole(points, Bridge, p);
    DropRole(points, Assistant, p);
  }

  lemma FaultableFiltered(points: seq<Point>)
    ensures RoleTransitions(points) == Transitions(points, Engine) + Transitions(points, Assistant)
  {
    AllFiltered(points, FaultableRestart);
    DropRole(points, Launcher, FaultableRestart);
    KeepRole(points, Engine, FaultableRestart);
    DropRole(points, Bridge, FaultableRestart);
    KeepRole(points, Assistant, FaultableRestart);
  }

  lemma AllFiltered(points: seq<Point>, p: Transition -> bool)
    ensures Filter(AllTransitions(points), p) ==
            Filter(Transitions(points, Launcher), p) + Filter(Transitions(points, Engine), p) +
            Filter(Transitions(points, Bridge), p) + Filter(Transitions(points, Assistant), p)
  {
    FilterParts(Transitions(points, Launcher), Transitions(points, Engine), Transitions(points, Bridge),
                Transitions(points, Assistant), p);
  }

  lemma FilterParts<T>(l: seq<T>, e: seq<T>, b: seq<T>, a: seq<T>, p: T -> bool)
    ensures Filter(l + e + b + a, p) == Filter(l, p) + Filter(e, p) + Filter(b, p) + Filter(a, p)
  {
    FilterConcat(l + e + b, a, p);
    FilterConcat(l + e, b, p);
    FilterConcat(l, e, p);
  }

  // ---------------------------------------------------------------- identities

  ghost function History(points: seq<Point>, role: Role): (h: seq<RoleRecord>)
    ensures |h| == |points| && forall i :: 0 <= i < |h| ==> h[i] == points[i].At(role)
  {
    seq(|points|, i requires 0 <= i < |points| => points[i].At(role))
  }

  ghost predicate Regular(points: seq<Point>, role: Role) {
    RunOk(History(points, role)) && NeverReused(History(points, role))
  }

  lemma {:induction false} EpochsRise(h: seq<RoleRecord>, i: nat, k: nat)
    requires RunOk(h) && i <= k < |h|
    ensures h[i].epoch <= h[k].epoch
    decreases k - i
  {
    if i < k {
      EpochsRise(h, i, k - 1);
      assert h[k - 1].epoch <= h[k].epoch;
    }
  }

  /** Restarts of one role never arrive at the same identity twice. */
  lemma ArrivalsDiffer(points: seq<Point>, role: Role, i: nat, k: nat)
    requires Regular(points, role) && IsRestart(points, role, i) && IsRestart(points, role, k) && i < k
    ensures points[i].At(role).identity != points[k].At(role).identity
  {
    var h := History(points, role);
    EpochsRise(h, i, k - 1);
    assert h[k - 1].epoch <= h[k].epoch <= h[k - 1].epoch + 1;
  }

  lemma IdentitiesGrow(points: seq<Point>, role: Role, n: nat)
    requires |points| == n + 1 && n > 0
    ensures Identities(points, role) == Identities(points[..n], role) + {points[n].At(role).identity}
  {
    assert points == points[..n] + [points[n]];
    forall id | id in Identities(points, role)
      ensures id in Identities(points[..n], role) + {points[n].At(role).identity}
    {
      var p :| p in points && p.At(role).identity == id;
      assert p in points[..n] || p == points[n];
    }
    assert points[n] in points;
  }

  lemma ArrivalIsNew(points: seq<Point>, role: Role, n: nat)
    requires |points| == n + 1 && n > 0 && Regular(points, role)
    ensures IsRestart(points, role, n) <==> points[n].At(role).identity !in Identities(points[..n], role)
  {
    var h := History(points, role);
    assert h[n - 1].epoch <= h[n].epoch;
    if IsRestart(points, role, n) {
      forall p | p in points[..n] ensures p.At(role).identity != points[n].At(role).identity {
        var i :| 0 <= i < n && points[..n][i] == p;
        EpochsRise(h, i, n - 1);
        assert h[i] == p.At(role);
      }
    } else {
      assert h[n - 1].identity == h[n].identity;
      assert points[..n][n - 1] == points[n - 1];
      assert points[n - 1] in points[..n];
    }
  }

  lemma GrownSize<T>(s: set<T>, x: T)
    ensures |s + {x}| == |s| + if x in s then 0 else 1
  {
    if x in s {
      assert s + {x} == s;
    }
  }

  lemma RegularPrefix(points: seq<Point>, role: Role)
    requires Regular(points, role) && points != []
    ensures Regular(points[..|points| - 1], role)
  {
    var h, before := History(points, role), History(points[..|points| - 1], role);
    assert before == h[..|points| - 1];
  }

  /** A role shows one identity more than it restarts. */
  lemma {:induction false} IdentitiesCounted(points: seq<Point>, role: Role)
    requires Regular(points, role) && points != []
    ensures |Identities(points, role)| == 1 + |Transitions(points, role)|
  {
    var n := |points| - 1;
    if n == 0 {
      assert Identities(points, role) == {points[0].At(role).identity};
    } else {
      RegularPrefix(points, role);
      hide Regular, Identities, Members;
      IdentitiesCounted(points[..n], role);
      IdentitiesGrow(points, role, n);
      ArrivalIsNew(points, role, n);
      GrownSize(Identities(points[..n], role), points[n].At(role).identity);
    }
  }

  // ---------------------------------------------------------------- times

  ghost predicate Rising(points: seq<Point>) {
    forall i, j :: 0 <= i < j < |points| ==> points[i].elapsed < points[j].elapsed
  }

  lemma {:induction false} TimesRise(samples: seq<Sample>, i: nat, j: nat)
    requires RowsOk(samples) && i < j < |samples|
    ensures samples[i].elapsed.value < samples[j].elapsed.value
    decreases j
  {
    assert InCadence(samples[j - 1], samples[j]);
    if i < j - 1 {
      TimesRise(samples, i, j - 1);
    }
  }

  lemma TimelineRises(samples: seq<Sample>)
    requires RowsOk(samples)
    ensures Rising(Timeline(samples))
  {
    var points := Timeline(samples);
    forall i, j | 0 <= i < j < |points| ensures points[i].elapsed < points[j].elapsed {
      TimesRise(samples, i, j);
      assert points[i].At(Launcher) == points[i].At(Launcher) && points[j].At(Launcher) == points[j].At(Launcher);
    }
  }

  // ---------------------------------------------------------------- the one-to-one theorems

  lemma RegularTimeline(samples: seq<Sample>, durationS: real, role: Role)
    requires SeriesAccepted(samples, durationS)
    ensures Regular(Timeline(samples), role)
  {
    TimelineColumn(samples, role);
  }

  lemma TimelineColumn(samples: seq<Sample>, role: Role)
    requires RowsOk(samples) && RoleOk(samples, role)
    ensures History(Timeline(samples), role) == Column(samples, role)
  {
  }

  lemma {:induction false} EveryFaultCounts(samples: seq<Sample>, durationS: real, records: seq<Fault>,
                                            events: seq<Event>)
    requires Accepted(samples, durationS, records, events)
    ensures Filter(records, FaultableTarget) == records
    ensures forall i :: 0 <= i < |records| ==> records[i].Fault? && records[i].target == Some(events[i].target)
  {
    forall f | f in records ensures FaultableTarget(f) {
      var i :| 0 <= i < |records| && records[i] == f;
      assert OnSchedule(records[i], events[i]) && Faultable(events[i].target);
    }
    FilterAll(records, FaultableTarget);
    assert forall i :: 0 <= i < |records| ==> OnSchedule(records[i], events[i]);
  }

  lemma ExplainedOnce(records: seq<Fault>, t: Transition)
    requires UniqueIndex(records, ExplainedBy(t))
    ensures exists i :: Partner(Below(|records|), ExplainedAt(records), t, i)
  {
    var p := ExplainedBy(t);
    var i :| 0 <= i < |records| && p(records[i]) && forall j :: 0 <= j < |records| && p(records[j]) ==> j == i;
    forall j | j in Below(|records|) && ExplainedAt(records)(t, j) ensures j == i {
      assert p(records[j]);
    }
    assert Partner(Below(|records|), ExplainedAt(records), t, i);
  }

  ghost function Faulted(points: seq<Point>): set<Transition> {
    Restarts(points, Engine) + Restarts(points, Assistant)
  }

  /** Two restarts of one role that arrive at the same identity are the same restart. */
  lemma SameArrival(points: seq<Point>, t: Transition, u: Transition)
    requires Regular(points, t.role) && t.role == u.role && t.after == u.after
    requires t in Restarts(points, t.role) && u in Restarts(points, u.role)
    ensures t == u
  {
    TransitionsMembers(points, t.role);
    if t.index < u.index {
      ArrivalsDiffer(points, t.role, t.index, u.index);
    } else if u.index < t.index {
      ArrivalsDiffer(points, t.role, u.index, t.index);
    }
  }

  lemma NoSharedExplanation(points: seq<Point>, records: seq<Fault>)
    requires Regular(points, Engine) && Regular(points, Assistant)
    ensures NeverShared(Faulted(points), Below(|records|), ExplainedAt(records))
  {
    ByRole(points, Engine);
    ByRole(points, Assistant);
    hide Regular, Transitions;
    forall t, u, i | t in Faulted(points) && u in Faulted(points) && i in Below(|records|) &&
                     ExplainedAt(records)(t, i) && ExplainedAt(records)(u, i)
      ensures t == u
    {
      SameArrival(points, t, u);
    }
  }

  lemma FaultedSize(points: seq<Point>)
    ensures |Faulted(points)| == |RoleTransitions(points)|
  {
    FaultableFiltered(points);
    RestartCount(points, Engine);
    RestartCount(points, Assistant);
    ByRole(points, Engine);
    ByRole(points, Assistant);
    assert Restarts(points, Engine) !! Restarts(points, Assistant);
  }

  /** Engine and assistant restarts and the recorded faults are in bijection: every
      restart is explained by exactly one record and every record by exactly one
      restart. The ledger is only compared for "exactly one record per restart" and for
      equal length; that no record is left over follows because no two restarts arrive
      at the same identity. */
  lemma FaultsAreRestarts(samples: seq<Sample>, durationS: real, records: seq<Fault>,
                          events: seq<Event>)
    requires Accepted(samples, durationS, records, events)
    ensures OneToOne(Faulted(Timeline(samples)), Below(|records|), ExplainedAt(records))
  {
    EveryFaultCounts(samples, durationS, records, events);
    RegularTimeline(samples, durationS, Engine);
    RegularTimeline(samples, durationS, Assistant);
    EachExplained(Timeline(samples), records);
  }

  lemma {:induction false} EachExplained(points: seq<Point>, records: seq<Fault>)
    requires Regular(points, Engine) && Regular(points, Assistant)
    requires Correlated(records, points) && Filter(records, FaultableTarget) == records
    ensures OneToOne(Faulted(points), Below(|records|), ExplainedAt(records))
  {
    FaultableFiltered(points);
    FaultedSize(points);
    var ts := RoleTransitions(points);
    forall t | t in Faulted(points) ensures exists i :: Partner(Below(|records|), ExplainedAt(records), t, i) {
      assert t in ts;
      ExplainedInList(ts, records, t);
    }
    NoSharedExplanation(points, records);
    Pigeonhole(Faulted(points), Below(|records|), ExplainedAt(records));
  }

  lemma ExplainedInList(ts: seq<Transition>, records: seq<Fault>, t: Transition)
    requires t in ts && EachPaired(ts, records, ExplainedBy)
    ensures exists i :: Partner(Below(|records|), ExplainedAt(records), t, i)
  {
    var k :| 0 <= k < |ts| && ts[k] == t;
    assert UniqueIndex(records, ExplainedBy(ts[k]));
    ExplainedOnce(records, t);
  }

  lemma AccompaniedOnce(records: seq<Fault>, t: Transition)
    requires UniqueIndex(Filter(records, EngineFault), AccompaniedBy(t))
    ensures exists i :: Partner(FaultsOf(records, Engine), AccompaniedAt(records), t, i)
  {
    var p := AccompaniedBy(t);
    CountOne(Filter(records, EngineFault), p);
    var i := OriginalPosition(records, EngineFault, p);
    forall j | j in FaultsOf(records, Engine) && AccompaniedAt(records)(t, j) ensures j == i {
      assert EngineFault(records[j]) && p(records[j]);
    }
    assert Partner(FaultsOf(records, Engine), AccompaniedAt(records), t, i);
  }

  lemma AccompaniesOnce(records: seq<Fault>, i: int, bridge: seq<Transition>)
    requires i in FaultsOf(records, Engine) && UniqueIndex(bridge, Accompanying(records[i]))
    ensures exists t :: Copartner(Members(bridge), AccompaniedAt(records), t, i)
  {
    var p := Accompanying(records[i]);
    var m :| 0 <= m < |bridge| && p(bridge[m]) && forall j :: 0 <= j < |bridge| && p(bridge[j]) ==> j == m;
    forall u | u in bridge && AccompaniedAt(records)(u, i) ensures u == bridge[m] {
      assert p(u);
    }
    assert Copartner(Members(bridge), AccompaniedAt(records), bridge[m], i);
  }

  /** Bridge restarts and engine faults are in bijection. */
  lemma BridgeFollowsEngine(samples: seq<Sample>, durationS: real, records: seq<Fault>,
                            events: seq<Event>)
    requires Accepted(samples, durationS, records, events)
    ensures OneToOne(Restarts(Timeline(samples), Bridge), FaultsOf(records, Engine), AccompaniedAt(records))
  {
    var points := Timeline(samples);
    assert Correlated(records, points);
    BridgeFiltered(points);
    assert Members(BridgeTransitions(points)) == Restarts(points, Bridge);
    FilterMembers(records, EngineFault);
    forall t | t in Restarts(points, Bridge)
      ensures exists i :: Partner(FaultsOf(records, Engine), AccompaniedAt(records), t, i)
    {
      AccompaniedInList(BridgeTransitions(points), records, t);
    }
    forall i | i in FaultsOf(records, Engine)
      ensures exists t :: Copartner(Restarts(points, Bridge), AccompaniedAt(records), t, i)
    {
      assert records[i] in Filter(records, EngineFault);
      AccompaniesInList(Filter(records, EngineFault), records, i, BridgeTransitions(points));
    }
  }

  lemma AccompaniedInList(ts: seq<Transition>, records: seq<Fault>, t: Transition)
    requires t in ts && EachPaired(ts, Filter(records, EngineFault), AccompaniedBy)
    ensures exists i :: Partner(FaultsOf(records, Engine), AccompaniedAt(records), t, i)
  {
    var k :| 0 <= k < |ts| && ts[k] == t;
    assert UniqueIndex(Filter(records, EngineFault), AccompaniedBy(ts[k]));
    AccompaniedOnce(records, t);
  }

  lemma AccompaniesInList(faults: seq<Fault>, records: seq<Fault>, i: int, bridge: seq<Transition>)
    requires i in FaultsOf(records, Engine) && records[i] in faults && EachAccompanied(faults, bridge)
    ensures exists t :: Copartner(Members(bridge), AccompaniedAt(records), t, i)
  {
    var k :| 0 <= k < |faults| && faults[k] == records[i];
    assert UniqueIndex(bridge, Accompanying(faults[k]));
    AccompaniesOnce(records, i, bridge);
  }

  /** A unique match in a filtered list is a unique match among the kept positions. */
  lemma {:induction false} OriginalPosition<T>(s: seq<T>, keep: T -> bool, p: T -> bool) returns (i: int)
    requires Count(Filter(s, keep), p) == 1
    ensures 0 <= i < |s| && keep(s[i]) && p(s[i])
    ensures forall j :: 0 <= j < |s| && keep(s[j]) && p(s[j]) ==> j == i
  {
    var rest := Filter(s[1..], keep);
    if keep(s[0]) {
      assert Filter(s, keep) == [s[0]] + rest && Filter(s, keep)[1..] == rest;
    } else {
      assert Filter(s, keep) == rest;
    }
    if keep(s[0]) && p(s[0]) {
      i := 0;
      CountZero(rest, p);
      FilterMembers(s[1..], keep);
      forall j | 1 <= j < |s| && keep(s[j]) ensures !p(s[j]) {
        assert s[j] == s[1..][j - 1] && s[j] in rest;
      }
    } else {
      var k := OriginalPosition(s[1..], keep, p);
      i := k + 1;
      forall j | 0 <= j < |s| && keep(s[j]) && p(s[j]) ensures j == i {
        assert s[j] == s[1..][j - 1];
      }
    }
  }

  /** The number of process identities each role may show, from the schedule alone: one
      more than its scheduled faults for engine and assistant, the engine's number for
      the bridge, and a single launcher. */
  lemma IdentityCensus(samples: seq<Sample>, durationS: real, records: seq<Fault>,
                       events: seq<Event>)
    requires Accepted(samples, durationS, records, events)
    ensures var points := Timeline(samples);
            && |Identities(points, Engine)| == 1 + |EventsOf(events, Engine)|
            && |Identities(points, Bridge)| == 1 + |EventsOf(events, Engine)|
            && |Identities(points, Assistant)| == 1 + |EventsOf(events, Assistant)|
            && |Identities(points, Launcher)| == 1
  {
    var points := Timeline(samples);
    EveryFaultCounts(samples, durationS, records, events);
    assert FaultsOf(records, Engine) == EventsOf(events, Engine);
    assert FaultsOf(records, Assistant) == EventsOf(events, Assistant);
    forall role ensures |Identities(points, role)| == 1 + |Restarts(points, role)| {
      RegularTimeline(samples, durationS, role);
      IdentitiesCounted(points, role);
      RestartCount(points, role);
    }
    RestartsMatchFaults(samples, durationS, records, events, Engine);
    RestartsMatchFaults(samples, durationS, records, events, Assistant);
    BridgeFollowsEngine(samples, durationS, records, events);
    OneToOneSizes(Restarts(points, Bridge), FaultsOf(records, Engine), AccompaniedAt(records));
    NoLauncherRestart(points);
  }

  lemma NoLauncherRestart(points: seq<Point>)
    requires forall t :: t in AllTransitions(points) ==> t.role != Launcher
    ensures Restarts(points, Launcher) == {}
  {
    ByRole(points, Launcher);
    forall t | t in Transitions(points, Launcher) ensures t in AllTransitions(points) && t.role == Launcher {}
  }

  lemma RestartsMatchFaults(samples: seq<Sample>, durationS: real, records: seq<Fault>,
                            events: seq<Event>, role: Role)
    requires Accepted(samples, durationS, records, events) && Faultable(role)
    ensures |Restarts(Timeline(samples), role)| == |FaultsOf(records, role)|
  {
    var points := Timeline(samples);
    FaultsAreRestarts(samples, durationS, records, events);
    ByRole(points, Engine);
    ByRole(points, Assistant);
    Restriction(Faulted(points), Below(|records|), ExplainedAt(records), Restarts(points, role), FaultsOf(records,
              role));
    OneToOneSizes(Restarts(points, role), FaultsOf(records, role), ExplainedAt(records));
  }
}
