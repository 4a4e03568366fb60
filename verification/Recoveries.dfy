/** The fault ledger as a story over the samples: an accepted ledger is exactly one in which every
    record is sound, its replacement is seen to take over when the record says so, and restarts and
    records are the same events. The records and the samples are all that is spoken of. */
module Recoveries {
  import opened Counting
  import opened SoakSeries
  import opened FaultLedger
  import opened Qualification

  // ------------------------------------------------------------ the story

  function Greatest(x: real, y: real): real { if x >= y then x else y }

  /** Two durations agree to one part in a billion, or to a nanosecond if they are short. */
  predicate Agree(x: real, y: real) {
    var tolerance := 0.000000001 * Greatest(1.0, Greatest(x, y));
    x - y <= tolerance && y - x <= tolerance
  }

  /** The record by itself, and the event it was scheduled for. */
  predicate Sound(f: Fault, e: Event) {
    && f.Fault? && f.exactKeys && f.contractExact
    && f.target == Some(e.target) && f.scheduledS == e.atS && e.atS > 0.0
    && f.observedS >= 0.0 && e.atS - 5.0 <= f.observedS <= e.atS + 5.0
    && f.pre.pid > 0 && f.pre.startedNs > 0 && f.replacement.pid > 0 && f.replacement.startedNs > 0
    && f.recheck == f.pre && f.replacement != f.pre
    && f.ready && 0.0 <= f.recoveryS <= 60.0
    && (e.target == Engine ==> f.bridgeDataResumed) && (e.target == Assistant ==> f.newerHealth)
  }

  /** Up to sample k, from the last one that is not after the fault, the role is the process that
      was hit, in one epoch; sample k shows the replacement in the next epoch, within a minute of
      the fault and when the record says. */
  ghost predicate Recovers(points: seq<Point>, f: Fault, role: Role, k: int)
    requires f.Fault?
  {
    && 0 < k < |points|
    && points[k].At(role).identity == f.replacement
    && 0.0 < points[k].elapsed - f.observedS <= 60.0 && Agree(points[k].elapsed - f.observedS, f.recoveryS)
    && exists a :: 0 <= a < k && points[a].elapsed <= f.observedS && Untouched(points, f, role, a, k)
  }

  ghost predicate Untouched(points: seq<Point>, f: Fault, role: Role, a: int, k: int)
    requires f.Fault? && 0 <= a < k < |points|
  {
    && f.observedS < points[a + 1].elapsed
    && forall j :: a <= j < k ==>
         points[j].At(role).identity == f.pre && points[j].At(role).epoch == points[k].At(role).epoch - 1
  }

  /** In the minute after the fault. */
  predicate Follows(points: seq<Point>, k: int, f: Fault)
    requires 0 <= k < |points| && f.Fault?
  {
    f.observedS < points[k].elapsed <= f.observedS + 60.0
  }

  /** One of the records, and no other, is about this restart. */
  ghost predicate ToldOnce(points: seq<Point>, records: seq<Fault>, role: Role, k: int) {
    exists i :: Tells(points, records, role, k, i) && forall j :: Tells(points, records, role, k, j) ==> j == i
  }

  ghost predicate Tells(points: seq<Point>, records: seq<Fault>, role: Role, k: int, i: int) {
    0 <= i < |records| && records[i].Fault? && records[i].target == Some(role) && Recovers(points, records[i], role, k)
  }

  /** One of the engine records, and no other, is a minute or less before this bridge restart. */
  ghost predicate Accompanied(points: seq<Point>, records: seq<Fault>, k: int)
    requires 0 <= k < |points|
  {
    exists i :: Escorts(points, records, k, i) && forall j :: Escorts(points, records, k, j) ==> j == i
  }

  ghost predicate Escorts(points: seq<Point>, records: seq<Fault>, k: int, i: int)
    requires 0 <= k < |points|
  {
    0 <= i < |records| && records[i].Fault? && records[i].target == Some(Engine) && Follows(points, k, records[i])
  }

  /** The engine fault is followed by one bridge restart, and no other, within a minute. */
  ghost predicate BridgeReplaced(points: seq<Point>, f: Fault)
    requires f.Fault?
  {
    exists k :: IsRestart(points, Bridge, k) && Follows(points, k, f) &&
                forall j :: IsRestart(points, Bridge, j) && Follows(points, j, f) ==> j == k
  }

  ghost predicate BorneOut(points: seq<Point>, f: Fault, e: Event) {
    Sound(f, e) && exists k :: Recovers(points, f, e.target, k)
  }

  ghost predicate Recorded(points: seq<Point>, records: seq<Fault>, events: seq<Event>) {
    |records| == |events| && forall i :: 0 <= i < |records| ==> BorneOut(points, records[i], events[i])
  }

  ghost predicate Story(points: seq<Point>, records: seq<Fault>, events: seq<Event>) {
    && Recorded(points, records, events)
    && NeverRestarts(points, Launcher)
    && AllTold(points, records, Engine) && AllTold(points, records, Assistant)
    && BridgesAccompanied(points, records) && BridgesReplaced(points, records)
  }

  ghost predicate NeverRestarts(points: seq<Point>, role: Role) { forall k :: !IsRestart(points, role, k) }

  /** Every restart of this role is told by one record. */
  ghost predicate AllTold(points: seq<Point>, records: seq<Fault>, role: Role) {
    forall k :: IsRestart(points, role, k) ==> ToldOnce(points, records, role, k)
  }

  ghost predicate BridgesAccompanied(points: seq<Point>, records: seq<Fault>) {
    forall k :: IsRestart(points, Bridge, k) ==> Accompanied(points, records, k)
  }

  ghost predicate BridgesReplaced(points: seq<Point>, records: seq<Fault>) {
    forall i :: 0 <= i < |records| && records[i].Fault? && records[i].target == Some(Engine) ==>
      BridgeReplaced(points, records[i])
  }

  // ------------------------------------------------------------ one record

  lemma SoundMeans(f: Fault, e: Event)
    ensures FieldsOk(f) && OnSchedule(f, e) <==> Sound(f, e)
  {
  }

  lemma CloseMeans(x: real, y: real)
    requires x >= 0.0 && y >= 0.0
    ensures IsClose(x, y) <==> Agree(x, y)
  {
    var m := Greatest(x, y);
    assert Max(Abs(x), Abs(y)) == m;
    assert Max(CLOSE * m, CLOSE) == 0.000000001 * Greatest(1.0, m);
  }

  /** The samples up to a moment are the first m, the later ones the rest. */
  ghost predicate SplitsAt(points: seq<Point>, t: real, m: nat) {
    && m <= |points| && UpTo(points, t) == points[..m] && Later(points, t) == points[m..]
    && (forall i :: 0 <= i < m ==> points[i].elapsed <= t)
    && (forall i :: m <= i < |points| ==> points[i].elapsed > t)
  }

  lemma SplitsFirst(points: seq<Point>, t: real, m: nat)
    requires points != [] && points[0].elapsed <= t && SplitsAt(points[1..], t, m)
    ensures SplitsAt(points, t, m + 1)
  {
    var rest := points[1..];
    assert points == [points[0]] + rest;
    assert UpTo(points, t) == [points[0]] + UpTo(rest, t) && Later(points, t) == [] + Later(rest, t);
    assert points[..m + 1] == [points[0]] + rest[..m] && points[m + 1..] == rest[m..];
    hide UpTo, Later;
    forall i | 0 <= i < |points| ensures points[i].elapsed <= t <==> i < m + 1 {
      assert i > 0 ==> points[i] == rest[i - 1];
    }
  }

  lemma {:induction false} TimeSplits(points: seq<Point>, t: real) returns (m: nat)
    requires Rising(points)
    ensures SplitsAt(points, t, m)
  {
    m := 0;
    if points != [] && points[0].elapsed <= t {
      RestRises(points);
      m := TimeSplits(points[1..], t);
      SplitsFirst(points, t, m);
      m := m + 1;
    } else {
      AllLater(points, t);
    }
  }

  lemma RestRises(points: seq<Point>)
    requires Rising(points) && points != []
    ensures Rising(points[1..])
  {
  }

  lemma AllLater(points: seq<Point>, t: real)
    requires Rising(points) && (points != [] ==> points[0].elapsed > t)
    ensures SplitsAt(points, t, 0)
  {
    assert forall i :: 0 <= i < |points| ==> points[i].elapsed > t;
    FilterNone(points, (p: Point) => p.elapsed <= t);
    FilterAll(points, (p: Point) => p.elapsed > t);
  }

  lemma SameIdentitySameEpoch(points: seq<Point>, role: Role, i: int, j: int)
    requires Regular(points, role) && 0 <= i < |points| && 0 <= j < |points|
    requires points[i].At(role).identity == points[j].At(role).identity
    ensures points[i].At(role).epoch == points[j].At(role).epoch
  {
    var h := History(points, role);
    assert h[i].identity == h[j].identity;
  }

  /** The first m samples are up to the moment, the others after it. */
  ghost predicate Cut(points: seq<Point>, t: real, m: nat) {
    && m <= |points|
    && (forall i :: 0 <= i < m ==> points[i].elapsed <= t)
    && (forall i :: m <= i < |points| ==> points[i].elapsed > t)
  }

  lemma TakeoverUntouched(points: seq<Point>, f: Fault, role: Role, m: nat, k: nat)
    requires Regular(points, role) && f.Fault? && Cut(points, f.observedS, m) && m > 0 && m + k < |points|
    requires points[m - 1].At(role).identity == f.pre
    requires TakesOver(f, role, points[m - 1].At(role), points[m..], k)
    ensures Untouched(points, f, role, m - 1, m + k)
  {
    var after := points[m..];
    assert after[k] == points[m + k];
    forall j | m - 1 <= j < m + k
      ensures points[j].At(role).identity == f.pre
      ensures points[j].At(role).epoch == points[m + k].At(role).epoch - 1
    {
      assert j >= m ==> after[j - m] == points[j];
      SameIdentitySameEpoch(points, role, j, m - 1);
    }
    hide Regular;
  }

  lemma UntouchedTakesOver(points: seq<Point>, f: Fault, role: Role, m: nat, k: nat)
    requires f.Fault? && f.pre != f.replacement && Cut(points, f.observedS, m) && m > 0 && m + k < |points|
    requires Untouched(points, f, role, m - 1, m + k)
    ensures points[m..][k].At(role).epoch == points[m - 1].At(role).epoch + 1
    ensures forall j :: 0 <= j < k ==> points[m..][j].At(role).identity == f.pre
  {
    var after := points[m..];
    assert after[k] == points[m + k];
    forall j | 0 <= j < k ensures after[j].At(role).identity == f.pre {
      assert after[j] == points[m + j];
    }
  }

  lemma TakesOverRecovers(points: seq<Point>, f: Fault, role: Role, m: nat, k: nat)
    requires Regular(points, role) && f.Fault? && f.pre != f.replacement && f.recoveryS >= 0.0
    requires Cut(points, f.observedS, m) && m > 0 && m + k < |points|
    requires points[m - 1].At(role).identity == f.pre
    ensures TakesOver(f, role, points[m - 1].At(role), points[m..], k) <==> Recovers(points, f, role, m + k)
  {
    if TakesOver(f, role, points[m - 1].At(role), points[m..], k) {
      ReplacementRecovers(points, f, role, m, k);
    }
    if Recovers(points, f, role, m + k) {
      RecoveryTakesOver(points, f, role, m, k);
    }
    hide *;
  }

  lemma ReplacementRecovers(points: seq<Point>, f: Fault, role: Role, m: nat, k: nat)
    requires Regular(points, role) && f.Fault? && f.recoveryS >= 0.0
    requires Cut(points, f.observedS, m) && m > 0 && m + k < |points| && points[m - 1].At(role).identity == f.pre
    requires TakesOver(f, role, points[m - 1].At(role), points[m..], k)
    ensures Recovers(points, f, role, m + k)
  {
    assert points[m..][k] == points[m + k];
    CloseMeans(points[m + k].elapsed - f.observedS, f.recoveryS);
    TakeoverUntouched(points, f, role, m, k);
    hide Regular, Untouched, IsClose, Agree;
  }

  lemma RecoveryTakesOver(points: seq<Point>, f: Fault, role: Role, m: nat, k: nat)
    requires f.Fault? && f.pre != f.replacement && f.recoveryS >= 0.0
    requires Cut(points, f.observedS, m) && m > 0 && m + k < |points| && Recovers(points, f, role, m + k)
    ensures TakesOver(f, role, points[m - 1].At(role), points[m..], k)
  {
    assert points[m..][k] == points[m + k];
    CloseMeans(points[m + k].elapsed - f.observedS, f.recoveryS);
    var a := LastBefore(points, f, role, m, m + k);
    UntouchedTakesOver(points, f, role, m, k);
    hide Untouched, IsClose, Agree;
  }

  lemma LastBefore(points: seq<Point>, f: Fault, role: Role, m: nat, k: int) returns (a: int)
    requires f.Fault? && Cut(points, f.observedS, m) && Recovers(points, f, role, k)
    ensures 0 <= a < k && a == m - 1 && m <= k && Untouched(points, f, role, a, k)
    ensures points[a].At(role).identity == f.pre
  {
    a :| 0 <= a < k && points[a].elapsed <= f.observedS && Untouched(points, f, role, a, k);
  }

  lemma BeforeAndAfter(points: seq<Point>, t: real, m: nat)
    requires SplitsAt(points, t, m)
    ensures Cut(points, t, m) && UpTo(points, t) == points[..m] && Later(points, t) == points[m..]
    ensures m > 0 ==> UpTo(points, t) != [] && UpTo(points, t)[|UpTo(points, t)| - 1] == points[m - 1]
    ensures m == 0 ==> UpTo(points, t) == []
  {
    hide UpTo, Later;
    assert m > 0 ==> points[..m][m - 1] == points[m - 1];
  }

  lemma HistoryRecovers(points: seq<Point>, f: Fault, role: Role, m: nat)
    requires f.Fault? && Cut(points, f.observedS, m) && Regular(points, role) && f.pre != f.replacement
    requires f.recoveryS >= 0.0 && m > 0 && points[m - 1].At(role).identity == f.pre
    requires TookOver(f, role, points[m - 1].At(role), points[m..])
    ensures exists k :: Recovers(points, f, role, k)
  {
    hide Regular, TakesOver, Recovers;
    var k :| 0 <= k < |points[m..]| && TakesOver(f, role, points[m - 1].At(role), points[m..], k);
    TakesOverRecovers(points, f, role, m, k);
  }

  lemma RecoversHistory(points: seq<Point>, f: Fault, role: Role, m: nat, k: int)
    requires f.Fault? && f.pre != f.replacement && f.recoveryS >= 0.0 && Regular(points, role)
    requires Cut(points, f.observedS, m) && Recovers(points, f, role, k)
    ensures 0 < m <= |points| && points[m - 1].At(role).identity == f.pre
    ensures TookOver(f, role, points[m - 1].At(role), points[m..])
  {
    Sees(points, f, role, k);
    var a := LastBefore(points, f, role, m, k);
    hide Regular, TakesOver, Recovers, Cut;
    TakesOverRecovers(points, f, role, m, k - m);
    assert TakesOver(f, role, points[m - 1].At(role), points[m..], k - m);
  }

  /** The record is borne out by the samples exactly when its replacement is seen to take over. */
  lemma HistoryMeans(points: seq<Point>, f: Fault, role: Role)
    requires Rising(points) && Regular(points, role)
    requires f.Fault? && f.target == Some(role) && f.pre != f.replacement && f.recoveryS >= 0.0
    ensures HistoryOk(f, points) <==> exists k :: Recovers(points, f, role, k)
  {
    var m := TimeSplits(points, f.observedS);
    BeforeAndAfter(points, f.observedS, m);
    hide Regular, Rising, UpTo, Later, TookOver, Recovers, Cut, SplitsAt;
    if HistoryOk(f, points) {
      HistoryRecovers(points, f, role, m);
    }
    if k :| Recovers(points, f, role, k) {
      RecoversHistory(points, f, role, m, k);
    }
  }

  lemma Sees(points: seq<Point>, f: Fault, role: Role, k: int)
    requires f.Fault? && Recovers(points, f, role, k)
    ensures 0 < k < |points|
  {
  }

  lemma RecordsMean(points: seq<Point>, records: seq<Fault>, events: seq<Event>)
    requires Rising(points) && (forall role :: Regular(points, role)) && |records| == |events|
    ensures Recorded(points, records, events) <==>
            && (forall i :: 0 <= i < |records| ==> FaultOk(records[i], points))
            && forall i :: 0 <= i < |records| ==> OnSchedule(records[i], events[i])
  {
    hide Regular, Rising, Recovers, HistoryOk;
    forall i | 0 <= i < |records|
      ensures FaultOk(records[i], points) && OnSchedule(records[i], events[i]) <==>
              BorneOut(points, records[i], events[i])
    {
      SoundMeans(records[i], events[i]);
      if Sound(records[i], events[i]) {
        HistoryMeans(points, records[i], events[i].target);
      }
    }
    hide BorneOut, OnSchedule, FaultOk;
  }

  // ------------------------------------------------------------ restarts and records

  lemma RecoversRestarts(points: seq<Point>, f: Fault, role: Role, k: int)
    requires f.Fault? && Recovers(points, f, role, k)
    ensures IsRestart(points, role, k) && points[k - 1].At(role).identity == f.pre && Follows(points, k, f)
  {
    var a :| 0 <= a < k && points[a].elapsed <= f.observedS && Untouched(points, f, role, a, k);
    assert points[k - 1].At(role).identity == f.pre;
  }

  /** A record whose replacement is seen explains that restart and no other. */
  lemma ExplainsIts(points: seq<Point>, f: Fault, role: Role, k: int, j: nat)
    requires Regular(points, role) && f.Fault? && f.target == Some(role) && Recovers(points, f, role, k)
    requires IsRestart(points, role, j)
    ensures Explains(f, TransitionAt(points, role, j)) <==> j == k
    ensures Recovers(points, f, role, j) <==> j == k
  {
    RecoversRestarts(points, f, role, k);
    if j < k {
      ArrivalsDiffer(points, role, j, k);
    } else if k < j {
      ArrivalsDiffer(points, role, k, j);
    }
    hide Regular;
  }

  lemma InList(points: seq<Point>, role: Role, k: nat) returns (i: nat)
    requires IsRestart(points, role, k)
    ensures i < |Transitions(points, role)| && Transitions(points, role)[i] == TransitionAt(points, role, k)
  {
    TransitionsMembers(points, role);
    hide Transitions;
    var ts, t := Transitions(points, role), TransitionAt(points, role, k);
    assert Records(points, role, t) && t in ts;
    i :| 0 <= i < |ts| && ts[i] == t;
  }

  lemma OfList(points: seq<Point>, role: Role, i: nat) returns (k: nat)
    requires i < |Transitions(points, role)|
    ensures IsRestart(points, role, k) && Transitions(points, role)[i] == TransitionAt(points, role, k)
  {
    TransitionsMembers(points, role);
    hide Transitions;
    assert Transitions(points, role)[i] in Transitions(points, role);
    k := Transitions(points, role)[i].index;
  }

  /** The only restart that q holds of. */
  ghost predicate OnlyRestart(points: seq<Point>, role: Role, q: Transition -> bool, k: nat) {
    && IsRestart(points, role, k) && q(TransitionAt(points, role, k))
    && forall j: nat :: IsRestart(points, role, j) && q(TransitionAt(points, role, j)) ==> j == k
  }

  lemma UniqueIsOnly(points: seq<Point>, role: Role, q: Transition -> bool) returns (k: nat)
    requires UniqueIndex(Transitions(points, role), q)
    ensures OnlyRestart(points, role, q, k)
  {
    hide Transitions, TransitionAt;
    var ts := Transitions(points, role);
    var i :| 0 <= i < |ts| && q(ts[i]) && forall n :: 0 <= n < |ts| && q(ts[n]) ==> n == i;
    k := OfList(points, role, i);
    forall j: nat | IsRestart(points, role, j) && q(TransitionAt(points, role, j)) ensures j == k {
      var n := InList(points, role, j);
      assert n == i;
      IndexOf(points, role, j);
      IndexOf(points, role, k);
    }
  }

  lemma IndexOf(points: seq<Point>, role: Role, k: nat)
    requires IsRestart(points, role, k)
    ensures TransitionAt(points, role, k).index == k
  {
  }

  lemma OnlyIsUnique(points: seq<Point>, role: Role, q: Transition -> bool, k: nat)
    requires OnlyRestart(points, role, q, k)
    ensures UniqueIndex(Transitions(points, role), q)
  {
    TransitionsOrdered(points, role);
    hide Transitions, TransitionAt;
    var ts := Transitions(points, role);
    var i := InList(points, role, k);
    forall n | 0 <= n < |ts| && q(ts[n]) ensures n == i {
      var j := OfList(points, role, n);
      assert ts[n] == ts[i];
    }
  }

  lemma {:induction false} FilterCount<T>(s: seq<T>, keep: T -> bool, p: T -> bool)
    requires forall x :: p(x) ==> keep(x)
    ensures Count(Filter(s, keep), p) == Count(s, p)
  {
    if s != [] {
      var rest := Filter(s[1..], keep);
      FilterCount(s[1..], keep, p);
      if keep(s[0]) {
        assert Filter(s, keep) == [s[0]] + rest && ([s[0]] + rest)[1..] == rest;
      } else {
        assert Filter(s, keep) == rest;
      }
    }
  }

  /** A match among the engine records is a match among all of them. */
  lemma EngineUnique(records: seq<Fault>, t: Transition)
    ensures UniqueIndex(Filter(records, EngineFault), AccompaniedBy(t)) <==> UniqueIndex(records, AccompaniedBy(t))
  {
    FilterCount(records, EngineFault, AccompaniedBy(t));
    CountOne(Filter(records, EngineFault), AccompaniedBy(t));
    CountOne(records, AccompaniedBy(t));
  }

  lemma BridgeAccompanied(points: seq<Point>, records: seq<Fault>, k: int)
    requires IsRestart(points, Bridge, k)
    ensures UniqueIndex(Filter(records, EngineFault), AccompaniedBy(TransitionAt(points, Bridge, k)))
            <==> Accompanied(points, records, k)
  {
    var t := TransitionAt(points, Bridge, k);
    EngineUnique(records, t);
    forall i | 0 <= i < |records| ensures AccompaniedBy(t)(records[i]) <==> Escorts(points, records, k, i) {}
    hide Follows;
    if UniqueIndex(records, AccompaniedBy(t)) {
      var i :| 0 <= i < |records| && AccompaniedBy(t)(records[i])
               && forall j :: 0 <= j < |records| && AccompaniedBy(t)(records[j]) ==> j == i;
      assert Escorts(points, records, k, i);
    }
  }

  lemma BridgeFollows(points: seq<Point>, f: Fault)
    requires EngineFault(f)
    ensures UniqueIndex(BridgeTransitions(points), Accompanying(f)) <==> BridgeReplaced(points, f)
  {
    BridgeFiltered(points);
    forall k: nat | IsRestart(points, Bridge, k)
      ensures Accompanying(f)(TransitionAt(points, Bridge, k)) <==> Follows(points, k, f) {}
    hide Accompanying, Follows, TransitionAt, BridgeTransitions;
    if UniqueIndex(BridgeTransitions(points), Accompanying(f)) {
      var k := UniqueIsOnly(points, Bridge, Accompanying(f));
      assert IsRestart(points, Bridge, k) && Follows(points, k, f);
    }
    if BridgeReplaced(points, f) {
      var k :| IsRestart(points, Bridge, k) && Follows(points, k, f) &&
               forall j :: IsRestart(points, Bridge, j) && Follows(points, j, f) ==> j == k;
      OnlyIsUnique(points, Bridge, Accompanying(f), k);
    }
  }

  // ------------------------------------------------------------ the whole ledger

  lemma RecordTold(points: seq<Point>, records: seq<Fault>, events: seq<Event>, i: int) returns (k: int)
    requires Recorded(points, records, events) && 0 <= i < |records|
    ensures records[i].Fault? && records[i].target == Some(events[i].target)
    ensures Recovers(points, records[i], events[i].target, k)
  {
    assert BorneOut(points, records[i], events[i]);
    k :| Recovers(points, records[i], events[i].target, k);
  }

  lemma ExplainsTells(points: seq<Point>, records: seq<Fault>, events: seq<Event>, role: Role, k: nat, i: int)
    requires Recorded(points, records, events) && Regular(points, role) && IsRestart(points, role, k)
    requires 0 <= i < |records|
    ensures ExplainedBy(TransitionAt(points, role, k))(records[i]) <==> Tells(points, records, role, k, i)
  {
    var j := RecordTold(points, records, events, i);
    hide Recovers, Regular, BorneOut;
    if events[i].target == role {
      ExplainsIts(points, records[i], role, j, k);
    }
  }

  lemma RestartTold(points: seq<Point>, records: seq<Fault>, events: seq<Event>, role: Role, k: nat)
    requires Recorded(points, records, events) && Regular(points, role) && IsRestart(points, role, k)
    ensures UniqueIndex(records, ExplainedBy(TransitionAt(points, role, k))) <==> ToldOnce(points, records, role, k)
  {
    var p := ExplainedBy(TransitionAt(points, role, k));
    forall i | 0 <= i < |records| ensures p(records[i]) <==> Tells(points, records, role, k, i) {
      ExplainsTells(points, records, events, role, k, i);
    }
    assert forall i :: Tells(points, records, role, k, i) ==> 0 <= i < |records|;
    hide Recorded, Regular, Tells, ExplainedBy;
    if UniqueIndex(records, p) {
      var i :| 0 <= i < |records| && p(records[i]) && forall j :: 0 <= j < |records| && p(records[j]) ==> j == i;
      assert Tells(points, records, role, k, i);
    }
  }

  lemma PairedTold(points: seq<Point>, records: seq<Fault>, events: seq<Event>, role: Role)
    requires Recorded(points, records, events) && Regular(points, role)
    ensures EachPaired(Transitions(points, role), records, ExplainedBy) <==> AllTold(points, records, role)
  {
    var ts := Transitions(points, role);
    hide Recorded, Regular, Transitions, UniqueIndex, ToldOnce, ExplainedBy;
    if EachPaired(ts, records, ExplainedBy) {
      forall k | IsRestart(points, role, k) ensures ToldOnce(points, records, role, k) {
        var i := InList(points, role, k);
        assert UniqueIndex(records, ExplainedBy(ts[i]));
        RestartTold(points, records, events, role, k);
      }
    }
    if AllTold(points, records, role) {
      forall i | 0 <= i < |ts| ensures UniqueIndex(records, ExplainedBy(ts[i])) {
        var k := OfList(points, role, i);
        RestartTold(points, records, events, role, k);
      }
    }
  }

  lemma PairedConcat(a: seq<Transition>, b: seq<Transition>, records: seq<Fault>, p: Transition -> (Fault -> bool))
    ensures EachPaired(a + b, records, p) <==> EachPaired(a, records, p) && EachPaired(b, records, p)
  {
    hide UniqueIndex;
    if EachPaired(a + b, records, p) {
      assert forall i :: 0 <= i < |a| ==> a[i] == (a + b)[i];
      assert forall i :: 0 <= i < |b| ==> b[i] == (a + b)[|a| + i];
    }
  }

  lemma RolesTold(points: seq<Point>, records: seq<Fault>, events: seq<Event>)
    requires Recorded(points, records, events) && Regular(points, Engine) && Regular(points, Assistant)
    ensures EachPaired(RoleTransitions(points), records, ExplainedBy) <==>
            AllTold(points, records, Engine) && AllTold(points, records, Assistant)
  {
    FaultableFiltered(points);
    PairedConcat(Transitions(points, Engine), Transitions(points, Assistant), records, ExplainedBy);
    PairedTold(points, records, events, Engine);
    PairedTold(points, records, events, Assistant);
    hide EachPaired, AllTold, Regular, Recorded;
  }

  lemma RestartFaulted(points: seq<Point>, role: Role, k: nat)
    requires Faultable(role) && IsRestart(points, role, k)
    ensures TransitionAt(points, role, k) in Faulted(points)
  {
    TransitionsMembers(points, role);
    assert Records(points, role, TransitionAt(points, role, k));
    hide Transitions;
  }

  /** A record's restart is the one it explains. */
  lemma RecordPartner(points: seq<Point>, records: seq<Fault>, events: seq<Event>, i: int)
    requires Recorded(points, records, events) && Regular(points, Engine) && Regular(points, Assistant)
    requires 0 <= i < |records| && Faultable(events[i].target)
    ensures exists t :: Copartner(Faulted(points), ExplainedAt(records), t, i)
  {
    assert |records| == |events|;
    hide *;
    var role := events[i].target;
    var k := RecordTold(points, records, events, i);
    RecoversRestarts(points, records[i], role, k);
    RegularRole(points, role);
    Moved(points, role, k);
    ExplainsIts(points, records[i], role, k, k);
    RestartFaulted(points, role, k);
    NoSharedExplanation(points, records);
    OnlyPartner(points, records, TransitionAt(points, role, k), i);
  }

  lemma Moved(points: seq<Point>, role: Role, k: int)
    requires IsRestart(points, role, k)
    ensures 0 < k < |points|
  {
  }

  lemma RegularRole(points: seq<Point>, role: Role)
    requires Regular(points, Engine) && Regular(points, Assistant) && Faultable(role)
    ensures Regular(points, role)
  {
  }

  lemma OnlyPartner(points: seq<Point>, records: seq<Fault>, t: Transition, i: int)
    requires 0 <= i < |records| && t in Faulted(points) && Explains(records[i], t)
    requires NeverShared(Faulted(points), Below(|records|), ExplainedAt(records))
    ensures exists t :: Copartner(Faulted(points), ExplainedAt(records), t, i)
  {
    hide Faulted, Explains;
    assert i in Below(|records|) && ExplainedAt(records)(t, i);
    assert Copartner(Faulted(points), ExplainedAt(records), t, i);
  }

  lemma TellsPartner(points: seq<Point>, records: seq<Fault>, events: seq<Event>, t: Transition)
    requires Recorded(points, records, events) && Regular(points, Engine) && Regular(points, Assistant)
    requires AllTold(points, records, Engine) && AllTold(points, records, Assistant) && t in Faulted(points)
    ensures exists i :: Partner(Below(|records|), ExplainedAt(records), t, i)
  {
    TransitionsMembers(points, Engine);
    TransitionsMembers(points, Assistant);
    hide Regular, Recorded, Transitions, ToldOnce;
    var role, k := t.role, t.index;
    assert (role == Engine || role == Assistant) && Records(points, role, t);
    RestartTold(points, records, events, role, k);
    ExplainedOnce(records, t);
  }

  /** Then there are as many restarts as records. */
  lemma EqualNumbers(points: seq<Point>, records: seq<Fault>, events: seq<Event>)
    requires Recorded(points, records, events) && Regular(points, Engine) && Regular(points, Assistant)
    requires AllTold(points, records, Engine) && AllTold(points, records, Assistant) && ValidEvents(events)
    ensures |RoleTransitions(points)| == |records|
  {
    hide Regular, AllTold, BorneOut, Faulted;
    forall t | t in Faulted(points) ensures exists i :: Partner(Below(|records|), ExplainedAt(records), t, i) {
      TellsPartner(points, records, events, t);
    }
    forall i | i in Below(|records|) ensures exists t :: Copartner(Faulted(points), ExplainedAt(records), t, i) {
      RecordPartner(points, records, events, i);
    }
    OneToOneSizes(Faulted(points), Below(|records|), ExplainedAt(records));
    FaultedSize(points);
  }

  lemma LauncherMeans(points: seq<Point>)
    ensures (forall t :: t in AllTransitions(points) ==> t.role != Launcher) <==> NeverRestarts(points, Launcher)
  {
    ByRole(points, Engine);
    ByRole(points, Bridge);
    ByRole(points, Assistant);
    TransitionsMembers(points, Launcher);
    if k :| IsRestart(points, Launcher, k) {
      assert Records(points, Launcher, TransitionAt(points, Launcher, k));
      assert TransitionAt(points, Launcher, k) in AllTransitions(points);
    }
    hide Transitions;
  }

  lemma BridgesMean(points: seq<Point>, records: seq<Fault>)
    ensures EachPaired(BridgeTransitions(points), Filter(records, EngineFault), AccompaniedBy) <==>
            BridgesAccompanied(points, records)
  {
    BridgeFiltered(points);
    var ts, faults := Transitions(points, Bridge), Filter(records, EngineFault);
    hide Transitions, BridgeTransitions, UniqueIndex, Accompanied, AccompaniedBy;
    if EachPaired(ts, faults, AccompaniedBy) {
      forall k | IsRestart(points, Bridge, k) ensures Accompanied(points, records, k) {
        var i := InList(points, Bridge, k);
        assert UniqueIndex(faults, AccompaniedBy(ts[i]));
        BridgeAccompanied(points, records, k);
      }
    }
    if BridgesAccompanied(points, records) {
      forall i | 0 <= i < |ts| ensures UniqueIndex(faults, AccompaniedBy(ts[i])) {
        var k := OfList(points, Bridge, i);
        BridgeAccompanied(points, records, k);
      }
    }
  }

  lemma EnginesMean(points: seq<Point>, records: seq<Fault>)
    ensures EachAccompanied(Filter(records, EngineFault), BridgeTransitions(points)) <==>
            BridgesReplaced(points, records)
  {
    var faults := Filter(records, EngineFault);
    FilterMembers(records, EngineFault);
    hide BridgeTransitions, BridgeReplaced, UniqueIndex;
    forall f | EngineFault(f)
      ensures UniqueIndex(BridgeTransitions(points), Accompanying(f)) <==> BridgeReplaced(points, f)
    {
      BridgeFollows(points, f);
    }
    if EachAccompanied(faults, BridgeTransitions(points)) {
      forall i | 0 <= i < |records| && records[i].Fault? && records[i].target == Some(Engine)
        ensures BridgeReplaced(points, records[i])
      {
        assert records[i] in faults;
        var j :| 0 <= j < |faults| && faults[j] == records[i];
        assert UniqueIndex(BridgeTransitions(points), Accompanying(faults[j]));
      }
    }
    if BridgesReplaced(points, records) {
      forall j | 0 <= j < |faults| ensures UniqueIndex(BridgeTransitions(points), Accompanying(faults[j])) {
        assert faults[j] in faults;
        var i :| 0 <= i < |records| && records[i] == faults[j];
      }
    }
  }

  lemma AllFaultable(points: seq<Point>, records: seq<Fault>, events: seq<Event>)
    requires Recorded(points, records, events) && ValidEvents(events)
    ensures Filter(records, FaultableTarget) == records
  {
    forall f | f in records ensures FaultableTarget(f) {
      var i :| 0 <= i < |records| && records[i] == f;
      var k := RecordTold(points, records, events, i);
    }
    FilterAll(records, FaultableTarget);
  }

  /** With a regular series, the fault validator accepts exactly the ledgers that tell its story. */
  lemma LedgerTellsStory(samples: seq<Sample>, durationS: real, records: seq<Fault>, events: seq<Event>)
    requires SeriesAccepted(samples, durationS) && ValidEvents(events)
    ensures FaultsAccepted(records, events, Timeline(samples)) <==> Story(Timeline(samples), records, events)
  {
    var points := Timeline(samples);
    TimelineRises(samples);
    forall role ensures Regular(points, role) {
      RegularTimeline(samples, durationS, role);
    }
    hide SeriesAccepted, Regular, Rising, Timeline, FaultOk, OnSchedule, BorneOut;
    StoryMeans(points, records, events);
  }

  lemma CorrelationMeans(points: seq<Point>, records: seq<Fault>, events: seq<Event>)
    requires Regular(points, Engine) && Regular(points, Assistant)
    requires Recorded(points, records, events) && ValidEvents(events)
    ensures Correlated(records, points) <==>
            && AllTold(points, records, Engine) && AllTold(points, records, Assistant)
            && BridgesAccompanied(points, records) && BridgesReplaced(points, records)
  {
    BridgesMean(points, records);
    EnginesMean(points, records);
    AllFaultable(points, records, events);
    RolesTold(points, records, events);
    if AllTold(points, records, Engine) && AllTold(points, records, Assistant) {
      EqualNumbers(points, records, events);
    }
    hide Regular, Recorded, EachPaired, EachAccompanied, BridgesAccompanied, BridgesReplaced, AllTold,
         BridgeTransitions, RoleTransitions;
  }

  lemma StoryMeans(points: seq<Point>, records: seq<Fault>, events: seq<Event>)
    requires Rising(points) && (forall role :: Regular(points, role)) && ValidEvents(events)
    ensures FaultsAccepted(records, events, points) <==> Story(points, records, events)
  {
    LauncherMeans(points);
    if |records| == |events| {
      RecordsMean(points, records, events);
      assert Regular(points, Engine) && Regular(points, Assistant);
      if Recorded(points, records, events) {
        CorrelationMeans(points, records, events);
      }
    }
    hide Regular, Rising, FaultOk, OnSchedule, BorneOut, Correlated, BridgesAccompanied, BridgesReplaced,
         NeverRestarts, AllTold, AllTransitions;
  }
}
