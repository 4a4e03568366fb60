/** The sample-series validator of the soak qualification: four supervised roles are
    sampled every few seconds, and each sample carries the role's process identity
    and its restart epoch.

    JSON is read at the level the validator reads it. A value that is not a finite
    number is None; a role entry whose key set or integer fields are wrong is
    Incomplete; times are reals. */
module SoakSeries {
  import opened Counting

  datatype Role = Launcher | Engine | Bridge | Assistant

  const ROLES: seq<Role> := [Launcher, Engine, Bridge, Assistant]
  const SAMPLE_INTERVAL_S: real := 5.0
  const MAX_CADENCE_GAP_S: real := 7.5

  datatype Identity = Identity(pid: int, startedNs: int)

  datatype RoleRecord = RoleRecord(identity: Identity, epoch: int, rssBytes: int, threads: int, descriptors: int)

  datatype Entry = Incomplete | Complete(record: RoleRecord)

  datatype Row = Row(launcher: Entry, engine: Entry, bridge: Entry, assistant: Entry) {
    function At(role: Role): Entry {
      match role
      case Launcher => launcher
      case Engine => engine
      case Bridge => bridge
      case Assistant => assistant
    }
  }

  datatype Sample = Sample(exactFields: bool, elapsed: Option<real>, wallTimeAware: bool, roles: Option<Row>)

  datatype SeriesError =
    | InsufficientSamples
    | InexactFields(sample: nat)
    | InvalidElapsed(sample: nat)
    | NotMonotonic(sample: nat)
    | CadenceGap(sample: nat)
    | LacksRoles(sample: nat)
    | IncompleteSchema(sample: nat, role: Role)
    | InvalidField(sample: nat, role: Role)
    | IdentityChanged(sample: nat, role: Role)
    | InvalidEpochStep(sample: nat, role: Role)
    | InvalidWallTime(sample: nat)
    | StartupUncovered
    | DurationUncovered
    | IdentityReused(role: Role)

  // ---------------------------------------------------------------- specification

  predicate ValidRecord(r: RoleRecord) {
    && r.identity.pid > 0 && r.identity.startedNs > 0
    && r.epoch >= 0 && r.rssBytes >= 0 && r.threads >= 0 && r.descriptors >= 0
  }

  /** One role's history: valid records, epochs that stay or advance by one, and one
      identity per epoch. */
  ghost predicate RunOk(h: seq<RoleRecord>) {
    && (forall i :: 0 <= i < |h| ==> ValidRecord(h[i]))
    && (forall i, j :: 0 <= i < |h| && 0 <= j < |h| && j == i + 1 ==> h[i].epoch <= h[j].epoch <= h[i].epoch + 1)
    && (forall i, j :: 0 <= i < |h| && 0 <= j < |h| && h[i].epoch == h[j].epoch ==> h[i].identity == h[j].identity)
  }

  ghost predicate HasEpoch(h: seq<RoleRecord>, e: int) {
    exists i :: 0 <= i < |h| && h[i].epoch == e
  }

  ghost predicate Seen(h: seq<RoleRecord>, id: Identity, e: int) {
    exists i :: 0 <= i < |h| && h[i].identity == id && h[i].epoch == e
  }

  /** No identity appears in two epochs. */
  ghost predicate NeverReused(h: seq<RoleRecord>) {
    forall i, j :: 0 <= i < |h| && 0 <= j < |h| && h[i].identity == h[j].identity ==> h[i].epoch == h[j].epoch
  }

  ghost predicate SampleOk(s: Sample) {
    && s.exactFields && s.wallTimeAware && s.roles.Some?
    && s.elapsed.Some? && s.elapsed.value >= 0.0
  }

  ghost predicate EntriesComplete(samples: seq<Sample>, role: Role) {
    forall i :: 0 <= i < |samples| ==> samples[i].roles.Some? && samples[i].roles.value.At(role).Complete?
  }

  /** The records of one role, in sample order. */
  function Column(samples: seq<Sample>, role: Role): (h: seq<RoleRecord>)
    requires EntriesComplete(samples, role)
    ensures |h| == |samples|
    ensures forall i :: 0 <= i < |h| ==> h[i] == samples[i].roles.value.At(role).record
  {
    seq(|samples|, i requires 0 <= i < |samples| => samples[i].roles.value.At(role).record)
  }

  ghost predicate RoleOk(samples: seq<Sample>, role: Role) {
    EntriesComplete(samples, role) && RunOk(Column(samples, role))
  }

  ghost predicate SamplesOk(samples: seq<Sample>) {
    forall i :: 0 <= i < |samples| ==> SampleOk(samples[i])
  }

  ghost predicate InCadence(a: Sample, b: Sample)
    requires SampleOk(a) && SampleOk(b)
  {
    a.elapsed.value < b.elapsed.value <= a.elapsed.value + MAX_CADENCE_GAP_S
  }

  ghost predicate RowsOk(samples: seq<Sample>) {
    && SamplesOk(samples)
    && (forall i, j :: 0 <= i < |samples| && 0 <= j < |samples| && j == i + 1 ==> InCadence(samples[i], samples[j]))
    && forall role :: RoleOk(samples, role)
  }

  ghost predicate SeriesAccepted(samples: seq<Sample>, durationS: real) {
    && |samples| >= 2
    && RowsOk(samples)
    && (forall role :: RoleOk(samples, role) && NeverReused(Column(samples, role)))
    && samples[0].elapsed.value <= SAMPLE_INTERVAL_S
    && samples[|samples| - 1].elapsed.value >= durationS - SAMPLE_INTERVAL_S
  }

  lemma RowsOkPrefix(samples: seq<Sample>, n: nat)
    requires n <= |samples| && RowsOk(samples)
    ensures RowsOk(samples[..n])
  {
    var p := samples[..n];
    forall role ensures RoleOk(p, role) {
      assert RoleOk(samples, role);
      assert EntriesComplete(p, role);
      assert Column(p, role) == Column(samples, role)[..n];
    }
  }

  // ---------------------------------------------------------------- the validator

  /** The validator's dictionaries: the identity first seen in each epoch, the epochs
      seen under each identity, and each role's latest epoch. */
  datatype Tables = Tables(byEpoch: map<(Role, int), Identity>, byIdentity: map<(Role, Identity), set<int>>,
                           prior: map<Role, int>)
  {
    /** setdefault, set-add and assignment for one more record. */
    function Add(role: Role, r: RoleRecord): Tables {
      var known := if (role, r.identity) in byIdentity then byIdentity[(role, r.identity)] else {};
      Tables(if (role, r.epoch) in byEpoch then byEpoch else byEpoch[(role, r.epoch) := r.identity],
             byIdentity[(role, r.identity) := known + {r.epoch}],
             prior[role := r.epoch])
    }

    predicate Admits(role: Role, r: RoleRecord) {
      && ((role, r.epoch) in byEpoch ==> byEpoch[(role, r.epoch)] == r.identity)
      && (role in prior ==> prior[role] <= r.epoch <= prior[role] + 1)
    }

    predicate Bound(role: Role, id: Identity, e: int) {
      (role, id) in byIdentity && e in byIdentity[(role, id)]
    }

    /** About one role the tables say exactly what its history says. */
    ghost predicate Tracks(role: Role, h: seq<RoleRecord>) {
      && (forall e :: (role, e) in byEpoch <==> HasEpoch(h, e))
      && (forall i :: 0 <= i < |h| ==> (role, h[i].epoch) in byEpoch && byEpoch[(role, h[i].epoch)] == h[i].identity)
      && (forall id, e :: Bound(role, id, e) <==> Seen(h, id, e))
      && (role in prior <==> h != [])
      && (h != [] ==> prior[role] == h[|h| - 1].epoch)
    }
  }

  lemma RunConcat(h: seq<RoleRecord>, r: RoleRecord)
    ensures RunOk(h + [r]) <==>
            && RunOk(h) && ValidRecord(r)
            && (h != [] ==> h[|h| - 1].epoch <= r.epoch <= h[|h| - 1].epoch + 1)
            && forall i :: 0 <= i < |h| && h[i].epoch == r.epoch ==> h[i].identity == r.identity
  {
    var g := h + [r];
    assert g[|h|] == r;
    assert forall i :: 0 <= i < |h| ==> g[i] == h[i];
    if RunOk(g) {
      assert h != [] ==> g[|h| - 1].epoch <= g[|h|].epoch <= g[|h| - 1].epoch + 1;
      assert forall i :: 0 <= i < |h| && g[i].epoch == g[|h|].epoch ==> g[i].identity == g[|h|].identity;
      forall i | 0 <= i < |h| ensures ValidRecord(h[i]) { assert ValidRecord(g[i]); }
      forall i, j | 0 <= i < |h| && 0 <= j < |h| && j == i + 1 ensures h[i].epoch <= h[j].epoch <= h[i].epoch + 1 {
        assert g[i] == h[i] && g[j] == h[j];
      }
    }
  }

  lemma RunAppend(role: Role, h: seq<RoleRecord>, r: RoleRecord, t: Tables)
    requires RunOk(h) && t.Tracks(role, h)
    ensures RunOk(h + [r]) <==> ValidRecord(r) && t.Admits(role, r)
  {
    RunConcat(h, r);
    if (role, r.epoch) in t.byEpoch {
      assert HasEpoch(h, r.epoch);
    }
  }

  lemma Appended(h: seq<RoleRecord>, r: RoleRecord)
    ensures forall e :: HasEpoch(h + [r], e) <==> HasEpoch(h, e) || e == r.epoch
    ensures forall id, e :: Seen(h + [r], id, e) <==> Seen(h, id, e) || (id == r.identity && e == r.epoch)
  {
    var g := h + [r];
    assert g[|h|] == r && forall i :: 0 <= i < |h| ==> g[i] == h[i];
    forall e | HasEpoch(h, e) ensures HasEpoch(g, e) {
      var i :| 0 <= i < |h| && h[i].epoch == e;
      assert g[i].epoch == e;
    }
    forall id, e | Seen(h, id, e) ensures Seen(g, id, e) {
      var i :| 0 <= i < |h| && h[i].identity == id && h[i].epoch == e;
      assert g[i].identity == id && g[i].epoch == e;
    }
  }

  lemma TracksAppend(role: Role, h: seq<RoleRecord>, r: RoleRecord, t: Tables)
    requires t.Tracks(role, h) && t.Admits(role, r)
    ensures t.Add(role, r).Tracks(role, h + [r])
  {
    Appended(h, r);
    var u := t.Add(role, r);
    assert forall id, e :: u.Bound(role, id, e) <==> t.Bound(role, id, e) || (id == r.identity && e == r.epoch);
  }

  lemma TracksOther(role: Role, other: Role, h: seq<RoleRecord>, r: RoleRecord, t: Tables)
    requires role != other && t.Tracks(other, h)
    ensures t.Add(role, r).Tracks(other, h)
  {
    var u := t.Add(role, r);
    assert forall e :: (other, e) in u.byEpoch <==> (other, e) in t.byEpoch;
    assert forall id, e :: u.Bound(other, id, e) <==> t.Bound(other, id, e);
  }

  ghost predicate RoleOkTo(samples: seq<Sample>, role: Role, n: nat)
    requires n <= |samples|
  {
    RoleOk(samples[..n], role)
  }

  ghost predicate AllOkTo(samples: seq<Sample>, n: nat)
    requires n <= |samples|
  {
    forall role :: RoleOkTo(samples, role, n)
  }

  /** The first n samples are in order for this role and the tables agree with them. */
  ghost predicate Ready(samples: seq<Sample>, role: Role, n: nat, t: Tables)
    requires n <= |samples|
  {
    RoleOkTo(samples, role, n) && t.Tracks(role, Column(samples[..n], role))
  }

  ghost predicate AllReady(samples: seq<Sample>, n: nat, t: Tables)
    requires n <= |samples|
  {
    forall role :: Ready(samples, role, n, t)
  }

  lemma RoleStep(samples: seq<Sample>, i: nat, role: Role, t: Tables)
    requires i < |samples| && samples[i].roles.Some? && Ready(samples, role, i, t)
    ensures var entry := samples[i].roles.value.At(role);
            && (RoleOkTo(samples, role, i + 1) <==>
                entry.Complete? && ValidRecord(entry.record) && t.Admits(role, entry.record))
            && (RoleOkTo(samples, role, i + 1) ==> Ready(samples, role, i + 1, t.Add(role, entry.record)))
  {
    var entry := samples[i].roles.value.At(role);
    ColumnStep(samples, i, role);
    if entry.Complete? {
      RunAppend(role, Column(samples[..i], role), entry.record, t);
      if t.Admits(role, entry.record) {
        TracksAppend(role, Column(samples[..i], role), entry.record, t);
      }
    }
  }

  /** One role entry of one sample, folded into the tables. */
  method CheckRole(sample: nat, role: Role, entry: Entry, tables: Tables)
    returns (errors: seq<SeriesError>, tables': Tables)
    ensures errors == [] <==> entry.Complete? && ValidRecord(entry.record) && tables.Admits(role, entry.record)
    ensures errors == [] ==> tables' == tables.Add(role, entry.record)
  {
    errors, tables' := [], tables;
    if entry.Incomplete? {
      errors := [IncompleteSchema(sample, role)];
      return;
    }
    var record := entry.record;
    var epoch, identity := record.epoch, record.identity;
    if !ValidRecord(record) {
      errors := errors + [InvalidField(sample, role)];
    }
    if identity.pid >= 0 && identity.startedNs >= 0 && epoch >= 0 {
      tables' := tables.Add(role, record);
      if tables'.byEpoch[(role, epoch)] != identity {
        errors := errors + [IdentityChanged(sample, role)];
      }
      var last := if role in tables.prior then tables.prior[role] else epoch;
      if epoch < last || epoch > last + 1 {
        errors := errors + [InvalidEpochStep(sample, role)];
      }
    }
  }

  /** The first k roles have been folded with sample i, the others have not. */
  ghost predicate PartlyReady(samples: seq<Sample>, i: nat, k: nat, t: Tables)
    requires i < |samples|
  {
    forall j :: 0 <= j < |ROLES| ==> Ready(samples, ROLES[j], if j < k then i + 1 else i, t)
  }

  lemma ReadyOther(samples: seq<Sample>, role: Role, other: Role, n: nat, t: Tables, r: RoleRecord)
    requires n <= |samples| && role != other && Ready(samples, other, n, t)
    ensures Ready(samples, other, n, t.Add(role, r))
  {
    TracksOther(role, other, Column(samples[..n], other), r, t);
  }

  lemma PartlyStep(samples: seq<Sample>, i: nat, k: nat, t: Tables, r: RoleRecord)
    requires i < |samples| && k < |ROLES| && PartlyReady(samples, i, k, t)
    requires Ready(samples, ROLES[k], i + 1, t.Add(ROLES[k], r))
    ensures PartlyReady(samples, i, k + 1, t.Add(ROLES[k], r))
  {
    hide Ready;
    forall j | 0 <= j < |ROLES| ensures Ready(samples, ROLES[j], if j < k + 1 then i + 1 else i, t.Add(ROLES[k], r)) {
      if j != k {
        ReadyOther(samples, ROLES[k], ROLES[j], if j < k then i + 1 else i, t, r);
      }
    }
  }

  /** The four roles of one sample. When everything before was clean, the errors are
      empty exactly when every role's history stays well formed. */
  method CheckRoles(samples: seq<Sample>, i: nat, row: Row, tables: Tables, ghost clean: bool)
    returns (errors: seq<SeriesError>, tables': Tables)
    requires i < |samples| && samples[i].roles == Some(row)
    requires clean ==> AllReady(samples, i, tables)
    ensures clean ==> (errors == [] <==> AllOkTo(samples, i + 1))
    ensures clean && errors == [] ==> AllReady(samples, i + 1, tables')
  {
    hide Ready, RoleOkTo, ValidRecord;
    errors, tables' := [], tables;
    var k := 0;
    while k < |ROLES|
      invariant 0 <= k <= |ROLES|
      invariant clean && errors == [] ==> PartlyReady(samples, i, k, tables')
      invariant clean && errors != [] ==> !AllOkTo(samples, i + 1)
    {
      ghost var before := tables';
      var found;
      found, tables' := CheckRole(i, ROLES[k], row.At(ROLES[k]), tables');
      if clean && errors == [] {
        assert Ready(samples, ROLES[k], i, before);
        RoleStep(samples, i, ROLES[k], before);
        assert AllOkTo(samples, i + 1) ==> RoleOkTo(samples, ROLES[k], i + 1);
        if found == [] {
          PartlyStep(samples, i, k, before, row.At(ROLES[k]).record);
        }
      }
      errors := errors + found;
      k := k + 1;
    }
    if clean && errors == [] {
      AllRolesReady(samples, i, tables');
    }
  }

  lemma AllRolesReady(samples: seq<Sample>, i: nat, t: Tables)
    requires i < |samples| && PartlyReady(samples, i, |ROLES|, t)
    ensures AllReady(samples, i + 1, t) && AllOkTo(samples, i + 1)
  {
    var n := i + 1;
    forall role ensures Ready(samples, role, n, t) && RoleOkTo(samples, role, n) {
      var j := match role case Launcher => 0 case Engine => 1 case Bridge => 2 case Assistant => 3;
      assert ROLES[j] == role;
    }
  }

  lemma ColumnStep(samples: seq<Sample>, i: nat, role: Role)
    requires i < |samples| && samples[i].roles.Some? && RoleOk(samples[..i], role)
    ensures samples[i].roles.value.At(role).Complete? <==> EntriesComplete(samples[..i + 1], role)
    ensures EntriesComplete(samples[..i + 1], role) ==>
              Column(samples[..i + 1], role) == Column(samples[..i], role) + [samples[i].roles.value.At(role).record]
  {
    var p, q := samples[..i], samples[..i + 1];
    assert forall j :: 0 <= j < i ==> q[j] == p[j] == samples[j];
    assert q[i] == samples[i];
  }

  ghost predicate NoRepeat(role: Role, t: Tables) {
    forall id :: (role, id) in t.byIdentity ==> |t.byIdentity[(role, id)]| <= 1
  }

  lemma ReuseVisible(role: Role, h: seq<RoleRecord>, t: Tables)
    requires t.Tracks(role, h)
    ensures NeverReused(h) <==> NoRepeat(role, t)
  {
    if NeverReused(h) {
      forall id | (role, id) in t.byIdentity ensures |t.byIdentity[(role, id)]| <= 1 {
        var s := t.byIdentity[(role, id)];
        forall e, f | e in s && f in s ensures e == f {
          assert t.Bound(role, id, e) && t.Bound(role, id, f);
          assert Seen(h, id, e) && Seen(h, id, f);
        }
        AtMostOne(s);
      }
    } else {
      var i, j :| 0 <= i < |h| && 0 <= j < |h| && h[i].identity == h[j].identity && h[i].epoch != h[j].epoch;
      assert Seen(h, h[i].identity, h[i].epoch) && Seen(h, h[i].identity, h[j].epoch);
      assert t.Bound(role, h[i].identity, h[i].epoch) && t.Bound(role, h[i].identity, h[j].epoch);
      var s := t.byIdentity[(role, h[i].identity)];
      assert {h[i].epoch, h[j].epoch} <= s;
      Subset({h[i].epoch, h[j].epoch}, s);
    }
  }

  lemma AtMostOne<T>(s: set<T>)
    requires forall x, y :: x in s && y in s ==> x == y
    ensures |s| <= 1
  {
    if s != {} {
      var x :| x in s;
      assert s == {x};
    }
  }

  lemma Subset<T>(a: set<T>, b: set<T>)
    requires a <= b
    ensures |a| <= |b|
  {
    assert b == a + (b - a);
  }

  /** The validator accepts exactly the series the specification accepts. */
  method ValidateSampleSeries(samples: seq<Sample>, durationS: real) returns (errors: seq<SeriesError>)
    ensures errors == [] <==> SeriesAccepted(samples, durationS)
  {
    errors := [];
    if |samples| < 2 {
      return [InsufficientSamples];
    }
    var previous: Option<real> := None;
    var tables := Tables(map[], map[], map[]);
    var i := 0;
    while i < |samples|
      invariant 0 <= i <= |samples|
      invariant errors == [] <==> RowsOk(samples[..i])
      invariant errors == [] ==> previous == if i == 0 then None else samples[i - 1].elapsed
      invariant errors == [] ==> AllReady(samples, i, tables)
    {
      var sample := samples[i];
      ghost var clean := errors == [];
      RowsStep(samples, i);
      i := i + 1;
      if !sample.exactFields {
        errors := errors + [InexactFields(i - 1)];
      }
      if sample.elapsed.None? || sample.elapsed.value < 0.0 {
        errors := errors + [InvalidElapsed(i - 1)];
        continue;
      }
      var elapsed := sample.elapsed.value;
      if previous.Some? {
        if elapsed <= previous.value {
          errors := errors + [NotMonotonic(i - 1)];
        } else if elapsed - previous.value > MAX_CADENCE_GAP_S {
          errors := errors + [CadenceGap(i - 1)];
        }
      }
      previous := Some(elapsed);
      if sample.roles.None? {
        errors := errors + [LacksRoles(i - 1)];
        continue;
      }
      var found;
      found, tables := CheckRoles(samples, i - 1, sample.roles.value, tables, clean);
      errors := errors + found;
      if !sample.wallTimeAware {
        errors := errors + [InvalidWallTime(i - 1)];
      }
    }
    assert samples[..i] == samples;
    ghost var clean := errors == [];
    var first, last := samples[0].elapsed, samples[|samples| - 1].elapsed;
    if first.Some? && first.value >= 0.0 && first.value > SAMPLE_INTERVAL_S {
      errors := errors + [StartupUncovered];
    }
    if last.Some? && last.value >= 0.0 && last.value < durationS - SAMPLE_INTERVAL_S {
      errors := errors + [DurationUncovered];
    }
    ghost var covered := errors == [];
    var keys := tables.byIdentity.Keys;
    while keys != {}
      invariant keys <= tables.byIdentity.Keys
      invariant errors == [] <==>
                covered && forall k :: k in tables.byIdentity && k !in keys ==> |tables.byIdentity[k]| <= 1
      decreases keys
    {
      var key :| key in keys;
      if |tables.byIdentity[key]| > 1 {
        errors := errors + [IdentityReused(key.0)];
      }
      keys := keys - {key};
    }
    if clean {
      forall role ensures RoleOk(samples, role) &&
                          (NeverReused(Column(samples, role)) <==> NoRepeat(role, tables))
      {
        assert Ready(samples, role, i, tables);
        ReuseVisible(role, Column(samples, role), tables);
      }
      forall k | k in tables.byIdentity && |tables.byIdentity[k]| > 1 ensures !NoRepeat(k.0, tables) {
        assert k == (k.0, k.1);
      }
    }
  }

  lemma RowsStep(samples: seq<Sample>, i: nat)
    requires i < |samples|
    ensures RowsOk(samples[..i + 1]) <==>
            && RowsOk(samples[..i])
            && SampleOk(samples[i])
            && (i > 0 ==> InCadence(samples[i - 1], samples[i]))
            && AllOkTo(samples, i + 1)
  {
    var p, q := samples[..i], samples[..i + 1];
    assert forall j :: 0 <= j < i ==> q[j] == p[j] == samples[j];
    assert q[i] == samples[i];
    if AllOkTo(samples, i + 1) {
      forall role ensures RoleOk(q, role) {
        assert RoleOkTo(samples, role, i + 1);
      }
    }
    if RowsOk(q) {
      RowsOkPrefix(q, i);
      assert q[..i] == p;
    }
  }
}
