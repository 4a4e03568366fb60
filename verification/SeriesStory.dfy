/** What an accepted sample series says about the run: the run was watched throughout, and each role
    was one process per epoch, none of which ever came back. */
module SeriesStory {
  import opened Counting
  import opened SoakSeries

  /** What a sample says about a role, if it says anything. */
  function Of(s: Sample, role: Role): RoleRecord {
    if s.roles.Some? && s.roles.value.At(role).Complete? then s.roles.value.At(role).record
    else RoleRecord(Identity(0, 0), 0, 0, 0, 0)
  }

  function TimeOf(s: Sample): real { if s.elapsed.Some? then s.elapsed.value else -1.0 }

  /** A complete entry with a positive identity and measurements that are not negative. */
  predicate Measured(s: Sample, role: Role) {
    && s.roles.Some? && s.roles.value.At(role).Complete?
    && var r := Of(s, role);
    && r.identity.pid > 0 && r.identity.startedNs > 0 && r.epoch >= 0
    && r.rssBytes >= 0 && r.threads >= 0 && r.descriptors >= 0
  }

  ghost predicate Whole(s: Sample) {
    s.exactFields && s.wallTimeAware && TimeOf(s) >= 0.0 && forall role :: Measured(s, role)
  }

  /** Any two samples of a role: epochs never fall and move by at most one from sample to sample, and
      the same epoch means the same process and the other way round. */
  ghost predicate OneProcessEach(h: seq<RoleRecord>) {
    && (forall i, j :: 0 <= i < j < |h| ==> h[i].epoch <= h[j].epoch <= h[i].epoch + (j - i))
    && (forall i, j :: 0 <= i < |h| && 0 <= j < |h| ==>
          (h[i].epoch == h[j].epoch <==> h[i].identity == h[j].identity))
  }

  function Story(samples: seq<Sample>, role: Role): (h: seq<RoleRecord>)
    ensures |h| == |samples| && forall i :: 0 <= i < |h| ==> h[i] == Of(samples[i], role)
  {
    seq(|samples|, i requires 0 <= i < |samples| => Of(samples[i], role))
  }

  /** Time moves on from sample to sample, by at most seven and a half seconds a step. */
  ghost predicate Paced(samples: seq<Sample>) {
    forall i, j :: 0 <= i < j < |samples| ==>
      0.0 < TimeOf(samples[j]) - TimeOf(samples[i]) <= 7.5 * ((j - i) as real)
  }

  ghost predicate Watched(samples: seq<Sample>, durationS: real) {
    && |samples| >= 2
    && (forall i :: 0 <= i < |samples| ==> Whole(samples[i]))
    && Paced(samples)
    && (forall role :: OneProcessEach(Story(samples, role)))
    && TimeOf(samples[0]) <= 5.0 && TimeOf(samples[|samples| - 1]) >= durationS - 5.0
  }

  // ------------------------------------------------------------ from step to step

  ghost predicate StepsByOne(h: seq<RoleRecord>) {
    forall i, j :: 0 <= i < |h| && 0 <= j < |h| && j == i + 1 ==> h[i].epoch <= h[j].epoch <= h[i].epoch + 1
  }

  lemma {:induction false} EpochsPaced(h: seq<RoleRecord>, i: nat, j: nat)
    requires i <= j < |h| && StepsByOne(h)
    ensures h[i].epoch <= h[j].epoch <= h[i].epoch + (j - i)
    decreases j - i
  {
    if i < j {
      EpochsPaced(h, i, j - 1);
      assert h[j - 1].epoch <= h[j].epoch <= h[j - 1].epoch + 1;
    }
  }

  lemma RunMeans(h: seq<RoleRecord>)
    ensures RunOk(h) && NeverReused(h) <==> (forall i :: 0 <= i < |h| ==> ValidRecord(h[i])) && OneProcessEach(h)
  {
    hide ValidRecord;
    if RunOk(h) {
      assert StepsByOne(h);
      forall i, j | 0 <= i < j < |h| ensures h[i].epoch <= h[j].epoch <= h[i].epoch + (j - i) {
        EpochsPaced(h, i, j);
      }
    }
    if OneProcessEach(h) {
      forall i, j | 0 <= i < |h| && 0 <= j < |h| && j == i + 1 ensures h[i].epoch <= h[j].epoch <= h[i].epoch + 1 {
        assert h[i].epoch <= h[j].epoch <= h[i].epoch + (j - i);
      }
    }
  }

  ghost predicate InStep(samples: seq<Sample>)
    requires SamplesOk(samples)
  {
    forall i, j :: 0 <= i < |samples| && 0 <= j < |samples| && j == i + 1 ==> InCadence(samples[i], samples[j])
  }

  lemma {:induction false} TimesPaced(samples: seq<Sample>, i: nat, j: nat)
    requires SamplesOk(samples) && InStep(samples) && i < j < |samples|
    ensures 0.0 < TimeOf(samples[j]) - TimeOf(samples[i]) <= 7.5 * ((j - i) as real)
    decreases j - i
  {
    assert InCadence(samples[j - 1], samples[j]);
    if i < j - 1 {
      TimesPaced(samples, i, j - 1);
    }
  }

  lemma CadenceMeans(samples: seq<Sample>)
    requires SamplesOk(samples)
    ensures InStep(samples) <==> Paced(samples)
  {
    if InStep(samples) {
      forall i, j | 0 <= i < j < |samples|
        ensures 0.0 < TimeOf(samples[j]) - TimeOf(samples[i]) <= 7.5 * ((j - i) as real)
      {
        TimesPaced(samples, i, j);
      }
    }
    if Paced(samples) {
      forall i, j | 0 <= i < |samples| && 0 <= j < |samples| && j == i + 1 ensures InCadence(samples[i], samples[j]) {
        assert 0.0 < TimeOf(samples[j]) - TimeOf(samples[i]) <= 7.5 * ((j - i) as real);
      }
    }
  }

  ghost predicate AllMeasured(samples: seq<Sample>, role: Role) {
    forall i :: 0 <= i < |samples| ==> Measured(samples[i], role)
  }

  lemma RoleMeans(samples: seq<Sample>, role: Role)
    ensures RoleOk(samples, role) && NeverReused(Column(samples, role)) <==>
            AllMeasured(samples, role) && OneProcessEach(Story(samples, role))
  {
    if EntriesComplete(samples, role) {
      var h := Column(samples, role);
      assert h == Story(samples, role);
      RunMeans(h);
      forall i | 0 <= i < |samples| ensures Measured(samples[i], role) <==> ValidRecord(h[i]) {}
    }
    hide OneProcessEach, RunOk, NeverReused, ValidRecord;
  }

  lemma SamplesMean(samples: seq<Sample>)
    ensures (forall i :: 0 <= i < |samples| ==> Whole(samples[i])) <==>
            (forall i :: 0 <= i < |samples| ==>
               samples[i].exactFields && samples[i].wallTimeAware && TimeOf(samples[i]) >= 0.0) &&
            forall role :: AllMeasured(samples, role)
  {
    hide Measured;
    if forall i :: 0 <= i < |samples| ==> Whole(samples[i]) {
      forall role ensures AllMeasured(samples, role) {
        assert forall i :: 0 <= i < |samples| ==> Whole(samples[i]);
      }
    }
    if forall role :: AllMeasured(samples, role) {
      forall i, role | 0 <= i < |samples| ensures Measured(samples[i], role) {
        assert AllMeasured(samples, role);
      }
    }
  }

  lemma SamplesOkMeans(samples: seq<Sample>)
    ensures SamplesOk(samples) ==> forall i :: 0 <= i < |samples| ==>
              samples[i].exactFields && samples[i].wallTimeAware && TimeOf(samples[i]) >= 0.0
    ensures AllMeasured(samples, Launcher) ==>
              ((forall i :: 0 <= i < |samples| ==>
                  samples[i].exactFields && samples[i].wallTimeAware && TimeOf(samples[i]) >= 0.0)
               ==> SamplesOk(samples))
  {
    if AllMeasured(samples, Launcher) {
      assert forall i :: 0 <= i < |samples| ==> Measured(samples[i], Launcher);
    }
  }

  /** The one-pass validator's notion of a series, pair of samples by pair of samples. */
  lemma SeriesMeans(samples: seq<Sample>, durationS: real)
    ensures SeriesAccepted(samples, durationS) <==> Watched(samples, durationS)
  {
    SamplesMean(samples);
    SamplesOkMeans(samples);
    if SamplesOk(samples) {
      CadenceMeans(samples);
    }
    forall role ensures RoleOk(samples, role) && NeverReused(Column(samples, role)) <==>
                        AllMeasured(samples, role) && OneProcessEach(Story(samples, role))
    {
      RoleMeans(samples, role);
    }
    hide Whole, RoleOk, NeverReused, OneProcessEach, Paced, InCadence, AllMeasured, Story;
    if Watched(samples, durationS) {
      assert AllMeasured(samples, Launcher);
    }
    assert |samples| >= 2 && SamplesOk(samples) ==>
             TimeOf(samples[0]) == samples[0].elapsed.value &&
             TimeOf(samples[|samples| - 1]) == samples[|samples| - 1].elapsed.value;
  }

  // ------------------------------------------------------------ what follows

  /** At every moment of the run some sample was taken within five seconds. */
  lemma {:induction false} RunWatched(samples: seq<Sample>, durationS: real, t: real) returns (i: nat)
    requires SeriesAccepted(samples, durationS) && 0.0 <= t <= durationS
    ensures i < |samples| && samples[i].elapsed.Some? && -5.0 <= t - samples[i].elapsed.value <= 5.0
  {
    SeriesMeans(samples, durationS);
    hide SeriesAccepted, OneProcessEach, Measured;
    i := 0;
    if TimeOf(samples[0]) < t {
      i := LastUpTo(samples, t, |samples|);
      if i + 1 < |samples| {
        var j := i + 1;
        assert TimeOf(samples[j]) - TimeOf(samples[i]) <= 7.5 * ((j - i) as real);
        i := if TimeOf(samples[j]) - t <= 5.0 then j else i;
      }
    }
  }

  lemma {:induction false} LastUpTo(samples: seq<Sample>, t: real, n: nat) returns (i: nat)
    requires 0 < n <= |samples| && TimeOf(samples[0]) <= t
    requires forall k :: n <= k < |samples| ==> TimeOf(samples[k]) > t
    ensures i < n && TimeOf(samples[i]) <= t
    ensures forall k :: i < k < |samples| ==> TimeOf(samples[k]) > t
    decreases n
  {
    if TimeOf(samples[n - 1]) <= t {
      i := n - 1;
    } else {
      i := LastUpTo(samples, t, n - 1);
    }
  }

  /** A process seen twice was there in between: once gone, none comes back. */
  lemma NeverComesBack(samples: seq<Sample>, durationS: real, role: Role, i: int, k: int, j: int)
    requires SeriesAccepted(samples, durationS) && 0 <= i <= k <= j < |samples|
    requires Of(samples[i], role).identity == Of(samples[j], role).identity
    ensures Of(samples[k], role).identity == Of(samples[i], role).identity
  {
    SeriesMeans(samples, durationS);
    hide SeriesAccepted, Paced, Whole;
    var h := Story(samples, role);
    assert OneProcessEach(h);
    assert i < k ==> h[i].epoch <= h[k].epoch;
    assert k < j ==> h[k].epoch <= h[j].epoch;
  }
}
