/** What a call of the evidence machine, and a run that passed, was checked for: which probes of
    the outside world must have gone well, call by call, told from the events alone. */
module EvidenceChecks {
  import opened Counting
  import opened EvidenceMachine
  import opened EvidenceRuns

  // ------------------------------------------------------------ one call

  /** Everything a call asks of the outside world on its way to success. */
  function Asks(op: Op): set<Probe> {
    {EntryCapability, EntryPath, LateCapability, LatePath} +
    match op
    case WriteManifest => {Payload, Policy, Write, Reread}
    case AcceptExactSix(_) => {Payload, Write}
    case WritePrerequisites => {Payload, Policy, Reread, Write}
    case AcceptDelivery(_) => {Payload, Write, Reread, SealRecheck}
    case AppendStream(_) => {Payload, Policy, Write}
    case WriteLog => {Policy, Write}
    case RecordShutdown => {Payload, Policy, Write}
    case Seal => {Policy, FirstLedger, Write}
    case FinishPass => {FirstLedger, Reread, SecondLedger, Write, SealRecheck, FinalLedger, LastCapability, LastPath}
    case _ => {}
  }

  /** The evidence object's own books: what must be there, or not yet, when the call is made. */
  predicate InOrder(op: Op, ev: Evidence, reg: Registry, me: nat) {
    && !ev.closed
    && match op
       case WriteManifest => ev.state == InitialFail && ManifestFile !in ev.files
       case AcceptExactSix(a) =>
         ev.state == ManifestFinalized && a.Some? && a.value in reg.exactSix && reg.exactSix[a.value] == me &&
         ExactSixFile !in ev.files
       case WritePrerequisites =>
         ev.state == ManifestFinalized && ExactSixFile in ev.files && PrerequisitesFile !in ev.files
       case BeginRun => ev.state == PrerequisitesVerified
       case AcceptDelivery(a) =>
         ev.state == Running && a.Some? && a.value in reg.delivery && reg.delivery[a.value] == me &&
         DeliveryFile !in ev.files
       case AppendStream(s) => ev.state == Running && (s == Some(SamplesFile) || s == Some(FaultsFile))
       case WriteLog => ev.state == Running
       case RecordShutdown => ev.state == Running && ShutdownFile !in ev.files
       case Seal => ev.state == ShutdownVerified && Complete(ev, reg, me)
       case FinishPass => ev.state == EvidenceSealed && Complete(ev, reg, me)
       case _ => false
  }

  /** Eight artifacts, a provenance this Evidence consumed and a sealed delivery. */
  predicate Complete(ev: Evidence, reg: Registry, me: nat) {
    && ManifestFile in ev.files && ExactSixFile in ev.files && PrerequisitesFile in ev.files
    && SamplesFile in ev.files && FaultsFile in ev.files && LogIndexFile in ev.files
    && DeliveryFile in ev.files && ShutdownFile in ev.files
    && ev.provenance.Some? && ev.provenance.value in reg.provenance && reg.provenance[ev.provenance.value] == me
    && ev.deliverySeal.Some?
  }

  predicate AllHold(probes: set<Probe>, o: Outlook) { forall p :: p in probes ==> o(p) }

  lemma LedgerBuildsMeans(ev: Evidence, reg: Registry, me: nat, sound: bool)
    ensures LedgerBuilds(ev, reg, me, sound) <==> Complete(ev, reg, me) && sound
  {
  }

  lemma SealReturns(ev: Evidence, reg: Registry, me: nat, o: Outlook)
    requires !ev.closed
    ensures SealBody(ev, reg, me, o).Done?
            <==> InOrder(Seal, ev, reg, me) && AllHold(Asks(Seal) - {EntryCapability, EntryPath}, o)
  {
    LedgerBuildsMeans(ev, reg, me, o(FirstLedger));
    hide LedgerBuilds, Complete;
  }

  lemma PassReturns(ev: Evidence, reg: Registry, me: nat, o: Outlook)
    requires !ev.closed
    ensures PassBody(ev, reg, me, o).Done?
            <==> InOrder(FinishPass, ev, reg, me) && AllHold(Asks(FinishPass) - {EntryCapability, EntryPath}, o)
  {
    LedgerBuildsMeans(ev, reg, me, o(FirstLedger));
    LedgerBuildsMeans(ev.(state := Validated), reg, me, o(SecondLedger));
    LedgerBuildsMeans(ev.(state := Validated, summaryPass := true), reg, me, o(FinalLedger));
    hide LedgerBuilds;
  }

  lemma AcceptReturns(op: Op, ev: Evidence, reg: Registry, me: nat, o: Outlook)
    requires (op.AcceptExactSix? || op.AcceptDelivery?) && !ev.closed
    ensures Body(op, ev, reg, me, o).Done?
            <==> InOrder(op, ev, reg, me) && AllHold(Asks(op) - {EntryCapability, EntryPath}, o)
  {
    hide FailStep;
  }

  lemma WriteReturns(op: Op, ev: Evidence, reg: Registry, me: nat, o: Outlook)
    requires Guarded(op) && !op.AcceptExactSix? && !op.AcceptDelivery? && !op.Seal? && !op.FinishPass? && !ev.closed
    ensures Body(op, ev, reg, me, o).Done?
            <==> InOrder(op, ev, reg, me) && AllHold(Asks(op) - {EntryCapability, EntryPath}, o)
  {
    hide FailStep;
  }

  lemma BodyReturns(op: Op, ev: Evidence, reg: Registry, me: nat, o: Outlook)
    requires Guarded(op) && !ev.closed
    ensures Body(op, ev, reg, me, o).Done?
            <==> InOrder(op, ev, reg, me) && AllHold(Asks(op) - {EntryCapability, EntryPath}, o)
  {
    if op == Seal {
      SealReturns(ev, reg, me, o);
    } else if op == FinishPass {
      PassReturns(ev, reg, me, o);
    } else if op.AcceptExactSix? || op.AcceptDelivery? {
      AcceptReturns(op, ev, reg, me, o);
    } else {
      WriteReturns(op, ev, reg, me, o);
    }
    hide *;
  }

  /** A guarded call returns exactly when it is in order and nothing it asks for fails. */
  lemma CallReturns(op: Op, ev: Evidence, reg: Registry, me: nat, o: Outlook)
    requires Guarded(op)
    ensures Call(op, ev, reg, me, o).Done? <==> InOrder(op, ev, reg, me) && AllHold(Asks(op), o)
  {
    if !ev.closed {
      BodyReturns(op, ev, reg, me, o);
    }
    assert ev.closed ==> !InOrder(op, ev, reg, me);
    hide Body, FailStep, InOrder;
    assert Asks(op) == {EntryCapability, EntryPath} + (Asks(op) - {EntryCapability, EntryPath});
    hide Asks;
    assert AllHold(Asks(op), o) <==>
           o(EntryCapability) && o(EntryPath) && AllHold(Asks(op) - {EntryCapability, EntryPath}, o);
  }

  // ------------------------------------------------------------ every run

  /** The call a milestone stands for. */
  function OpOf(m: Milestone): Op {
    match m
    case Manifest => WriteManifest
    case ExactSix(a) => AcceptExactSix(Some(a))
    case Prerequisites => WritePrerequisites
    case Begun => BeginRun
    case Delivered(a) => AcceptDelivery(Some(a))
    case ShutDown => RecordShutdown
    case Sealed => Seal
    case Passed => FinishPass
  }

  /** This event is the call the milestone stands for, and nothing it asked for failed. */
  ghost predicate Earned(e: Event, m: Milestone) {
    e.Invoke? && e.op == OpOf(m) && AllHold(Asks(e.op), e.outlook)
  }

  /** Where in the run each milestone was earned. */
  ghost predicate Traced(events: seq<Event>, log: seq<Milestone>, at: seq<nat>) {
    && |at| == |log|
    && (forall i :: 0 <= i < |at| ==> at[i] < |events| && Earned(events[at[i]], log[i]))
    && (forall i, j :: 0 <= i < j < |at| ==> at[i] < at[j])
  }

  lemma TracedGrows(events: seq<Event>, log: seq<Milestone>, at: seq<nat>, e: Event, more: seq<Milestone>)
    requires Traced(events, log, at) && |more| <= 1 && (more != [] ==> Earned(e, more[0]))
    ensures Traced(events + [e], log + more, at + if more == [] then [] else [|events|])
  {
  }

  lemma OneMilestone(op: Op)
    ensures MilestoneOf(op) == [] || (Guarded(op) && |MilestoneOf(op)| == 1 && OpOf(MilestoneOf(op)[0]) == op)
  {
  }

  lemma MilestoneEarned(w: World, e: Event, me: nat)
    requires e.Invoke?
    ensures var r := Call(e.op, w.ev, w.reg, me, e.outlook);
            r.Done? && MilestoneOf(e.op) != [] ==> Earned(e, MilestoneOf(e.op)[0])
  {
    hide Call, InOrder, AllHold, Asks, MilestoneOf, OpOf, Guarded;
    OneMilestone(e.op);
    if Guarded(e.op) {
      CallReturns(e.op, w.ev, w.reg, me, e.outlook);
    }
  }

  /** Every milestone of every run was earned by its own call, in the order of the log. */
  lemma {:induction false} MilestonesEarned(events: seq<Event>, me: nat) returns (at: seq<nat>)
    ensures Traced(events, Run(events, me).log, at)
  {
    at := [];
    if events != [] {
      var n := |events| - 1;
      var w, e := Run(events[..n], me), events[n];
      at := MilestonesEarned(events[..n], me);
      var more := Run(events, me).log[|w.log|..];
      if e.Invoke? {
        MilestoneEarned(w, e, me);
        more := if Call(e.op, w.ev, w.reg, me, e.outlook).Done? then MilestoneOf(e.op) else [];
        assert Run(events, me).log == w.log + more;
      } else {
        more := [];
        assert Run(events, me).log == w.log + more;
      }
      TracedGrows(events[..n], w.log, at, e, more);
      assert events[..n] + [e] == events;
      at := at + if more == [] then [] else [n];
    }
  }

  /** The artifact a call writes. */
  function Writes(op: Op): Option<Artifact> {
    match op
    case WriteManifest => Some(ManifestFile)
    case AcceptExactSix(_) => Some(ExactSixFile)
    case WritePrerequisites => Some(PrerequisitesFile)
    case AcceptDelivery(_) => Some(DeliveryFile)
    case AppendStream(s) => if s == Some(SamplesFile) || s == Some(FaultsFile) then s else None
    case WriteLog => Some(LogIndexFile)
    case RecordShutdown => Some(ShutdownFile)
    case Seal => Some(LedgerFile)
    case _ => None
  }

  /** What a call has checked by the time it writes. */
  function AsksFirst(op: Op): set<Probe> {
    {EntryCapability, EntryPath, Write} + Asks(op) * {Payload, Policy, FirstLedger}
  }

  ghost predicate Wrote(e: Event, a: Artifact) {
    e.Invoke? && Writes(e.op) == Some(a) && AllHold(AsksFirst(e.op), e.outlook)
  }

  /** The artifacts of an attempt are those it started with, and perhaps one more. */
  ghost predicate Keeps(files: set<Artifact>, r: Attempt) { r.ev.files == files }

  lemma FailKeeps(ev: Evidence, reg: Registry, held: bool, written: bool)
    ensures Keeps(ev.files, FailStep(ev, reg, held, written))
  {
  }

  lemma RefuseKeeps(ev: Evidence, reg: Registry, o: Outlook)
    ensures Refuse(ev, reg, o).Raised? && Keeps(ev.files, Refuse(ev, reg, o))
  {
  }

  lemma DirectoryKeeps(ev: Evidence, reg: Registry, held: bool, named: bool)
    ensures Keeps(ev.files, AssertDirectory(ev, reg, held, named))
  {
  }

  ghost predicate AddsOwn(op: Op, ev: Evidence, r: Attempt, o: Outlook) {
    || Keeps(ev.files, r)
    || (Writes(op).Some? && Keeps(ev.files + {Writes(op).value}, r) && Asked(op, o))
  }

  /** The call had checked what it checks before it writes. */
  ghost predicate Asked(op: Op, o: Outlook) { AllHold(AsksFirst(op) - {EntryCapability, EntryPath}, o) }

  lemma ManifestAdds(ev: Evidence, reg: Registry, o: Outlook)
    ensures AddsOwn(WriteManifest, ev, ManifestBody(ev, reg, o), o)
  {
    RefuseKeeps(ev, reg, o);
    DirectoryKeeps(ev.(files := ev.files + {ManifestFile}), reg, o(LateCapability), o(LatePath));
    hide Refuse, AssertDirectory;
  }

  lemma ExactSixAdds(ev: Evidence, reg: Registry, me: nat, a: Option<nat>, o: Outlook)
    ensures AddsOwn(AcceptExactSix(a), ev, ExactSixBody(ev, reg, me, a, o), o)
  {
    RefuseKeeps(ev, reg, o);
    if a.Some? {
      var taken := reg.(exactSix := reg.exactSix - {a.value}, provenance := reg.provenance[a.value := me]);
      RefuseKeeps(ev, taken, o);
      DirectoryKeeps(ev.(files := ev.files + {ExactSixFile}), taken, o(LateCapability), o(LatePath));
    }
    hide Refuse, AssertDirectory;
  }

  lemma PrerequisitesAdds(ev: Evidence, reg: Registry, o: Outlook)
    ensures AddsOwn(WritePrerequisites, ev, PrerequisitesBody(ev, reg, o), o)
  {
    RefuseKeeps(ev, reg, o);
    DirectoryKeeps(ev.(files := ev.files + {PrerequisitesFile}), reg, o(LateCapability), o(LatePath));
    hide Refuse, AssertDirectory;
  }

  lemma BeginAdds(ev: Evidence, reg: Registry, o: Outlook)
    ensures Keeps(ev.files, BeginBody(ev, reg, o))
  {
    RefuseKeeps(ev, reg, o);
    DirectoryKeeps(ev, reg, o(LateCapability), o(LatePath));
    hide Refuse, AssertDirectory;
  }

  lemma DeliveryAdds(ev: Evidence, reg: Registry, me: nat, a: Option<nat>, o: Outlook)
    ensures AddsOwn(AcceptDelivery(a), ev, DeliveryBody(ev, reg, me, a, o), o)
  {
    RefuseKeeps(ev, reg, o);
    if a.Some? {
      DirectoryKeeps(ev.(files := ev.files + {DeliveryFile}, deliverySeal := a),
                     reg.(delivery := reg.delivery - {a.value}), o(LateCapability), o(LatePath));
    }
    hide Refuse, AssertDirectory;
  }

  lemma StreamAdds(ev: Evidence, reg: Registry, s: Option<Artifact>, o: Outlook)
    ensures AddsOwn(AppendStream(s), ev, StreamBody(ev, reg, s, o), o)
  {
    RefuseKeeps(ev, reg, o);
    if s.Some? {
      DirectoryKeeps(ev.(files := ev.files + {s.value}), reg, o(LateCapability), o(LatePath));
    }
    hide Refuse, AssertDirectory;
  }

  lemma LogAdds(ev: Evidence, reg: Registry, o: Outlook)
    ensures AddsOwn(WriteLog, ev, LogBody(ev, reg, o), o)
  {
    RefuseKeeps(ev, reg, o);
    DirectoryKeeps(ev.(files := ev.files + {LogIndexFile}), reg, o(LateCapability), o(LatePath));
    hide Refuse, AssertDirectory;
  }

  lemma ShutdownAdds(ev: Evidence, reg: Registry, o: Outlook)
    ensures AddsOwn(RecordShutdown, ev, ShutdownBody(ev, reg, o), o)
  {
    RefuseKeeps(ev, reg, o);
    DirectoryKeeps(ev.(files := ev.files + {ShutdownFile}), reg, o(LateCapability), o(LatePath));
    hide Refuse, AssertDirectory;
  }

  lemma SealAdds(ev: Evidence, reg: Registry, me: nat, o: Outlook)
    ensures AddsOwn(Seal, ev, SealBody(ev, reg, me, o), o)
  {
    RefuseKeeps(ev, reg, o);
    LedgerBuildsMeans(ev, reg, me, o(FirstLedger));
    DirectoryKeeps(ev.(files := ev.files + {LedgerFile}), reg, o(LateCapability), o(LatePath));
    var r := SealInner(ev, reg, me, o);
    RefuseKeeps(r.ev, r.reg, o);
    hide Refuse, AssertDirectory, LedgerBuilds, Complete;
  }

  lemma PassAdds(ev: Evidence, reg: Registry, me: nat, o: Outlook)
    ensures Keeps(ev.files, PassBody(ev, reg, me, o))
  {
    RefuseKeeps(ev, reg, o);
    var r := PassInner(ev, reg, me, o);
    RefuseKeeps(r.ev, r.reg, o);
    hide Refuse, LedgerBuilds;
  }

  lemma BodyAdds(op: Op, ev: Evidence, reg: Registry, me: nat, o: Outlook)
    ensures AddsOwn(op, ev, Body(op, ev, reg, me, o), o)
  {
    match op
    case WriteManifest => ManifestAdds(ev, reg, o);
    case AcceptExactSix(a) => ExactSixAdds(ev, reg, me, a, o);
    case WriteExactSixResult => RefuseKeeps(ev, reg, o);
    case WritePrerequisites => PrerequisitesAdds(ev, reg, o);
    case BeginRun => BeginAdds(ev, reg, o);
    case AcceptDelivery(a) => DeliveryAdds(ev, reg, me, a, o);
    case AppendStream(s) => StreamAdds(ev, reg, s, o);
    case WriteLog => LogAdds(ev, reg, o);
    case RecordShutdown => ShutdownAdds(ev, reg, o);
    case Seal => SealAdds(ev, reg, me, o);
    case FinishPass => PassAdds(ev, reg, me, o);
    case FinishFail => FailKeeps(ev, reg, o(FailCapability), o(FailWrite));
    case Close =>
  }

  lemma CallWrites(op: Op, ev: Evidence, reg: Registry, me: nat, o: Outlook, a: Artifact)
    requires a in Call(op, ev, reg, me, o).ev.files && a !in ev.files
    ensures Wrote(Invoke(op, o), a)
  {
    BodyAdds(op, ev, reg, me, o);
    var r := Enter(op, ev, reg, me, o);
    FailKeeps(r.ev, r.reg, o(OuterCapability), o(FailWrite));
    assert !Guarded(op) ==> Writes(op).None?;
    hide Body, FailStep, Writes, Asks;
    assert Asked(op, o) && o(EntryCapability) && o(EntryPath) ==> AllHold(AsksFirst(op), o);
  }

  /** Every artifact on disk was written by a call that had checked its payload first. */
  lemma {:induction false} ArtifactsChecked(events: seq<Event>, me: nat, a: Artifact) returns (i: nat)
    requires a in Run(events, me).ev.files
    ensures i < |events| && Wrote(events[i], a)
  {
    var n := |events| - 1;
    var w, e := Run(events[..n], me), events[n];
    if a in w.ev.files {
      i := ArtifactsChecked(events[..n], me, a);
    } else {
      i := n;
      CallWrites(e.op, w.ev, w.reg, me, e.outlook, a);
    }
  }

  lemma StreamWrote(e: Event, s: Artifact)
    requires Wrote(e, s) && (s == SamplesFile || s == FaultsFile)
    ensures e.Invoke? && e.op == AppendStream(Some(s)) && e.outlook(Payload) && e.outlook(Policy) && e.outlook(Write)
  {
  }

  lemma LogWrote(e: Event)
    requires Wrote(e, LogIndexFile)
    ensures e.Invoke? && e.op == WriteLog && e.outlook(Policy) && e.outlook(Write)
  {
  }

  lemma SealEarned(e: Event)
    requires Earned(e, Sealed)
    ensures e.Invoke? && e.op == Seal && e.outlook(Policy) && e.outlook(FirstLedger) && e.outlook(Write)
  {
  }

  lemma PassEarned(e: Event)
    requires Earned(e, Passed)
    ensures e.Invoke? && e.op == FinishPass
    ensures e.outlook(FirstLedger) && e.outlook(SecondLedger) && e.outlook(FinalLedger)
    ensures e.outlook(Write) && e.outlook(Reread) && e.outlook(SealRecheck)
    ensures e.outlook(LastCapability) && e.outlook(LastPath)
  {
  }

  /** One call sealed with a sound ledger, and a later one passed with one that was sound three times
      over, its summary written, read back and rechecked, and the directory held to the end. */
  ghost predicate SealedThenPassed(events: seq<Event>, sealed: nat, passed: nat) {
    && sealed < passed < |events| && events[sealed].Invoke? && events[passed].Invoke?
    && events[sealed].op == Seal && events[passed].op == FinishPass
    && (var o := events[sealed].outlook; o(Policy) && o(FirstLedger) && o(Write))
    && (var o := events[passed].outlook;
        && o(FirstLedger) && o(SecondLedger) && o(FinalLedger)
        && o(Reread) && o(Write) && o(SealRecheck) && o(LastCapability) && o(LastPath))
  }

  /** A call of this kind whose payload, if it has one, and content were checked before it wrote. */
  ghost predicate Appended(events: seq<Event>, op: Op) {
    exists i :: 0 <= i < |events| && events[i].Invoke? && events[i].op == op && events[i].outlook(Policy) &&
                events[i].outlook(Write) && (op != WriteLog ==> events[i].outlook(Payload))
  }

  lemma SealedAt(events: seq<Event>, log: seq<Milestone>, at: seq<nat>)
    requires Traced(events, log, at) && |log| == 8 && log[6] == Sealed && log[7] == Passed
    ensures SealedThenPassed(events, at[6], at[7])
  {
    hide Asks;
    SealEarned(events[at[6]]);
    PassEarned(events[at[7]]);
  }

  lemma StreamsAppended(events: seq<Event>, me: nat)
    requires SamplesFile in Run(events, me).ev.files && FaultsFile in Run(events, me).ev.files
    requires LogIndexFile in Run(events, me).ev.files
    ensures Appended(events, AppendStream(Some(SamplesFile))) && Appended(events, AppendStream(Some(FaultsFile)))
    ensures Appended(events, WriteLog)
  {
    hide Run, Wrote;
    var i := ArtifactsChecked(events, me, SamplesFile);
    StreamWrote(events[i], SamplesFile);
    var j := ArtifactsChecked(events, me, FaultsFile);
    StreamWrote(events[j], FaultsFile);
    var k := ArtifactsChecked(events, me, LogIndexFile);
    LogWrote(events[k]);
  }

  /** So a run in Pass was checked; samples, faults and logs went through their checks too. */
  lemma PassWasChecked(events: seq<Event>, me: nat) returns (sealed: nat, passed: nat)
    requires Run(events, me).ev.state == Pass
    ensures SealedThenPassed(events, sealed, passed)
    ensures Appended(events, AppendStream(Some(SamplesFile))) && Appended(events, AppendStream(Some(FaultsFile)))
    ensures Appended(events, WriteLog)
  {
    assert SamplesFile in REQUIRED && FaultsFile in REQUIRED && LogIndexFile in REQUIRED;
    hide *;
    var six, delivery := PassHistory(events, me);
    var at := MilestonesEarned(events, me);
    assert |at| == 8 by { TracedSize(events, Run(events, me).log, at); }
    sealed, passed := at[6], at[7];
    SealedAt(events, Run(events, me).log, at);
    StreamsAppended(events, me);
  }

  lemma TracedSize(events: seq<Event>, log: seq<Milestone>, at: seq<nat>)
    requires Traced(events, log, at)
    ensures |at| == |log|
  {
  }
}
