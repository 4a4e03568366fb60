/** The evidence object as the program writes it: fields updated in place, exceptions
    as early returns. Every method is proved to compute the machine's next state, and Replay
    states the run theorems of the object itself. */
module EvidenceObject {
  import opened Counting
  import opened EvidenceMachine
  import opened EvidenceRuns
  import opened EvidenceChecks

  /** The runner's one-shot records, shared by all Evidence objects. */
  class AuthorityRegistry {
    var exactSix: map<nat, nat>
    var provenance: map<nat, nat>
    var delivery: map<nat, nat>

    function Model(): Registry
      reads this
    {
      Registry(exactSix, provenance, delivery)
    }

    constructor ()
      ensures Model() == Registry(map[], map[], map[])
    {
      exactSix, provenance, delivery := map[], map[], map[];
    }

    method IssueExactSix(authority: nat, owner: nat)
      modifies this`exactSix
      ensures exactSix == old(exactSix)[authority := owner]
    {
      exactSix := exactSix[authority := owner];
    }

    method IssueDelivery(authority: nat, owner: nat)
      modifies this`delivery
      ensures delivery == old(delivery)[authority := owner]
    {
      delivery := delivery[authority := owner];
    }

    method ConsumeExactSix(authority: nat, owner: nat) returns (raised: bool)
      modifies this
      ensures raised <==> authority !in old(exactSix) || old(exactSix)[authority] != owner
      ensures raised ==> Model() == old(Model())
      ensures !raised ==> exactSix == old(exactSix) - {authority} && provenance == old(provenance)[authority := owner]
      ensures delivery == old(delivery)
    {
      if authority !in exactSix || exactSix[authority] != owner {
        return true;
      }
      exactSix := exactSix - {authority};
      provenance := provenance[authority := owner];
      return false;
    }

    method ConsumeDelivery(authority: nat, owner: nat) returns (raised: bool)
      modifies this`delivery
      ensures raised <==> authority !in old(delivery) || old(delivery)[authority] != owner
      ensures delivery == if raised then old(delivery) else old(delivery) - {authority}
    {
      if authority !in delivery || delivery[authority] != owner {
        return true;
      }
      delivery := delivery - {authority};
      return false;
    }
  }

  class EvidenceDirectory {
    const me: nat
    const registry: AuthorityRegistry
    var state: RunState
    var closed: bool
    var summaryAvailable: bool
    var summaryPass: bool
    var files: set<Artifact>
    var provenance: Option<nat>
    var deliverySeal: Option<nat>

    function Ev(): Evidence
      reads this
    {
      Evidence(state, closed, summaryAvailable, summaryPass, files, provenance, deliverySeal)
    }

    /** The state a step ended in, and whether an exception is in flight. */
    function Now(raised: bool): Attempt
      reads this, registry
    {
      if raised then Raised(Ev(), registry.Model()) else Done(Ev(), registry.Model())
    }

    constructor (me: nat, registry: AuthorityRegistry)
      ensures this.me == me && this.registry == registry && Ev() == FRESH
    {
      this.me, this.registry := me, registry;
      state, closed, summaryAvailable, summaryPass := InitialFail, false, false, false;
      files, provenance, deliverySeal := {}, None, None;
    }

    method CheckCapability(held: bool) returns (raised: bool)
      modifies this
      ensures Now(raised) == AssertCapability(old(Ev()), old(registry.Model()), held)
    {
      if closed {
        return true;
      }
      if !held {
        state, summaryAvailable, closed := Fail, false, true;
        return true;
      }
      return false;
    }

    method CheckDirectory(held: bool, named: bool) returns (raised: bool)
      modifies this
      ensures Now(raised) == AssertDirectory(old(Ev()), old(registry.Model()), held, named)
    {
      raised := CheckCapability(held);
      return raised || !named;
    }

    method FinishFailure(held: bool, written: bool) returns (raised: bool)
      modifies this
      ensures Now(raised) == FailStep(old(Ev()), old(registry.Model()), held, written)
    {
      raised := CheckCapability(held);
      if raised || state == Pass || state == Fail {
        return;
      }
      state := Fail;
      if !written {
        return true;
      }
      summaryPass, summaryAvailable := false, true;
      return false;
    }

    method RefuseCall(o: Outlook) returns (raised: bool)
      modifies this
      ensures raised && Now(raised) == Refuse(old(Ev()), old(registry.Model()), o)
    {
      raised := FinishFailure(o(FailCapability), o(FailWrite));
      raised := true;
    }

    method RequireState(expected: RunState, o: Outlook) returns (raised: bool)
      modifies this
      ensures Now(raised) == Require(old(Ev()), old(registry.Model()), o, expected)
    {
      if state == expected {
        return false;
      }
      raised := RefuseCall(o);
    }

    method BuildLedger(sound: bool) returns (ok: bool)
      ensures ok == LedgerBuilds(Ev(), registry.Model(), me, sound)
    {
      return provenance.Some? && provenance.value in registry.provenance &&
        registry.provenance[provenance.value] == me && REQUIRED <= files && deliverySeal.Some? && sound;
    }

    method DoManifest(o: Outlook) returns (raised: bool)
      modifies this
      ensures Now(raised) == ManifestBody(old(Ev()), old(registry.Model()), o)
    {
      raised := RequireState(InitialFail, o);
      if raised { return; }
      if !o(Payload) { return true; }
      if !o(Policy) { raised := RefuseCall(o); return; }
      if ManifestFile in files || !o(Write) { return true; }
      files := files + {ManifestFile};
      if !o(Reread) { return true; }
      raised := CheckDirectory(o(LateCapability), o(LatePath));
      if raised { return; }
      state := ManifestFinalized;
    }

    method DoExactSix(authority: Option<nat>, o: Outlook) returns (raised: bool)
      modifies this, registry
      ensures Now(raised) == ExactSixBody(old(Ev()), old(registry.Model()), me, authority, o)
    {
      raised := RequireState(ManifestFinalized, o);
      if raised { return; }
      if authority.None? { raised := RefuseCall(o); return; }
      raised := registry.ConsumeExactSix(authority.value, me);
      if raised { return; }
      if !o(Payload) || ExactSixFile in files { raised := RefuseCall(o); return; }
      if !o(Write) { return true; }
      files := files + {ExactSixFile};
      raised := CheckDirectory(o(LateCapability), o(LatePath));
      if raised { return; }
      provenance := authority;
    }

    method DoPrerequisites(o: Outlook) returns (raised: bool)
      modifies this
      ensures Now(raised) == PrerequisitesBody(old(Ev()), old(registry.Model()), o)
    {
      raised := RequireState(ManifestFinalized, o);
      if raised { return; }
      if !o(Payload) { return true; }
      if !o(Policy) || ExactSixFile !in files || !o(Reread) || PrerequisitesFile in files {
        raised := RefuseCall(o);
        return;
      }
      if !o(Write) { return true; }
      files := files + {PrerequisitesFile};
      raised := CheckDirectory(o(LateCapability), o(LatePath));
      if raised { return; }
      state := PrerequisitesVerified;
    }

    method DoBegin(o: Outlook) returns (raised: bool)
      modifies this
      ensures Now(raised) == BeginBody(old(Ev()), old(registry.Model()), o)
    {
      raised := RequireState(PrerequisitesVerified, o);
      if raised { return; }
      raised := CheckDirectory(o(LateCapability), o(LatePath));
      if raised { return; }
      state := Running;
    }

    method DoDelivery(authority: Option<nat>, o: Outlook) returns (raised: bool)
      modifies this, registry
      ensures Now(raised) == DeliveryBody(old(Ev()), old(registry.Model()), me, authority, o)
    {
      raised := RequireState(Running, o);
      if raised { return; }
      if authority.None? { raised := RefuseCall(o); return; }
      raised := registry.ConsumeDelivery(authority.value, me);
      if raised { return; }
      if !o(Payload) || DeliveryFile in files || !o(Write) { return true; }
      files := files + {DeliveryFile};
      if !o(Reread) { return true; }
      deliverySeal := authority;
      if !o(SealRecheck) { return true; }
      raised := CheckDirectory(o(LateCapability), o(LatePath));
    }

    method DoAppend(stream: Option<Artifact>, o: Outlook) returns (raised: bool)
      modifies this
      ensures Now(raised) == StreamBody(old(Ev()), old(registry.Model()), stream, o)
    {
      raised := RequireState(Running, o);
      if raised { return; }
      if stream != Some(SamplesFile) && stream != Some(FaultsFile) { raised := RefuseCall(o); return; }
      if !o(Payload) { return true; }
      if !o(Policy) { raised := RefuseCall(o); return; }
      if !o(Write) { return true; }
      files := files + {stream.value};
      raised := CheckDirectory(o(LateCapability), o(LatePath));
    }

    method DoLog(o: Outlook) returns (raised: bool)
      modifies this
      ensures Now(raised) == LogBody(old(Ev()), old(registry.Model()), o)
    {
      raised := RequireState(Running, o);
      if raised { return; }
      if !o(Policy) { raised := RefuseCall(o); return; }
      if !o(Write) { return true; }
      files := files + {LogIndexFile};
      raised := CheckDirectory(o(LateCapability), o(LatePath));
    }

    method DoShutdown(o: Outlook) returns (raised: bool)
      modifies this
      ensures Now(raised) == ShutdownBody(old(Ev()), old(registry.Model()), o)
    {
      raised := RequireState(Running, o);
      if raised { return; }
      if !o(Payload) { return true; }
      if !o(Policy) || ShutdownFile in files { raised := RefuseCall(o); return; }
      if !o(Write) { return true; }
      files := files + {ShutdownFile};
      raised := CheckDirectory(o(LateCapability), o(LatePath));
      if raised { return; }
      state := ShutdownVerified;
    }

    method TrySeal(o: Outlook) returns (raised: bool)
      modifies this
      ensures Now(raised) == SealInner(old(Ev()), old(registry.Model()), me, o)
    {
      if !o(Policy) { return true; }
      var built := BuildLedger(o(FirstLedger));
      if !built || !o(Write) { return true; }
      files := files + {LedgerFile};
      raised := CheckDirectory(o(LateCapability), o(LatePath));
      if raised { return; }
      state := EvidenceSealed;
    }

    method DoSeal(o: Outlook) returns (raised: bool)
      modifies this
      ensures Now(raised) == SealBody(old(Ev()), old(registry.Model()), me, o)
    {
      raised := RequireState(ShutdownVerified, o);
      if raised { return; }
      raised := TrySeal(o);
      if raised { raised := RefuseCall(o); }
    }

    method TryPass(o: Outlook) returns (raised: bool)
      modifies this
      ensures Now(raised) == PassInner(old(Ev()), old(registry.Model()), me, o)
    {
      var built := BuildLedger(o(FirstLedger));
      if !built || !o(Reread) { return true; }
      raised := CheckDirectory(o(LateCapability), o(LatePath));
      if raised { return; }
      state := Validated;
      built := BuildLedger(o(SecondLedger));
      if !built || !o(Write) { return true; }
      summaryPass := true;
      built := BuildLedger(o(FinalLedger));
      if !o(SealRecheck) || !built { return true; }
      raised := CheckDirectory(o(LastCapability), o(LastPath));
      if raised { return; }
      state, summaryAvailable := Pass, true;
    }

    method DoPass(o: Outlook) returns (raised: bool)
      modifies this
      ensures Now(raised) == PassBody(old(Ev()), old(registry.Model()), me, o)
    {
      raised := RequireState(EvidenceSealed, o);
      if raised { return; }
      raised := TryPass(o);
      if raised { raised := RefuseCall(o); }
    }

    method DoClose(o: Outlook) returns (raised: bool)
      modifies this
      ensures Now(raised) == CloseBody(old(Ev()), old(registry.Model()), o)
    {
      if closed { return false; }
      raised := CheckCapability(o(EntryCapability));
      if raised { return false; }
      if state != Pass && state != Fail {
        raised := FinishFailure(o(FailCapability), o(FailWrite));
      }
      closed := true;
    }

    method Dispatch(op: Op, o: Outlook) returns (raised: bool)
      modifies this, registry
      ensures Now(raised) == Body(op, old(Ev()), old(registry.Model()), me, o)
    {
      match op
      case WriteManifest => raised := DoManifest(o);
      case AcceptExactSix(a) => raised := DoExactSix(a, o);
      case WriteExactSixResult =>
        raised := RequireState(ManifestFinalized, o);
        if !raised { raised := RefuseCall(o); }
      case WritePrerequisites => raised := DoPrerequisites(o);
      case BeginRun => raised := DoBegin(o);
      case AcceptDelivery(a) => raised := DoDelivery(a, o);
      case AppendStream(s) => raised := DoAppend(s, o);
      case WriteLog => raised := DoLog(o);
      case RecordShutdown => raised := DoShutdown(o);
      case Seal => raised := DoSeal(o);
      case FinishPass => raised := DoPass(o);
      case FinishFail => raised := FinishFailure(o(FailCapability), o(FailWrite));
      case Close => raised := DoClose(o);
    }

    method EnterCall(op: Op, o: Outlook) returns (raised: bool)
      modifies this, registry
      ensures Now(raised) == Enter(op, old(Ev()), old(registry.Model()), me, o)
    {
      raised := CheckDirectory(o(EntryCapability), o(EntryPath));
      if !raised {
        assert Ev() == old(Ev()) && registry.Model() == old(registry.Model());
        raised := Dispatch(op, o);
      }
    }

    /** A public call through the terminal-mutation guard. */
    method Perform(op: Op, o: Outlook) returns (raised: bool)
      modifies this, registry
      ensures Now(raised) == Call(op, old(Ev()), old(registry.Model()), me, o)
    {
      if !Guarded(op) {
        raised := Dispatch(op, o);
        return;
      }
      raised := EnterCall(op, o);
      if raised {
        raised := FinishFailure(o(OuterCapability), o(FailWrite));
        raised := true;
      }
    }
  }

  /** One event on the objects: an authority is issued once, anyone may consume, and the
      evidence of this run is called. */
  method Happen(evidence: EvidenceDirectory, e: Event, ghost w: World)
    requires evidence.Ev() == w.ev && evidence.registry.Model() == w.reg
    requires e.IssueSix? ==> e.authority !in w.sixIssued
    requires e.IssueDelivery? ==> e.authority !in w.deliveryIssued
    modifies evidence, evidence.registry
    ensures evidence.Ev() == Step(w, e, evidence.me).ev
    ensures evidence.registry.Model() == Step(w, e, evidence.me).reg
  {
    var registry := evidence.registry;
    match e
    case IssueSix(a, owner) => registry.IssueExactSix(a, owner);
    case IssueDelivery(a, owner) => registry.IssueDelivery(a, owner);
    case ForeignSix(a, owner) =>
      if owner != evidence.me {
        var refused := registry.ConsumeExactSix(a, owner);
      }
    case ForeignDelivery(a, owner) =>
      if owner != evidence.me {
        var refused := registry.ConsumeDelivery(a, owner);
      }
    case Invoke(op, o) => var raised := evidence.Perform(op, o);
  }

  /** An authority is a new object; one that is there already is not issued again. */
  predicate Reissues(e: Event, six: set<nat>, deliveries: set<nat>) {
    (e.IssueSix? && e.authority in six) || (e.IssueDelivery? && e.authority in deliveries)
  }

  lemma IssuedBy(w: World, e: Event, me: nat)
    ensures Step(w, e, me).sixIssued.Keys == w.sixIssued.Keys + if e.IssueSix? then {e.authority} else {}
    ensures Step(w, e, me).deliveryIssued.Keys == w.deliveryIssued.Keys + if e.IssueDelivery? then {e.authority} else {}
    ensures Reissues(e, w.sixIssued.Keys, w.deliveryIssued.Keys) ==> Step(w, e, me) == w
  {
  }

  /** A whole run on fresh objects. Where it ends, Fail was never left, Pass was earned and checked, and
      the stored word agrees with the state if failures could be recorded. */
  method Replay(events: seq<Event>, me: nat) returns (evidence: EvidenceDirectory)
    ensures evidence.me == me && evidence.Ev() == Run(events, me).ev
    ensures forall k :: 0 <= k <= |events| && Run(events[..k], me).ev.state == Fail ==> evidence.state == Fail
    ensures evidence.state == Pass ==> exists six, delivery :: Qualified(Run(events, me), me, six, delivery)
    ensures evidence.state == Pass ==> exists sealed, passed :: SealedThenPassed(events, sealed, passed)
    ensures Recorded(events) ==> (evidence.summaryPass <==> evidence.state == Pass)
  {
    hide Step, Call;
    var registry := new AuthorityRegistry();
    evidence := new EvidenceDirectory(me, registry);
    var six, deliveries := {}, {};
    for i := 0 to |events|
      invariant fresh(evidence) && fresh(evidence.registry) && evidence.me == me
      invariant evidence.Ev() == Run(events[..i], me).ev && evidence.registry.Model() == Run(events[..i], me).reg
      invariant six == Run(events[..i], me).sixIssued.Keys && deliveries == Run(events[..i], me).deliveryIssued.Keys
    {
      assert events[..i + 1][..i] == events[..i];
      IssuedBy(Run(events[..i], me), events[i], me);
      if !Reissues(events[i], six, deliveries) {
        Happen(evidence, events[i], Run(events[..i], me));
      }
      if events[i].IssueSix? {
        six := six + {events[i].authority};
      }
      if events[i].IssueDelivery? {
        deliveries := deliveries + {events[i].authority};
      }
    }
    assert events[..|events|] == events;
    forall k | 0 <= k <= |events| && Run(events[..k], me).ev.state == Fail ensures evidence.state == Fail {
      FailIsFinal(events, k, me);
    }
    if evidence.state == Pass {
      ghost var six, delivery := PassHistory(events, me);
      assert Qualified(Run(events, me), me, six, delivery);
      ghost var sealed, passed := PassWasChecked(events, me);
    }
    if Recorded(events) {
      SummaryTellsState(events, me);
    }
  }
}
