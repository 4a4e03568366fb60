/** Safety of the evidence machine over whole runs: any sequence of calls on one Evidence
    with any outlook, interleaved with authorities being issued and with other Evidence
    objects consuming theirs. */
module EvidenceRuns {
  import opened Counting
  import opened EvidenceMachine

  /** A call that succeeded and moved the qualification forward. */
  datatype Milestone =
    | Manifest
    | ExactSix(authority: nat)
    | Prerequisites
    | Begun
    | Delivered(delivery: nat)
    | ShutDown
    | Sealed
    | Passed

  datatype Use = SixUse(authority: nat, owner: nat) | DeliveryUse(authority: nat, owner: nat)

  datatype Event =
    | IssueSix(authority: nat, owner: nat)
    | IssueDelivery(authority: nat, owner: nat)
    | ForeignSix(authority: nat, owner: nat)
    | ForeignDelivery(authority: nat, owner: nat)
    | Invoke(op: Op, outlook: Outlook)

  /** The machine, the registries, every authority ever issued, and two logs: the
      milestones this Evidence reached and the authorities anyone consumed. */
  datatype World = World(ev: Evidence, reg: Registry, sixIssued: map<nat, nat>, deliveryIssued: map<nat, nat>,
                         log: seq<Milestone>, uses: seq<Use>)

  const START := World(FRESH, Registry(map[], map[], map[]), map[], map[], [], [])

  function MilestoneOf(op: Op): seq<Milestone> {
    match op
    case WriteManifest => [Manifest]
    case AcceptExactSix(a) => if a.Some? then [ExactSix(a.value)] else []
    case WritePrerequisites => [Prerequisites]
    case BeginRun => [Begun]
    case AcceptDelivery(a) => if a.Some? then [Delivered(a.value)] else []
    case RecordShutdown => [ShutDown]
    case Seal => [Sealed]
    case FinishPass => [Passed]
    case _ => []
  }

  /** The authority this call took out of a registry, if it did. */
  function UseOf(op: Op, before: Registry, after: Registry, me: nat): seq<Use> {
    match op
    case AcceptExactSix(Some(a)) => if a in before.exactSix && a !in after.exactSix then [SixUse(a, me)] else []
    case AcceptDelivery(Some(a)) => if a in before.delivery && a !in after.delivery then [DeliveryUse(a, me)] else []
    case _ => []
  }

  function Step(w: World, e: Event, me: nat): World {
    match e
    case IssueSix(a, owner) =>
      if a in w.sixIssued then w else
        w.(reg := w.reg.(exactSix := w.reg.exactSix[a := owner]), sixIssued := w.sixIssued[a := owner])
    case IssueDelivery(a, owner) =>
      if a in w.deliveryIssued then w else
        w.(reg := w.reg.(delivery := w.reg.delivery[a := owner]), deliveryIssued := w.deliveryIssued[a := owner])
    case ForeignSix(a, owner) =>
      if owner == me || a !in w.reg.exactSix || w.reg.exactSix[a] != owner then w else
        w.(reg := w.reg.(exactSix := w.reg.exactSix - {a}, provenance := w.reg.provenance[a := owner]),
           uses := w.uses + [SixUse(a, owner)])
    case ForeignDelivery(a, owner) =>
      if owner == me || a !in w.reg.delivery || w.reg.delivery[a] != owner then w else
        w.(reg := w.reg.(delivery := w.reg.delivery - {a}), uses := w.uses + [DeliveryUse(a, owner)])
    case Invoke(op, o) => Invoked(w, op, Call(op, w.ev, w.reg, me, o), me)
  }

  function Invoked(w: World, op: Op, r: Attempt, me: nat): World {
    w.(ev := r.ev, reg := r.reg,
       log := w.log + (if r.Done? then MilestoneOf(op) else []),
       uses := w.uses + UseOf(op, w.reg, r.reg, me))
  }

  function Run(events: seq<Event>, me: nat): World {
    if events == [] then START else Step(Run(events[..|events| - 1], me), events[|events| - 1], me)
  }

  function MyUses(uses: seq<Use>, me: nat): seq<Use> {
    if uses == [] then [] else
      MyUses(uses[..|uses| - 1], me) + (if uses[|uses| - 1].owner == me then [uses[|uses| - 1]] else [])
  }

  // ---------------------------------------------------------------- the registries

  /** Every authority is consumed at most once, by the Evidence it was issued to, and
      from then on it is no longer on record. */
  ghost predicate OneShot(w: World) {
    && (forall i, j :: 0 <= i < j < |w.uses| ==> w.uses[i] != w.uses[j])
    && (forall i :: 0 <= i < |w.uses| ==> match w.uses[i]
        case SixUse(a, owner) => a in w.sixIssued && w.sixIssued[a] == owner && a !in w.reg.exactSix
        case DeliveryUse(a, owner) => a in w.deliveryIssued && w.deliveryIssued[a] == owner && a !in w.reg.delivery)
    && (forall a :: a in w.reg.exactSix ==> a in w.sixIssued && w.sixIssued[a] == w.reg.exactSix[a])
    && (forall a :: a in w.reg.delivery ==> a in w.deliveryIssued && w.deliveryIssued[a] == w.reg.delivery[a])
  }

  // ---------------------------------------------------------------- the stages

  /** The milestones a state stands for. */
  function Reached(ev: Evidence): seq<Milestone> {
    var six := if ev.provenance.Some? then [ExactSix(ev.provenance.value)] else [];
    var delivered := if ev.deliverySeal.Some? then [Delivered(ev.deliverySeal.value)] else [];
    match ev.state
    case InitialFail => []
    case ManifestFinalized => [Manifest] + six
    case PrerequisitesVerified => [Manifest] + six + [Prerequisites]
    case Running => [Manifest] + six + [Prerequisites, Begun] + delivered
    case ShutdownVerified => [Manifest] + six + [Prerequisites, Begun] + delivered + [ShutDown]
    case EvidenceSealed => [Manifest] + six + [Prerequisites, Begun] + delivered + [ShutDown, Sealed]
    case Pass => [Manifest] + six + [Prerequisites, Begun] + delivered + [ShutDown, Sealed, Passed]
    case Validated => []
    case Fail => []
  }

  function Consumed(ev: Evidence, me: nat): seq<Use> {
    (if ev.provenance.Some? then [SixUse(ev.provenance.value, me)] else []) +
    (if ev.deliverySeal.Some? then [DeliveryUse(ev.deliverySeal.value, me)] else [])
  }

  predicate Started(s: RunState) { s == Running || s == ShutdownVerified || s == EvidenceSealed || s == Pass }

  /** What holds of the Evidence at every method boundary. */
  ghost predicate Stage(ev: Evidence) {
    && ev.state != Validated
    && (ev.closed ==> ev.Terminal())
    && (ev.summaryAvailable ==> ev.Terminal() && (ev.summaryPass <==> ev.state == Pass))
    && (ev.state == Pass ==> ev.summaryPass)
    && (ev.state != Fail ==>
          && (ev.summaryPass ==> ev.state == Pass)
          && (ev.state == InitialFail ==> ManifestFile !in ev.files && ev.provenance.None?)
          && (ExactSixFile in ev.files <==> ev.provenance.Some?)
          && (DeliveryFile in ev.files <==> ev.deliverySeal.Some?)
          && (ev.state == PrerequisitesVerified || Started(ev.state) ==> ev.provenance.Some?)
          && (ev.deliverySeal.Some? ==> Started(ev.state))
          && (ev.state == EvidenceSealed || ev.state == Pass ==> REQUIRED <= ev.files))
  }

  /** While the machine has not failed, the logs are exactly what its state stands for. */
  ghost predicate LogsAgree(w: World, me: nat) {
    w.ev.state != Fail ==> w.log == Reached(w.ev) && MyUses(w.uses, me) == Consumed(w.ev, me)
  }

  ghost predicate Inv(w: World, me: nat) {
    && OneShot(w)
    && Stage(w.ev)
    && LogsAgree(w, me)
  }

  // ---------------------------------------------------------------- one call

  /** An exception in flight out of a live machine: either the failure is already on
      record, or nothing terminal has been announced yet. */
  ghost predicate InFlight(ev: Evidence) {
    if ev.state == Fail then ev.summaryAvailable ==> !ev.summaryPass
    else !ev.Terminal() && !ev.closed && !ev.summaryAvailable
  }

  /** A registry changes only by giving up the authority this call presented, and only
      when that authority is bound to this Evidence. */
  ghost predicate TakesOwn(op: Op, before: Registry, after: Registry, me: nat) {
    && (after.exactSix == before.exactSix ||
        (op.AcceptExactSix? && op.authority.Some? && op.authority.value in before.exactSix &&
         before.exactSix[op.authority.value] == me && after.exactSix == before.exactSix - {op.authority.value}))
    && (after.delivery == before.delivery ||
        (op.AcceptDelivery? && op.delivery.Some? && op.delivery.value in before.delivery &&
         before.delivery[op.delivery.value] == me && after.delivery == before.delivery - {op.delivery.value}))
  }

  /** Success is one step forward: the state, its milestones and the consumed
      authorities all advance together. */
  ghost predicate Advances(op: Op, ev: Evidence, reg: Registry, me: nat, r: Attempt) {
    && Stage(r.ev)
    && (r.ev.state == Fail ==> !Guarded(op))
    && (r.ev.state != Fail ==>
          && Reached(r.ev) == Reached(ev) + MilestoneOf(op)
          && Consumed(r.ev, me) == Consumed(ev, me) + UseOf(op, reg, r.reg, me))
  }

  /** What a guarded body does from a live, open machine. */
  ghost predicate Sound(op: Op, ev: Evidence, reg: Registry, me: nat, r: Attempt) {
    && TakesOwn(op, reg, r.reg, me)
    && (if r.Done? then Advances(op, ev, reg, me, r) else InFlight(r.ev))
  }

  ghost predicate Live(ev: Evidence) { Stage(ev) && !ev.Terminal() && !ev.closed }

  lemma RefuseInFlight(ev: Evidence, reg: Registry, o: Outlook)
    requires InFlight(ev)
    ensures InFlight(Refuse(ev, reg, o).ev) && Refuse(ev, reg, o).Raised? && Refuse(ev, reg, o).reg == reg
    ensures Refuse(ev, reg, o).ev.state == Fail
  {
  }

  lemma ManifestSound(ev: Evidence, reg: Registry, me: nat, o: Outlook)
    requires Live(ev)
    ensures Sound(WriteManifest, ev, reg, me, ManifestBody(ev, reg, o))
  {
    RefuseInFlight(ev, reg, o);
  }

  lemma ExactSixSound(ev: Evidence, reg: Registry, me: nat, a: Option<nat>, o: Outlook)
    requires Live(ev)
    ensures Sound(AcceptExactSix(a), ev, reg, me, ExactSixBody(ev, reg, me, a, o))
  {
    RefuseInFlight(ev, reg, o);
    if a.Some? {
      var taken := reg.(exactSix := reg.exactSix - {a.value}, provenance := reg.provenance[a.value := me]);
      RefuseInFlight(ev, taken, o);
    }
  }

  lemma PrerequisitesSound(ev: Evidence, reg: Registry, me: nat, o: Outlook)
    requires Live(ev)
    ensures Sound(WritePrerequisites, ev, reg, me, PrerequisitesBody(ev, reg, o))
  {
    RefuseInFlight(ev, reg, o);
  }

  lemma BeginSound(ev: Evidence, reg: Registry, me: nat, o: Outlook)
    requires Live(ev)
    ensures Sound(BeginRun, ev, reg, me, BeginBody(ev, reg, o))
  {
    RefuseInFlight(ev, reg, o);
  }

  lemma DeliverySound(ev: Evidence, reg: Registry, me: nat, a: Option<nat>, o: Outlook)
    requires Live(ev)
    ensures Sound(AcceptDelivery(a), ev, reg, me, DeliveryBody(ev, reg, me, a, o))
  {
    RefuseInFlight(ev, reg, o);
    if a.Some? {
      var taken := reg.(delivery := reg.delivery - {a.value});
    }
  }

  lemma StreamSound(ev: Evidence, reg: Registry, me: nat, s: Option<Artifact>, o: Outlook)
    requires Live(ev)
    ensures Sound(AppendStream(s), ev, reg, me, StreamBody(ev, reg, s, o))
  {
    RefuseInFlight(ev, reg, o);
  }

  lemma LogSound(ev: Evidence, reg: Registry, me: nat, o: Outlook)
    requires Live(ev)
    ensures Sound(WriteLog, ev, reg, me, LogBody(ev, reg, o))
  {
    RefuseInFlight(ev, reg, o);
  }

  lemma ShutdownSound(ev: Evidence, reg: Registry, me: nat, o: Outlook)
    requires Live(ev)
    ensures Sound(RecordShutdown, ev, reg, me, ShutdownBody(ev, reg, o))
  {
    RefuseInFlight(ev, reg, o);
  }

  lemma SealSound(ev: Evidence, reg: Registry, me: nat, o: Outlook)
    requires Live(ev)
    ensures Sound(Seal, ev, reg, me, SealBody(ev, reg, me, o))
  {
    RefuseInFlight(ev, reg, o);
    if ev.state == ShutdownVerified {
      var r := SealInner(ev, reg, me, o);
      if r.Raised? {
        RefuseInFlight(r.ev, r.reg, o);
      }
    }
  }

  lemma PassSound(ev: Evidence, reg: Registry, me: nat, o: Outlook)
    requires Live(ev)
    ensures Sound(FinishPass, ev, reg, me, PassBody(ev, reg, me, o))
  {
    RefuseInFlight(ev, reg, o);
    if ev.state == EvidenceSealed {
      var r := PassInner(ev, reg, me, o);
      if r.Raised? {
        RefuseInFlight(r.ev, r.reg, o);
      }
    }
  }

  lemma BodySound(op: Op, ev: Evidence, reg: Registry, me: nat, o: Outlook)
    requires Live(ev) && Guarded(op)
    ensures Sound(op, ev, reg, me, Body(op, ev, reg, me, o))
  {
    match op
    case WriteManifest => ManifestSound(ev, reg, me, o);
    case AcceptExactSix(a) => ExactSixSound(ev, reg, me, a, o);
    case WriteExactSixResult => RefuseInFlight(ev, reg, o);
    case WritePrerequisites => PrerequisitesSound(ev, reg, me, o);
    case BeginRun => BeginSound(ev, reg, me, o);
    case AcceptDelivery(a) => DeliverySound(ev, reg, me, a, o);
    case AppendStream(s) => StreamSound(ev, reg, me, s, o);
    case WriteLog => LogSound(ev, reg, me, o);
    case RecordShutdown => ShutdownSound(ev, reg, me, o);
    case Seal => SealSound(ev, reg, me, o);
    case FinishPass => PassSound(ev, reg, me, o);
  }

  /** One call, at any method boundary: Fail stays Fail; Pass stays Pass or loses the
      capability; from any other state a call either advances by one step or ends in
      Fail, and a guarded call that raises always ends in Fail. */
  ghost predicate Lawful(op: Op, ev: Evidence, reg: Registry, me: nat, r: Attempt) {
    && Stage(r.ev)
    && TakesOwn(op, reg, r.reg, me)
    && (ev.Terminal() ==> r.reg == reg)
    && (ev.state == Fail ==> r.ev.state == Fail)
    && (ev.state == Pass ==>
          (r.ev == ev || r.ev == ev.(closed := true) || r.ev == ev.Invalidate()) && (Guarded(op) ==> r.Raised?))
    && (!ev.Terminal() && Guarded(op) ==>
          (r.Done? <==> r.ev.state != Fail) && (r.Done? ==> Advances(op, ev, reg, me, r)))
    && (!Guarded(op) ==> r.reg == reg && (r.ev.state == Fail || (ev.Terminal() && r.ev.state == Pass)))
  }

  lemma CallOutcome(op: Op, ev: Evidence, reg: Registry, me: nat, o: Outlook)
    requires Stage(ev)
    ensures Lawful(op, ev, reg, me, Call(op, ev, reg, me, o))
  {
    if !Guarded(op) {
      UnguardedLawful(op, ev, reg, me, o);
    } else if ev.Terminal() {
      hide Body, Enter, Settle, Lawful;
      EnterRefuses(op, ev, reg, me, o);
      SettledTerminal(op, ev, reg, me, Enter(op, ev, reg, me, o), o);
    } else {
      hide Body, Settle, Lawful;
      BodySound(op, ev, reg, me, o);
      SettledLive(op, ev, reg, me, Enter(op, ev, reg, me, o), o);
    }
  }

  /** From a terminal machine a guarded call refuses and can only lose the capability. */
  lemma EnterRefuses(op: Op, ev: Evidence, reg: Registry, me: nat, o: Outlook)
    requires Guarded(op) && ev.Terminal()
    ensures var r := Enter(op, ev, reg, me, o);
            r.Raised? && r.reg == reg && (r.ev == ev || r.ev == ev.Invalidate())
  {
  }

  lemma UnguardedLawful(op: Op, ev: Evidence, reg: Registry, me: nat, o: Outlook)
    requires Stage(ev) && !Guarded(op)
    ensures Lawful(op, ev, reg, me, Body(op, ev, reg, me, o))
  {
  }

  lemma SettledTerminal(op: Op, ev: Evidence, reg: Registry, me: nat, r: Attempt, o: Outlook)
    requires Stage(ev) && ev.Terminal() && Guarded(op)
    requires r.Raised? && r.reg == reg && (r.ev == ev || r.ev == ev.Invalidate())
    ensures Lawful(op, ev, reg, me, Settle(r, o))
  {
  }

  lemma SettledLive(op: Op, ev: Evidence, reg: Registry, me: nat, r: Attempt, o: Outlook)
    requires Live(ev) && Guarded(op) && Sound(op, ev, reg, me, r)
    ensures Lawful(op, ev, reg, me, Settle(r, o))
  {
  }

  lemma OneShotInvoked(w: World, op: Op, r: Attempt, me: nat)
    requires OneShot(w) && TakesOwn(op, w.reg, r.reg, me)
    ensures OneShot(Invoked(w, op, r, me))
  {
  }

  lemma OneShotIssued(w: World, e: Event, me: nat)
    requires OneShot(w) && !e.Invoke?
    ensures OneShot(Step(w, e, me))
  {
  }

  lemma InvokedKeepsLogs(w: World, op: Op, r: Attempt, me: nat)
    requires LogsAgree(w, me) && Lawful(op, w.ev, w.reg, me, r)
    ensures LogsAgree(Invoked(w, op, r, me), me)
  {
    if r.ev.state != Fail {
      var used := UseOf(op, w.reg, r.reg, me);
      if used == [] {
        assert w.uses + used == w.uses;
      } else {
        assert used == [used[0]];
      }
      if w.ev.state == Pass {
        assert w.log + [] == w.log;
      }
    }
  }

  lemma InvokedKeepsInv(w: World, op: Op, r: Attempt, me: nat)
    requires Inv(w, me) && Lawful(op, w.ev, w.reg, me, r)
    ensures Inv(Invoked(w, op, r, me), me)
  {
    OneShotInvoked(w, op, r, me);
    InvokedKeepsLogs(w, op, r, me);
  }

  lemma StepKeepsInv(w: World, e: Event, me: nat)
    requires Inv(w, me)
    ensures Inv(Step(w, e, me), me)
  {
    if e.Invoke? {
      CallOutcome(e.op, w.ev, w.reg, me, e.outlook);
      InvokedKeepsInv(w, e.op, Call(e.op, w.ev, w.reg, me, e.outlook), me);
    } else {
      OneShotIssued(w, e, me);
    }
  }

  lemma {:induction false} RunKeepsInv(events: seq<Event>, me: nat)
    ensures Inv(Run(events, me), me)
  {
    if events != [] {
      RunKeepsInv(events[..|events| - 1], me);
      StepKeepsInv(Run(events[..|events| - 1], me), events[|events| - 1], me);
    }
  }

  // ---------------------------------------------------------------- theorems over runs

  lemma FailStays(w: World, e: Event, me: nat)
    requires Stage(w.ev) && w.ev.state == Fail
    ensures Step(w, e, me).ev.state == Fail
  {
    if e.Invoke? {
      CallOutcome(e.op, w.ev, w.reg, me, e.outlook);
    }
  }

  /** Fail is never left. */
  lemma {:induction false} FailIsFinal(events: seq<Event>, k: nat, me: nat)
    requires k <= |events| && Run(events[..k], me).ev.state == Fail
    ensures Run(events, me).ev.state == Fail
  {
    if k == |events| {
      assert events[..k] == events;
    } else {
      assert events[..|events| - 1][..k] == events[..k];
      FailIsFinal(events[..|events| - 1], k, me);
      RunKeepsInv(events[..|events| - 1], me);
      FailStays(Run(events[..|events| - 1], me), events[|events| - 1], me);
    }
  }

  /** One of the capability probes that this call makes from Pass fails: at the entry, when the
      refused call records its failure, or when the guard does. */
  predicate Loses(op: Op, o: Outlook) {
    match op
    case Close => !o(EntryCapability)
    case FinishFail => !o(FailCapability)
    case _ => !o(EntryCapability) || (o(EntryPath) && !o(FailCapability)) || !o(OuterCapability)
  }

  lemma PassLost(op: Op, ev: Evidence, reg: Registry, me: nat, o: Outlook)
    requires ev.state == Pass
    ensures Call(op, ev, reg, me, o).ev ==
            if !ev.closed && Loses(op, o) then ev.Invalidate()
            else if op == Close then ev.(closed := true)
            else ev
  {
    hide LedgerBuilds;
  }

  /** Pass is left exactly when a call on the open evidence finds the directory capability
      lost, and then the evidence is failed, closed and without a summary. */
  lemma {:induction false} PassLeftOnlyByLoss(events: seq<Event>, e: Event, me: nat)
    requires Run(events, me).ev.state == Pass
    ensures var before, after := Run(events, me).ev, Run(events + [e], me).ev;
            if e.Invoke? && !before.closed && Loses(e.op, e.outlook)
            then after.state == Fail && after.closed && !after.summaryAvailable
            else after.state == Pass && after.summaryAvailable == before.summaryAvailable
  {
    if e.Invoke? {
      PassLost(e.op, Run(events, me).ev, Run(events, me).reg, me, e.outlook);
    }
  }

  /** The state in which a guarded call is in order. */
  function Expected(op: Op): RunState {
    match op
    case WriteManifest => InitialFail
    case AcceptExactSix(_) => ManifestFinalized
    case WriteExactSixResult => ManifestFinalized
    case WritePrerequisites => ManifestFinalized
    case BeginRun => PrerequisitesVerified
    case AcceptDelivery(_) => Running
    case AppendStream(_) => Running
    case WriteLog => Running
    case RecordShutdown => Running
    case Seal => ShutdownVerified
    case FinishPass => EvidenceSealed
    case FinishFail => Fail
    case Close => Fail
  }

  /** An out-of-order call on a live machine ends in Fail, whatever the outside world
      does, and so does every call that raises. */
  lemma {:induction false} OutOfOrderFails(events: seq<Event>, op: Op, o: Outlook, me: nat)
    requires !Run(events, me).ev.Terminal() && Guarded(op)
    requires Run(events, me).ev.state != Expected(op) ||
             Call(op, Run(events, me).ev, Run(events, me).reg, me, o).Raised?
    ensures Run(events + [Invoke(op, o)], me).ev.state == Fail
  {
    RunKeepsInv(events, me);
    var w := Run(events, me);
    CallOutcome(op, w.ev, w.reg, me, o);
  }

  /** A run that ends in Pass went through every stage exactly once, in order, and this
      Evidence consumed exactly two authorities in the whole run, one of each kind, both
      issued to it; nobody else ever consumed either of them, and all required artifacts
      were written. */
  lemma {:induction false} PassHistory(events: seq<Event>, me: nat) returns (six: nat, delivery: nat)
    requires Run(events, me).ev.state == Pass
    ensures var w := Run(events, me);
            && w.log == [Manifest, ExactSix(six), Prerequisites, Begun, Delivered(delivery), ShutDown, Sealed, Passed]
            && MyUses(w.uses, me) == [SixUse(six, me), DeliveryUse(delivery, me)]
            && six in w.sixIssued && w.sixIssued[six] == me
            && delivery in w.deliveryIssued && w.deliveryIssued[delivery] == me
            && (forall other :: other != me ==>
                  SixUse(six, other) !in w.uses && DeliveryUse(delivery, other) !in w.uses)
            && REQUIRED <= w.ev.files
  {
    RunKeepsInv(events, me);
    six, delivery := PassMeans(Run(events, me), me);
  }

  /** The same, as a property of the world. */
  ghost predicate Qualified(w: World, me: nat, six: nat, delivery: nat) {
    && w.log == [Manifest, ExactSix(six), Prerequisites, Begun, Delivered(delivery), ShutDown, Sealed, Passed]
    && MyUses(w.uses, me) == [SixUse(six, me), DeliveryUse(delivery, me)]
    && six in w.sixIssued && w.sixIssued[six] == me && delivery in w.deliveryIssued && w.deliveryIssued[delivery] == me
  }

  lemma PassMeans(w: World, me: nat) returns (six: nat, delivery: nat)
    requires Inv(w, me) && w.ev.state == Pass
    ensures w.log == [Manifest, ExactSix(six), Prerequisites, Begun, Delivered(delivery), ShutDown, Sealed, Passed]
    ensures MyUses(w.uses, me) == [SixUse(six, me), DeliveryUse(delivery, me)]
    ensures six in w.sixIssued && w.sixIssued[six] == me
    ensures delivery in w.deliveryIssued && w.deliveryIssued[delivery] == me
    ensures forall other :: other != me ==> SixUse(six, other) !in w.uses && DeliveryUse(delivery, other) !in w.uses
    ensures REQUIRED <= w.ev.files
  {
    assert DeliveryFile in REQUIRED;
    six, delivery := w.ev.provenance.value, w.ev.deliverySeal.value;
    MyUsesAreUses(w.uses, me);
    assert SixUse(six, me) in MyUses(w.uses, me) && DeliveryUse(delivery, me) in MyUses(w.uses, me);
  }

  lemma {:induction false} MyUsesAreUses(uses: seq<Use>, me: nat)
    ensures forall u :: u in MyUses(uses, me) ==> u in uses && u.owner == me
  {
    if uses != [] {
      MyUsesAreUses(uses[..|uses| - 1], me);
    }
  }

  /** The directory capability held and the failure summary could be written at every
      point of the run where they were needed; everything else may have failed. */
  ghost predicate Recorded(events: seq<Event>) {
    forall i :: 0 <= i < |events| && events[i].Invoke? ==> Steady(events[i].outlook)
  }

  ghost predicate Steady(o: Outlook) {
    && o(EntryCapability) && o(LateCapability) && o(LastCapability) && o(FailCapability) && o(OuterCapability)
    && o(FailWrite)
  }

  lemma SummaryStep(w: World, e: Event, me: nat)
    requires Stage(w.ev) && (w.ev.summaryPass <==> w.ev.state == Pass) && (e.Invoke? ==> Steady(e.outlook))
    ensures var after := Step(w, e, me).ev; after.summaryPass <==> after.state == Pass
  {
    if e.Invoke? {
      CallOutcome(e.op, w.ev, w.reg, me, e.outlook);
      if !w.ev.Terminal() && Guarded(e.op) && Call(e.op, w.ev, w.reg, me, e.outlook).Raised? {
        SteadyRaise(e.op, w.ev, w.reg, me, e.outlook);
      }
    }
  }

  /** With steady recording an exception always leaves a failure summary behind. */
  lemma SteadyRaise(op: Op, ev: Evidence, reg: Registry, me: nat, o: Outlook)
    requires Live(ev) && Guarded(op) && Steady(o) && !ev.summaryPass && Call(op, ev, reg, me, o).Raised?
    ensures !Call(op, ev, reg, me, o).ev.summaryPass
  {
    BodySound(op, ev, reg, me, o);
    CallOutcome(op, ev, reg, me, o);
  }

  /** While recording is steady, the stored summary reads PASS at every method boundary
      exactly when the machine is in Pass, however else the run goes wrong. */
  lemma {:induction false} SummaryTellsState(events: seq<Event>, me: nat)
    requires Recorded(events)
    ensures Run(events, me).ev.summaryPass <==> Run(events, me).ev.state == Pass
  {
    if events != [] {
      var n := |events| - 1;
      SummaryTellsState(events[..n], me);
      RunKeepsInv(events[..n], me);
      SummaryStep(Run(events[..n], me), events[n], me);
    }
  }
}
