/** Interrupts that the guard of the evidence mutations does not catch. One may strike between
    any two of a call's writes, so an interrupted call leaves some of them done: a prefix of its
    progress, then of the writes that record a failure, then of those that give the directory
    up. What survives any number of them, and what does not. */
module EvidenceInterrupts {
  import opened Counting
  import opened EvidenceMachine
  import opened EvidenceRuns

  /** How many writes of each kind were done, and whether a close got to its end. */
  datatype Point = Point(done: nat, failed: nat, lost: nat, shut: bool)

  // ------------------------------------------------------------ the writes of one call

  /** The registries after the first writes of an accepting call. */
  function TakenSix(reg: Registry, me: nat, a: nat, k: nat): Registry {
    var taken := if k >= 1 then reg.(exactSix := reg.exactSix - {a}) else reg;
    if k >= 2 then taken.(provenance := taken.provenance[a := me]) else taken
  }

  function WithFile(ev: Evidence, file: Artifact, k: nat, at: nat): Evidence {
    if k >= at then ev.(files := ev.files + {file}) else ev
  }

  function InState(ev: Evidence, state: RunState, k: nat, at: nat): Evidence {
    if k >= at then ev.(state := state) else ev
  }

  function PassWrites(ev: Evidence, k: nat): Evidence {
    if k == 0 then ev
    else if k == 1 then ev.(state := Validated)
    else if k == 2 then ev.(state := Validated, summaryPass := true)
    else if k == 3 then ev.(state := Pass, summaryPass := true)
    else ev.(state := Pass, summaryPass := true, summaryAvailable := true)
  }

  /** The first k writes of an orderly call, in the order the call makes them. A call out of
      order, or without what it checks for before it writes, makes none. */
  function Progress(op: Op, ev: Evidence, reg: Registry, me: nat, k: nat): (Evidence, Registry) {
    if ev.closed || ev.state != Expected(op) then (ev, reg) else match op
      case WriteManifest =>
        if ManifestFile in ev.files then (ev, reg)
        else (InState(WithFile(ev, ManifestFile, k, 1), ManifestFinalized, k, 2), reg)
      case AcceptExactSix(Some(a)) =>
        if a !in reg.exactSix || reg.exactSix[a] != me then (ev, reg)
        else if ExactSixFile in ev.files then (ev, TakenSix(reg, me, a, k))
        else
          var written := WithFile(ev, ExactSixFile, k, 3);
          (if k >= 4 then written.(provenance := Some(a)) else written, TakenSix(reg, me, a, k))
      case WritePrerequisites =>
        if ExactSixFile !in ev.files || PrerequisitesFile in ev.files then (ev, reg)
        else (InState(WithFile(ev, PrerequisitesFile, k, 1), PrerequisitesVerified, k, 2), reg)
      case BeginRun => (InState(ev, Running, k, 1), reg)
      case AcceptDelivery(Some(a)) =>
        if a !in reg.delivery || reg.delivery[a] != me then (ev, reg) else
          var taken := if k >= 1 then reg.(delivery := reg.delivery - {a}) else reg;
          if DeliveryFile in ev.files then (ev, taken) else
            var written := WithFile(ev, DeliveryFile, k, 2);
            (if k >= 3 then written.(deliverySeal := Some(a)) else written, taken)
      case AppendStream(Some(SamplesFile)) => (WithFile(ev, SamplesFile, k, 1), reg)
      case AppendStream(Some(FaultsFile)) => (WithFile(ev, FaultsFile, k, 1), reg)
      case WriteLog => (WithFile(ev, LogIndexFile, k, 1), reg)
      case RecordShutdown =>
        if ShutdownFile in ev.files then (ev, reg)
        else (InState(WithFile(ev, ShutdownFile, k, 1), ShutdownVerified, k, 2), reg)
      case Seal =>
        if !LedgerBuilds(ev, reg, me, true) then (ev, reg)
        else (InState(WithFile(ev, LedgerFile, k, 1), EvidenceSealed, k, 2), reg)
      case FinishPass => if !LedgerBuilds(ev, reg, me, true) then (ev, reg) else (PassWrites(ev, k), reg)
      case _ => (ev, reg)
  }

  /** The writes of finish_fail: the state, then the stored summary, then its availability. */
  function Failing(ev: Evidence, f: nat): Evidence {
    if f == 0 || ev.closed || ev.Terminal() then ev
    else if f == 1 then ev.(state := Fail)
    else if f == 2 then ev.(state := Fail, summaryPass := false)
    else ev.(state := Fail, summaryPass := false, summaryAvailable := true)
  }

  /** The writes that give up a directory that is no longer the owned one. */
  function Losing(ev: Evidence, l: nat): Evidence {
    if l == 0 || ev.closed then ev
    else if l == 1 then ev.(state := Fail)
    else if l == 2 then ev.(state := Fail, summaryAvailable := false)
    else ev.Invalidate()
  }

  function Shutting(op: Op, ev: Evidence, shut: bool): Evidence {
    if op == Close && shut then ev.(closed := true) else ev
  }

  /** What a call leaves when it is cut off at a point. */
  function Cut(op: Op, ev: Evidence, reg: Registry, me: nat, p: Point): (Evidence, Registry) {
    var (mid, after) := Progress(op, ev, reg, me, p.done);
    (Shutting(op, Losing(Failing(mid, p.failed), p.lost), p.shut), after)
  }

  // ------------------------------------------------------------ whole calls are such points

  /** How far the failure writes got, told from the state before and after them. */
  function TailOf(mid: Evidence, after: Evidence): (nat, nat) {
    if mid.closed || after == mid then (0, 0)
    else if after.closed then (if mid.summaryPass && !after.summaryPass then 3 else 0, 3)
    else (if after.summaryAvailable then 3 else 1, 0)
  }

  /** An exception in flight, or what recording it as a failure made of it. */
  ghost predicate Tails(mid: Evidence, after: Evidence) {
    var (f, l) := TailOf(mid, after); after == Losing(Failing(mid, f), l)
  }

  /** Recording a failure, once or again, only makes those writes. */
  lemma FailTails(mid: Evidence, ev: Evidence, reg: Registry, held: bool, written: bool)
    requires Tails(mid, ev) && (!mid.Terminal() ==> !mid.summaryAvailable)
    ensures Tails(mid, FailStep(ev, reg, held, written).ev) && FailStep(ev, reg, held, written).reg == reg
  {
  }

  /** An announced summary belongs to a terminal state. */
  predicate Sane(ev: Evidence) { ev.summaryAvailable ==> ev.Terminal() }

  /** The attempt made the first k writes, and after an exception those that record it. */
  ghost predicate FollowsAt(op: Op, ev: Evidence, reg: Registry, me: nat, r: Attempt, k: nat) {
    var (mid, after) := Progress(op, ev, reg, me, k);
    r.reg == after && if r.Done? then r.ev == mid else Tails(mid, r.ev)
  }

  /** The ways a call leaves its progress: with an exception, after a refusal of its own, or
      through the check of the directory. */
  lemma Exits(mid: Evidence, reg: Registry, o: Outlook)
    requires Sane(mid)
    ensures Tails(mid, mid)
    ensures var r := Refuse(mid, reg, o); r.Raised? && r.reg == reg && Tails(mid, r.ev)
    ensures var r := AssertDirectory(mid, reg, o(LateCapability), o(LatePath));
            r.reg == reg && (r.Done? ==> r.ev == mid) && Tails(mid, r.ev)
  {
  }

  lemma ManifestFollows(ev: Evidence, reg: Registry, me: nat, o: Outlook) returns (k: nat)
    requires !ev.closed && Sane(ev)
    ensures FollowsAt(WriteManifest, ev, reg, me, ManifestBody(ev, reg, o), k)
  {
    var r, written := ManifestBody(ev, reg, o), ev.(files := ev.files + {ManifestFile});
    Exits(ev, reg, o);
    if ev.state == InitialFail {
      Exits(written, reg, o);
    }
    hide Tails, Refuse, AssertDirectory;
    k := if r.Done? then 2
         else if ev.state == InitialFail && o(Payload) && o(Policy) && ManifestFile !in ev.files && o(Write) then 1
         else 0;
  }

  lemma ExactSixFollows(ev: Evidence, reg: Registry, me: nat, a: Option<nat>, o: Outlook) returns (k: nat)
    requires !ev.closed && Sane(ev)
    ensures FollowsAt(AcceptExactSix(a), ev, reg, me, ExactSixBody(ev, reg, me, a, o), k)
  {
    k := 0;
    if ev.state == ManifestFinalized && a.Some? && a.value in reg.exactSix && reg.exactSix[a.value] == me {
      k := ExactSixTaken(ev, reg, me, a.value, o);
    } else {
      Exits(ev, reg, o);
      hide Tails, Refuse, AssertDirectory;
    }
  }

  lemma ExactSixTaken(ev: Evidence, reg: Registry, me: nat, a: nat, o: Outlook) returns (k: nat)
    requires !ev.closed && Sane(ev) && ev.state == ManifestFinalized && a in reg.exactSix && reg.exactSix[a] == me
    ensures FollowsAt(AcceptExactSix(Some(a)), ev, reg, me, ExactSixBody(ev, reg, me, Some(a), o), k)
  {
    var taken := TakenSix(reg, me, a, 2);
    Exits(ev, taken, o);
    Exits(ev.(files := ev.files + {ExactSixFile}), taken, o);
    hide Tails, Refuse, AssertDirectory;
    var r := ExactSixBody(ev, reg, me, Some(a), o);
    k := if r.Done? then 4 else if o(Payload) && ExactSixFile !in ev.files && o(Write) then 3 else 2;
  }

  lemma PrerequisitesFollows(ev: Evidence, reg: Registry, me: nat, o: Outlook) returns (k: nat)
    requires !ev.closed && Sane(ev)
    ensures FollowsAt(WritePrerequisites, ev, reg, me, PrerequisitesBody(ev, reg, o), k)
  {
    var r, written := PrerequisitesBody(ev, reg, o), ev.(files := ev.files + {PrerequisitesFile});
    Exits(ev, reg, o);
    if ev.state == ManifestFinalized {
      Exits(written, reg, o);
    }
    hide Tails, Refuse, AssertDirectory;
    var clear := o(Payload) && o(Policy) && ExactSixFile in ev.files && o(Reread) && PrerequisitesFile !in ev.files;
    k := if r.Done? then 2 else if ev.state == ManifestFinalized && clear && o(Write) then 1 else 0;
  }

  lemma BeginFollows(ev: Evidence, reg: Registry, me: nat, o: Outlook) returns (k: nat)
    requires !ev.closed && Sane(ev)
    ensures FollowsAt(BeginRun, ev, reg, me, BeginBody(ev, reg, o), k)
  {
    Exits(ev, reg, o);
    hide Tails, Refuse, AssertDirectory;
    k := if BeginBody(ev, reg, o).Done? then 1 else 0;
  }

  lemma DeliveryFollows(ev: Evidence, reg: Registry, me: nat, a: Option<nat>, o: Outlook) returns (k: nat)
    requires !ev.closed && Sane(ev)
    ensures FollowsAt(AcceptDelivery(a), ev, reg, me, DeliveryBody(ev, reg, me, a, o), k)
  {
    k := 0;
    if ev.state == Running && a.Some? && a.value in reg.delivery && reg.delivery[a.value] == me {
      k := DeliveryTaken(ev, reg, me, a.value, o);
    } else {
      Exits(ev, reg, o);
      hide Tails, Refuse, AssertDirectory;
    }
  }

  lemma DeliveryTaken(ev: Evidence, reg: Registry, me: nat, a: nat, o: Outlook) returns (k: nat)
    requires !ev.closed && Sane(ev) && ev.state == Running && a in reg.delivery && reg.delivery[a] == me
    ensures FollowsAt(AcceptDelivery(Some(a)), ev, reg, me, DeliveryBody(ev, reg, me, Some(a), o), k)
  {
    var taken, written := reg.(delivery := reg.delivery - {a}), ev.(files := ev.files + {DeliveryFile});
    Exits(ev, taken, o);
    Exits(written, taken, o);
    Exits(written.(deliverySeal := Some(a)), taken, o);
    hide Tails, Refuse, AssertDirectory;
    k := if !o(Payload) || DeliveryFile in ev.files || !o(Write) then 1 else if !o(Reread) then 2 else 3;
  }

  lemma StreamFollows(ev: Evidence, reg: Registry, me: nat, s: Option<Artifact>, o: Outlook) returns (k: nat)
    requires !ev.closed && Sane(ev)
    ensures FollowsAt(AppendStream(s), ev, reg, me, StreamBody(ev, reg, s, o), k)
  {
    Exits(ev, reg, o);
    var typed := s == Some(SamplesFile) || s == Some(FaultsFile);
    if ev.state == Running && typed {
      Exits(ev.(files := ev.files + {s.value}), reg, o);
    }
    hide Tails, Refuse, AssertDirectory;
    k := if ev.state == Running && typed && o(Payload) && o(Policy) && o(Write) then 1 else 0;
  }

  lemma LogFollows(ev: Evidence, reg: Registry, me: nat, o: Outlook) returns (k: nat)
    requires !ev.closed && Sane(ev)
    ensures FollowsAt(WriteLog, ev, reg, me, LogBody(ev, reg, o), k)
  {
    Exits(ev, reg, o);
    if ev.state == Running {
      Exits(ev.(files := ev.files + {LogIndexFile}), reg, o);
    }
    hide Tails, Refuse, AssertDirectory;
    k := if ev.state == Running && o(Policy) && o(Write) then 1 else 0;
  }

  lemma ShutdownFollows(ev: Evidence, reg: Registry, me: nat, o: Outlook) returns (k: nat)
    requires !ev.closed && Sane(ev)
    ensures FollowsAt(RecordShutdown, ev, reg, me, ShutdownBody(ev, reg, o), k)
  {
    var r := ShutdownBody(ev, reg, o);
    Exits(ev, reg, o);
    if ev.state == Running {
      Exits(ev.(files := ev.files + {ShutdownFile}), reg, o);
    }
    hide Tails, Refuse, AssertDirectory;
    var clear := o(Payload) && o(Policy) && ShutdownFile !in ev.files;
    k := if r.Done? then 2 else if ev.state == Running && clear && o(Write) then 1 else 0;
  }

  /** A refusal of what is already an exception in flight. */
  lemma RefuseTails(mid: Evidence, r: Attempt, o: Outlook)
    requires Sane(mid) && Tails(mid, r.ev)
    ensures var refused := Refuse(r.ev, r.reg, o); refused.Raised? && refused.reg == r.reg && Tails(mid, refused.ev)
  {
    FailTails(mid, r.ev, r.reg, o(FailCapability), o(FailWrite));
  }

  lemma SealFollows(ev: Evidence, reg: Registry, me: nat, o: Outlook) returns (k: nat)
    requires !ev.closed && Sane(ev)
    ensures FollowsAt(Seal, ev, reg, me, SealBody(ev, reg, me, o), k)
  {
    k := 0;
    Exits(ev, reg, o);
    if ev.state == ShutdownVerified {
      var r := SealInner(ev, reg, me, o);
      k := SealInnerFollows(ev, reg, me, o);
      if r.Raised? {
        RefuseTails(Progress(Seal, ev, reg, me, k).0, r, o);
      }
    }
    hide Tails, Refuse, SealInner, Progress;
    if ev.state != ShutdownVerified {
      NoProgress(Seal, ev, reg, me);
    }
  }

  lemma SealInnerFollows(ev: Evidence, reg: Registry, me: nat, o: Outlook) returns (k: nat)
    requires !ev.closed && Sane(ev) && ev.state == ShutdownVerified
    ensures FollowsAt(Seal, ev, reg, me, SealInner(ev, reg, me, o), k) && Sane(Progress(Seal, ev, reg, me, k).0)
  {
    var r := SealInner(ev, reg, me, o);
    Exits(ev, reg, o);
    Exits(ev.(files := ev.files + {LedgerFile}), reg, o);
    hide Tails, AssertDirectory;
    k := if r.Done? then 2 else if o(Policy) && LedgerBuilds(ev, reg, me, o(FirstLedger)) && o(Write) then 1 else 0;
  }

  lemma PassFollows(ev: Evidence, reg: Registry, me: nat, o: Outlook) returns (k: nat)
    requires !ev.closed && Sane(ev)
    ensures FollowsAt(FinishPass, ev, reg, me, PassBody(ev, reg, me, o), k)
  {
    k := 0;
    Exits(ev, reg, o);
    if ev.state == EvidenceSealed {
      var r := PassInner(ev, reg, me, o);
      k := PassInnerFollows(ev, reg, me, o);
      if r.Raised? {
        RefuseTails(Progress(FinishPass, ev, reg, me, k).0, r, o);
      }
    }
    hide Tails, Refuse, PassInner, Progress;
    if ev.state != EvidenceSealed {
      NoProgress(FinishPass, ev, reg, me);
    }
  }

  /** The last check of the directory, on evidence whose PASS summary is stored. */
  lemma LastExits(mid: Evidence, reg: Registry, o: Outlook)
    requires Sane(mid)
    ensures var r := AssertDirectory(mid, reg, o(LastCapability), o(LastPath));
            r.reg == reg && (r.Done? ==> r.ev == mid) && Tails(mid, r.ev)
  {
  }

  lemma PassInnerFollows(ev: Evidence, reg: Registry, me: nat, o: Outlook) returns (k: nat)
    requires !ev.closed && Sane(ev) && ev.state == EvidenceSealed
    ensures FollowsAt(FinishPass, ev, reg, me, PassInner(ev, reg, me, o), k)
    ensures Sane(Progress(FinishPass, ev, reg, me, k).0)
  {
    var r, validated := PassInner(ev, reg, me, o), ev.(state := Validated);
    Exits(ev, reg, o);
    Exits(validated, reg, o);
    Exits(validated.(summaryPass := true), reg, o);
    LastExits(validated.(summaryPass := true), reg, o);
    var checked := AssertDirectory(ev, reg, o(LateCapability), o(LatePath)).Done?;
    hide Tails, AssertDirectory;
    var built := LedgerBuilds(ev, reg, me, o(FirstLedger)) && o(Reread) && checked;
    k := if r.Done? then 4
         else if built && LedgerBuilds(validated, reg, me, o(SecondLedger)) && o(Write) then 2
         else if built then 1
         else 0;
  }

  lemma BodyFollows(op: Op, ev: Evidence, reg: Registry, me: nat, o: Outlook) returns (k: nat)
    requires !ev.closed && Sane(ev) && Guarded(op)
    ensures FollowsAt(op, ev, reg, me, Body(op, ev, reg, me, o), k)
  {
    k := 0;
    match op
    case WriteManifest => k := ManifestFollows(ev, reg, me, o);
    case AcceptExactSix(a) => k := ExactSixFollows(ev, reg, me, a, o);
    case WriteExactSixResult =>
    case WritePrerequisites => k := PrerequisitesFollows(ev, reg, me, o);
    case BeginRun => k := BeginFollows(ev, reg, me, o);
    case AcceptDelivery(a) => k := DeliveryFollows(ev, reg, me, a, o);
    case AppendStream(s) => k := StreamFollows(ev, reg, me, s, o);
    case WriteLog => k := LogFollows(ev, reg, me, o);
    case RecordShutdown => k := ShutdownFollows(ev, reg, me, o);
    case Seal => k := SealFollows(ev, reg, me, o);
    case FinishPass => k := PassFollows(ev, reg, me, o);
  }

  lemma ProgressSane(op: Op, ev: Evidence, reg: Registry, me: nat, k: nat)
    requires Sane(ev)
    ensures Sane(Progress(op, ev, reg, me, k).0)
  {
    hide LedgerBuilds;
  }

  /** The entry of the guard, the body and the recording of an exception. */
  lemma GuardedFollows(op: Op, ev: Evidence, reg: Registry, me: nat, o: Outlook) returns (k: nat)
    requires Sane(ev) && Guarded(op)
    ensures FollowsAt(op, ev, reg, me, Call(op, ev, reg, me, o), k)
  {
    hide Body, Progress, TailOf;
    k := 0;
    NoProgress(op, ev, reg, me);
    var entered := Enter(op, ev, reg, me, o);
    if AssertDirectory(ev, reg, o(EntryCapability), o(EntryPath)).Done? {
      k := BodyFollows(op, ev, reg, me, o);
    } else {
      LostTails(ev, reg, o(EntryCapability), o(EntryPath));
    }
    if entered.Raised? {
      ProgressSane(op, ev, reg, me, k);
      FailTails(Progress(op, ev, reg, me, k).0, entered.ev, entered.reg, o(OuterCapability), o(FailWrite));
    }
  }

  lemma NoProgress(op: Op, ev: Evidence, reg: Registry, me: nat)
    ensures Progress(op, ev, reg, me, 0) == (ev, reg)
  {
    hide LedgerBuilds;
  }

  lemma LostTails(ev: Evidence, reg: Registry, held: bool, named: bool)
    ensures Tails(ev, AssertDirectory(ev, reg, held, named).ev) && AssertDirectory(ev, reg, held, named).reg == reg
  {
  }

  /** Every whole call, however its steps go, ends where a cut could: the list of writes is
      complete. */
  lemma CallIsCut(op: Op, ev: Evidence, reg: Registry, me: nat, o: Outlook) returns (p: Point)
    requires Sane(ev)
    ensures var r := Call(op, ev, reg, me, o); Cut(op, ev, reg, me, p) == (r.ev, r.reg)
  {
    if Guarded(op) {
      var k := GuardedFollows(op, ev, reg, me, o);
      hide Call, Progress;
      var r, mid := Call(op, ev, reg, me, o), Progress(op, ev, reg, me, k).0;
      var (f, l) := if r.Done? then (0, 0) else TailOf(mid, r.ev);
      p := Point(k, f, l, false);
    } else {
      p := UnguardedCut(op, ev, reg, me, o);
    }
  }

  lemma UnguardedCut(op: Op, ev: Evidence, reg: Registry, me: nat, o: Outlook) returns (p: Point)
    requires Sane(ev) && !Guarded(op)
    ensures var r := Body(op, ev, reg, me, o); Cut(op, ev, reg, me, p) == (r.ev, r.reg)
  {
    var held := if op == Close then o(EntryCapability) && (ev.Terminal() || o(FailCapability)) else o(FailCapability);
    var f := if !held then 0 else if o(FailWrite) then 3 else 1;
    p := Point(0, f, if held then 0 else 3, true);
  }

  // ------------------------------------------------------------ runs with interrupts

  datatype Moment = Whole(event: Event) | Torn(op: Op, point: Point)

  /** A torn call reaches no milestone, but what it took out of a registry is taken. */
  function StepTorn(w: World, m: Moment, me: nat): World {
    match m
    case Whole(e) => Step(w, e, me)
    case Torn(op, p) =>
      var (ev, reg) := Cut(op, w.ev, w.reg, me, p);
      Invoked(w, op, Raised(ev, reg), me)
  }

  function RunTorn(moments: seq<Moment>, me: nat): World {
    if moments == [] then START else StepTorn(RunTorn(moments[..|moments| - 1], me), moments[|moments| - 1], me)
  }

  /** A PASS summary is stored only beside everything it stands for. */
  predicate Earned(ev: Evidence) {
    && (ev.summaryPass ==>
          && (ev.state == Validated || ev.state == Pass || ev.state == Fail)
          && ev.provenance.Some? && ev.deliverySeal.Some? && REQUIRED <= ev.files)
    && (ev.state == Pass ==> ev.summaryPass)
  }

  /** What the evidence holds it has consumed. */
  ghost predicate Paid(ev: Evidence, uses: seq<Use>, me: nat) {
    && (ev.provenance.Some? ==> SixUse(ev.provenance.value, me) in uses)
    && (ev.deliverySeal.Some? ==> DeliveryUse(ev.deliverySeal.value, me) in uses)
  }

  ghost predicate Survives(w: World, me: nat) {
    OneShot(w) && Sane(w.ev) && Earned(w.ev) && Paid(w.ev, w.uses, me)
  }

  lemma ProgressTakes(op: Op, ev: Evidence, reg: Registry, me: nat, k: nat)
    ensures TakesOwn(op, reg, Progress(op, ev, reg, me, k).1, me)
  {
    hide LedgerBuilds;
  }

  lemma ProgressEarned(op: Op, ev: Evidence, reg: Registry, me: nat, k: nat)
    requires Earned(ev)
    ensures Earned(Progress(op, ev, reg, me, k).0)
  {
  }

  lemma ProgressPaid(op: Op, ev: Evidence, reg: Registry, me: nat, k: nat, uses: seq<Use>)
    requires Paid(ev, uses, me)
    ensures var (mid, after) := Progress(op, ev, reg, me, k); Paid(mid, uses + UseOf(op, reg, after, me), me)
  {
    hide LedgerBuilds;
    var after := Progress(op, ev, reg, me, k).1;
    if op.AcceptExactSix? && op.authority.Some? && after.exactSix != reg.exactSix {
      assert UseOf(op, reg, after, me) == [SixUse(op.authority.value, me)];
    }
    if op.AcceptDelivery? && op.delivery.Some? && after.delivery != reg.delivery {
      assert UseOf(op, reg, after, me) == [DeliveryUse(op.delivery.value, me)];
    }
  }

  lemma TailsKeep(op: Op, mid: Evidence, uses: seq<Use>, me: nat, p: Point)
    requires Sane(mid) && Earned(mid) && Paid(mid, uses, me)
    ensures var after := Shutting(op, Losing(Failing(mid, p.failed), p.lost), p.shut);
            Sane(after) && Earned(after) && Paid(after, uses, me)
  {
  }

  lemma CutSurvives(w: World, op: Op, p: Point, me: nat)
    requires Survives(w, me)
    ensures var (ev, reg) := Cut(op, w.ev, w.reg, me, p); Survives(Invoked(w, op, Raised(ev, reg), me), me)
  {
    ProgressTakes(op, w.ev, w.reg, me, p.done);
    ProgressSane(op, w.ev, w.reg, me, p.done);
    ProgressEarned(op, w.ev, w.reg, me, p.done);
    ProgressPaid(op, w.ev, w.reg, me, p.done, w.uses);
    hide Progress, OneShot, TakesOwn, UseOf, Earned, Paid, Sane, Failing, Losing, Shutting;
    var (ev, reg) := Cut(op, w.ev, w.reg, me, p);
    TailsKeep(op, Progress(op, w.ev, w.reg, me, p.done).0, w.uses + UseOf(op, w.reg, reg, me), me, p);
    OneShotInvoked(w, op, Raised(ev, reg), me);
  }

  lemma InvokeSurvives(w: World, op: Op, o: Outlook, me: nat)
    requires Survives(w, me)
    ensures Survives(Step(w, Invoke(op, o), me), me)
  {
    var p := CallIsCut(op, w.ev, w.reg, me, o);
    CutSurvives(w, op, p, me);
    hide Call, Cut, Earned, Sane, Paid;
    SameButLog(Invoked(w, op, Raised(Call(op, w.ev, w.reg, me, o).ev, Call(op, w.ev, w.reg, me, o).reg), me),
               Invoked(w, op, Call(op, w.ev, w.reg, me, o), me));
  }

  lemma SameButLog(v: World, w: World)
    requires w == v.(log := w.log) && OneShot(v)
    ensures OneShot(w)
  {
  }

  /** Whatever is interrupted, and however often: authorities stay single-use and bound, and
      any stored PASS summary is backed by all required artifacts and by one consumed authority
      of each kind. */
  lemma {:induction false} TornRunSurvives(moments: seq<Moment>, me: nat)
    ensures Survives(RunTorn(moments, me), me)
  {
    if moments != [] {
      var n := |moments| - 1;
      TornRunSurvives(moments[..n], me);
      var w := RunTorn(moments[..n], me);
      match moments[n]
      case Torn(op, p) => CutSurvives(w, op, p, me);
      case Whole(Invoke(op, o)) => InvokeSurvives(w, op, o, me);
      case Whole(e) => OneShotIssued(w, e, me);
        OthersKeepPaid(w, e, me);
    }
  }

  lemma OthersKeepPaid(w: World, e: Event, me: nat)
    requires !e.Invoke?
    ensures Step(w, e, me).ev == w.ev && w.uses <= Step(w, e, me).uses
  {
  }

  /** In words, for a run that ends in Pass or merely stored the word. */
  lemma {:induction false} StoredPassIsBacked(moments: seq<Moment>, me: nat) returns (six: nat, delivery: nat)
    requires RunTorn(moments, me).ev.summaryPass || RunTorn(moments, me).ev.state == Pass
    ensures var w := RunTorn(moments, me);
            && w.ev.state in {Validated, Pass, Fail} && REQUIRED <= w.ev.files
            && SixUse(six, me) in w.uses && six in w.sixIssued && w.sixIssued[six] == me
            && DeliveryUse(delivery, me) in w.uses
            && delivery in w.deliveryIssued && w.deliveryIssued[delivery] == me
            && forall other :: other != me ==> SixUse(six, other) !in w.uses && DeliveryUse(delivery, other) !in w.uses
  {
    TornRunSurvives(moments, me);
    var w := RunTorn(moments, me);
    six, delivery := w.ev.provenance.value, w.ev.deliverySeal.value;
    hide RunTorn;
    assert SixUse(six, me) in w.uses && DeliveryUse(delivery, me) in w.uses;
  }

  // ------------------------------------------------------------ what is final

  lemma CutOfFail(op: Op, ev: Evidence, reg: Registry, me: nat, p: Point)
    requires ev.state == Fail
    ensures var after := Cut(op, ev, reg, me, p).0; after.state == Fail && after.summaryPass == ev.summaryPass
  {
  }

  lemma FailStepTorn(w: World, m: Moment, me: nat)
    requires Sane(w.ev) && w.ev.state == Fail
    ensures StepTorn(w, m, me).ev.state == Fail && StepTorn(w, m, me).ev.summaryPass == w.ev.summaryPass
  {
    match m
    case Torn(op, p) => CutOfFail(op, w.ev, w.reg, me, p);
    case Whole(Invoke(op, o)) =>
      var p := CallIsCut(op, w.ev, w.reg, me, o);
      CutOfFail(op, w.ev, w.reg, me, p);
    case Whole(_) =>
  }

  lemma TornRunSane(moments: seq<Moment>, me: nat)
    ensures Sane(RunTorn(moments, me).ev)
  {
    TornRunSurvives(moments, me);
  }

  /** Fail is never left, interrupted or not, and what is stored by then stays stored: a PASS
      summary that a failure has not replaced is never replaced. */
  lemma {:induction false} TornFailIsFinal(moments: seq<Moment>, k: nat, me: nat)
    requires k <= |moments| && RunTorn(moments[..k], me).ev.state == Fail
    ensures var before, after := RunTorn(moments[..k], me).ev, RunTorn(moments, me).ev;
            after.state == Fail && after.summaryPass == before.summaryPass
  {
    if k == |moments| {
      assert moments[..k] == moments;
    } else {
      var n := |moments| - 1;
      assert moments[..n][..k] == moments[..k] && moments[..n] + [moments[n]] == moments;
      hide StepTorn, RunTorn, Sane;
      TornFailIsFinal(moments[..n], k, me);
      TornRunSane(moments[..n], me);
      Extend(moments[..n], moments[n], me);
      FailStepTorn(RunTorn(moments[..n], me), moments[n], me);
    }
  }

  /** The stored word is not the state. */
  predicate Misleads(ev: Evidence) { ev.summaryPass && ev.state != Pass }

  /** After any run, one whole close of open evidence, its failure recorded, ends with the
      stored word and the state in agreement, except exactly when they disagreed in Fail. */
  lemma {:induction false} CloseSettles(moments: seq<Moment>, o: Outlook, me: nat)
    requires Steady(o) && !RunTorn(moments, me).ev.closed
    ensures var before := RunTorn(moments, me).ev;
            var after := RunTorn(moments + [Whole(Invoke(Close, o))], me).ev;
            after.Terminal() && after.closed && (Misleads(after) <==> Misleads(before) && before.state == Fail)
  {
    TornRunSurvives(moments, me);
    assert (moments + [Whole(Invoke(Close, o))])[..|moments|] == moments;
    var w := RunTorn(moments, me);
    CloseAgrees(w.ev, w.reg, o);
  }

  lemma CloseAgrees(ev: Evidence, reg: Registry, o: Outlook)
    requires Steady(o) && !ev.closed && Earned(ev)
    ensures var after := CloseBody(ev, reg, o).ev;
            after.Terminal() && after.closed && (Misleads(after) <==> Misleads(ev) && ev.state == Fail)
  {
  }

  // ------------------------------------------------------------ interrupts that the guard catches

  /** Under the program's own signal handlers an interrupt is an exception like any other: it
      strikes between two writes too, and then the guard records the failure, if it can. */
  function Caught(op: Op, ev: Evidence, reg: Registry, me: nat, p: Point, held: bool, written: bool): Attempt {
    var (cut, after) := Cut(op, ev, reg, me, p);
    var failed := FailStep(cut, after, held, written);
    Raised(failed.ev, failed.reg)
  }

  /** What it leaves is a cut as well, so everything above holds of runs with such calls. */
  lemma CaughtIsCut(op: Op, ev: Evidence, reg: Registry, me: nat, p: Point, held: bool, written: bool)
    returns (q: Point)
    requires Guarded(op)
    ensures var r := Caught(op, ev, reg, me, p, held, written); Cut(op, ev, reg, me, q) == (r.ev, r.reg)
  {
    hide Progress;
    var cut := Cut(op, ev, reg, me, p).0;
    q := if cut.closed then p
         else if !held then p.(lost := 3)
         else if cut.Terminal() then p
         else p.(failed := if written then 3 else 1, lost := 0);
  }

  /** The interrupt came after the state had become Pass. */
  predicate AfterPass(op: Op, ev: Evidence, reg: Registry, me: nat, p: Point) {
    op == FinishPass && ev.state == EvidenceSealed && LedgerBuilds(ev, reg, me, true) && p.done >= 3 && p.lost == 0
  }

  lemma ProgressToPass(op: Op, ev: Evidence, reg: Registry, me: nat, k: nat)
    requires !ev.closed && !ev.Terminal()
    ensures var mid := Progress(op, ev, reg, me, k).0;
            && !mid.closed && mid.state != Fail
            && (mid.state == Pass <==>
                op == FinishPass && ev.state == EvidenceSealed && LedgerBuilds(ev, reg, me, true) && k >= 3)
            && (mid.state == Pass ==> mid.summaryPass)
  {
    hide LedgerBuilds;
  }

  /** A call on live evidence that is interrupted and caught ends in Fail, except exactly when
      the interrupt came after the state had become Pass, with the directory still held: then
      the call raises, the stored word is PASS, and the state stays Pass. */
  lemma CaughtEndsInFail(op: Op, ev: Evidence, reg: Registry, me: nat, p: Point, held: bool, written: bool)
    requires Guarded(op) && !ev.closed && !ev.Terminal()
    ensures var r := Caught(op, ev, reg, me, p, held, written).ev;
            if held && AfterPass(op, ev, reg, me, p) then r.state == Pass && r.summaryPass else r.state == Fail
  {
    ProgressToPass(op, ev, reg, me, p.done);
    hide LedgerBuilds, Progress;
  }

  // ------------------------------------------------------------ instances

  /** Everything goes well. */
  const FAIR: Outlook := (p: Probe) => true

  lemma Extend(moments: seq<Moment>, m: Moment, me: nat)
    ensures RunTorn(moments + [m], me) == StepTorn(RunTorn(moments, me), m, me)
  {
    assert (moments + [m])[..|moments|] == moments;
  }

  const MANIFESTED := FRESH.(state := ManifestFinalized, files := {ManifestFile})
  const SIX_ACCEPTED := MANIFESTED.(files := MANIFESTED.files + {ExactSixFile}, provenance := Some(1))
  const PREPARED := SIX_ACCEPTED.(state := PrerequisitesVerified, files := SIX_ACCEPTED.files + {PrerequisitesFile})
  const BEGUN := PREPARED.(state := Running)
  const SAMPLED := BEGUN.(files := BEGUN.files + {SamplesFile})
  const FAULTED := SAMPLED.(files := SAMPLED.files + {FaultsFile})
  const LOGGED := FAULTED.(files := FAULTED.files + {LogIndexFile})
  const DELIVERED := LOGGED.(files := LOGGED.files + {DeliveryFile}, deliverySeal := Some(2))
  const SHUT_DOWN := DELIVERED.(state := ShutdownVerified, files := DELIVERED.files + {ShutdownFile})
  const SEALED := SHUT_DOWN.(state := EvidenceSealed, files := SHUT_DOWN.files + {LedgerFile})

  /** The registries before any authority is used, and after the first and the second. */
  function Registries(me: nat, used: nat): Registry {
    Registry(if used == 0 then map[1 := me] else map[], if used == 0 then map[] else map[1 := me],
             if used <= 1 then map[2 := me] else map[])
  }

  /** One call that goes well, in order. */
  lemma Fair(moments: seq<Moment>, op: Op, me: nat, ev: Evidence, reg: Registry) returns (longer: seq<Moment>)
    requires Call(op, RunTorn(moments, me).ev, RunTorn(moments, me).reg, me, FAIR) == Done(ev, reg)
    ensures RunTorn(longer, me).ev == ev && RunTorn(longer, me).reg == reg
  {
    longer := moments + [Whole(Invoke(op, FAIR))];
    Extend(moments, Whole(Invoke(op, FAIR)), me);
  }

  lemma ManifestIsFair(me: nat)
    ensures Call(WriteManifest, FRESH, Registries(me, 0), me, FAIR)
            == Done(MANIFESTED, Registries(me, 0))
  {
  }

  lemma ExactSixIsFair(me: nat)
    ensures Call(AcceptExactSix(Some(1)), MANIFESTED, Registries(me, 0), me, FAIR)
            == Done(SIX_ACCEPTED, Registries(me, 1))
  {
    assert map[1 := me] - {1} == map[];
  }

  lemma PrerequisitesAreFair(me: nat)
    ensures Call(WritePrerequisites, SIX_ACCEPTED, Registries(me, 1), me, FAIR)
            == Done(PREPARED, Registries(me, 1))
  {
  }

  lemma BeginIsFair(me: nat)
    ensures Call(BeginRun, PREPARED, Registries(me, 1), me, FAIR)
            == Done(BEGUN, Registries(me, 1))
  {
  }

  lemma SamplesAreFair(me: nat)
    ensures Call(AppendStream(Some(SamplesFile)), BEGUN, Registries(me, 1), me, FAIR)
            == Done(SAMPLED, Registries(me, 1))
  {
  }

  lemma FaultsAreFair(me: nat)
    ensures Call(AppendStream(Some(FaultsFile)), SAMPLED, Registries(me, 1), me, FAIR)
            == Done(FAULTED, Registries(me, 1))
  {
  }

  lemma LogIsFair(me: nat)
    ensures Call(WriteLog, FAULTED, Registries(me, 1), me, FAIR)
            == Done(LOGGED, Registries(me, 1))
  {
  }

  lemma DeliveryIsFair(me: nat)
    ensures Call(AcceptDelivery(Some(2)), LOGGED, Registries(me, 1), me, FAIR)
            == Done(DELIVERED, Registries(me, 2))
  {
    assert map[2 := me] - {2} == map[];
  }

  lemma ShutdownIsFair(me: nat)
    ensures Call(RecordShutdown, DELIVERED, Registries(me, 2), me, FAIR)
            == Done(SHUT_DOWN, Registries(me, 2))
  {
  }

  lemma SealIsFair(me: nat)
    ensures Call(Seal, SHUT_DOWN, Registries(me, 2), me, FAIR)
            == Done(SEALED, Registries(me, 2))
  {
  }

  lemma Unissued(me: nat)
    ensures RunTorn([], me) == START
  {
  }

  lemma Issued(me: nat)
    ensures var w := RunTorn([Whole(IssueSix(1, me)), Whole(IssueDelivery(2, me))], me);
            w.ev == FRESH && w.reg == Registries(me, 0)
  {
    Unissued(me);
    hide RunTorn;
    Extend([], Whole(IssueSix(1, me)), me);
    assert [] + [Whole(IssueSix(1, me))] == [Whole(IssueSix(1, me))];
    Extend([Whole(IssueSix(1, me))], Whole(IssueDelivery(2, me)), me);
    var six, delivery := Whole(IssueSix(1, me)), Whole(IssueDelivery(2, me));
    assert [six] + [delivery] == [six, delivery];
  }

  /** A run in which all goes well, up to the sealed ledger. */
  lemma SealedRun(me: nat) returns (moments: seq<Moment>)
    ensures RunTorn(moments, me).ev == SEALED && RunTorn(moments, me).reg == Registries(me, 2)
  {
    hide Call, Registries;
    moments := [Whole(IssueSix(1, me)), Whole(IssueDelivery(2, me))];
    Issued(me);
    ManifestIsFair(me);
    moments := Fair(moments, WriteManifest, me, MANIFESTED, Registries(me, 0));
    ExactSixIsFair(me);
    moments := Fair(moments, AcceptExactSix(Some(1)), me, SIX_ACCEPTED, Registries(me, 1));
    PrerequisitesAreFair(me);
    moments := Fair(moments, WritePrerequisites, me, PREPARED, Registries(me, 1));
    BeginIsFair(me);
    moments := Fair(moments, BeginRun, me, BEGUN, Registries(me, 1));
    SamplesAreFair(me);
    moments := Fair(moments, AppendStream(Some(SamplesFile)), me, SAMPLED, Registries(me, 1));
    FaultsAreFair(me);
    moments := Fair(moments, AppendStream(Some(FaultsFile)), me, FAULTED, Registries(me, 1));
    LogIsFair(me);
    moments := Fair(moments, WriteLog, me, LOGGED, Registries(me, 1));
    DeliveryIsFair(me);
    moments := Fair(moments, AcceptDelivery(Some(2)), me, DELIVERED, Registries(me, 2));
    ShutdownIsFair(me);
    moments := Fair(moments, RecordShutdown, me, SHUT_DOWN, Registries(me, 2));
    SealIsFair(me);
    moments := Fair(moments, Seal, me, SEALED, Registries(me, 2));
  }

  lemma PassIsFair(me: nat)
    ensures Call(FinishPass, SEALED, Registries(me, 2), me, FAIR).ev.state == Pass
  {
  }

  lemma SealedCuts(me: nat)
    ensures Cut(FinishPass, SEALED, Registries(me, 2), me, Point(2, 0, 0, false)).0
            == SEALED.(state := Validated, summaryPass := true)
    ensures Cut(FinishPass, SEALED, Registries(me, 2), me, Point(2, 1, 0, false)).0
            == SEALED.(state := Fail, summaryPass := true)
  {
    assert LedgerBuilds(SEALED, Registries(me, 2), me, true);
  }

  /** An interrupt between the PASS summary and the state it announces leaves open evidence
      that says PASS and is not in Pass. One while the failure is being recorded after it
      leaves a PASS summary in Fail, for good. Without an interrupt the run passes. */
  lemma InterruptMisleads(me: nat) returns (moments: seq<Moment>)
    ensures RunTorn(moments + [Whole(Invoke(FinishPass, FAIR))], me).ev.state == Pass
    ensures var cut := RunTorn(moments + [Torn(FinishPass, Point(2, 0, 0, false))], me).ev;
            Misleads(cut) && cut.state == Validated && !cut.closed
    ensures var cut := RunTorn(moments + [Torn(FinishPass, Point(2, 1, 0, false))], me).ev;
            Misleads(cut) && cut.state == Fail && !cut.closed
  {
    moments := SealedRun(me);
    PassIsFair(me);
    SealedCuts(me);
    hide RunTorn, Call, Cut;
    Extend(moments, Whole(Invoke(FinishPass, FAIR)), me);
    Extend(moments, Torn(FinishPass, Point(2, 0, 0, false)), me);
    Extend(moments, Torn(FinishPass, Point(2, 1, 0, false)), me);
  }
}
