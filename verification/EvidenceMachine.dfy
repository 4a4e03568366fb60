/** The write-once evidence machine of the soak qualification and the one-shot authority
    registries it consumes. Only its own validation may end in Pass.

    A call meets the outside world at named probes (reading the pinned directory,
    checking a payload, writing a file, rebuilding the ledger). An Outlook says, for one
    call, which probes go well; every combination is allowed. Exceptions are Raised. */
module EvidenceMachine {
  import opened Counting

  datatype RunState =
    | InitialFail
    | ManifestFinalized
    | PrerequisitesVerified
    | Running
    | ShutdownVerified
    | EvidenceSealed
    | Validated
    | Pass
    | Fail

  datatype Probe =
    | EntryCapability | EntryPath        // the guard of every public mutation
    | Payload | Policy                   // bounded and well formed; free of forbidden content
    | Write | Reread                     // the artifact of this call
    | FirstLedger | SecondLedger | FinalLedger
    | SealRecheck
    | LateCapability | LatePath
    | LastCapability | LastPath
    | FailCapability | FailWrite         // the failure summary
    | OuterCapability                    // the guard's own failure summary

  type Outlook = Probe -> bool

  datatype Artifact =
    | ManifestFile | ExactSixFile | PrerequisitesFile | SamplesFile | FaultsFile | LogIndexFile
    | DeliveryFile | ShutdownFile | LedgerFile

  const REQUIRED: set<Artifact> := {ManifestFile, ExactSixFile, PrerequisitesFile, SamplesFile, FaultsFile,
                                    LogIndexFile, DeliveryFile, ShutdownFile}

  datatype Op =
    | WriteManifest
    | AcceptExactSix(authority: Option<nat>)   // None is an object of another type
    | WriteExactSixResult
    | WritePrerequisites
    | BeginRun
    | AcceptDelivery(delivery: Option<nat>)
    | AppendStream(stream: Option<Artifact>)   // None is any other stream name
    | WriteLog
    | RecordShutdown
    | Seal
    | FinishPass
    | FinishFail
    | Close

  /** One Evidence object and the directory it owns. */
  datatype Evidence = Evidence(state: RunState, closed: bool, summaryAvailable: bool, summaryPass: bool,
                               files: set<Artifact>, provenance: Option<nat>, deliverySeal: Option<nat>)
  {
    predicate Terminal() { state == Pass || state == Fail }

    function Invalidate(): Evidence { this.(state := Fail, summaryAvailable := false, closed := true) }
  }

  /** The runner-side registries: the Evidence that may consume each authority. A
      provenance token carries the number of the authority it was issued for. */
  datatype Registry = Registry(exactSix: map<nat, nat>, provenance: map<nat, nat>, delivery: map<nat, nat>)

  const FRESH := Evidence(InitialFail, false, false, false, {}, None, None)

  /** Result of a step inside one call: it went on, or an exception is in flight. */
  datatype Attempt = Done(ev: Evidence, reg: Registry) | Raised(ev: Evidence, reg: Registry) {
    predicate IsFailure() { Raised? }

    function PropagateFailure(): Attempt
      requires Raised?
    {
      this
    }

    function Extract(): (Evidence, Registry)
      requires Done?
    {
      (ev, reg)
    }
  }

  // ---------------------------------------------------------------- the machine

  function AssertCapability(ev: Evidence, reg: Registry, held: bool): Attempt {
    if ev.closed then Raised(ev, reg)
    else if held then Done(ev, reg)
    else Raised(ev.Invalidate(), reg)
  }

  function AssertDirectory(ev: Evidence, reg: Registry, held: bool, named: bool): Attempt {
    var (ev, reg) :- AssertCapability(ev, reg, held);
    if named then Done(ev, reg) else Raised(ev, reg)
  }

  /** finish_fail: the first terminal summary wins. */
  function FailStep(ev: Evidence, reg: Registry, held: bool, written: bool): Attempt {
    var (ev, reg) :- AssertCapability(ev, reg, held);
    if ev.Terminal() then Done(ev, reg)
    else if written then Done(ev.(state := Fail, summaryPass := false, summaryAvailable := true), reg)
    else Raised(ev.(state := Fail), reg)
  }

  /** An inner refusal: record the failure, then raise in any case. */
  function Refuse(ev: Evidence, reg: Registry, o: Outlook): Attempt {
    var r := FailStep(ev, reg, o(FailCapability), o(FailWrite));
    Raised(r.ev, r.reg)
  }

  function Require(ev: Evidence, reg: Registry, o: Outlook, state: RunState): Attempt {
    if ev.state == state then Done(ev, reg) else Refuse(ev, reg, o)
  }

  predicate LedgerBuilds(ev: Evidence, reg: Registry, me: nat, sound: bool) {
    && ev.provenance.Some? && ev.provenance.value in reg.provenance && reg.provenance[ev.provenance.value] == me
    && REQUIRED <= ev.files
    && ev.deliverySeal.Some?
    && sound
  }

  function ManifestBody(ev: Evidence, reg: Registry, o: Outlook): Attempt {
    var (ev, reg) :- Require(ev, reg, o, InitialFail);
    if !o(Payload) then Raised(ev, reg)
    else if !o(Policy) then Refuse(ev, reg, o)
    else if ManifestFile in ev.files || !o(Write) then Raised(ev, reg)
    else
      var ev := ev.(files := ev.files + {ManifestFile});
      if !o(Reread) then Raised(ev, reg) else
        var (ev, reg) :- AssertDirectory(ev, reg, o(LateCapability), o(LatePath));
        Done(ev.(state := ManifestFinalized), reg)
  }

  function ExactSixBody(ev: Evidence, reg: Registry, me: nat, authority: Option<nat>, o: Outlook): Attempt {
    var (ev, reg) :- Require(ev, reg, o, ManifestFinalized);
    if authority.None? then Refuse(ev, reg, o)
    else if authority.value !in reg.exactSix || reg.exactSix[authority.value] != me then Raised(ev, reg)
    else
      var token := authority.value;
      var reg := reg.(exactSix := reg.exactSix - {authority.value}, provenance := reg.provenance[token := me]);
      if !o(Payload) then Refuse(ev, reg, o)
      else if ExactSixFile in ev.files then Refuse(ev, reg, o)
      else if !o(Write) then Raised(ev, reg)
      else
        var ev := ev.(files := ev.files + {ExactSixFile});
        var (ev, reg) :- AssertDirectory(ev, reg, o(LateCapability), o(LatePath));
        Done(ev.(provenance := Some(token)), reg)
  }

  function PrerequisitesBody(ev: Evidence, reg: Registry, o: Outlook): Attempt {
    var (ev, reg) :- Require(ev, reg, o, ManifestFinalized);
    if !o(Payload) then Raised(ev, reg)
    else if !o(Policy) || ExactSixFile !in ev.files || !o(Reread) || PrerequisitesFile in ev.files then
      Refuse(ev, reg, o)
    else if !o(Write) then Raised(ev, reg)
    else
      var ev := ev.(files := ev.files + {PrerequisitesFile});
      var (ev, reg) :- AssertDirectory(ev, reg, o(LateCapability), o(LatePath));
      Done(ev.(state := PrerequisitesVerified), reg)
  }

  function BeginBody(ev: Evidence, reg: Registry, o: Outlook): Attempt {
    var (ev, reg) :- Require(ev, reg, o, PrerequisitesVerified);
    var (ev, reg) :- AssertDirectory(ev, reg, o(LateCapability), o(LatePath));
    Done(ev.(state := Running), reg)
  }

  function DeliveryBody(ev: Evidence, reg: Registry, me: nat, authority: Option<nat>, o: Outlook): Attempt {
    var (ev, reg) :- Require(ev, reg, o, Running);
    if authority.None? then Refuse(ev, reg, o)
    else if authority.value !in reg.delivery || reg.delivery[authority.value] != me then Raised(ev, reg)
    else
      var reg := reg.(delivery := reg.delivery - {authority.value});
      if !o(Payload) || DeliveryFile in ev.files || !o(Write) then Raised(ev, reg)
      else
        var ev := ev.(files := ev.files + {DeliveryFile});
        if !o(Reread) then Raised(ev, reg) else
          var ev := ev.(deliverySeal := authority);
          if !o(SealRecheck) then Raised(ev, reg) else
            AssertDirectory(ev, reg, o(LateCapability), o(LatePath))
  }

  function StreamBody(ev: Evidence, reg: Registry, stream: Option<Artifact>, o: Outlook): Attempt {
    var (ev, reg) :- Require(ev, reg, o, Running);
    if stream != Some(SamplesFile) && stream != Some(FaultsFile) then Refuse(ev, reg, o)
    else if !o(Payload) then Raised(ev, reg)
    else if !o(Policy) then Refuse(ev, reg, o)
    else if !o(Write) then Raised(ev, reg)
    else AssertDirectory(ev.(files := ev.files + {stream.value}), reg, o(LateCapability), o(LatePath))
  }

  function LogBody(ev: Evidence, reg: Registry, o: Outlook): Attempt {
    var (ev, reg) :- Require(ev, reg, o, Running);
    if !o(Policy) then Refuse(ev, reg, o)
    else if !o(Write) then Raised(ev, reg)
    else AssertDirectory(ev.(files := ev.files + {LogIndexFile}), reg, o(LateCapability), o(LatePath))
  }

  function ShutdownBody(ev: Evidence, reg: Registry, o: Outlook): Attempt {
    var (ev, reg) :- Require(ev, reg, o, Running);
    if !o(Payload) then Raised(ev, reg)
    else if !o(Policy) || ShutdownFile in ev.files then Refuse(ev, reg, o)
    else if !o(Write) then Raised(ev, reg)
    else
      var ev := ev.(files := ev.files + {ShutdownFile});
      var (ev, reg) :- AssertDirectory(ev, reg, o(LateCapability), o(LatePath));
      Done(ev.(state := ShutdownVerified), reg)
  }

  function SealInner(ev: Evidence, reg: Registry, me: nat, o: Outlook): Attempt {
    if !o(Policy) || !LedgerBuilds(ev, reg, me, o(FirstLedger)) || !o(Write) then Raised(ev, reg)
    else
      var ev := ev.(files := ev.files + {LedgerFile});
      var (ev, reg) :- AssertDirectory(ev, reg, o(LateCapability), o(LatePath));
      Done(ev.(state := EvidenceSealed), reg)
  }

  function SealBody(ev: Evidence, reg: Registry, me: nat, o: Outlook): Attempt {
    var (ev, reg) :- Require(ev, reg, o, ShutdownVerified);
    var r := SealInner(ev, reg, me, o);
    if r.Done? then r else Refuse(r.ev, r.reg, o)
  }

  function PassInner(ev: Evidence, reg: Registry, me: nat, o: Outlook): Attempt {
    if !LedgerBuilds(ev, reg, me, o(FirstLedger)) || !o(Reread) then Raised(ev, reg)
    else
      var (ev, reg) :- AssertDirectory(ev, reg, o(LateCapability), o(LatePath));
      var ev := ev.(state := Validated);
      if !LedgerBuilds(ev, reg, me, o(SecondLedger)) || !o(Write) then Raised(ev, reg)
      else
        var ev := ev.(summaryPass := true);
        if !o(SealRecheck) || !LedgerBuilds(ev, reg, me, o(FinalLedger)) then Raised(ev, reg)
        else
          var (ev, reg) :- AssertDirectory(ev, reg, o(LastCapability), o(LastPath));
          Done(ev.(state := Pass, summaryAvailable := true), reg)
  }

  function PassBody(ev: Evidence, reg: Registry, me: nat, o: Outlook): Attempt {
    var (ev, reg) :- Require(ev, reg, o, EvidenceSealed);
    var r := PassInner(ev, reg, me, o);
    if r.Done? then r else Refuse(r.ev, r.reg, o)
  }

  function Body(op: Op, ev: Evidence, reg: Registry, me: nat, o: Outlook): Attempt {
    match op
    case WriteManifest => ManifestBody(ev, reg, o)
    case AcceptExactSix(a) => ExactSixBody(ev, reg, me, a, o)
    case WriteExactSixResult =>
      var (ev, reg) :- Require(ev, reg, o, ManifestFinalized);
      Refuse(ev, reg, o)
    case WritePrerequisites => PrerequisitesBody(ev, reg, o)
    case BeginRun => BeginBody(ev, reg, o)
    case AcceptDelivery(a) => DeliveryBody(ev, reg, me, a, o)
    case AppendStream(s) => StreamBody(ev, reg, s, o)
    case WriteLog => LogBody(ev, reg, o)
    case RecordShutdown => ShutdownBody(ev, reg, o)
    case Seal => SealBody(ev, reg, me, o)
    case FinishPass => PassBody(ev, reg, me, o)
    case FinishFail => FailStep(ev, reg, o(FailCapability), o(FailWrite))
    case Close => CloseBody(ev, reg, o)
  }

  function CloseBody(ev: Evidence, reg: Registry, o: Outlook): Attempt {
    if ev.closed then Done(ev, reg) else
      var r := AssertCapability(ev, reg, o(EntryCapability));
      if r.Raised? then Done(r.ev, r.reg)
      else if r.ev.Terminal() then Done(r.ev.(closed := true), r.reg)
      else
        var f := FailStep(r.ev, r.reg, o(FailCapability), o(FailWrite));
        if f.Done? then Done(f.ev.(closed := true), f.reg) else Raised(f.ev.(closed := true), f.reg)
  }

  predicate Guarded(op: Op) { op != FinishFail && op != Close }

  /** The guard's entry: the directory must be in place before the body runs. */
  function Enter(op: Op, ev: Evidence, reg: Registry, me: nat, o: Outlook): Attempt {
    var entry := AssertDirectory(ev, reg, o(EntryCapability), o(EntryPath));
    if entry.Done? then Body(op, entry.ev, entry.reg, me, o) else entry
  }

  /** The guard's exit: an exception becomes a terminal failure before it propagates. */
  function Settle(r: Attempt, o: Outlook): Attempt {
    if r.Done? then r else
      var f := FailStep(r.ev, r.reg, o(OuterCapability), o(FailWrite));
      Raised(f.ev, f.reg)
  }

  /** One public call. */
  function Call(op: Op, ev: Evidence, reg: Registry, me: nat, o: Outlook): Attempt {
    if Guarded(op) then Settle(Enter(op, ev, reg, me, o), o) else Body(op, ev, reg, me, o)
  }
}
