/** The artifact receipt sink: a frame is made durable as a file and a ledger record
    before the first byte of its acknowledgement is sent, and any failure on the way is
    terminal.

    An Outlook says how far one call's interaction with the outside world gets: the frame
    that arrives, how each file-system and socket step ends, and which bytes reach the file. */
module ReceiptSink {
  import opened Counting
  import opened ReceiptLedger

  /** A decoded frame; sound says the decoder's remaining checks hold, and recordSize is
      the length of the ledger line it will produce. */
  datatype Frame = Frame(nonce: string, binding: Binding, sequence: int, photo: seq<int>, sound: bool, recordSize: nat)

  datatype Expected = Expected(binding: Binding, start: StartIdentity)

  datatype LinkResult = NotLinked | LinkedUnsynced | LinkedDurable

  datatype AppendResult = NoByte | TornRecord | WholeUnsynced | WholeSynced

  datatype AckResult = NoAckByte | SomeAckBytes | WholeAck

  /** stored is what the file holds when it is read back; verify says that it can be. */
  datatype Outlook = Outlook(frame: Option<Frame>, stage: bool, link: LinkResult, stored: seq<int>, verify: bool,
                             open: bool, append: AppendResult, dirSync: bool, ack: AckResult)

  /** What happened to the outside world, in order. */
  datatype Event = FileDurable(name: string) | RecordDurable(record: Record) | AckBytes(acknowledged: Record)

  datatype Sink = Sink(nonce: string, lastGeneration: int, nextSequence: int, terminal: bool,
                       files: map<string, seq<int>>, ledger: seq<Record>, torn: bool, trace: seq<Event>)

  /** A call either succeeds or raises. */
  datatype Outcome = Accepted(after: Sink) | Refused(after: Sink)

  function Fresh(nonce: string): Sink { Sink(nonce, 0, 1, false, map[], [], false, []) }

  predicate Decodes(f: Frame) {
    f.sound && f.binding.assistantPid > 0 && f.binding.generation > 0 && f.sequence > 0
  }

  function RecordFor(f: Frame, start: StartIdentity): Record
    requires Decodes(f)
  {
    var id := ReceiptId(f.binding.generation, f.sequence);
    Record(f.binding, f.nonce, f.sequence, id, ArtifactName(f.binding.generation, f.sequence, f.binding.artifactHash),
           DigestOf(id, f.binding, f.nonce, f.sequence), start, f.recordSize)
  }

  ghost predicate LedgerOpens(s: Sink, open: bool) {
    open && ((s.ledger == [] && !s.torn) || Reopenable(s.ledger, s.torn))
  }

  ghost function Append(s: Sink, r: Record, o: Outlook): Outcome {
    if r.size > MAX_RECORD_BYTES || !LedgerOpens(s, o.open) || TotalSize(s.ledger) + r.size > MAX_LEDGER_BYTES then
      Refused(s)
    else match o.append
      case NoByte => Refused(s)
      case TornRecord => Refused(s.(torn := true))
      case WholeUnsynced => Refused(s.(ledger := s.ledger + [r]))
      case WholeSynced =>
        var s := s.(ledger := s.ledger + [r]);
        if o.dirSync then Accepted(s.(trace := s.trace + [RecordDurable(r)])) else Refused(s)
  }

  ghost function Persist(s: Sink, f: Frame, r: Record, o: Outlook): Outcome {
    if !o.stage || r.filename in s.files || o.link.NotLinked? then Refused(s)
    else
      var s := s.(files := s.files[r.filename := o.stored]);
      if o.link.LinkedUnsynced? then Refused(s)
      else
        var s := s.(trace := s.trace + [FileDurable(r.filename)]);
        if o.verify && o.stored == f.photo then Append(s, r, o) else Refused(s)
  }

  predicate Matches(s: Sink, f: Frame, e: Expected) {
    && f.nonce == s.nonce && f.binding == e.binding
    && Follows((s.lastGeneration, s.nextSequence), f.binding.generation, f.sequence)
  }

  ghost function Acknowledge(s: Sink, r: Record, o: Outlook): Outcome {
    match o.ack
    case NoAckByte => Refused(s)
    case SomeAckBytes => Refused(s.(trace := s.trace + [AckBytes(r)]))
    case WholeAck =>
      Accepted(s.(trace := s.trace + [AckBytes(r)], lastGeneration := r.binding.generation,
                nextSequence := r.sequence + 1))
  }

  ghost function Attempt(s: Sink, e: Option<Expected>, o: Outlook): Outcome {
    if e.None? || o.frame.None? then Refused(s)
    else if !Decodes(o.frame.value) || !Matches(s, o.frame.value, e.value) then Refused(s)
    else
      var r := RecordFor(o.frame.value, e.value.start);
      var p := Persist(s, o.frame.value, r, o);
      if p.Refused? then p else Acknowledge(p.after, r, o)
  }

  /** One call: every exception makes the sink terminal, and a terminal sink does nothing. */
  ghost function AcceptOne(s: Sink, e: Option<Expected>, o: Outlook): Outcome {
    if s.terminal then Refused(s) else
      var a := Attempt(s, e, o);
      if a.Accepted? then a else Refused(a.after.(terminal := true))
  }

  // ---------------------------------------------------------------- the object

  class ArtifactReceiptSink {
    const nonce: string
    var lastGeneration: int
    var nextSequence: int
    var terminal: bool
    var files: map<string, seq<int>>
    var ledger: seq<Record>
    var torn: bool
    ghost var trace: seq<Event>

    ghost function Model(): Sink
      reads this
    {
      Sink(nonce, lastGeneration, nextSequence, terminal, files, ledger, torn, trace)
    }

    /** The state after a step, and whether an exception is in flight. */
    ghost function Now(raised: bool): Outcome
      reads this
    {
      if raised then Refused(Model()) else Accepted(Model())
    }

    constructor (nonce: string)
      ensures Model() == Fresh(nonce)
    {
      this.nonce := nonce;
      lastGeneration, nextSequence, terminal, files, ledger, torn, trace := 0, 1, false, map[], [], false, [];
    }

    method AppendRecord(r: Record, o: Outlook) returns (raised: bool)
      modifies this
      ensures Now(raised) == Append(old(Model()), r, o)
    {
      hide GapFree, Numbered, TotalSize, Reopenable;
      if r.size > MAX_RECORD_BYTES || !o.open { return true; }
      if ledger != [] || torn {
        var valid := CheckLedger(ledger, torn);
        if !valid { return true; }
      }
      if TotalSize(ledger) + r.size > MAX_LEDGER_BYTES { return true; }
      match o.append {
        case NoByte => return true;
        case TornRecord => torn := true; return true;
        case WholeUnsynced => ledger := ledger + [r]; return true;
        case WholeSynced => ledger := ledger + [r];
      }
      if !o.dirSync { return true; }
      trace := trace + [RecordDurable(r)];
      return false;
    }

    method PersistFrame(f: Frame, r: Record, o: Outlook) returns (raised: bool)
      modifies this
      ensures Now(raised) == Persist(old(Model()), f, r, o)
    {
      if !o.stage || r.filename in files || o.link.NotLinked? { return true; }
      files := files[r.filename := o.stored];
      if o.link.LinkedUnsynced? { return true; }
      trace := trace + [FileDurable(r.filename)];
      if !o.verify || o.stored != f.photo { return true; }
      raised := AppendRecord(r, o);
    }

    method TryAccept(e: Option<Expected>, o: Outlook) returns (raised: bool)
      modifies this
      ensures Now(raised) == Attempt(old(Model()), e, o)
    {
      if e.None? || o.frame.None? { return true; }
      var f := o.frame.value;
      if !Decodes(f) { return true; }
      var generation, sequence := f.binding.generation, f.sequence;
      if f.nonce != nonce || f.binding != e.value.binding ||
        generation < lastGeneration || generation > lastGeneration + 1 ||
        (generation == lastGeneration && sequence != nextSequence) || (generation == lastGeneration + 1
          && sequence != 1)
      {
        return true;
      }
      var r := RecordFor(f, e.value.start);
      raised := PersistFrame(f, r, o);
      if raised { return; }
      if o.ack.NoAckByte? { return true; }
      trace := trace + [AckBytes(r)];
      if o.ack.SomeAckBytes? { return true; }
      lastGeneration, nextSequence := generation, sequence + 1;
      return false;
    }

    method AcceptFrame(e: Option<Expected>, o: Outlook) returns (raised: bool)
      modifies this
      ensures Now(raised) == AcceptOne(old(Model()), e, o)
    {
      if terminal { return true; }
      raised := TryAccept(e, o);
      if raised { terminal := true; }
    }
  }

  // ---------------------------------------------------------------- invariants

  /** An acknowledgement byte is preceded by the durable file and the durable record. */
  ghost predicate DurableFirst(trace: seq<Event>) {
    forall k :: 0 <= k < |trace| && trace[k].AckBytes? ==>
      FileDurable(trace[k].acknowledged.filename) in trace[..k] && RecordDurable(trace[k].acknowledged) in trace[..k]
  }

  /** What the trace calls durable is on disk. */
  ghost predicate OnDisk(s: Sink) {
    && (forall e :: e in s.trace && e.FileDurable? ==> e.name in s.files)
    && (forall e :: e in s.trace && e.RecordDurable? ==> e.record in s.ledger)
  }

  /** The ledger ends exactly where the sink stands. */
  ghost predicate InStep(s: Sink, ledger: seq<Record>) {
    GapFree(ledger) && Fold(ledger) == (s.lastGeneration, s.nextSequence)
  }

  ghost predicate Bounded(ledger: seq<Record>) {
    && TotalSize(ledger) <= MAX_LEDGER_BYTES
    && forall i :: 0 <= i < |ledger| ==> ledger[i].size <= MAX_RECORD_BYTES
  }

  /** The ledger is in step, or ahead by one record, whole or torn. */
  ghost predicate AtMostOneAhead(s: Sink) {
    || InStep(s, s.ledger)
    || (s.ledger != [] && !s.torn && InStep(s, s.ledger[..|s.ledger| - 1]))
  }

  ghost predicate TraceInv(s: Sink) { DurableFirst(s.trace) && OnDisk(s) }

  ghost predicate LedgerInv(s: Sink) {
    if s.terminal then AtMostOneAhead(s) else !s.torn && InStep(s, s.ledger) && Bounded(s.ledger)
  }

  lemma ExtendTrace(trace: seq<Event>, e: Event)
    requires DurableFirst(trace)
    requires e.AckBytes? ==> FileDurable(e.acknowledged.filename) in trace && RecordDurable(e.acknowledged) in trace
    ensures DurableFirst(trace + [e])
  {
    var more := trace + [e];
    forall k | 0 <= k < |more| && more[k].AckBytes?
      ensures FileDurable(more[k].acknowledged.filename) in more[..k]
                && RecordDurable(more[k].acknowledged) in more[..k]
    {
      if k < |trace| {
        assert more[..k] == trace[..k] && more[k] == trace[k];
      } else {
        assert more[..k] == trace;
      }
    }
  }

  /** A successful append leaves the record as the last one, and announced. */
  ghost predicate Announced(s: Sink, r: Record) {
    TraceInv(s) && FileDurable(r.filename) in s.trace && RecordDurable(r) in s.trace
  }

  lemma AppendTraces(s: Sink, r: Record, o: Outlook)
    requires TraceInv(s) && FileDurable(r.filename) in s.trace
    ensures var a := Append(s, r, o); if a.Accepted? then Announced(a.after, r) else TraceInv(a.after)
  {
    assert forall q :: q in s.ledger ==> q in s.ledger + [r];
    ExtendTrace(s.trace, RecordDurable(r));
  }

  lemma PersistTraces(s: Sink, f: Frame, r: Record, o: Outlook)
    requires TraceInv(s)
    ensures var a := Persist(s, f, r, o); if a.Accepted? then Announced(a.after, r) else TraceInv(a.after)
  {
    var filed := s.(files := s.files[r.filename := o.stored], trace := s.trace + [FileDurable(r.filename)]);
    ExtendTrace(s.trace, FileDurable(r.filename));
    assert TraceInv(filed);
    AppendTraces(filed, r, o);
  }

  lemma AcknowledgeTraces(s: Sink, r: Record, o: Outlook)
    requires Announced(s, r)
    ensures TraceInv(Acknowledge(s, r, o).after)
  {
    ExtendTrace(s.trace, AckBytes(r));
  }

  lemma AcceptTraces(s: Sink, e: Option<Expected>, o: Outlook)
    requires TraceInv(s)
    ensures TraceInv(AcceptOne(s, e, o).after)
  {
    if !s.terminal && e.Some? && o.frame.Some? && Decodes(o.frame.value) && Matches(s, o.frame.value, e.value) {
      var r := RecordFor(o.frame.value, e.value.start);
      PersistTraces(s, o.frame.value, r, o);
      var p := Persist(s, o.frame.value, r, o);
      if p.Accepted? {
        AcknowledgeTraces(p.after, r, o);
      }
    }
  }

  /** What persisting does to the ledger: nothing, a torn tail, or one more record. */
  ghost predicate Appends(s: Sink, r: Record, a: Outcome) {
    && a.after.lastGeneration == s.lastGeneration && a.after.nextSequence == s.nextSequence
    && a.after.terminal == s.terminal
    && (a.after.ledger == s.ledger || (a.after.ledger == s.ledger + [r] && a.after.torn == s.torn))
    && (a.Accepted? ==> a.after.ledger == s.ledger + [r] && r.size <= MAX_RECORD_BYTES &&
                        TotalSize(s.ledger) + r.size <= MAX_LEDGER_BYTES)
  }

  ghost function Finish(a: Outcome): Sink {
    if a.Accepted? then a.after else a.after.(terminal := true)
  }

  lemma OneMore(ledger: seq<Record>, r: Record)
    requires GapFree(ledger) && ValidRecord(r) && Follows(Fold(ledger), r.binding.generation, r.sequence)
    ensures var more := ledger + [r];
            && more != [] && more[..|more| - 1] == ledger
            && GapFree(more) && Fold(more) == (r.binding.generation, r.sequence + 1)
            && TotalSize(more) == TotalSize(ledger) + r.size
            && ((forall i :: 0 <= i < |ledger| ==> ledger[i].size <= MAX_RECORD_BYTES) && r.size <= MAX_RECORD_BYTES
                ==> forall i :: 0 <= i < |more| ==> more[i].size <= MAX_RECORD_BYTES)
  {
    var more := ledger + [r];
    assert more[..|ledger|] == ledger && more[|ledger|] == r;
    hide ValidRecord;
  }

  lemma FinishKeepsLedger(s: Sink, r: Record, p: Outcome, o: Outlook)
    requires LedgerInv(s) && !s.terminal && ValidRecord(r) && Follows(Fold(s.ledger), r.binding.generation, r.sequence)
    requires Appends(s, r, p)
    ensures LedgerInv(Finish(if p.Refused? then p else Acknowledge(p.after, r, o)))
  {
    OneMore(s.ledger, r);
    hide GapFree, Fold, TotalSize, ValidRecord, Follows;
  }

  lemma AcceptKeepsLedger(s: Sink, e: Option<Expected>, o: Outlook)
    requires LedgerInv(s)
    ensures LedgerInv(AcceptOne(s, e, o).after)
  {
    if !s.terminal && e.Some? && o.frame.Some? && Decodes(o.frame.value) && Matches(s, o.frame.value, e.value) {
      var r := RecordFor(o.frame.value, e.value.start);
      FinishKeepsLedger(s, r, Persist(s, o.frame.value, r, o), o);
    }
  }

  // ---------------------------------------------------------------- runs

  datatype Call = Call(expected: Option<Expected>, outlook: Outlook)

  ghost function Run(nonce: string, calls: seq<Call>): Sink {
    if calls == [] then Fresh(nonce) else
      var n := |calls| - 1;
      AcceptOne(Run(nonce, calls[..n]), calls[n].expected, calls[n].outlook).after
  }

  lemma {:induction false} RunKeeps(nonce: string, calls: seq<Call>)
    ensures TraceInv(Run(nonce, calls)) && LedgerInv(Run(nonce, calls))
  {
    if calls != [] {
      var n := |calls| - 1;
      RunKeeps(nonce, calls[..n]);
      AcceptTraces(Run(nonce, calls[..n]), calls[n].expected, calls[n].outlook);
      AcceptKeepsLedger(Run(nonce, calls[..n]), calls[n].expected, calls[n].outlook);
    }
  }

  /** In every run, wherever it fails: no acknowledgement byte precedes the durability of
      its file and record, and both are on disk. */
  lemma AcknowledgedIsDurable(nonce: string, calls: seq<Call>, k: nat)
    requires k < |Run(nonce, calls).trace| && Run(nonce, calls).trace[k].AckBytes?
    ensures var s := Run(nonce, calls); var r := s.trace[k].acknowledged;
            && FileDurable(r.filename) in s.trace[..k] && RecordDurable(r) in s.trace[..k]
            && r.filename in s.files && r in s.ledger
  {
    RunKeeps(nonce, calls);
    var s := Run(nonce, calls);
    var r := s.trace[k].acknowledged;
    assert FileDurable(r.filename) in s.trace && RecordDurable(r) in s.trace;
  }

  /** While the sink is live its ledger folds to its own position and, once non-empty,
      passes the check that opens it for the next append: a live sink never locks itself
      out. */
  lemma LiveLedgerReopens(nonce: string, calls: seq<Call>)
    requires !Run(nonce, calls).terminal
    ensures var s := Run(nonce, calls);
            && Fold(s.ledger) == (s.lastGeneration, s.nextSequence)
            && (TotalSize(s.ledger) > 0 ==> Reopenable(s.ledger, s.torn))
  {
    RunKeeps(nonce, calls);
  }

  /** Once terminal the sink accepts nothing more and changes nothing, and its ledger is
      at most one record, possibly torn, ahead of what it had accepted. */
  lemma {:induction false} TerminalIsFinal(nonce: string, calls: seq<Call>, k: nat)
    requires k <= |calls| && Run(nonce, calls[..k]).terminal
    ensures Run(nonce, calls) == Run(nonce, calls[..k]) && AtMostOneAhead(Run(nonce, calls))
  {
    RunKeeps(nonce, calls[..k]);
    if k == |calls| {
      assert calls[..k] == calls;
    } else {
      assert calls[..|calls| - 1][..k] == calls[..k];
      TerminalIsFinal(nonce, calls[..|calls| - 1], k);
    }
  }

  /** The number of accepted calls. */
  ghost function Successes(nonce: string, calls: seq<Call>): nat {
    if calls == [] then 0 else
      var n := |calls| - 1;
      Successes(nonce, calls[..n]) +
      if AcceptOne(Run(nonce, calls[..n]), calls[n].expected, calls[n].outlook).Accepted? then 1 else 0
  }

  /** One record per accepted call: exactly while live, and at most one more after. */
  lemma {:induction false} LedgerCountsSuccesses(nonce: string, calls: seq<Call>)
    ensures var s := Run(nonce, calls);
            && (!s.terminal ==> |s.ledger| == Successes(nonce, calls))
            && Successes(nonce, calls) <= |s.ledger| <= Successes(nonce, calls) + 1
  {
    if calls != [] {
      var n := |calls| - 1;
      LedgerCountsSuccesses(nonce, calls[..n]);
      CallGrowsLedger(Run(nonce, calls[..n]), calls[n].expected, calls[n].outlook);
    }
  }

  lemma CallGrowsLedger(s: Sink, e: Option<Expected>, o: Outlook)
    ensures var a := AcceptOne(s, e, o);
            && (s.terminal ==> a.Refused? && a.after == s)
            && (a.Accepted? ==> |a.after.ledger| == |s.ledger| + 1 && !a.after.terminal)
            && (a.Refused? ==> a.after.terminal && |s.ledger| <= |a.after.ledger| <= |s.ledger| + 1)
  {
  }
}
