/** What a run of the artifact receipt sink stores and which calls it acknowledges, told from the
    calls: the frame that arrived, the authority it was expected from, and how each step ended. */
module ReceiptRuns {
  import opened Counting
  import opened ReceiptLedger
  import opened ReceiptSink

  // ------------------------------------------------------------ what is acknowledged is stored

  /** The record is about the frame this call received, from the authority it expected. */
  ghost predicate About(nonce: string, c: Call, r: Record) {
    && c.expected.Some? && c.outlook.frame.Some?
    && var e, f := c.expected.value, c.outlook.frame.value;
    && f.sound && f.nonce == nonce && f.binding == e.binding
    && r.binding == f.binding && r.nonce == nonce && r.sequence == f.sequence && r.start == e.start
    && f.binding.generation > 0 && f.sequence > 0 && f.binding.assistantPid > 0
    && r.receiptId == "g" + Decimal(f.binding.generation) + ":s" + Decimal(f.sequence)
    && r.filename == "periodic-g" + Decimal(f.binding.generation) + "-s" + Decimal(f.sequence) + "-" +
                     f.binding.artifactHash + ".png"
  }

  ghost predicate Stores(files: map<string, seq<int>>, name: string, bytes: seq<int>) {
    name in files && files[name] == bytes
  }

  /** What a call does to the files and the trace: old ones stay, and bytes of an acknowledgement
      are sent only for its own frame, when the file already holds that frame's photo. */
  ghost predicate CallKeeps(s: Sink, c: Call, t: Sink) {
    && s.nonce == t.nonce && s.trace <= t.trace
    && (forall name :: name in s.files ==> Stores(t.files, name, s.files[name]))
    && forall k :: |s.trace| <= k < |t.trace| && t.trace[k].AckBytes? ==>
         && About(s.nonce, c, t.trace[k].acknowledged)
         && Stores(t.files, t.trace[k].acknowledged.filename, c.outlook.frame.value.photo)
  }

  /** Up to the acknowledgement no byte of it is sent, and success leaves the photo on disk. */
  ghost predicate Filed(s: Sink, f: Frame, r: Record, a: Outcome) {
    var t := a.after;
    && s.nonce == t.nonce && s.trace <= t.trace
    && (forall name :: name in s.files ==> Stores(t.files, name, s.files[name]))
    && (forall k :: |s.trace| <= k < |t.trace| ==> !t.trace[k].AckBytes?)
    && (a.Accepted? ==> Stores(t.files, r.filename, f.photo))
  }

  lemma AppendFiles(s: Sink, r: Record, o: Outlook)
    ensures var a := Append(s, r, o);
            a.after.nonce == s.nonce && a.after.files == s.files
              && (a.after.trace == s.trace || a.after.trace == s.trace + [RecordDurable(r)])
  {
  }

  lemma PersistFiles(s: Sink, f: Frame, r: Record, o: Outlook)
    ensures Filed(s, f, r, Persist(s, f, r, o))
  {
    var stored := s.(files := s.files[r.filename := o.stored]);
    AppendFiles(stored.(trace := stored.trace + [FileDurable(r.filename)]), r, o);
    hide Append;
  }

  lemma RecordAbout(s: Sink, c: Call)
    requires c.expected.Some? && c.outlook.frame.Some?
    requires Decodes(c.outlook.frame.value) && Matches(s, c.outlook.frame.value, c.expected.value)
    ensures About(s.nonce, c, RecordFor(c.outlook.frame.value, c.expected.value.start))
  {
    var b, n := c.outlook.frame.value.binding, c.outlook.frame.value.sequence;
    NamesSpelled(b.generation, n, b.artifactHash);
    hide ReceiptId, ArtifactName, Decimal;
  }

  lemma AcceptStores(s: Sink, c: Call)
    ensures CallKeeps(s, c, AcceptOne(s, c.expected, c.outlook).after)
  {
    if !s.terminal && c.expected.Some? && c.outlook.frame.Some? {
      var f, e := c.outlook.frame.value, c.expected.value;
      if Decodes(f) && Matches(s, f, e) {
        var r := RecordFor(f, e.start);
        RecordAbout(s, c);
        PersistFiles(s, f, r, c.outlook);
        hide Persist, About, RecordFor, Decodes, Matches;
      }
    }
  }

  lemma NamesSpelled(g: nat, n: nat, hash: string)
    ensures ReceiptId(g, n) == "g" + Decimal(g) + ":s" + Decimal(n)
    ensures ArtifactName(g, n, hash) == "periodic-g" + Decimal(g) + "-s" + Decimal(n) + "-" + hash + ".png"
  {
  }

  lemma {:induction false} RunExtends(nonce: string, calls: seq<Call>, m: nat)
    requires m <= |calls|
    ensures var s, t := Run(nonce, calls[..m]), Run(nonce, calls);
            && s.nonce == t.nonce == nonce && s.trace <= t.trace
            && forall name :: name in s.files ==> Stores(t.files, name, s.files[name])
    decreases |calls|
  {
    var n := |calls| - 1;
    if calls != [] {
      AcceptStores(Run(nonce, calls[..n]), calls[n]);
    }
    if m == |calls| {
      assert calls[..m] == calls;
      if calls != [] {
        RunExtends(nonce, calls[..n], n);
      }
    } else {
      RunExtends(nonce, calls[..n], m);
      assert calls[..n][..m] == calls[..m];
    }
  }

  /** The call that sent the k-th entry of the trace, and the file right after it. */
  lemma {:induction false} SentBy(nonce: string, calls: seq<Call>, k: nat) returns (j: nat)
    requires k < |Run(nonce, calls).trace| && Run(nonce, calls).trace[k].AckBytes?
    ensures var r := Run(nonce, calls).trace[k].acknowledged;
            j < |calls| && About(nonce, calls[j], r) &&
            Stores(Run(nonce, calls).files, r.filename, calls[j].outlook.frame.value.photo)
  {
    var n := |calls| - 1;
    var s := Run(nonce, calls[..n]);
    AcceptStores(s, calls[n]);
    RunExtends(nonce, calls, n);
    hide AcceptOne, About;
    if k < |s.trace| {
      j := SentBy(nonce, calls[..n], k);
    } else {
      j := n;
    }
  }

  /** In every run, and wherever it fails: each acknowledgement was sent by one call, for the frame
      that call received under the binding, nonce and sequence it was expected with; and from then
      on the file named in the receipt holds exactly the photo of that frame. */
  lemma {:induction false} AcknowledgedIsStored(nonce: string, calls: seq<Call>, m: nat, k: nat) returns (j: nat)
    requires m <= |calls| && k < |Run(nonce, calls[..m]).trace| && Run(nonce, calls[..m]).trace[k].AckBytes?
    ensures j < m && Run(nonce, calls[..m]).trace <= Run(nonce, calls).trace
    ensures var r := Run(nonce, calls[..m]).trace[k].acknowledged;
            About(nonce, calls[j], r) && Stores(Run(nonce, calls).files, r.filename, calls[j].outlook.frame.value.photo)
  {
    j := SentBy(nonce, calls[..m], k);
    RunExtends(nonce, calls, m);
    hide Run, About;
  }

  // ------------------------------------------------------------ exactly what is accepted

  /** The frame is what the sink is waiting for. */
  ghost predicate Awaited(s: Sink, e: Option<Expected>, frame: Option<Frame>) {
    && e.Some? && frame.Some?
    && var f := frame.value;
    && f.sound && f.binding.assistantPid > 0 && f.binding.generation > 0 && f.sequence > 0
    && f.nonce == s.nonce && f.binding == e.value.binding
    && ((f.binding.generation == s.lastGeneration && f.sequence == s.nextSequence)
        || (f.binding.generation == s.lastGeneration + 1 && f.sequence == 1))
    && f.recordSize <= 8192 && TotalSize(s.ledger) + f.recordSize <= 8388608
  }

  /** Nothing goes wrong outside, and the file holds what the frame brought. */
  ghost predicate Smooth(o: Outlook) {
    && o.frame.Some? && o.stage && o.link == LinkedDurable && o.verify && o.stored == o.frame.value.photo
    && o.open && o.append == WholeSynced && o.dirSync && o.ack == WholeAck
  }

  lemma CutDash(a: string, u: string, b: string, v: string)
    requires '-' !in a && '-' !in b && a + "-" + u == b + "-" + v
    ensures a == b && u == v
  {
    var x := a + "-" + u;
    assert x[|a|] == '-' && x[|b|] == '-';
    assert forall i :: 0 <= i < |a| ==> x[i] == a[i];
    assert forall i :: 0 <= i < |b| ==> x[i] == b[i];
    assert |a| == |b|;
    assert x[..|a|] == a && x[..|b|] == b && x[|a| + 1..] == u && x[|b| + 1..] == v;
  }

  lemma NumbersFirst(a: string, b: string, x: string, c: string, d: string, y: string)
    requires '-' !in a && '-' !in b && '-' !in c && '-' !in d
    requires "periodic-g" + a + "-s" + b + "-" + x == "periodic-g" + c + "-s" + d + "-" + y
    ensures a == c && b == d
  {
    var u, v := "s" + b + "-" + x, "s" + d + "-" + y;
    var s, t := "periodic-g" + a + "-s" + b + "-" + x, "periodic-g" + c + "-s" + d + "-" + y;
    assert s[10..] == a + "-" + u && t[10..] == c + "-" + v;
    CutDash(a, u, c, v);
    CutDash("s" + b, x, "s" + d, y);
    assert ("s" + b)[1..] == b && ("s" + d)[1..] == d;
  }

  lemma ArtifactNameNumbers(g: nat, s: nat, x: string, h: nat, t: nat, y: string)
    requires ArtifactName(g, s, x) == ArtifactName(h, t, y)
    ensures g == h && s == t
  {
    hide Decimal;
    var p := "periodic-g" + Decimal(g) + "-s" + Decimal(s) + "-";
    var q := "periodic-g" + Decimal(h) + "-s" + Decimal(t) + "-";
    assert ArtifactName(g, s, x) == p + (x + ".png") && ArtifactName(h, t, y) == q + (y + ".png");
    NumbersFirst(Decimal(g), Decimal(s), x + ".png", Decimal(h), Decimal(t), y + ".png");
    DecimalInjective(g, h);
    DecimalInjective(s, t);
  }

  /** A record that follows a gap-free ledger names a file that no record of it names. */
  lemma FreshName(ledger: seq<Record>, r: Record, i: nat)
    requires GapFree(ledger) && ValidRecord(r) && Follows(Fold(ledger), r.binding.generation, r.sequence)
    requires i < |ledger|
    ensures ledger[i].filename != r.filename
  {
    var more := ledger + [r];
    assert more[..|ledger|] == ledger && GapFree(more);
    Increasing(more, i, |ledger|);
    AllValid(ledger, i);
    hide GapFree, ArtifactName;
    var q := ledger[i];
    if q.filename == r.filename {
      ArtifactNameNumbers(q.binding.generation, q.sequence, q.binding.artifactHash,
                          r.binding.generation, r.sequence, r.binding.artifactHash);
    }
  }

  /** While live, every file belongs to a record, and every record has a line. */
  ghost predicate Booked(s: Sink) {
    && (forall name :: name in s.files ==> exists i :: 0 <= i < |s.ledger| && s.ledger[i].filename == name)
    && (forall i :: 0 <= i < |s.ledger| ==> s.ledger[i].size > 0)
  }

  /** Every ledger line that a frame makes has at least one byte. */
  ghost predicate Lines(calls: seq<Call>) {
    forall i :: 0 <= i < |calls| && calls[i].outlook.frame.Some? ==> calls[i].outlook.frame.value.recordSize > 0
  }

  lemma BookedGrows(s: Sink, t: Sink, r: Record, bytes: seq<int>)
    requires Booked(s) && r.size > 0
    requires t.files == s.files[r.filename := bytes] && t.ledger == s.ledger + [r]
    ensures Booked(t)
  {
    forall name | name in t.files ensures exists i :: 0 <= i < |t.ledger| && t.ledger[i].filename == name {
      if name == r.filename {
        assert t.ledger[|s.ledger|].filename == name;
      } else {
        var i :| 0 <= i < |s.ledger| && s.ledger[i].filename == name;
        assert t.ledger[i].filename == name;
      }
    }
  }

  lemma AcceptBooks(s: Sink, c: Call)
    requires Booked(s) && (c.outlook.frame.Some? ==> c.outlook.frame.value.recordSize > 0)
    ensures var a := AcceptOne(s, c.expected, c.outlook); a.Accepted? ==> Booked(a.after)
  {
    var a := AcceptOne(s, c.expected, c.outlook);
    if a.Accepted? {
      var r := RecordFor(c.outlook.frame.value, c.expected.value.start);
      assert a.after.files == s.files[r.filename := c.outlook.stored] && a.after.ledger == s.ledger + [r];
      BookedGrows(s, a.after, r, c.outlook.stored);
    }
  }

  lemma {:induction false} LiveIsBooked(nonce: string, calls: seq<Call>)
    requires Lines(calls) && !Run(nonce, calls).terminal
    ensures Booked(Run(nonce, calls))
  {
    if calls != [] {
      var n := |calls| - 1;
      var s := Run(nonce, calls[..n]);
      CallGrowsLedger(s, calls[n].expected, calls[n].outlook);
      LiveIsBooked(nonce, calls[..n]);
      AcceptBooks(s, calls[n]);
    }
  }

  lemma {:induction false} BookedSize(ledger: seq<Record>)
    requires ledger != [] && forall i :: 0 <= i < |ledger| ==> ledger[i].size > 0
    ensures TotalSize(ledger) > 0
  {
    assert ledger[|ledger| - 1].size > 0;
  }

  lemma FrameFollows(s: Sink, f: Frame, e: Expected)
    requires LedgerInv(s) && !s.terminal && Booked(s) && Decodes(f) && Matches(s, f, e)
    ensures RecordFor(f, e.start).filename !in s.files
  {
    var r := RecordFor(f, e.start);
    if r.filename in s.files {
      var i :| 0 <= i < |s.ledger| && s.ledger[i].filename == r.filename;
      FreshName(s.ledger, r, i);
    }
  }

  lemma AcceptsAwaited(s: Sink, e: Option<Expected>, o: Outlook)
    requires LedgerInv(s) && !s.terminal && Booked(s)
    ensures AcceptOne(s, e, o).Accepted? <==> Awaited(s, e, o.frame) && Smooth(o)
  {
    if s.ledger != [] {
      BookedSize(s.ledger);
    }
    assert LedgerOpens(s, o.open) <==> o.open;
    if e.Some? && o.frame.Some? && Decodes(o.frame.value) && Matches(s, o.frame.value, e.value) {
      FrameFollows(s, o.frame.value, e.value);
      hide ArtifactName, ReceiptId;
    }
    hide GapFree, LedgerOpens, Booked, LedgerInv;
  }

  /** After any run the sink accepts exactly the awaited frame, provided nothing goes wrong
      outside: no earlier call, file or ledger line of a live sink can be in the way. */
  lemma {:induction false} LiveAcceptsExactly(nonce: string, calls: seq<Call>, e: Option<Expected>, o: Outlook)
    requires Lines(calls)
    ensures var s := Run(nonce, calls);
            AcceptOne(s, e, o).Accepted? <==> !s.terminal && Awaited(s, e, o.frame) && Smooth(o)
  {
    RunKeeps(nonce, calls);
    if !Run(nonce, calls).terminal {
      LiveIsBooked(nonce, calls);
      AcceptsAwaited(Run(nonce, calls), e, o);
    }
  }
}
