/** The periodic-artifact receipt ledger: one record per acknowledged artifact, numbered
    by assistant generation and sequence, and the check made before every append to an
    existing ledger. */
module ReceiptLedger {

  const MAX_RECORD_BYTES := 8 * 1024
  const MAX_LEDGER_BYTES := 8 * 1024 * 1024

  // ---------------------------------------------------------------- receipt names

  /** A number in decimal. */
  function Decimal(n: nat): (s: string)
    ensures |s| > 0 && forall i :: 0 <= i < |s| ==> '0' <= s[i] <= '9'
  {
    if n < 10 then [Digit(n)] else Decimal(n / 10) + [Digit(n % 10)]
  }

  function Digit(d: nat): (c: char)
    requires d < 10
    ensures '0' <= c <= '9'
  {
    '0' + d as char
  }

  lemma {:induction false} DecimalInjective(m: nat, n: nat)
    requires Decimal(m) == Decimal(n)
    ensures m == n
    decreases m
  {
    if m >= 10 && n >= 10 {
      var a, b := Decimal(m), Decimal(n);
      assert a[..|a| - 1] == Decimal(m / 10) && b[..|b| - 1] == Decimal(n / 10);
      assert a[|a| - 1] == Digit(m % 10) && b[|b| - 1] == Digit(n % 10);
      DecimalInjective(m / 10, n / 10);
    } else if m < 10 && n < 10 {
      assert Decimal(m)[0] == Digit(m) && Decimal(n)[0] == Digit(n);
    }
  }

  /** g<generation>:s<sequence>, the receipt's name in the ledger and the acknowledgement. */
  function ReceiptId(generation: nat, sequence: nat): string {
    "g" + Decimal(generation) + ":s" + Decimal(sequence)
  }

  /** The separator is the first colon of a receipt name. */
  lemma SeparatorFirst(g: nat, s: nat)
    ensures var x := ReceiptId(g, s);
            x[1 + |Decimal(g)|] == ':' && forall k :: 0 <= k <= |Decimal(g)| ==> x[k] != ':'
  {
    var x, a := ReceiptId(g, s), Decimal(g);
    forall k | 0 <= k <= |a| ensures x[k] != ':' {
      assert x[k] == if k == 0 then 'g' else a[k - 1];
    }
  }

  lemma ReceiptIdInjective(g: nat, s: nat, h: nat, t: nat)
    requires ReceiptId(g, s) == ReceiptId(h, t)
    ensures g == h && s == t
  {
    SeparatorFirst(g, s);
    SeparatorFirst(h, t);
    var a, b, x := Decimal(g), Decimal(h), ReceiptId(g, s);
    assert |a| == |b|;
    assert x[1..1 + |a|] == a && x[1..1 + |b|] == b;
    assert x[3 + |a|..] == Decimal(s) && x[3 + |b|..] == Decimal(t);
    DecimalInjective(g, h);
    DecimalInjective(s, t);
  }

  // ---------------------------------------------------------------- records

  /** What an artifact frame and its expected authority must agree on. */
  datatype Binding = Binding(assistantPid: int, generation: int, slotId: string, generationId: string,
                             ownerToken: string, artifactHash: string)

  /** A start identity as the process observer constructs it. */
  type StartIdentity = s: string | 1 <= |s| <= 128 witness "x"

  /** The digest of an acknowledgement, as an injective function of what it covers. */
  datatype AckDigest = AckDigest(receiptId: string, assistantPid: int, generation: int, artifactHash: string,
                                 nonce: string, sequence: int)

  function DigestOf(receiptId: string, b: Binding, nonce: string, sequence: int): AckDigest {
    AckDigest(receiptId, b.assistantPid, b.generation, b.artifactHash, nonce, sequence)
  }

  /** One ledger line; size is the length of its canonical encoding. */
  datatype Record = Record(binding: Binding, nonce: string, sequence: int, receiptId: string, filename: string,
                           acknowledgement: AckDigest, start: string, size: nat)

  function ArtifactName(generation: nat, sequence: nat, hash: string): string {
    "periodic-g" + Decimal(generation) + "-s" + Decimal(sequence) + "-" + hash + ".png"
  }

  predicate ValidRecord(r: Record) {
    && r.binding.generation > 0 && r.sequence > 0 && r.binding.assistantPid > 0
    && r.receiptId == ReceiptId(r.binding.generation, r.sequence)
    && r.filename == ArtifactName(r.binding.generation, r.sequence, r.binding.artifactHash)
    && r.acknowledgement == DigestOf(r.receiptId, r.binding, r.nonce, r.sequence)
    && 1 <= |r.start| <= 128
  }

  /** The position after a record: its generation and the next sequence in it. */
  function Fold(records: seq<Record>): (int, int) {
    if records == [] then (0, 1) else
      var r := records[|records| - 1];
      (r.binding.generation, r.sequence + 1)
  }

  /** The ordering rule shared by the sink and the reopen check. */
  predicate Follows(position: (int, int), generation: int, sequence: int) {
    && position.0 <= generation <= position.0 + 1
    && (generation == position.0 ==> sequence == position.1)
    && (generation == position.0 + 1 ==> sequence == 1)
  }

  /** Valid records numbered without a gap from generation 1, sequence 1. */
  ghost predicate GapFree(records: seq<Record>) {
    records == [] ||
    var n := |records| - 1;
    GapFree(records[..n]) && ValidRecord(records[n]) &&
    Follows(Fold(records[..n]), records[n].binding.generation, records[n].sequence)
  }

  function TotalSize(records: seq<Record>): nat {
    if records == [] then 0 else TotalSize(records[..|records| - 1]) + records[|records| - 1].size
  }

  lemma {:induction false} GapFreePrefix(records: seq<Record>, n: nat)
    requires n <= |records| && GapFree(records)
    ensures GapFree(records[..n]) && (n > 0 ==> ValidRecord(records[n - 1]))
  {
    if n == |records| {
      assert records[..n] == records;
    } else {
      GapFreePrefix(records[..|records| - 1], n);
      assert records[..|records| - 1][..n] == records[..n];
    }
  }

  predicate Earlier(a: Record, b: Record) {
    a.binding.generation < b.binding.generation ||
    (a.binding.generation == b.binding.generation && a.sequence < b.sequence)
  }

  lemma LastIsLater(records: seq<Record>)
    requires GapFree(records) && |records| >= 2
    ensures Earlier(records[|records| - 2], records[|records| - 1])
  {
    hide ValidRecord;
    var n := |records| - 1;
    assert records[..n][n - 1] == records[n - 1];
    assert Fold(records[..n]) == (records[n - 1].binding.generation, records[n - 1].sequence + 1);
  }

  lemma NextIsLater(records: seq<Record>, j: nat)
    requires GapFree(records) && 0 < j < |records|
    ensures Earlier(records[j - 1], records[j])
  {
    GapFreePrefix(records, j + 1);
    LastIsLater(records[..j + 1]);
    hide GapFree;
  }

  /** Numbers strictly increase along a gap-free ledger. */
  lemma {:induction false} Increasing(records: seq<Record>, i: nat, j: nat)
    requires GapFree(records) && i < j < |records|
    ensures Earlier(records[i], records[j])
    decreases j
  {
    NextIsLater(records, j);
    hide GapFree;
    if i < j - 1 {
      Increasing(records, i, j - 1);
    }
  }

  lemma SameName(a: Record, b: Record)
    requires ValidRecord(a) && ValidRecord(b) && a.receiptId == b.receiptId
    ensures a.binding.generation == b.binding.generation && a.sequence == b.sequence
  {
    ReceiptIdInjective(a.binding.generation, a.sequence, b.binding.generation, b.sequence);
  }

  lemma AllValid(records: seq<Record>, i: nat)
    requires GapFree(records) && i < |records|
    ensures ValidRecord(records[i])
  {
    GapFreePrefix(records, i + 1);
  }

  /** Receipt names are distinct in every gap-free ledger, so testing for duplicates on
      the way can never be what refuses one. */
  lemma {:induction false} ReceiptsDistinct(records: seq<Record>, i: nat, j: nat)
    requires GapFree(records) && i < j < |records|
    ensures records[i].receiptId != records[j].receiptId
  {
    Increasing(records, i, j);
    AllValid(records, i);
    AllValid(records, j);
    if records[i].receiptId == records[j].receiptId {
      SameName(records[i], records[j]);
    }
  }

  /** The first record of a gap-free ledger is generation 1, sequence 1. */
  lemma StartsAtOne(records: seq<Record>)
    requires GapFree(records) && records != []
    ensures records[0].binding.generation == 1 && records[0].sequence == 1
  {
    GapFreePrefix(records, 1);
    assert records[..1][..0] == [];
  }

  /** What the reopen check accepts. */
  ghost predicate Reopenable(records: seq<Record>, torn: bool) {
    && !torn
    && 1 <= TotalSize(records) <= MAX_LEDGER_BYTES
    && (forall i :: 0 <= i < |records| ==> records[i].size <= MAX_RECORD_BYTES)
    && GapFree(records)
  }

  /** A record whose derived fields are what its numbers make them. */
  ghost predicate Spelled(r: Record) {
    var b := r.binding;
    && b.generation > 0 && r.sequence > 0 && b.assistantPid > 0 && 1 <= |r.start| <= 128
    && r.receiptId == "g" + Decimal(b.generation) + ":s" + Decimal(r.sequence)
    && r.filename == "periodic-g" + Decimal(b.generation) + "-s" + Decimal(r.sequence) + "-" + b.artifactHash + ".png"
    && r.acknowledgement == AckDigest(r.receiptId, b.assistantPid, b.generation, b.artifactHash, r.nonce, r.sequence)
  }

  /** From one record to the next: one more in this generation, or the first of the next. */
  ghost predicate Succeeds(a: Record, b: Record) {
    || (b.binding.generation == a.binding.generation && b.sequence == a.sequence + 1)
    || (b.binding.generation == a.binding.generation + 1 && b.sequence == 1)
  }

  ghost predicate Numbered(records: seq<Record>) {
    && (records != [] ==> records[0].binding.generation == 1 && records[0].sequence == 1)
    && (forall i, j :: 0 <= i < |records| && 0 <= j < |records| && j == i + 1 ==> Succeeds(records[i], records[j]))
    && forall i :: 0 <= i < |records| ==> Spelled(records[i])
  }

  lemma NumberedGrows(records: seq<Record>, n: nat)
    requires |records| == n + 1
    ensures Numbered(records) <==>
            && Numbered(records[..n]) && Spelled(records[n])
            && (n == 0 ==> records[0].binding.generation == 1 && records[0].sequence == 1)
            && (n > 0 ==> Succeeds(records[n - 1], records[n]))
  {
    hide Spelled, Succeeds;
    var p := records[..n];
    assert forall i :: 0 <= i < n ==> p[i] == records[i];
    if Numbered(records) {
      forall i, j | 0 <= i < n && 0 <= j < n && j == i + 1 ensures Succeeds(p[i], p[j]) {
        assert Succeeds(records[i], records[j]);
      }
      forall i | 0 <= i < n ensures Spelled(p[i]) {
        assert Spelled(records[i]);
      }
      assert n > 0 ==> p[0] == records[0];
      assert n > 0 ==> Succeeds(records[n - 1], records[n]);
    }
  }

  lemma ValidIsSpelled(r: Record)
    ensures ValidRecord(r) <==> Spelled(r)
  {
    hide Decimal;
  }

  /** The recursive walk with its running position, record by record. */
  lemma {:induction false} GapFreeMeans(records: seq<Record>)
    ensures GapFree(records) <==> Numbered(records)
  {
    if records != [] {
      var n := |records| - 1;
      GapFreeMeans(records[..n]);
      NumberedGrows(records, n);
      ValidIsSpelled(records[n]);
      hide Spelled, ValidRecord, Numbered;
    }
  }

  function Names(records: seq<Record>): set<string> {
    if records == [] then {} else Names(records[..|records| - 1]) + {records[|records| - 1].receiptId}
  }

  lemma {:induction false} NamesMembers(records: seq<Record>)
    ensures forall id :: id in Names(records) ==> exists j :: 0 <= j < |records| && records[j].receiptId == id
  {
    if records != [] {
      NamesMembers(records[..|records| - 1]);
    }
  }

  lemma NewName(records: seq<Record>)
    requires records != [] && GapFree(records)
    ensures records[|records| - 1].receiptId !in Names(records[..|records| - 1])
  {
    var n := |records| - 1;
    NamesMembers(records[..n]);
    hide GapFree, Names;
    if records[n].receiptId in Names(records[..n]) {
      var j :| 0 <= j < n && records[..n][j].receiptId == records[n].receiptId;
      ReceiptsDistinct(records, j, n);
    }
  }

  /** One more record extends a gap-free ledger exactly when it is valid and follows;
      its name is then new. */
  lemma {:induction false} LedgerStep(records: seq<Record>, i: nat)
    requires i < |records| && GapFree(records[..i])
    ensures records[..i + 1][..i] == records[..i]
    ensures var r := records[i];
            GapFree(records[..i + 1]) <==>
            ValidRecord(r) && Follows(Fold(records[..i]), r.binding.generation, r.sequence)
    ensures GapFree(records[..i + 1]) ==> records[i].receiptId !in Names(records[..i])
    ensures GapFree(records) ==> GapFree(records[..i + 1])
  {
    var next := records[..i + 1];
    assert next[..i] == records[..i] && next[i] == records[i];
    if GapFree(next) {
      NewName(next);
    }
    if GapFree(records) {
      GapFreePrefix(records, i + 1);
    }
  }

  /** One line of the reopen check. */
  method CheckRecord(r: Record, generation: int, nextSequence: int, seen: set<string>) returns (ok: bool)
    ensures ok <==> r.size <= MAX_RECORD_BYTES && ValidRecord(r) && r.receiptId !in seen &&
                    Follows((generation, nextSequence), r.binding.generation, r.sequence)
  {
    if r.size > MAX_RECORD_BYTES || !ValidRecord(r) {
      return false;
    }
    if r.receiptId in seen || r.binding.generation < generation || r.binding.generation > generation + 1 ||
      (r.binding.generation == generation && r.sequence != nextSequence) ||
      (r.binding.generation == generation + 1 && r.sequence != 1)
    {
      return false;
    }
    return true;
  }

  /** The reopen check: one pass with a running position and the names seen so far. */
  method CheckLedger(records: seq<Record>, torn: bool) returns (ok: bool)
    ensures ok <==> Reopenable(records, torn)
    ensures ok <==> !torn && 1 <= TotalSize(records) <= 8 * 1024 * 1024 && Numbered(records) &&
                    forall i :: 0 <= i < |records| ==> records[i].size <= 8 * 1024
  {
    GapFreeMeans(records);
    hide Numbered;
    if torn || !(1 <= TotalSize(records) <= MAX_LEDGER_BYTES) {
      return false;
    }
    var seen: set<string> := {};
    var generation, nextSequence := 0, 1;
    for i := 0 to |records|
      invariant forall j :: 0 <= j < i ==> records[j].size <= MAX_RECORD_BYTES
      invariant GapFree(records[..i])
      invariant (generation, nextSequence) == Fold(records[..i])
      invariant seen == Names(records[..i])
    {
      var r := records[i];
      LedgerStep(records, i);
      var good := CheckRecord(r, generation, nextSequence, seen);
      if !good {
        return false;
      }
      seen := seen + {r.receiptId};
      generation, nextSequence := r.binding.generation, r.sequence + 1;
    }
    assert records[..|records|] == records;
    return true;
  }
}
