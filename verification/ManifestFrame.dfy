/** The candidate manifest: a NUL-separated Git listing read into records, put in path
    order, and framed into the bytes that are hashed. Strings stand for byte strings. */
module ManifestFrame {
  import opened Counting

  const NUL: char := '\0'

  datatype Record = Record(path: string, mode: string, blob: string)

  /** The path rules: what is a normalized, materializable path, and the spelling two paths
      share when some file system would confuse them. */
  datatype Rules = Rules(normal: string -> bool, alias: string -> string)

  // ------------------------------------------------------------ framing

  predicate Free(s: string, c: char) { c !in s }

  ghost predicate AllFree(fields: seq<string>) { forall i :: 0 <= i < |fields| ==> Free(fields[i], NUL) }

  function Terminated(fields: seq<string>): string {
    if fields == [] then [] else fields[0] + [NUL] + Terminated(fields[1..])
  }

  function Fields(records: seq<Record>): seq<string> {
    if records == [] then [] else [records[0].path, records[0].mode, records[0].blob] + Fields(records[1..])
  }

  /** The bytes the manifest digest is taken over. */
  function Frame(records: seq<Record>): string { Terminated(Fields(records)) }

  lemma {:induction false} TerminatedConcat(a: seq<string>, b: seq<string>)
    ensures Terminated(a + b) == Terminated(a) + Terminated(b)
  {
    if a == [] {
      assert a + b == b;
    } else {
      TerminatedConcat(a[1..], b);
      assert (a + b)[1..] == a[1..] + b;
    }
  }

  lemma {:induction false} FieldsConcat(a: seq<Record>, b: seq<Record>)
    ensures Fields(a + b) == Fields(a) + Fields(b)
  {
    if a == [] {
      assert a + b == b;
    } else {
      FieldsConcat(a[1..], b);
      assert (a + b)[1..] == a[1..] + b;
    }
  }

  lemma FrameOne(r: Record)
    ensures Frame([r]) == r.path + [NUL] + r.mode + [NUL] + r.blob + [NUL]
  {
    assert [r][1..] == [];
    assert Fields([r]) == [r.path] + ([r.mode] + [r.blob]);
    TerminatedConcat([r.path], [r.mode] + [r.blob]);
    TerminatedConcat([r.mode], [r.blob]);
  }

  lemma FrameGrows(records: seq<Record>, r: Record)
    ensures Frame(records + [r]) == Frame(records) + (r.path + [NUL] + r.mode + [NUL] + r.blob + [NUL])
  {
    FieldsConcat(records, [r]);
    TerminatedConcat(Fields(records), Fields([r]));
    FrameOne(r);
  }

  method FrameRecords(records: seq<Record>) returns (framed: string)
    ensures framed == Frame(records)
  {
    framed := [];
    for i := 0 to |records|
      invariant framed == Frame(records[..i])
    {
      assert records[..i + 1] == records[..i] + [records[i]];
      FrameGrows(records[..i], records[i]);
      framed := framed + (records[i].path + [NUL] + records[i].mode + [NUL] + records[i].blob + [NUL]);
    }
    assert records[..|records|] == records;
  }

  /** A separator after a field that does not hold it is the first one. */
  lemma FirstAt(f: string, c: char, rest: string)
    requires Free(f, c)
    ensures var s := f + [c] + rest;
            s[|f|] == c && (forall k :: 0 <= k < |f| ==> s[k] != c) && s[..|f|] == f && s[|f| + 1..] == rest
  {
  }

  lemma CutOnce(f: string, g: string, s: string, t: string)
    requires Free(f, NUL) && Free(g, NUL) && f + [NUL] + s == g + [NUL] + t
    ensures f == g && s == t
  {
    FirstAt(f, NUL, s);
    FirstAt(g, NUL, t);
    assert |f| == |g|;
  }

  lemma {:induction false} TerminatedInjective(a: seq<string>, b: seq<string>)
    requires AllFree(a) && AllFree(b) && Terminated(a) == Terminated(b)
    ensures a == b
  {
    if a != [] && b != [] {
      assert Free(a[0], NUL) && Free(b[0], NUL);
      CutOnce(a[0], b[0], Terminated(a[1..]), Terminated(b[1..]));
      TerminatedInjective(a[1..], b[1..]);
      assert a == [a[0]] + a[1..] && b == [b[0]] + b[1..];
    }
  }

  lemma {:induction false} FieldsInjective(a: seq<Record>, b: seq<Record>)
    requires Fields(a) == Fields(b)
    ensures a == b
  {
    if a != [] && b != [] {
      var x, y := Fields(a), Fields(b);
      assert x[0] == y[0] && x[1] == y[1] && x[2] == y[2];
      assert x[3..] == Fields(a[1..]) && y[3..] == Fields(b[1..]);
      FieldsInjective(a[1..], b[1..]);
      assert a == [a[0]] + a[1..] && b == [b[0]] + b[1..];
    }
  }

  predicate FreeRecord(r: Record) { Free(r.path, NUL) && Free(r.mode, NUL) && Free(r.blob, NUL) }

  ghost predicate RecordsFree(records: seq<Record>) { forall i :: 0 <= i < |records| ==> FreeRecord(records[i]) }

  lemma {:induction false} FieldsFree(records: seq<Record>)
    requires RecordsFree(records)
    ensures AllFree(Fields(records))
  {
    if records != [] {
      assert FreeRecord(records[0]);
      FieldsFree(records[1..]);
    }
  }

  /** Equal framed bytes mean equal records, field for field. */
  lemma FrameInjective(a: seq<Record>, b: seq<Record>)
    requires RecordsFree(a) && RecordsFree(b)
    ensures Frame(a) == Frame(b) <==> a == b
  {
    if Frame(a) == Frame(b) {
      FieldsFree(a);
      FieldsFree(b);
      TerminatedInjective(Fields(a), Fields(b));
      FieldsInjective(a, b);
    }
  }

  /** Without the condition two different records can frame alike. */
  lemma FrameCollides()
    ensures Frame([Record("a", "b\0c", "d")]) == Frame([Record("a\0b", "c", "d")])
  {
    FrameOne(Record("a", "b\0c", "d"));
    FrameOne(Record("a\0b", "c", "d"));
  }

  // ------------------------------------------------------------ reading a listing

  const FILE_MODES: set<string> := {"100644", "100755"}
  const LINK_MODE: string := "120000"
  const GITLINK_MODE: string := "160000"

  function Find(s: string, c: char): (at: Option<nat>)
    ensures at.None? <==> c !in s
    ensures at.Some? ==> at.value < |s| && s[at.value] == c && Free(s[..at.value], c)
  {
    if s == [] then None else if s[0] == c then Some(0)
    else match Find(s[1..], c) case None => None case Some(i) => assert s[..i + 1] == [s[0]] + s[1..][..i]; Some(i + 1)
  }

  /** Splitting at every separator. */
  function Split(s: string, c: char): (pieces: seq<string>)
    ensures pieces != []
    decreases |s|
  {
    match Find(s, c) case None => [s] case Some(i) => [s[..i]] + Split(s[i + 1..], c)
  }

  predicate IsHex(c: char) { '0' <= c <= '9' || 'a' <= c <= 'f' }

  predicate IsObjectId(s: string) { |s| == 40 && forall i :: 0 <= i < |s| ==> IsHex(s[i]) }

  predicate KnownMode(mode: string) { mode in FILE_MODES || mode == LINK_MODE || mode == GITLINK_MODE }

  function TypeOf(mode: string): string { if mode == GITLINK_MODE then "commit" else "blob" }

  /** One entry: mode, type and object before the first tab, the path after it. */
  function ParseEntry(rules: Rules, e: string): Option<Record> {
    match Find(e, '\t')
    case None => None
    case Some(tab) =>
      var header, path := e[..tab], e[tab + 1..];
      match Find(header, ' ')
      case None => None
      case Some(i) =>
        var mode, rest := header[..i], header[i + 1..];
        match Find(rest, ' ')
        case None => None
        case Some(j) =>
          var kind, blob := rest[..j], rest[j + 1..];
          if rules.normal(path) && IsObjectId(blob) && KnownMode(mode) && kind == TypeOf(mode)
          then Some(Record(path, mode, blob)) else None
  }

  /** All non-empty pieces, if every one of them parses. */
  function ParsePieces(rules: Rules, pieces: seq<string>): Option<seq<Record>> {
    if pieces == [] then Some([]) else
      var n := |pieces| - 1;
      match ParsePieces(rules, pieces[..n])
      case None => None
      case Some(records) =>
        if pieces[n] == [] then Some(records) else match ParseEntry(rules, pieces[n])
          case None => None
          case Some(r) => Some(records + [r])
  }

  lemma {:induction false} ParseFails(rules: Rules, pieces: seq<string>, k: nat)
    requires k <= |pieces| && ParsePieces(rules, pieces[..k]).None?
    ensures ParsePieces(rules, pieces).None?
    decreases |pieces| - k
  {
    if k < |pieces| {
      assert pieces[..k + 1][..k] == pieces[..k];
      ParseFails(rules, pieces, k + 1);
    } else {
      assert pieces[..k] == pieces;
    }
  }

  method ReadListing(rules: Rules, raw: string) returns (records: Option<seq<Record>>)
    ensures records == ParsePieces(rules, Split(raw, NUL))
  {
    hide ParseEntry, Split, Find;
    var pieces := Split(raw, NUL);
    var found := [];
    for i := 0 to |pieces|
      invariant ParsePieces(rules, pieces[..i]) == Some(found)
    {
      assert pieces[..i + 1][..i] == pieces[..i];
      if pieces[i] == [] {
        continue;
      }
      var r := ParseEntry(rules, pieces[i]);
      if r.None? {
        ParseFails(rules, pieces, i + 1);
        return None;
      }
      found := found + [r.value];
    }
    assert pieces[..|pieces|] == pieces;
    return Some(found);
  }

  // ------------------------------------------------------------ Git's side

  function PrintEntry(r: Record): string { r.mode + " " + TypeOf(r.mode) + " " + r.blob + "\t" + r.path }

  function Entries(records: seq<Record>): seq<string> {
    seq(|records|, i requires 0 <= i < |records| => PrintEntry(records[i]))
  }

  /** The listing Git prints: every entry with its terminator. */
  function PrintListing(records: seq<Record>): string { Terminated(Entries(records)) }

  ghost predicate Proper(rules: Rules, r: Record) {
    rules.normal(r.path) && Free(r.path, NUL) && IsObjectId(r.blob) && KnownMode(r.mode)
  }

  lemma FindFirst(a: string, c: char, b: string)
    requires Free(a, c)
    ensures Find(a + [c] + b, c) == Some(|a|)
  {
    var s := a + [c] + b;
    FirstAt(a, c, b);
    var at := Find(s, c);
    assert at.Some? by { assert s[|a|] in s; }
    FreeBelow(s, at.value, |a|, c);
  }

  lemma FreeBelow(s: string, n: nat, k: nat, c: char)
    requires n <= |s| && k < |s| && Free(s[..n], c)
    ensures s[k] == c ==> n <= k
  {
    if k < n {
      assert s[..n][k] == s[k];
    }
  }

  lemma BlobLetters(blob: string)
    requires IsObjectId(blob)
    ensures Free(blob, '\t') && Free(blob, NUL)
  {
  }

  lemma HeaderFree(r: Record, c: char)
    requires Free(r.mode, c) && Free(TypeOf(r.mode), c) && Free(r.blob, c) && c != ' '
    ensures Free(r.mode + " " + TypeOf(r.mode) + " " + r.blob, c)
  {
  }

  lemma FreeConcat(a: string, b: string, c: char)
    ensures Free(a + b, c) <==> Free(a, c) && Free(b, c)
  {
  }

  /** An entry is free of a character exactly when its fields are. */
  lemma EntryParts(r: Record, c: char)
    requires c != ' ' && c != '\t'
    ensures Free(PrintEntry(r), c) <==>
            Free(r.mode, c) && Free(TypeOf(r.mode), c) && Free(r.blob, c) && Free(r.path, c)
  {
    var kind := TypeOf(r.mode);
    FreeConcat(r.mode, " ", c);
    FreeConcat(r.mode + " ", kind, c);
    FreeConcat(r.mode + " " + kind, " ", c);
    FreeConcat(r.mode + " " + kind + " ", r.blob, c);
    FreeConcat(r.mode + " " + kind + " " + r.blob, "\t", c);
    FreeConcat(r.mode + " " + kind + " " + r.blob + "\t", r.path, c);
    Spaces(c);
    hide Free, TypeOf;
  }

  lemma Spaces(c: char)
    requires c != ' ' && c != '\t'
    ensures Free(" ", c) && Free("\t", c)
  {
  }

  lemma EntryParses(rules: Rules, r: Record)
    requires rules.normal(r.path) && IsObjectId(r.blob) && KnownMode(r.mode)
    ensures ParseEntry(rules, PrintEntry(r)) == Some(r)
  {
    BlobLetters(r.blob);
    HeaderFree(r, '\t');
    assert Free(r.mode, ' ') && Free(TypeOf(r.mode), ' ');
    hide IsObjectId, KnownMode, TypeOf, Find;
    var rest := TypeOf(r.mode) + [' '] + r.blob;
    var header := r.mode + [' '] + rest;
    HeaderAssembled(r.mode, TypeOf(r.mode), r.blob);
    Assembled(r.mode, TypeOf(r.mode), r.blob, r.path);
    Separated(header, '\t', r.path);
    Separated(r.mode, ' ', rest);
    Separated(TypeOf(r.mode), ' ', r.blob);
  }

  lemma NamesFree(r: Record)
    requires KnownMode(r.mode)
    ensures Free(r.mode, NUL) && Free(TypeOf(r.mode), NUL) && PrintEntry(r) != []
  {
  }

  lemma EntryRoundTrip(rules: Rules, r: Record)
    requires Proper(rules, r)
    ensures ParseEntry(rules, PrintEntry(r)) == Some(r) && Free(PrintEntry(r), NUL) && PrintEntry(r) != []
  {
    EntryParses(rules, r);
    BlobLetters(r.blob);
    EntryParts(r, NUL);
    NamesFree(r);
    hide ParseEntry, PrintEntry, Free, TypeOf;
  }

  lemma Separated(a: string, c: char, b: string)
    requires Free(a, c)
    ensures var s := a + [c] + b; Find(s, c) == Some(|a|) && s[..|a|] == a && s[|a| + 1..] == b
  {
    FindFirst(a, c, b);
    FirstAt(a, c, b);
  }

  lemma {:induction false} SplitTerminated(entries: seq<string>)
    requires AllFree(entries)
    ensures Split(Terminated(entries), NUL) == entries + [[]]
  {
    if entries != [] {
      assert Free(entries[0], NUL);
      SplitFirst(entries[0], NUL, Terminated(entries[1..]));
      SplitTerminated(entries[1..]);
      assert entries == [entries[0]] + entries[1..];
    }
  }

  lemma SplitFirst(f: string, c: char, rest: string)
    requires Free(f, c)
    ensures Split(f + [c] + rest, c) == [f] + Split(rest, c)
  {
    Separated(f, c, rest);
  }

  lemma {:induction false} ParseEntries(rules: Rules, records: seq<Record>)
    requires forall i :: 0 <= i < |records| ==> Proper(rules, records[i])
    ensures ParsePieces(rules, Entries(records)) == Some(records)
  {
    hide ParseEntry, PrintEntry, Proper;
    if records != [] {
      var n := |records| - 1;
      ParseEntries(rules, records[..n]);
      assert Entries(records)[..n] == Entries(records[..n]);
      EntryRoundTrip(rules, records[n]);
      assert records == records[..n] + [records[n]];
    }
  }

  /** Reading back what Git prints gives exactly the records. */
  lemma ListingRoundTrip(rules: Rules, records: seq<Record>)
    requires forall i :: 0 <= i < |records| ==> Proper(rules, records[i])
    ensures ParsePieces(rules, Split(PrintListing(records), NUL)) == Some(records)
  {
    var entries := Entries(records);
    forall i | 0 <= i < |entries| ensures Free(entries[i], NUL) {
      EntryRoundTrip(rules, records[i]);
    }
    SplitTerminated(entries);
    var pieces := entries + [[]];
    assert pieces[..|entries|] == entries;
    ParseEntries(rules, records);
  }

  // ------------------------------------------------------------ exactly what is read

  /** A normalized path, one of Git's four modes and forty lower-case hexadecimal digits. */
  ghost predicate Listable(rules: Rules, r: Record) {
    && rules.normal(r.path) && r.mode in {"100644", "100755", "120000", "160000"}
    && |r.blob| == 40 && forall i :: 0 <= i < 40 ==> r.blob[i] in "0123456789abcdef"
  }

  /** The line Git prints for it; only a commit is of another type. */
  function LineOf(r: Record): string {
    r.mode + (if r.mode == "160000" then " commit " else " blob ") + r.blob + "\t" + r.path
  }

  lemma LineIsEntry(r: Record)
    ensures LineOf(r) == PrintEntry(r)
  {
  }

  lemma ListableMeans(rules: Rules, r: Record)
    ensures Listable(rules, r) <==> rules.normal(r.path) && IsObjectId(r.blob) && KnownMode(r.mode)
  {
    var digits := "0123456789abcdef";
    forall c: char ensures IsHex(c) <==> c in digits {
      if '0' <= c <= '9' {
        assert digits[c as int - '0' as int] == c;
      }
      if 'a' <= c <= 'f' {
        assert digits[10 + c as int - 'a' as int] == c;
      }
      if c in digits {
        var i :| 0 <= i < |digits| && digits[i] == c;
        assert i < 10 ==> c as int == '0' as int + i;
        assert i >= 10 ==> c as int == 'a' as int + i - 10;
      }
    }
    hide IsHex;
  }

  lemma Assembled(mode: string, kind: string, blob: string, path: string)
    ensures (mode + [' '] + (kind + [' '] + blob)) + ['\t'] + path == mode + " " + kind + " " + blob + "\t" + path
  {
  }

  lemma HeaderAssembled(mode: string, kind: string, blob: string)
    ensures mode + [' '] + (kind + [' '] + blob) == mode + " " + kind + " " + blob
  {
  }

  /** What parsing found, put together again. */
  lemma ParsedParts(rules: Rules, e: string)
    requires ParseEntry(rules, e).Some?
    ensures var r := ParseEntry(rules, e).value;
            e == PrintEntry(r) && rules.normal(r.path) && IsObjectId(r.blob) && KnownMode(r.mode)
  {
    hide IsObjectId, KnownMode, TypeOf, Find;
    var r, tab := ParseEntry(rules, e).value, Find(e, '\t').value;
    FoundAt(e, '\t');
    var header := e[..tab];
    FoundAt(header, ' ');
    var rest := header[Find(header, ' ').value + 1..];
    FoundAt(rest, ' ');
    Assembled(r.mode, TypeOf(r.mode), r.blob, r.path);
  }

  lemma FoundAt(s: string, c: char)
    ensures Find(s, c).Some? ==>
              Find(s, c).value < |s| && s == s[..Find(s, c).value] + [c] + s[Find(s, c).value + 1..]
  {
    var at := Find(s, c);
    hide Find;
    if at.Some? {
      assert s[at.value] == c;
    }
  }

  /** A piece of the listing is read as a record exactly when it is Git's line for it and the record
      is one that a manifest may hold. */
  lemma ParsesExactly(rules: Rules, e: string, r: Record)
    ensures ParseEntry(rules, e) == Some(r) <==> e == LineOf(r) && Listable(rules, r)
  {
    LineIsEntry(r);
    ListableMeans(rules, r);
    hide LineOf, Listable, ParseEntry, PrintEntry, IsObjectId, KnownMode;
    if ParseEntry(rules, e) == Some(r) {
      ParsedParts(rules, e);
    }
    if e == PrintEntry(r) && rules.normal(r.path) && IsObjectId(r.blob) && KnownMode(r.mode) {
      EntryParses(rules, r);
    }
  }

  function NonEmpty(pieces: seq<string>): seq<string> {
    if pieces == [] then [] else
      NonEmpty(pieces[..|pieces| - 1]) + if pieces[|pieces| - 1] == [] then [] else [pieces[|pieces| - 1]]
  }

  function Lines(records: seq<Record>): (lines: seq<string>)
    ensures |lines| == |records| && forall i :: 0 <= i < |lines| ==> lines[i] == LineOf(records[i])
  {
    seq(|records|, i requires 0 <= i < |records| => LineOf(records[i]))
  }

  ghost predicate Reads(rules: Rules, pieces: seq<string>, records: seq<Record>) {
    NonEmpty(pieces) == Lines(records) && forall i :: 0 <= i < |records| ==> Listable(rules, records[i])
  }

  lemma ReadsMore(rules: Rules, pieces: seq<string>, records: seq<Record>, n: nat)
    requires |pieces| == n + 1
    ensures pieces[n] == [] ==> (Reads(rules, pieces, records) <==> Reads(rules, pieces[..n], records))
    ensures pieces[n] != [] ==>
              (Reads(rules, pieces, records) <==>
               records != [] && Reads(rules, pieces[..n], records[..|records| - 1]) &&
               pieces[n] == LineOf(records[|records| - 1]) && Listable(rules, records[|records| - 1]))
  {
    hide LineOf, Listable;
    var before := NonEmpty(pieces[..n]);
    if pieces[n] == [] {
      assert before + [] == before;
    } else {
      assert NonEmpty(pieces) == before + [pieces[n]];
      if records != [] {
        var k := |records| - 1;
        assert Lines(records) == Lines(records[..k]) + [LineOf(records[k])];
        if NonEmpty(pieces) == Lines(records) {
          assert (before + [pieces[n]])[..|before|] == before;
          assert (Lines(records[..k]) + [LineOf(records[k])])[..k] == Lines(records[..k]);
        }
        assert forall i :: 0 <= i < k ==> records[..k][i] == records[i];
      }
    }
  }

  /** The listing is read as these records exactly when its non-empty pieces are their lines. */
  lemma {:induction false} ReadsExactly(rules: Rules, pieces: seq<string>, records: seq<Record>)
    ensures ParsePieces(rules, pieces) == Some(records) <==> Reads(rules, pieces, records)
    decreases |pieces|
  {
    hide *;
    if pieces == [] {
      NoPieces(rules, records);
    } else {
      var n := |pieces| - 1;
      ReadsMore(rules, pieces, records, n);
      if pieces[n] == [] {
        EmptyPiece(rules, pieces, n);
        ReadsExactly(rules, pieces[..n], records);
      } else {
        PiecesEnd(rules, pieces, n);
        if records != [] {
          var k := |records| - 1;
          ReadsExactly(rules, pieces[..n], records[..k]);
          ParsesExactly(rules, pieces[n], records[k]);
        }
      }
    }
  }

  lemma NoPieces(rules: Rules, records: seq<Record>)
    ensures ParsePieces(rules, []) == Some(records) <==> Reads(rules, [], records)
  {
    hide LineOf, Listable;
  }

  lemma EmptyPiece(rules: Rules, pieces: seq<string>, n: nat)
    requires |pieces| == n + 1 && pieces[n] == []
    ensures ParsePieces(rules, pieces) == ParsePieces(rules, pieces[..n])
  {
  }

  /** With a last piece that is not empty, what is read ends with what that piece is read as. */
  lemma PiecesEnd(rules: Rules, pieces: seq<string>, n: nat)
    requires |pieces| == n + 1 && pieces[n] != []
    ensures forall records :: ParsePieces(rules, pieces) == Some(records) <==>
              records != [] && ParsePieces(rules, pieces[..n]) == Some(records[..|records| - 1]) &&
              ParseEntry(rules, pieces[n]) == Some(records[|records| - 1])
  {
    hide ParseEntry;
    forall records ensures ParsePieces(rules, pieces) == Some(records) <==>
              records != [] && ParsePieces(rules, pieces[..n]) == Some(records[..|records| - 1]) &&
              ParseEntry(rules, pieces[n]) == Some(records[|records| - 1])
    {
      if records != [] {
        var k := |records| - 1;
        assert records == records[..k] + [records[k]];
        if ParsePieces(rules, pieces) == Some(records) {
          var some, r := ParsePieces(rules, pieces[..n]).value, ParseEntry(rules, pieces[n]).value;
          assert (some + [r])[..|some|] == some && (some + [r])[|some|] == r;
        }
      }
    }
  }
}
