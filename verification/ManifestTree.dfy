/** The candidate manifest as a canonical form of a tree: whatever the listing order, equal
    record sets give equal manifests, and equal digests mean equal trees. */
module ManifestTree {
  import opened Counting
  import opened ManifestFrame

  // ------------------------------------------------------------ path order

  /** Byte order on paths. */
  predicate Leq(a: string, b: string) {
    a == [] || (b != [] && (a[0] < b[0] || (a[0] == b[0] && Leq(a[1..], b[1..]))))
  }

  lemma {:induction false} LeqTotal(a: string, b: string)
    ensures Leq(a, b) || Leq(b, a)
  {
    if a != [] && b != [] {
      LeqTotal(a[1..], b[1..]);
    }
  }

  lemma {:induction false} LeqAntisymmetric(a: string, b: string)
    requires Leq(a, b) && Leq(b, a)
    ensures a == b
  {
    if a != [] {
      LeqAntisymmetric(a[1..], b[1..]);
      assert a == [a[0]] + a[1..] && b == [b[0]] + b[1..];
    }
  }

  lemma {:induction false} LeqTransitive(a: string, b: string, c: string)
    requires Leq(a, b) && Leq(b, c)
    ensures Leq(a, c)
  {
    if a != [] && a[0] == b[0] == c[0] {
      LeqTransitive(a[1..], b[1..], c[1..]);
    }
  }

  function Insert(r: Record, s: seq<Record>): seq<Record> {
    if s == [] || Leq(r.path, s[0].path) then [r] + s else [s[0]] + Insert(r, s[1..])
  }

  function Sort(s: seq<Record>): seq<Record> {
    if s == [] then [] else Insert(s[0], Sort(s[1..]))
  }

  predicate Ordered(s: seq<Record>) {
    s == [] || ((forall r :: r in s[1..] ==> Leq(s[0].path, r.path)) && Ordered(s[1..]))
  }

  lemma {:induction false} InsertMembers(r: Record, s: seq<Record>)
    ensures multiset(Insert(r, s)) == multiset(s) + multiset{r}
  {
    if s != [] && !Leq(r.path, s[0].path) {
      InsertMembers(r, s[1..]);
      assert s == [s[0]] + s[1..];
    }
  }

  lemma {:induction false} SortMembers(s: seq<Record>)
    ensures multiset(Sort(s)) == multiset(s)
  {
    if s != [] {
      SortMembers(s[1..]);
      InsertMembers(s[0], Sort(s[1..]));
      assert s == [s[0]] + s[1..];
    }
  }

  lemma SameMembers(a: seq<Record>, b: seq<Record>)
    requires multiset(a) == multiset(b)
    ensures forall r :: r in a <==> r in b
  {
    forall r ensures r in a <==> r in b {
      assert r in a <==> r in multiset(a);
      assert r in b <==> r in multiset(b);
    }
  }

  lemma {:induction false} InsertOrdered(r: Record, s: seq<Record>)
    requires Ordered(s)
    ensures Ordered(Insert(r, s))
  {
    if s != [] {
      if Leq(r.path, s[0].path) {
        forall q | q in s ensures Leq(r.path, q.path) {
          if q != s[0] {
            assert q in s[1..];
            LeqTransitive(r.path, s[0].path, q.path);
          }
        }
        assert ([r] + s)[1..] == s;
      } else {
        LeqTotal(r.path, s[0].path);
        InsertOrdered(r, s[1..]);
        InsertMembers(r, s[1..]);
        InsertBelow(r, s[1..], s[0].path);
      }
    }
  }

  lemma InsertBelow(r: Record, s: seq<Record>, low: string)
    requires Leq(low, r.path) && forall q :: q in s ==> Leq(low, q.path)
    ensures forall q :: q in Insert(r, s) ==> Leq(low, q.path)
  {
    InsertMembers(r, s);
    forall q | q in Insert(r, s) ensures Leq(low, q.path) {
      assert q in multiset(Insert(r, s));
    }
  }

  lemma {:induction false} SortOrdered(s: seq<Record>)
    ensures Ordered(Sort(s))
  {
    if s != [] {
      SortOrdered(s[1..]);
      InsertOrdered(s[0], Sort(s[1..]));
    }
  }

  ghost predicate OnePerPath(s: seq<Record>) {
    forall i, j :: 0 <= i < |s| && 0 <= j < |s| && s[i].path == s[j].path ==> i == j
  }

  lemma TailMember(s: seq<Record>, r: Record)
    requires OnePerPath(s) && s != []
    ensures r in s[1..] <==> r in s && r.path != s[0].path
  {
    if r in s && r.path != s[0].path {
      var i :| 0 <= i < |s| && s[i] == r;
      assert s[1..][i - 1] == r;
    }
    if r in s[1..] {
      var i :| 0 <= i < |s[1..]| && s[1..][i] == r;
      assert s[i + 1] == r;
    }
  }

  lemma EmptyTogether(a: seq<Record>, b: seq<Record>)
    requires forall r :: r in a <==> r in b
    ensures a == [] <==> b == []
  {
    if a != [] {
      assert a[0] in a;
    }
    if b != [] {
      assert b[0] in b;
    }
  }

  /** Two ordered sequences with the same records and one record per path are equal. */
  lemma {:induction false} OrderedUnique(a: seq<Record>, b: seq<Record>)
    requires Ordered(a) && Ordered(b) && OnePerPath(a) && OnePerPath(b)
    requires forall r :: r in a <==> r in b
    ensures a == b
  {
    EmptyTogether(a, b);
    if a != [] {
      assert a[0] in b && b[0] in a;
      FirstLeast(a, b[0]);
      FirstLeast(b, a[0]);
      LeqAntisymmetric(a[0].path, b[0].path);
      forall r ensures r in a[1..] <==> r in b[1..] {
        TailMember(a, r);
        TailMember(b, r);
      }
      OrderedUnique(a[1..], b[1..]);
      assert a == [a[0]] + a[1..] && b == [b[0]] + b[1..];
    }
  }

  lemma FirstLeast(s: seq<Record>, r: Record)
    requires Ordered(s) && s != [] && r in s
    ensures Leq(s[0].path, r.path)
  {
    if r == s[0] {
      LeqTotal(r.path, r.path);
    } else {
      assert r in s[1..];
    }
  }

  // ------------------------------------------------------------ the manifest

  /** No two different paths share a spelling. */
  ghost predicate NoAlias(rules: Rules, records: seq<Record>) {
    forall i, j :: 0 <= i < |records| && 0 <= j < |records| ==> Apart(rules, records[i].path, records[j].path)
  }

  predicate Apart(rules: Rules, a: string, b: string) { rules.alias(a) == rules.alias(b) ==> a == b }

  predicate Holds(rules: Rules, aliases: map<string, string>, path: string) {
    rules.alias(path) in aliases && aliases[rules.alias(path)] == path
  }

  method CheckAliases(rules: Rules, records: seq<Record>) returns (ok: bool)
    ensures ok <==> NoAlias(rules, records)
  {
    var aliases: map<string, string> := map[];
    for i := 0 to |records|
      invariant forall k :: 0 <= k < i ==> Holds(rules, aliases, records[k].path)
      invariant forall a :: a in aliases ==>
                  exists k :: 0 <= k < i && rules.alias(records[k].path) == a && records[k].path == aliases[a]
    {
      var path := records[i].path;
      var alias := rules.alias(path);
      if alias in aliases {
        if aliases[alias] != path {
          return false;
        }
      } else {
        aliases := aliases[alias := path];
      }
    }
    return true;
  }

  /** The records of a listing, complete, in path order, one per path, without aliases. */
  ghost predicate IsManifest(rules: Rules, raw: string, records: seq<Record>) {
    && ParsePieces(rules, Split(raw, NUL)).Some?
    && records == Sort(ParsePieces(rules, Split(raw, NUL)).value)
    && OnePerPath(records) && NoAlias(rules, records)
  }

  method CheckPaths(records: seq<Record>) returns (ok: bool)
    ensures ok <==> OnePerPath(records)
  {
    var paths: set<string> := {};
    ok := true;
    for i := 0 to |records|
      invariant forall k :: 0 <= k < i ==> records[k].path in paths
      invariant forall p :: p in paths ==> exists k :: 0 <= k < i && records[k].path == p
      invariant ok <==> OnePerPath(records[..i])
    {
      var first := records[i].path !in paths;
      ok := ok && first;
      paths := paths + {records[i].path};
    }
    assert records[..|records|] == records;
  }

  method TreeManifest(rules: Rules, raw: string) returns (records: Option<seq<Record>>)
    ensures records.Some? ==> IsManifest(rules, raw, records.value)
    ensures records.None? ==> forall r :: !IsManifest(rules, raw, r)
  {
    var found := ReadListing(rules, raw);
    if found.None? {
      return None;
    }
    var sorted := Sort(found.value);
    var clear := CheckAliases(rules, sorted);
    if !clear {
      return None;
    }
    var unique := CheckPaths(sorted);
    if !unique {
      return None;
    }
    return Some(sorted);
  }

  /** Any two listings of the same records have the same manifest. */
  lemma ListingOrderIrrelevant(rules: Rules, raw: string, other: string, a: seq<Record>,
                               b: seq<Record>)
    requires IsManifest(rules, raw, a) && IsManifest(rules, other, b)
    requires forall r :: r in ParsePieces(rules, Split(raw, NUL)).value
              <==> r in ParsePieces(rules, Split(other, NUL)).value
    ensures a == b
  {
    var x, y := ParsePieces(rules, Split(raw, NUL)).value, ParsePieces(rules, Split(other, NUL)).value;
    SortMembers(x);
    SortMembers(y);
    SameMembers(x, a);
    SameMembers(y, b);
    SortOrdered(x);
    SortOrdered(y);
    OrderedUnique(a, b);
  }

  ghost predicate Injective<T(!new), U>(f: T -> U) { forall x, y :: f(x) == f(y) ==> x == y }

  lemma {:induction false} SplitFree(raw: string)
    ensures AllFree(Split(raw, NUL))
    decreases |raw|
  {
    var at := Find(raw, NUL);
    if at.Some? {
      SplitFree(raw[at.value + 1..]);
    }
  }

  lemma EntryFree(rules: Rules, e: string)
    requires Free(e, NUL)
    ensures var r := ParseEntry(rules, e);
            r.Some? ==> FreeRecord(r.value)
  {
    if ParseEntry(rules, e).Some? {
      ParsedParts(rules, e);
      EntryParts(ParseEntry(rules, e).value, NUL);
    }
    hide ParseEntry, PrintEntry;
  }

  lemma {:induction false} PiecesFree(rules: Rules, pieces: seq<string>)
    requires AllFree(pieces)
    ensures ParsePieces(rules, pieces).Some? ==> RecordsFree(ParsePieces(rules, pieces).value)
  {
    hide ParseEntry, Free, FreeRecord;
    if pieces != [] {
      var n := |pieces| - 1;
      PiecesFree(rules, pieces[..n]);
      assert Free(pieces[n], NUL);
      EntryFree(rules, pieces[n]);
    }
  }

  /** No field of a manifest holds the terminator. */
  lemma ManifestFree(rules: Rules, raw: string, records: seq<Record>)
    requires IsManifest(rules, raw, records)
    ensures RecordsFree(records)
  {
    var parsed := ParsePieces(rules, Split(raw, NUL)).value;
    SplitFree(raw);
    PiecesFree(rules, Split(raw, NUL));
    SortMembers(parsed);
    SameMembers(parsed, records);
    MembersFree(parsed, records);
  }

  lemma MembersFree(a: seq<Record>, b: seq<Record>)
    requires RecordsFree(a) && forall r :: r in b ==> r in a
    ensures RecordsFree(b)
  {
    forall i | 0 <= i < |b| ensures FreeRecord(b[i]) {
      assert b[i] in a;
    }
  }

  /** The digest of the framed bytes identifies the tree: two manifests have the same digest
      exactly when they hold the same records. */
  lemma DigestIdentifiesTree(rules: Rules, hash: string -> string, raw: string, other: string,
                             a: seq<Record>, b: seq<Record>)
    requires Injective(hash) && IsManifest(rules, raw, a) && IsManifest(rules, other, b)
    ensures hash(Frame(a)) == hash(Frame(b)) <==> forall r :: r in a <==> r in b
  {
    ManifestFree(rules, raw, a);
    ManifestFree(rules, other, b);
    FrameInjective(a, b);
    SortOrdered(ParsePieces(rules, Split(raw, NUL)).value);
    SortOrdered(ParsePieces(rules, Split(other, NUL)).value);
    if forall r :: r in a <==> r in b {
      OrderedUnique(a, b);
    }
  }

  // ------------------------------------------------------------ exactly the manifest

  /** One path is a beginning of the other, or has the smaller byte where they first differ. */
  ghost predicate Precedes(a: string, b: string) {
    a < b || exists k :: DifferAt(a, b, k)
  }

  /** The two first differ at k. */
  ghost predicate DifferAt(a: string, b: string, k: int) {
    0 <= k < |a| && k < |b| && a[..k] == b[..k] && a[k] < b[k]
  }

  lemma DifferLater(a: string, b: string, k: int)
    requires a != [] && b != [] && a[0] == b[0] && k > 0
    ensures DifferAt(a, b, k) <==> DifferAt(a[1..], b[1..], k - 1)
  {
    if k < |a| && k < |b| {
      assert a[..k] == [a[0]] + a[1..][..k - 1] && b[..k] == [b[0]] + b[1..][..k - 1];
      assert a[..k][1..] == a[1..][..k - 1] && b[..k][1..] == b[1..][..k - 1];
    }
  }

  lemma {:induction false} LeqMeans(a: string, b: string)
    ensures Leq(a, b) <==> a == b || Precedes(a, b)
  {
    if a != [] && b != [] {
      LeqMeans(a[1..], b[1..]);
      assert a == [a[0]] + a[1..] && b == [b[0]] + b[1..];
      if a[0] < b[0] {
        assert a[..0] == b[..0] && DifferAt(a, b, 0);
      } else if a[0] == b[0] {
        forall k | k > 0 ensures DifferAt(a, b, k) <==> DifferAt(a[1..], b[1..], k - 1) {
          DifferLater(a, b, k);
        }
        assert !DifferAt(a, b, 0);
        if k :| DifferAt(a[1..], b[1..], k) {
          assert DifferAt(a, b, k + 1);
        }
      } else {
        forall k ensures !DifferAt(a, b, k) {
          assert k > 0 && k <= |a| && k <= |b| ==> a[..k][0] == a[0] && b[..k][0] == b[0];
        }
      }
      hide DifferAt;
    }
  }

  /** In byte order of the paths, none twice. */
  ghost predicate Ranked(records: seq<Record>) {
    forall i, j :: 0 <= i < j < |records| ==> Precedes(records[i].path, records[j].path)
  }

  ghost predicate DistinctSpellings(rules: Rules, records: seq<Record>) {
    forall i, j :: 0 <= i < j < |records| ==> rules.alias(records[i].path) != rules.alias(records[j].path)
  }

  lemma Irreflexive(a: string, b: string)
    requires Precedes(a, b)
    ensures a != b
  {
  }

  lemma {:induction false} OrderedPairs(s: seq<Record>, i: nat, j: nat)
    requires Ordered(s) && i < j < |s|
    ensures Leq(s[i].path, s[j].path)
  {
    if i == 0 {
      assert s[1..][j - 1] == s[j];
    } else {
      OrderedPairs(s[1..], i - 1, j - 1);
    }
  }

  lemma {:induction false} RankedOrdered(s: seq<Record>)
    requires Ranked(s)
    ensures Ordered(s) && OnePerPath(s)
  {
    forall i, j | 0 <= i < |s| && 0 <= j < |s| && s[i].path == s[j].path ensures i == j {
      if i < j {
        Irreflexive(s[i].path, s[j].path);
      }
      if j < i {
        Irreflexive(s[j].path, s[i].path);
      }
    }
    if s != [] {
      var rest := s[1..];
      assert forall i :: 0 <= i < |rest| ==> rest[i] == s[i + 1];
      RankedOrdered(rest);
      forall r | r in rest ensures Leq(s[0].path, r.path) {
        var i :| 0 <= i < |rest| && rest[i] == r;
        LeqMeans(s[0].path, s[i + 1].path);
      }
    }
  }

  lemma OrderedRanked(s: seq<Record>)
    requires Ordered(s) && OnePerPath(s)
    ensures Ranked(s)
  {
    forall i, j | 0 <= i < j < |s| ensures Precedes(s[i].path, s[j].path) {
      OrderedPairs(s, i, j);
      LeqMeans(s[i].path, s[j].path);
    }
  }

  lemma SameHead(a: seq<Record>, b: seq<Record>)
    requires Ordered(a) && Ordered(b) && OnePerPath(b) && multiset(a) == multiset(b) && a != [] && b != []
    ensures a[0] == b[0]
  {
    SameMembers(a, b);
    FirstLeast(a, b[0]);
    FirstLeast(b, a[0]);
    LeqAntisymmetric(a[0].path, b[0].path);
    var i :| 0 <= i < |b| && b[i] == a[0];
  }

  lemma {:induction false} OneOrder(a: seq<Record>, b: seq<Record>)
    requires Ordered(a) && Ordered(b) && OnePerPath(b) && multiset(a) == multiset(b)
    ensures a == b
  {
    assert |a| == |multiset(a)| == |multiset(b)| == |b|;
    if a != [] {
      SameHead(a, b);
      assert a == [a[0]] + a[1..] && b == [b[0]] + b[1..];
      assert multiset(a[1..]) == multiset(a) - multiset{a[0]};
      assert multiset(b[1..]) == multiset(b) - multiset{b[0]};
      assert forall i :: 0 <= i < |b[1..]| ==> b[1..][i] == b[i + 1];
      OneOrder(a[1..], b[1..]);
    }
  }

  /** These are the records of the listing's lines, and the others are the same in some order. */
  ghost predicate Permutes(rules: Rules, raw: string, listed: seq<Record>, records: seq<Record>) {
    Reads(rules, Split(raw, NUL), listed) && multiset(listed) == multiset(records)
  }

  /** A manifest is exactly this: the records of the lines that the listing holds, each as often, in
      byte order of their paths, none twice, and no two paths with the same spelling. */
  lemma ManifestMeans(rules: Rules, raw: string, records: seq<Record>)
    ensures IsManifest(rules, raw, records) <==>
            && (exists listed :: Permutes(rules, raw, listed, records))
            && Ranked(records) && DistinctSpellings(rules, records)
  {
    hide Precedes, Reads, Split;
    if IsManifest(rules, raw, records) {
      var listed := ParsePieces(rules, Split(raw, NUL)).value;
      ReadsExactly(rules, Split(raw, NUL), listed);
      SortMembers(listed);
      SortOrdered(listed);
      OrderedRanked(records);
      assert Permutes(rules, raw, listed, records);
      forall i, j | 0 <= i < j < |records| ensures rules.alias(records[i].path) != rules.alias(records[j].path) {
        assert Apart(rules, records[i].path, records[j].path);
      }
    }
    if Ranked(records) && DistinctSpellings(rules, records) {
      if listed :| Permutes(rules, raw, listed, records) {
        ReadsExactly(rules, Split(raw, NUL), listed);
        SortMembers(listed);
        SortOrdered(listed);
        RankedOrdered(records);
        OneOrder(Sort(listed), records);
        assert Sort(listed) == records;
        SpellingsApart(rules, records);
        assert IsManifest(rules, raw, records);
      }
    }
  }

  lemma SpellingsApart(rules: Rules, records: seq<Record>)
    requires DistinctSpellings(rules, records)
    ensures NoAlias(rules, records)
  {
    forall i, j | 0 <= i < |records| && 0 <= j < |records| ensures Apart(rules, records[i].path, records[j].path) {
      if i < j {
        assert rules.alias(records[i].path) != rules.alias(records[j].path);
      } else if j < i {
        assert rules.alias(records[j].path) != rules.alias(records[i].path);
      }
    }
  }
}
