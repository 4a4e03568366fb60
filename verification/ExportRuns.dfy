/** What exporting and validating guarantee together. */
module ExportRuns {
  import opened Counting
  import opened ManifestFrame
  import opened ManifestTree
  import opened Export
  import opened Utf8

  /** The object store holds what its names say. */
  ghost predicate Sound(hash: string -> string, store: map<string, string>) {
    forall b :: b in store ==> hash(store[b]) == b
  }

  /** Records as a manifest has them, without gitlinks. */
  ghost predicate Plain(records: seq<Record>) {
    && OnePerPath(records)
    && forall i :: 0 <= i < |records| ==> records[i].mode in FILE_MODES || records[i].mode == LINK_MODE
  }

  /** The exported leaf is the only one that has the record's mode and blob. */
  lemma LeafDetermined(hash: string -> string, store: map<string, string>, r: Record, leaf: Leaf)
    requires Sound(hash, store) && Injective(hash) && r.blob in store
    requires r.mode in FILE_MODES || r.mode == LINK_MODE
    ensures Matches(hash, leaf, r) <==> leaf == LeafFor(store, r)
  {
    assert hash(store[r.blob]) == r.blob;
  }

  lemma {:induction false} LeavesKeys(store: map<string, string>, records: seq<Record>)
    requires Stored(store, records)
    ensures LeavesOf(store, records).Keys == PathSet(records)
  {
    hide LeafFor;
    if records != [] {
      LeavesKeys(store, records[..|records| - 1]);
    }
  }

  lemma {:induction false} LeavesAt(store: map<string, string>, records: seq<Record>, i: nat)
    requires Stored(store, records) && OnePerPath(records) && i < |records|
    ensures records[i].path in LeavesOf(store, records)
    ensures LeavesOf(store, records)[records[i].path] == LeafFor(store, records[i])
    decreases |records|
  {
    hide LeafFor;
    var n := |records| - 1;
    if i < n {
      LeavesAt(store, records[..n], i);
      assert records[i].path != records[n].path;
    }
  }

  lemma InPathSet(records: seq<Record>, p: string) returns (i: nat)
    requires p in PathSet(records)
    ensures i < |records| && records[i].path == p
  {
    i :| i < |records| && records[i].path == p;
  }

  /** The validator accepts exactly the exported leaf map, provided its links stay inside. */
  lemma AcceptsExactly(root: seq<string>, hash: string -> string, store: map<string, string>,
                       records: seq<Record>, leaves: Leaves)
    requires Sound(hash, store) && Injective(hash) && Stored(store, records) && Plain(records)
    ensures Accepts(root, hash, leaves, records)
            <==> leaves == LeavesOf(store, records) && AllSafe(root, leaves, records)
  {
    hide Safe, Matches, LeafFor, LeavesOf;
    LeavesKeys(store, records);
    forall i | 0 <= i < |records|
      ensures records[i].path in LeavesOf(store, records)
      ensures forall leaf :: Matches(hash, leaf, records[i]) <==> leaf == LeavesOf(store, records)[records[i].path]
    {
      LeavesAt(store, records, i);
      forall leaf ensures Matches(hash, leaf, records[i]) <==> leaf == LeafFor(store, records[i]) {
        LeafDetermined(hash, store, records[i], leaf);
      }
    }
    if Accepts(root, hash, leaves, records) {
      forall p | p in leaves ensures p in LeavesOf(store, records) && leaves[p] == LeavesOf(store, records)[p] {
        var i := InPathSet(records, p);
      }
      assert leaves == LeavesOf(store, records);
    }
  }

  /** An export passes revalidation exactly when no destination escapes through the links of
      the finished export. */
  lemma ExportRevalidates(root: seq<string>, hash: string -> string, store: map<string, string>,
                          records: seq<Record>)
    requires Sound(hash, store) && Injective(hash) && Plain(records)
    requires Exportable(root, store, records) && Stored(store, records)
    ensures Accepts(root, hash, LeavesOf(store, records), records) <==> AllSafe(root, LeavesOf(store, records), records)
  {
    hide Exportable, LeavesOf;
    AcceptsExactly(root, hash, store, records, LeavesOf(store, records));
  }

  /** Two accepted leaf maps are equal. */
  lemma AcceptedTreesEqual(root: seq<string>, hash: string -> string, store: map<string, string>,
                           records: seq<Record>, a: Leaves, b: Leaves)
    requires Sound(hash, store) && Injective(hash) && Stored(store, records) && Plain(records)
    requires Accepts(root, hash, a, records) && Accepts(root, hash, b, records)
    ensures a == b
  {
    AcceptsExactly(root, hash, store, records, a);
    AcceptsExactly(root, hash, store, records, b);
  }

  /** A manifest with a gitlink is never exported and never accepted. */
  lemma GitlinkRefused(root: seq<string>, hash: string -> string, store: map<string, string>,
                       records: seq<Record>, leaves: Leaves, i: nat)
    requires i < |records| && records[i].mode == GITLINK_MODE
    ensures !Exportable(root, store, records) && !Accepts(root, hash, leaves, records)
  {
    if Exportable(root, store, records) {
      ExportableStored(root, store, records);
    }
  }

  // ------------------------------------------------------------ trees without links

  ghost predicate LinkFree(leaves: Leaves) { forall p :: p in leaves ==> !leaves[p].Link? }

  predicate PlainPart(part: string) { part != "" && part != "." && part != ".." }

  /** What path normalization leaves. */
  ghost predicate PlainPath(path: string) {
    forall i :: 0 <= i < |Split(path, SLASH)| ==> PlainPart(Split(path, SLASH)[i])
  }

  lemma {:induction false} WalkPlain(root: seq<string>, leaves: Leaves, at: seq<string>, rest: seq<string>, depth: nat)
    requires LinkFree(leaves) && forall i :: 0 <= i < |rest| ==> PlainPart(rest[i])
    ensures Walk(root, leaves, at, rest, depth) == Some(at + rest)
    decreases rest
  {
    if rest == [] {
      assert at + rest == at;
    } else {
      WalkPlain(root, leaves, at + [rest[0]], rest[1..], depth);
      assert at + [rest[0]] + rest[1..] == at + rest;
    }
  }

  lemma PlainIsSafe(root: seq<string>, leaves: Leaves, path: string)
    requires LinkFree(leaves) && PlainPath(path)
    ensures Safe(root, leaves, path)
  {
    WalkPlain(root, leaves, root, Split(path, SLASH), |leaves|);
  }

  lemma {:induction false} FilesLinkFree(store: map<string, string>, records: seq<Record>)
    requires Stored(store, records) && forall i :: 0 <= i < |records| ==> records[i].mode in FILE_MODES
    ensures LinkFree(LeavesOf(store, records))
  {
    if records != [] {
      FilesLinkFree(store, records[..|records| - 1]);
    }
  }

  lemma {:induction false} FilesExport(root: seq<string>, store: map<string, string>, records: seq<Record>)
    requires Stored(store, records)
    requires forall i :: 0 <= i < |records| ==> records[i].mode in FILE_MODES && PlainPath(records[i].path)
    ensures Exportable(root, store, records)
  {
    hide Safe, PlainPath;
    if records != [] {
      var n := |records| - 1;
      FilesExport(root, store, records[..n]);
      FilesLinkFree(store, records[..n]);
      PlainIsSafe(root, LeavesOf(store, records[..n]), records[n].path);
    }
  }

  /** A tree of ordinary files always exports, and its export always passes. */
  lemma FilesAlwaysPass(root: seq<string>, hash: string -> string, store: map<string, string>,
                        records: seq<Record>)
    requires Sound(hash, store) && Injective(hash) && Stored(store, records) && OnePerPath(records)
    requires forall i :: 0 <= i < |records| ==> records[i].mode in FILE_MODES && PlainPath(records[i].path)
    ensures Exportable(root, store, records) && Accepts(root, hash, LeavesOf(store, records), records)
  {
    hide Safe, PlainPath, LeavesOf, Exportable;
    FilesExport(root, store, records);
    FilesLinkFree(store, records);
    forall i | 0 <= i < |records| ensures Safe(root, LeavesOf(store, records), records[i].path) {
      PlainIsSafe(root, LeavesOf(store, records), records[i].path);
    }
    AcceptsExactly(root, hash, store, records, LeavesOf(store, records));
  }

  // ------------------------------------------------------------ a link that changes its meaning

  lemma SplitOne(part: string)
    requires Free(part, SLASH)
    ensures Split(part, SLASH) == [part]
  {
  }

  lemma SplitThree()
    ensures Split("z/../y", SLASH) == ["z", "..", "y"]
  {
    hide Split, Find;
    assert "z/../y" == "z" + [SLASH] + "../y" && "../y" == ".." + [SLASH] + "y";
    SplitFirst("z", SLASH, "../y");
    SplitFirst("..", SLASH, "y");
    SplitOne("y");
  }

  const ROOT: seq<string> := ["r"]
  /** The store holds the targets of the two links, under identifiers as Git prints them. */
  ghost predicate TwoLinks(store: map<string, string>, first: string, second: string) {
    && IsObjectId(first) && IsObjectId(second)
    && first in store && store[first] == "z/../y" && second in store && store[second] == "."
  }

  function First(id: string): Record { Record("a", LINK_MODE, id) }

  function Second(id: string): Record { Record("z", LINK_MODE, id) }

  const BOTH: Leaves := map["a" := Link("z/../y"), "z" := Link(".")]

  lemma NoLinkYet(leaves: Leaves, path: seq<string>)
    requires path == ["y"] || path == ["r", "y"] || (path == ["r", "z"] && "z" !in leaves)
              || (path == ["r", "a"] && "a" !in leaves)
    requires "y" !in leaves
    ensures LinkAt(ROOT, leaves, path) == None
  {
    if ROOT < path {
      assert path[1..] == [path[1]];
    }
  }

  /** One ordinary component. */
  lemma WalkName(root: seq<string>, leaves: Leaves, at: seq<string>, name: string, rest: seq<string>, depth: nat)
    requires PlainPart(name) && LinkAt(root, leaves, at + [name]) == None
    ensures Walk(root, leaves, at, [name] + rest, depth) == Walk(root, leaves, at + [name], rest, depth)
  {
    hide LinkAt, Split;
    assert ([name] + rest)[1..] == rest;
  }

  lemma WalkUp(root: seq<string>, leaves: Leaves, at: seq<string>, rest: seq<string>, depth: nat)
    ensures Walk(root, leaves, at, [".."] + rest, depth) == Walk(root, leaves, Parent(at), rest, depth)
  {
    hide LinkAt, Split;
    assert ([".."] + rest)[1..] == rest;
  }

  lemma WalkDot(root: seq<string>, leaves: Leaves, at: seq<string>, depth: nat)
    ensures Walk(root, leaves, at, ["."], depth) == Some(at)
  {
    hide LinkAt, Split;
    assert ["."][1..] == [];
  }

  /** One component that is a relative link. */
  lemma WalkLink(root: seq<string>, leaves: Leaves, at: seq<string>, name: string, rest: seq<string>, depth: nat,
                 target: string, end: seq<string>)
    requires PlainPart(name) && LinkAt(root, leaves, at + [name]) == Some(target) && !IsAbsolute(target) && depth > 0
    requires Walk(root, leaves, at, Split(target, SLASH), depth - 1) == Some(end)
    ensures Walk(root, leaves, at, [name] + rest, depth) == Walk(root, leaves, end, rest, depth)
  {
    hide LinkAt, Split;
    assert ([name] + rest)[1..] == rest;
  }

  lemma {:induction false} AsciiDecodes(bytes: seq<LogDrain.Byte>)
    requires forall i :: 0 <= i < |bytes| ==> bytes[i] < 0x80
    ensures Decodes(bytes)
  {
    if bytes != [] {
      AsciiDecodes(bytes[1..]);
    }
  }

  lemma AsciiIsText(s: string)
    requires forall i :: 0 <= i < |s| ==> s[i] < 0x80 as char
    ensures IsText(s)
  {
    AsciiDecodes(seq(|s|, i requires 0 <= i < |s| => s[i] as int % 256));
  }

  lemma TargetsCreatable()
    ensures Creatable("z/../y") && Creatable(".")
  {
    AsciiIsText("z/../y");
    AsciiIsText(".");
  }

  /** Through an empty directory the target of the first link leads to a place below the root. */
  lemma FirstInside()
    ensures InsideAfter(ROOT, map[], ["z", "..", "y"])
  {
    hide LinkAt, Walk;
    var none: Leaves := map[];
    assert ROOT + ["z"] == ["r", "z"] && Parent(["r", "z"]) == ROOT && ROOT + ["y"] == ["r", "y"];
    WalkPlain(ROOT, none, ROOT, ["y"], 0);
    WalkUp(ROOT, none, ["r", "z"], ["y"], 0);
    NoLinkYet(none, ["r", "z"]);
    WalkName(ROOT, none, ROOT, "z", ["..", "y"], 0);
    assert ["z", "..", "y"] == ["z"] + (["..", "y"]) && ["..", "y"] == [".."] + ["y"];
  }

  lemma FirstAllowed(store: map<string, string>, id: string)
    requires id in store && store[id] == "z/../y"
    ensures CanWrite(ROOT, map[], store, First(id))
  {
    TargetsCreatable();
    FirstInside();
    SplitThree();
    SplitOne("a");
    hide Split, LinkAt, InsideAfter, Creatable;
    assert InsideAfter(ROOT, map[], ["a"]) by { AloneInside("a"); }
    assert ["a"][..0] + ["z", "..", "y"] == ["z", "..", "y"];
  }

  lemma AloneInside(name: string)
    requires PlainPart(name)
    ensures InsideAfter(ROOT, map[], [name])
  {
    WalkPlain(ROOT, map[], ROOT, [name], 0);
  }

  lemma SecondAllowed(store: map<string, string>, id: string)
    requires id in store && store[id] == "."
    ensures CanWrite(ROOT, map["a" := Link("z/../y")], store, Second(id))
  {
    TargetsCreatable();
    hide Split, LinkAt, Walk, Creatable;
    var one: Leaves := map["a" := Link("z/../y")];
    SplitOne("z");
    SplitOne(".");
    NoLinkYet(one, ["r", "z"]);
    assert ROOT + ["z"] == ["r", "z"] && ["z"] == ["z"] + [];
    WalkName(ROOT, one, ROOT, "z", [], |one|);
    WalkDone(ROOT, one, ["r", "z"], |one|);
    WalkDot(ROOT, one, ROOT, |one|);
    assert ["z"][..0] + ["."] == ["."];
    assert InsideAfter(ROOT, one, ["."]);
  }

  lemma WalkDone(root: seq<string>, leaves: Leaves, at: seq<string>, depth: nat)
    ensures Walk(root, leaves, at, [], depth) == Some(at)
  {
  }

  lemma BothLinks()
    ensures LinkAt(ROOT, BOTH, ["r", "z"]) == Some(".") && LinkAt(ROOT, BOTH, ["r", "a"]) == Some("z/../y")
              && |BOTH| == 2
  {
    assert ["r", "a"][1..] == ["a"] && ["r", "z"][1..] == ["z"];
    assert BOTH.Keys == {"a", "z"};
  }

  /** Once both links are there, the first one leads out of the root. */
  lemma EscapesAfterwards()
    ensures !Safe(ROOT, BOTH, "a")
  {
    hide Split, LinkAt, Walk;
    SplitThree();
    SplitOne("a");
    SplitOne(".");
    BothLinks();
    NoLinkYet(BOTH, ["y"]);
    assert ROOT + ["a"] == ["r", "a"] && ROOT + ["z"] == ["r", "z"] && Parent(ROOT) == [] && [] + ["y"] == ["y"];
    WalkDot(ROOT, BOTH, ROOT, 0);
    WalkLink(ROOT, BOTH, ROOT, "z", ["..", "y"], 1, ".", ROOT);
    WalkUp(ROOT, BOTH, ROOT, ["y"], 1);
    WalkName(ROOT, BOTH, [], "y", [], 1);
    WalkDone(ROOT, BOTH, ["y"], 1);
    assert ["y"] + [] == ["y"] && [".."] + ["y"] == ["..", "y"] && ["z"] + ["..", "y"] == ["z", "..", "y"];
    WalkLink(ROOT, BOTH, ROOT, "a", [], 2, "z/../y", ["y"]);
    WalkDone(ROOT, BOTH, ["y"], 2);
    assert ["a"] + [] == ["a"];
    assert Walk(ROOT, BOTH, ROOT, Split("a", SLASH), |BOTH|) == Some(["y"]);
    assert ROOT[0][0] == 'r' && ["y"][0][0] == 'y';
  }

  /** Git prints a listing of these two records, and it is read as a manifest. */
  lemma TheManifest(rules: Rules, first: string, second: string)
    requires rules.normal("a") && rules.normal("z") && rules.alias("a") != rules.alias("z")
    requires IsObjectId(first) && IsObjectId(second)
    ensures IsManifest(rules, PrintListing([First(first), Second(second)]), [First(first), Second(second)])
  {
    hide IsObjectId, ParsePieces, Split, PrintListing;
    var a, z := First(first), Second(second);
    assert Free("a", NUL) && Free("z", NUL);
    ListingRoundTrip(rules, [a, z]);
    assert [a, z][1..] == [z] && [z][1..] == [];
    assert Leq("a", "z");
    assert Sort([z]) == [z];
    assert Sort([a, z]) == [a] + [z];
  }

  lemma BothExported(store: map<string, string>, first: string, second: string)
    requires TwoLinks(store, first, second)
    ensures var records := [First(first), Second(second)];
            Stored(store, records) && Exportable(ROOT, store, records) && LeavesOf(store, records) == BOTH
  {
    hide CanWrite, Safe, IsObjectId;
    var records := [First(first), Second(second)];
    assert records[..1] == [First(first)] && records[..1][..0] == [];
    FirstAllowed(store, first);
    assert Exportable(ROOT, store, records[..1][..0]) && Exportable(ROOT, store, records[..1]);
    assert LeavesOf(store, records[..1][..0]) == map[];
    assert LeavesOf(store, records[..1]) == map["a" := Link("z/../y")];
    SecondAllowed(store, second);
    assert LeavesOf(store, records) == BOTH;
  }

  lemma BothPlain(first: string, second: string)
    ensures Plain([First(first), Second(second)])
  {
    assert First(first).path[0] != Second(second).path[0];
  }

  lemma NotAllSafe(a: Record, z: Record)
    requires a.path == "a"
    ensures !AllSafe(ROOT, BOTH, [a, z])
  {
    EscapesAfterwards();
    hide Safe;
    assert [a, z][0].path == "a";
  }

  /** Two relative links, each inside when written, in a manifest read from Git over an honest
      store: the export succeeds, and revalidation refuses it. */
  lemma ExportCanFailRevalidation(rules: Rules, hash: string -> string, store: map<string, string>,
                                  first: string, second: string)
    requires Sound(hash, store) && Injective(hash) && TwoLinks(store, first, second)
    requires rules.normal("a") && rules.normal("z") && rules.alias("a") != rules.alias("z")
    ensures var records := [First(first), Second(second)];
            && IsManifest(rules, PrintListing(records), records) && Plain(records) && Stored(store, records)
            && Exportable(ROOT, store, records)
            && !AllSafe(ROOT, LeavesOf(store, records), records)
            && !Accepts(ROOT, hash, LeavesOf(store, records), records)
  {
    TheManifest(rules, first, second);
    BothExported(store, first, second);
    NotAllSafe(First(first), Second(second));
    BothPlain(first, second);
    hide IsManifest, Exportable, LeavesOf, AllSafe, TwoLinks, Sound, Injective, Accepts, Plain, First, Second, Stored;
    var records := [First(first), Second(second)];
    ExportRevalidates(ROOT, hash, store, records);
  }
}
