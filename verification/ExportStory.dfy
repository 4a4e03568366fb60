/** Exporting and revalidating in terms of the records and of where their paths lead: which records
    can be exported, what each leaves behind, and which directories pass. */
module ExportStory {
  import opened Counting
  import opened ManifestFrame
  import opened ManifestTree
  import opened Export
  import opened ExportRuns
  import opened Resolution

  /** A text that a link can hold and that does not start at the top. */
  ghost predicate Relative(target: string) {
    target != "" && target[0] != '/' && '\0' !in target && IsText(target)
  }

  function DirectoryOf(path: string): seq<string> {
    var parts := Split(path, '/');
    parts[..|parts| - 1]
  }

  /** With the records before it in place: its path leads below the root, and so does its target if it
      is a link. */
  ghost predicate Placed(root: seq<string>, store: map<string, string>, records: seq<Record>, i: nat)
    requires Stored(store, records) && i < |records|
  {
    var r, before := records[i], LeavesOf(store, records[..i]);
    && r.mode != "160000" && StaysInside(root, before, Split(r.path, '/'))
    && (r.mode == "120000" ==>
          Relative(store[r.blob]) && StaysInside(root, before, DirectoryOf(r.path) + Split(store[r.blob], '/')))
  }

  lemma LinkMeans(root: seq<string>, leaves: Leaves, path: string, target: string)
    requires NoSlash(root)
    ensures LinkAllowed(root, leaves, path, target) <==>
            Relative(target) && StaysInside(root, leaves, DirectoryOf(path) + Split(target, '/'))
  {
    SplitNoSlash(path);
    SplitNoSlash(target);
    InsideMeans(root, leaves, DirectoryOf(path) + Split(target, '/'));
    hide Split, InsideAfter, StaysInside;
  }

  lemma WritesPlaced(root: seq<string>, store: map<string, string>, records: seq<Record>, i: nat)
    requires NoSlash(root) && Stored(store, records) && i < |records|
    ensures CanWrite(root, LeavesOf(store, records[..i]), store, records[i]) <==> Placed(root, store, records, i)
  {
    var r, before := records[i], LeavesOf(store, records[..i]);
    SplitNoSlash(r.path);
    InsideMeans(root, before, Split(r.path, '/'));
    LinkMeans(root, before, r.path, store[r.blob]);
    hide Split, InsideAfter, StaysInside, LinkAllowed, DirectoryOf, LeavesOf;
  }

  lemma PlacedPrefix(root: seq<string>, store: map<string, string>, records: seq<Record>, n: nat, i: nat)
    requires Stored(store, records) && i < n <= |records|
    ensures Stored(store, records[..n])
    ensures Placed(root, store, records[..n], i) <==> Placed(root, store, records, i)
  {
    assert records[..n][..i] == records[..i];
  }

  /** The export succeeds exactly when every blob is there and every record, in its turn, is placed. */
  lemma {:induction false} ExportsExactly(root: seq<string>, store: map<string, string>, records: seq<Record>)
    requires NoSlash(root)
    ensures Exportable(root, store, records) <==>
            Stored(store, records) && forall i :: 0 <= i < |records| ==> Placed(root, store, records, i)
  {
    if records != [] {
      var n := |records| - 1;
      ExportsExactly(root, store, records[..n]);
      if Exportable(root, store, records) {
        ExportableStored(root, store, records);
      }
      hide CanWrite, Placed, LeavesOf;
      if Stored(store, records) {
        assert Stored(store, records[..n]);
        forall i | 0 <= i < n ensures Placed(root, store, records[..n], i) <==> Placed(root, store, records, i) {
          PlacedPrefix(root, store, records, n, i);
        }
        WritesPlaced(root, store, records, n);
      }
    }
  }

  /** What each record leaves behind, and nothing else: its bytes under its path, as a link or as a file
      that is executable or not. */
  lemma ExportLeaves(store: map<string, string>, records: seq<Record>)
    requires Stored(store, records) && OnePerPath(records)
    ensures forall p :: p in LeavesOf(store, records) <==> exists i :: 0 <= i < |records| && records[i].path == p
    ensures forall i :: 0 <= i < |records| ==>
              LeavesOf(store, records)[records[i].path] ==
              if records[i].mode == "120000" then Link(store[records[i].blob])
              else Regular(store[records[i].blob], records[i].mode == "100755")
  {
    LeavesKeys(store, records);
    forall p ensures p in LeavesOf(store, records) <==> exists i :: 0 <= i < |records| && records[i].path == p {
      assert p in LeavesOf(store, records) <==> p in LeavesOf(store, records).Keys;
    }
    forall i | 0 <= i < |records|
      ensures records[i].path in LeavesOf(store, records)
      ensures LeavesOf(store, records)[records[i].path] ==
              if records[i].mode == "120000" then Link(store[records[i].blob])
              else Regular(store[records[i].blob], records[i].mode == "100755")
    {
      LeavesAt(store, records, i);
    }
  }

  /** The leaf is of the record's kind, executable or not as it says, and holds its blob. */
  predicate Fits(hash: string -> string, leaf: Leaf, r: Record) {
    match leaf
    case Link(target) => r.mode == "120000" && hash(target) == r.blob
    case Regular(bytes, executable) => r.mode == (if executable then "100755" else "100644") && hash(bytes) == r.blob
    case Special => false
  }

  ghost predicate Passes(root: seq<string>, hash: string -> string, leaves: Leaves, records: seq<Record>) {
    && (forall p :: p in leaves ==> exists i :: 0 <= i < |records| && records[i].path == p)
    && forall i :: 0 <= i < |records| ==>
         && records[i].path in leaves && StaysInside(root, leaves, Split(records[i].path, '/'))
         && Fits(hash, leaves[records[i].path], records[i])
  }

  /** Revalidation accepts exactly the directories that hold the records' leaves and no others, each
      reached below the root. */
  lemma PassesExactly(root: seq<string>, hash: string -> string, leaves: Leaves, records: seq<Record>)
    requires NoSlash(root)
    ensures Accepts(root, hash, leaves, records) <==> Passes(root, hash, leaves, records)
  {
    forall i | 0 <= i < |records|
      ensures Safe(root, leaves, records[i].path) <==> StaysInside(root, leaves, Split(records[i].path, '/'))
    {
      SplitNoSlash(records[i].path);
      InsideMeans(root, leaves, Split(records[i].path, '/'));
    }
    forall leaf, i | 0 <= i < |records| ensures Matches(hash, leaf, records[i]) <==> Fits(hash, leaf, records[i]) {}
    hide Safe, StaysInside, Split, Matches, Fits;
    PathsMean(leaves, records);
  }

  lemma PathsMean(leaves: Leaves, records: seq<Record>)
    ensures leaves.Keys == PathSet(records) <==>
            && (forall p :: p in leaves ==> exists i :: 0 <= i < |records| && records[i].path == p)
            && forall i :: 0 <= i < |records| ==> records[i].path in leaves
  {
    forall p ensures p in PathSet(records) <==> exists i :: 0 <= i < |records| && records[i].path == p {}
    if leaves.Keys == PathSet(records) {
      assert forall p :: p in leaves <==> p in leaves.Keys;
      forall i | 0 <= i < |records| ensures records[i].path in leaves {
        assert records[i].path in PathSet(records);
      }
    }
    if (forall p :: p in leaves ==> exists i :: 0 <= i < |records| && records[i].path == p) &&
       forall i :: 0 <= i < |records| ==> records[i].path in leaves
    {
      forall p ensures p in leaves.Keys <==> p in PathSet(records) {}
    }
  }
}
