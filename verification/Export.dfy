/** Exporting a manifest into an empty directory, and checking the export again.

    The directory is the map from paths to leaves below an absolute root; hash stands for
    the Git blob identifier of some bytes. Path resolution follows the links below the root;
    nothing outside the root is a link. */
module Export {
  import opened Counting
  import opened ManifestFrame
  import opened ManifestTree
  import opened Utf8

  datatype Leaf = Regular(bytes: string, executable: bool) | Link(target: string) | Special

  type Leaves = map<string, Leaf>

  const SLASH: char := '/'

  // ------------------------------------------------------------ resolution

  function Join(parts: seq<string>): string {
    if parts == [] then [] else if |parts| == 1 then parts[0] else parts[0] + [SLASH] + Join(parts[1..])
  }

  predicate IsAbsolute(target: string) { target != [] && target[0] == SLASH }

  /** The link a resolved directory and a name lead to, if there is one below the root. */
  function LinkAt(root: seq<string>, leaves: Leaves, path: seq<string>): Option<string> {
    if root < path && Join(path[|root|..]) in leaves && leaves[Join(path[|root|..])].Link?
    then Some(leaves[Join(path[|root|..])].target) else None
  }

  function Parent(path: seq<string>): seq<string> { if path == [] then [] else path[..|path| - 1] }

  /** The resolution of the remaining components from a resolved directory; nothing when the
      links loop, which is when more links are nested than exist. */
  function Walk(root: seq<string>, leaves: Leaves, at: seq<string>, rest: seq<string>, depth: nat): Option<seq<string>>
    decreases depth, |rest|
  {
    if rest == [] then Some(at)
    else if rest[0] == "" || rest[0] == "." then Walk(root, leaves, at, rest[1..], depth)
    else if rest[0] == ".." then Walk(root, leaves, Parent(at), rest[1..], depth)
    else match LinkAt(root, leaves, at + [rest[0]])
      case None => Walk(root, leaves, at + [rest[0]], rest[1..], depth)
      case Some(target) =>
        if depth == 0 then None
        else match Walk(root, leaves, if IsAbsolute(target) then [] else at, Split(target, SLASH), depth - 1)
          case None => None
          case Some(p) => Walk(root, leaves, p, rest[1..], depth)
  }

  predicate InsideAfter(root: seq<string>, leaves: Leaves, rest: seq<string>) {
    var end := Walk(root, leaves, root, rest, |leaves|);
    end.Some? && root <= end.value
  }

  /** The destination of a path does not escape the root. */
  predicate Safe(root: seq<string>, leaves: Leaves, path: string) { InsideAfter(root, leaves, Split(path, SLASH)) }

  /** The bytes are strict UTF-8. */
  predicate IsText(s: string) { Decodes(seq(|s|, i requires 0 <= i < |s| => s[i] as int % 256)) }

  /** A target the export does not refuse by itself: text that a link can hold, and relative. */
  predicate Creatable(target: string) {
    IsText(target) && target != [] && Free(target, NUL) && !IsAbsolute(target)
  }

  /** The link may be created: such a target, leading below the root right now. */
  predicate LinkAllowed(root: seq<string>, leaves: Leaves, path: string, target: string) {
    var parts := Split(path, SLASH);
    Creatable(target) && InsideAfter(root, leaves, parts[..|parts| - 1] + Split(target, SLASH))
  }

  // ------------------------------------------------------------ export

  function LeafFor(store: map<string, string>, r: Record): Leaf
    requires r.blob in store
  {
    if r.mode == LINK_MODE then Link(store[r.blob]) else Regular(store[r.blob], r.mode == "100755")
  }

  predicate Stored(store: map<string, string>, records: seq<Record>) {
    forall i :: 0 <= i < |records| ==> records[i].blob in store
  }

  /** Exactly the records' paths, modes and contents. */
  function LeavesOf(store: map<string, string>, records: seq<Record>): Leaves
    requires Stored(store, records)
  {
    if records == [] then map[] else
      var n := |records| - 1;
      LeavesOf(store, records[..n])[records[n].path := LeafFor(store, records[n])]
  }

  /** What one record needs when the ones before it are in place. */
  predicate CanWrite(root: seq<string>, leaves: Leaves, store: map<string, string>, r: Record) {
    && r.mode != GITLINK_MODE && r.blob in store && Safe(root, leaves, r.path)
    && (r.mode == LINK_MODE ==> LinkAllowed(root, leaves, r.path, store[r.blob]))
  }

  predicate Exportable(root: seq<string>, store: map<string, string>, records: seq<Record>) {
    records == [] || (
      var n := |records| - 1;
      && Exportable(root, store, records[..n]) && Stored(store, records[..n])
      && CanWrite(root, LeavesOf(store, records[..n]), store, records[n]))
  }

  lemma {:induction false} ExportableStored(root: seq<string>, store: map<string, string>, records: seq<Record>)
    requires Exportable(root, store, records)
    ensures Stored(store, records) && forall i :: 0 <= i < |records| ==> records[i].mode != GITLINK_MODE
  {
    if records != [] {
      var n := |records| - 1;
      ExportableStored(root, store, records[..n]);
      assert forall i :: 0 <= i < n ==> records[..n][i] == records[i];
    }
  }

  lemma {:induction false} ExportableFails(root: seq<string>, store: map<string, string>, records: seq<Record>, k: nat)
    requires k <= |records| && !Exportable(root, store, records[..k])
    ensures !Exportable(root, store, records)
    decreases |records| - k
  {
    if k < |records| {
      assert records[..k + 1][..k] == records[..k];
      ExportableFails(root, store, records, k + 1);
    } else {
      assert records[..k] == records;
    }
  }

  /** Writes the records one by one into an empty directory; nothing if any step refuses. */
  method ExportRecords(root: seq<string>, store: map<string, string>, records: seq<Record>)
    returns (leaves: Option<Leaves>)
    ensures leaves.Some? <==> Exportable(root, store, records)
    ensures leaves.Some? ==> Stored(store, records) && leaves.value == LeavesOf(store, records)
  {
    hide Safe, LinkAllowed, LeafFor;
    var written: Leaves := map[];
    for i := 0 to |records|
      invariant Exportable(root, store, records[..i]) && Stored(store, records[..i])
      invariant written == LeavesOf(store, records[..i])
    {
      var r := records[i];
      assert records[..i + 1][..i] == records[..i];
      if r.mode == GITLINK_MODE || r.blob !in store || !Safe(root, written, r.path)
         || (r.mode == LINK_MODE && !LinkAllowed(root, written, r.path, store[r.blob])) {
        ExportableFails(root, store, records, i + 1);
        return None;
      }
      written := written[r.path := LeafFor(store, r)];
    }
    assert records[..|records|] == records;
    return Some(written);
  }

  // ------------------------------------------------------------ validation

  datatype Verdict = Valid | LeafSetChanged(missing: set<string>, unexpected: set<string>) | Escapes(path: string)
                   | Changed(paths: seq<string>)

  /** The leaf has the record's kind, mode and blob. */
  predicate Matches(hash: string -> string, leaf: Leaf, r: Record) {
    if r.mode == LINK_MODE then leaf.Link? && hash(leaf.target) == r.blob
    else
      && r.mode != GITLINK_MODE && leaf.Regular?
      && r.mode == (if leaf.executable then "100755" else "100644") && hash(leaf.bytes) == r.blob
  }

  function PathSet(records: seq<Record>): set<string> { set i | 0 <= i < |records| :: records[i].path }

  predicate Covered(records: seq<Record>, leaves: Leaves) {
    forall i :: 0 <= i < |records| ==> records[i].path in leaves
  }

  function ChangedPaths(hash: string -> string, leaves: Leaves, records: seq<Record>): seq<string>
    requires Covered(records, leaves)
  {
    if records == [] then [] else
      var n := |records| - 1;
      var path := records[n].path;
      ChangedPaths(hash, leaves, records[..n]) + if Matches(hash, leaves[path], records[n]) then [] else [path]
  }

  function Summary(changed: seq<string>): Verdict { if changed == [] then Valid else Changed(changed) }

  ghost predicate AllSafe(root: seq<string>, leaves: Leaves, records: seq<Record>) {
    forall i :: 0 <= i < |records| ==> Safe(root, leaves, records[i].path)
  }

  /** The loop over the records once the leaf set is known to be right. */
  method CheckLeaves(root: seq<string>, hash: string -> string, leaves: Leaves, records: seq<Record>)
    returns (verdict: Verdict)
    requires Covered(records, leaves)
    ensures !AllSafe(root, leaves, records) ==>
              verdict.Escapes? && verdict.path in PathSet(records) && !Safe(root, leaves, verdict.path)
    ensures AllSafe(root, leaves, records) ==>
              verdict == Summary(ChangedPaths(hash, leaves, records))
  {
    hide Safe, Matches;
    var changed: seq<string> := [];
    for i := 0 to |records|
      invariant forall k :: 0 <= k < i ==> Safe(root, leaves, records[k].path)
      invariant changed == ChangedPaths(hash, leaves, records[..i])
    {
      assert records[..i + 1][..i] == records[..i];
      if !Safe(root, leaves, records[i].path) {
        assert records[i].path in PathSet(records);
        return Escapes(records[i].path);
      }
      if !Matches(hash, leaves[records[i].path], records[i]) {
        changed := changed + [records[i].path];
      }
    }
    assert records[..|records|] == records;
    return Summary(changed);
  }

  method Validate(root: seq<string>, hash: string -> string, leaves: Leaves, records: seq<Record>)
    returns (verdict: Verdict)
    ensures leaves.Keys != PathSet(records) ==>
              verdict == LeafSetChanged(PathSet(records) - leaves.Keys, leaves.Keys - PathSet(records))
    ensures leaves.Keys == PathSet(records) && !AllSafe(root, leaves, records) ==>
              verdict.Escapes? && verdict.path in PathSet(records) && !Safe(root, leaves, verdict.path)
    ensures leaves.Keys == PathSet(records) && AllSafe(root, leaves, records) ==>
              Covered(records, leaves) && verdict == Summary(ChangedPaths(hash, leaves, records))
  {
    hide Safe, AllSafe, ChangedPaths, Covered;
    var missing, unexpected := PathSet(records) - leaves.Keys, leaves.Keys - PathSet(records);
    if missing != {} || unexpected != {} {
      return LeafSetChanged(missing, unexpected);
    }
    SameKeys(leaves, records);
    verdict := CheckLeaves(root, hash, leaves, records);
  }

  lemma SameKeys(leaves: Leaves, records: seq<Record>)
    requires PathSet(records) - leaves.Keys == {} && leaves.Keys - PathSet(records) == {}
    ensures leaves.Keys == PathSet(records) && Covered(records, leaves)
  {
    assert forall p :: p in PathSet(records) ==> p in leaves.Keys by {
      forall p | p in PathSet(records) ensures p in leaves.Keys {
        assert p !in PathSet(records) - leaves.Keys;
      }
    }
    assert forall p :: p in leaves.Keys ==> p in PathSet(records) by {
      forall p | p in leaves.Keys ensures p in PathSet(records) {
        assert p !in leaves.Keys - PathSet(records);
      }
    }
    forall i | 0 <= i < |records| ensures records[i].path in leaves {
      assert records[i].path in PathSet(records);
    }
  }

  /** The validator's acceptance, without its loop. */
  ghost predicate Accepts(root: seq<string>, hash: string -> string, leaves: Leaves, records: seq<Record>) {
    && leaves.Keys == PathSet(records) && AllSafe(root, leaves, records)
    && Covered(records, leaves)
    && forall i :: 0 <= i < |records| ==> Matches(hash, leaves[records[i].path], records[i])
  }

  lemma {:induction false} NoneChanged(hash: string -> string, leaves: Leaves, records: seq<Record>)
    requires Covered(records, leaves)
    ensures ChangedPaths(hash, leaves, records) == []
            <==> forall i :: 0 <= i < |records| ==> Matches(hash, leaves[records[i].path], records[i])
  {
    if records != [] {
      var n := |records| - 1;
      NoneChanged(hash, leaves, records[..n]);
      assert forall i :: 0 <= i < n ==> records[..n][i] == records[i];
    }
  }

  /** One method call: accepted exactly when. */
  method CheckExport(root: seq<string>, hash: string -> string, leaves: Leaves, records: seq<Record>) returns (ok: bool)
    ensures ok <==> Accepts(root, hash, leaves, records)
  {
    var verdict := Validate(root, hash, leaves, records);
    if leaves.Keys == PathSet(records) && AllSafe(root, leaves, records) {
      NoneChanged(hash, leaves, records);
    }
    ok := verdict == Valid;
  }
}
