/** The trusted-base comparison of red-reproduction evidence: which changes to recorded
    evidence a candidate commit may make, and what survives along a chain of accepted
    commits.

    Git objects are named by number; Repo says what each one contains, its SHA-256, and
    the structural digest of a test node in it. A receipt field that does not have the
    required shape is None, or Misshapen where the program tells that from its absence. */
module RedReproduction {
  import opened Counting

  type Blob = nat

  /** A receipt's JSON. nodes is Some only for a non-empty, sorted, duplicate-free list
      of strings; guardBlobs only for a non-empty mapping of safe paths to blob ids;
      rest stands for every other claim. */
  datatype Body = Body(schema: int, localExecuted: bool, exitCode: int, guardBlobs: Option<map<string, Blob>>,
                       nodes: Option<seq<string>>, digests: Table, rest: int)

  /** The table of node digests: no such field, one of another shape, or a mapping. */
  datatype Table = Absent | Misshapen | Present(value: map<string, string>)

  datatype Content = Receipt(body: Body) | OtherBytes

  datatype Repo = Repo(content: Blob -> Content, sha256: Blob -> string, nodeSha: (Blob, string) -> Option<string>,
                       canonical: string -> bool)

  datatype Entry = Entry(mode: string, kind: string, blob: Blob)

  datatype Binding = Binding(locator: string, digest: string)

  /** A commit's registry bindings (None when the registry is malformed) and its tree. */
  datatype Commit = Commit(bindings: Option<map<string, Binding>>, tree: map<string, Entry>)

  /** The file part of a test node. */
  function FileOf(node: string): string {
    if node == [] || "::" <= node then [] else [node[0]] + FileOf(node[1..])
  }

  // ---------------------------------------------------------------- receipts

  function BodyAt(repo: Repo, c: Commit, path: string): Option<Body> {
    if path in c.tree && repo.content(c.tree[path].blob).Receipt?
    then Some(repo.content(c.tree[path].blob).body) else None
  }

  predicate DigestsWellFormed(b: Body) {
    && b.schema == 2 && b.nodes.Some? && b.digests.Present?
    && (forall n :: n in b.digests.value ==> n in b.nodes.value)
    && (forall n :: n in b.nodes.value ==> n in b.digests.value)
  }

  /** The node digests of a receipt: absent before node binding, malformed, or present. */
  datatype NodeDigests = Malformed | BeforeNodeBinding | Bound(digests: map<string, string>)

  function DigestsOf(b: Body): NodeDigests {
    if b.schema == 1 then BeforeNodeBinding
    else if DigestsWellFormed(b) then Bound(b.digests.value) else Malformed
  }

  /** The digest of one node in the guard file the receipt records for it. */
  function RecordedSha(repo: Repo, b: Body, node: string): Option<string> {
    if b.guardBlobs.Some? && FileOf(node) in b.guardBlobs.value
    then repo.nodeSha(b.guardBlobs.value[FileOf(node)], node) else None
  }

  /** Every recorded node digest can be rederived from the recorded guard blobs. */
  ghost predicate SelfConsistent(repo: Repo, b: Body) {
    DigestsOf(b).Bound? ==>
      forall n :: n in b.digests.value ==> RecordedSha(repo, b, n) == Some(b.digests.value[n])
  }

  /** Whole guard files and named nodes are as committed with the candidate. */
  ghost predicate MatchesTree(repo: Repo, c: Commit, b: Body) {
    && b.guardBlobs.Some?
    && (forall p :: p in b.guardBlobs.value ==> p in c.tree && c.tree[p].blob == b.guardBlobs.value[p])
    && (b.schema != 1 ==> b.digests.Present? && forall n :: n in b.digests.value ==>
          FileOf(n) in c.tree && repo.nodeSha(c.tree[FileOf(n)].blob, n) == Some(b.digests.value[n]))
  }

  /** An honest red receipt, bound to the commit that carries it. */
  ghost predicate Honest(repo: Repo, c: Commit, path: string, digest: string)
    requires path in c.tree
  {
    && repo.sha256(c.tree[path].blob) == digest
    && BodyAt(repo, c, path).Some?
    && var b := BodyAt(repo, c, path).value;
    && (b.schema == 1 || b.schema == 2) && b.localExecuted && b.exitCode != 0
    && (b.schema != 1 ==> DigestsWellFormed(b) && SelfConsistent(repo, b))
    && MatchesTree(repo, c, b)
  }

  /** The digests a migration must carry: one per node, from the recorded guard blobs. */
  ghost predicate Derives(repo: Repo, prior: Body, digests: map<string, string>) {
    && prior.nodes.Some? && prior.guardBlobs.Some?
    && (forall n :: n in digests <==> n in prior.nodes.value)
    && (forall n :: n in digests ==> RecordedSha(repo, prior, n) == Some(digests[n]))
  }

  /** The one legitimate change while everything the receipt describes stands still. */
  ghost predicate Migrates(repo: Repo, prior: Body, next: Body) {
    && DigestsOf(next).Bound?
    && next.(schema := 1, digests := Absent) == prior
    && Derives(repo, prior, next.digests.value)
  }

  /** Both the receipt and its digest moved: a forced re-run, or a migration. */
  ghost predicate MayMove(repo: Repo, prior: Body, next: Body) {
    match (DigestsOf(prior), DigestsOf(next))
    case (BeforeNodeBinding, BeforeNodeBinding) =>
      prior.guardBlobs.Some? && next.guardBlobs.Some? && prior.guardBlobs != next.guardBlobs
    case (BeforeNodeBinding, Bound(_)) =>
      prior.guardBlobs.Some? && next.guardBlobs.Some? &&
      (prior.guardBlobs == next.guardBlobs ==> Migrates(repo, prior, next))
    case (Bound(a), Bound(b)) => a != b
    case _ => false
  }

  /** One trusted binding, as the candidate carries it. */
  ghost predicate PairOk(repo: Repo, base: Commit, c: Commit, trusted: Binding, now: Binding) {
    var path := trusted.locator;
    && repo.canonical(path) && path in base.tree && path in c.tree
    && now.locator == trusted.locator
    && base.tree[path].mode == c.tree[path].mode && base.tree[path].kind == c.tree[path].kind
    && (now.digest == trusted.digest <==> base.tree[path].blob == c.tree[path].blob)
    && (now.digest != trusted.digest ==>
          && BodyAt(repo, base, path).Some? && BodyAt(repo, c, path).Some?
          && MayMove(repo, BodyAt(repo, base, path).value, BodyAt(repo, c, path).value)
          && Honest(repo, c, path, now.digest))
  }

  ghost predicate Accepts(repo: Repo, base: Commit, c: Commit) {
    && base.bindings.Some? && c.bindings.Some?
    && forall id :: id in base.bindings.value ==>
         id in c.bindings.value && PairOk(repo, base, c, base.bindings.value[id], c.bindings.value[id])
  }

  // ---------------------------------------------------------------- the comparison

  method CheckHonest(repo: Repo, c: Commit, path: string, digest: string) returns (ok: bool)
    requires path in c.tree
    ensures ok <==> Honest(repo, c, path, digest)
  {
    if repo.sha256(c.tree[path].blob) != digest { return false; }
    var body := BodyAt(repo, c, path);
    if body.None? { return false; }
    var b := body.value;
    if (b.schema != 1 && b.schema != 2) || !b.localExecuted || b.exitCode == 0 || b.guardBlobs.None? { return false; }
    var pending := b.guardBlobs.value.Keys;
    while pending != {}
      invariant pending <= b.guardBlobs.value.Keys
      invariant forall p :: p in b.guardBlobs.value && p !in pending ==>
                  p in c.tree && c.tree[p].blob == b.guardBlobs.value[p]
      decreases pending
    {
      var p :| p in pending;
      if p !in c.tree || c.tree[p].blob != b.guardBlobs.value[p] { return false; }
      pending := pending - {p};
    }
    if b.schema == 1 { return true; }
    if !DigestsWellFormed(b) { return false; }
    ok := CheckNodes(repo, c, b);
  }

  method CheckNodes(repo: Repo, c: Commit, b: Body) returns (ok: bool)
    requires DigestsWellFormed(b)
    ensures ok <==> SelfConsistent(repo, b) && forall n :: n in b.digests.value ==>
                      FileOf(n) in c.tree && repo.nodeSha(c.tree[FileOf(n)].blob, n) == Some(b.digests.value[n])
  {
    var pending := b.digests.value.Keys;
    while pending != {}
      invariant pending <= b.digests.value.Keys
      invariant forall n :: n in b.digests.value && n !in pending ==>
                  && RecordedSha(repo, b, n) == Some(b.digests.value[n])
                  && FileOf(n) in c.tree && repo.nodeSha(c.tree[FileOf(n)].blob, n) == Some(b.digests.value[n])
      decreases pending
    {
      var n :| n in pending;
      if RecordedSha(repo, b, n) != Some(b.digests.value[n]) { return false; }
      if FileOf(n) !in c.tree || repo.nodeSha(c.tree[FileOf(n)].blob, n) != Some(b.digests.value[n]) { return false; }
      pending := pending - {n};
    }
    return true;
  }

  method CheckDerived(repo: Repo, prior: Body, digests: map<string, string>) returns (ok: bool)
    ensures ok <==> Derives(repo, prior, digests)
  {
    if prior.nodes.None? || prior.guardBlobs.None? { return false; }
    var derived: map<string, string> := map[];
    for i := 0 to |prior.nodes.value|
      invariant forall n :: n in derived <==> n in prior.nodes.value[..i]
      invariant forall n :: n in derived ==> RecordedSha(repo, prior, n) == Some(derived[n])
    {
      var n := prior.nodes.value[i];
      var sha := RecordedSha(repo, prior, n);
      if sha.None? {
        assert n in prior.nodes.value;
        return false;
      }
      derived := derived[n := sha.value];
      assert prior.nodes.value[..i + 1] == prior.nodes.value[..i] + [n];
    }
    assert prior.nodes.value[..|prior.nodes.value|] == prior.nodes.value;
    assert Derives(repo, prior, derived);
    return derived == digests;
  }

  method CheckMove(repo: Repo, prior: Body, next: Body) returns (ok: bool)
    ensures ok <==> MayMove(repo, prior, next)
  {
    var before, after := DigestsOf(prior), DigestsOf(next);
    if before.Malformed? || after.Malformed? { return false; }
    if after.BeforeNodeBinding? {
      if before.Bound? { return false; }
      return prior.guardBlobs.Some? && next.guardBlobs.Some? && prior.guardBlobs != next.guardBlobs;
    }
    if before.BeforeNodeBinding? {
      if prior.guardBlobs.None? || next.guardBlobs.None? { return false; }
      if prior.guardBlobs != next.guardBlobs { return true; }
      if next.(schema := 1, digests := Absent) != prior { return false; }
      ok := CheckDerived(repo, prior, after.digests);
      return;
    }
    return before.digests != after.digests;
  }

  method CheckPair(repo: Repo, base: Commit, c: Commit, trusted: Binding, now: Binding) returns (ok: bool)
    ensures ok <==> PairOk(repo, base, c, trusted, now)
  {
    var path := trusted.locator;
    if !repo.canonical(path) || path !in base.tree || path !in c.tree || now.locator != trusted.locator {
      return false;
    }
    var sameBinding, sameBytes := now == trusted, base.tree[path].blob == c.tree[path].blob;
    if sameBinding != sameBytes { return false; }
    if !sameBinding {
      var prior, next := BodyAt(repo, base, path), BodyAt(repo, c, path);
      if prior.None? || next.None? { return false; }
      var moved := CheckMove(repo, prior.value, next.value);
      if !moved { return false; }
      var honest := CheckHonest(repo, c, path, now.digest);
      if !honest { return false; }
    }
    return base.tree[path].mode == c.tree[path].mode && base.tree[path].kind == c.tree[path].kind;
  }

  /** The comparison accepts exactly what Accepts describes. */
  method Compare(repo: Repo, base: Commit, c: Commit) returns (ok: bool)
    ensures ok <==> Accepts(repo, base, c)
  {
    if base.bindings.None? || c.bindings.None? { return false; }
    var pending := base.bindings.value.Keys;
    while pending != {}
      invariant pending <= base.bindings.value.Keys
      invariant forall id :: id in base.bindings.value && id !in pending ==>
                  id in c.bindings.value && PairOk(repo, base, c, base.bindings.value[id], c.bindings.value[id])
      decreases pending
    {
      var id :| id in pending;
      if id !in c.bindings.value { return false; }
      ok := CheckPair(repo, base, c, base.bindings.value[id], c.bindings.value[id]);
      if !ok { return; }
      pending := pending - {id};
    }
    return true;
  }

  // ---------------------------------------------------------------- chains

  /** Each commit is accepted against the one before it. */
  ghost predicate Chain(repo: Repo, cs: seq<Commit>) {
    && (forall i :: 0 <= i < |cs| ==> cs[i].bindings.Some?)
    && forall i, j :: 0 <= i < |cs| && 0 <= j < |cs| && j == i + 1 ==> Accepts(repo, cs[i], cs[j])
  }

  /** Every original binding survives, at the same locator, with the same mode and kind. */
  lemma {:induction false} BindingsSurvive(repo: Repo, cs: seq<Commit>, id: string, k: nat)
    requires Chain(repo, cs) && k < |cs| && id in cs[0].bindings.value
    requires cs[0].bindings.value[id].locator in cs[0].tree
    ensures id in cs[k].bindings.value
    ensures var path := cs[0].bindings.value[id].locator;
            && cs[k].bindings.value[id].locator == path && path in cs[k].tree
            && cs[k].tree[path].mode == cs[0].tree[path].mode && cs[k].tree[path].kind == cs[0].tree[path].kind
  {
    if k > 0 {
      BindingsSurvive(repo, cs, id, k - 1);
      assert Accepts(repo, cs[k - 1], cs[k]);
    }
  }

  ghost predicate NodeBound(repo: Repo, c: Commit, path: string) {
    BodyAt(repo, c, path).Some? && DigestsOf(BodyAt(repo, c, path).value).Bound?
  }

  lemma StaysBound(repo: Repo, base: Commit, c: Commit, trusted: Binding, now: Binding)
    requires PairOk(repo, base, c, trusted, now) && NodeBound(repo, base, trusted.locator)
    ensures NodeBound(repo, c, trusted.locator)
  {
  }

  /** What the chain says about two neighbours and one original binding. */
  lemma Neighbours(repo: Repo, cs: seq<Commit>, id: string, k: nat)
    requires Chain(repo, cs) && 0 < k < |cs| && id in cs[0].bindings.value
    requires cs[0].bindings.value[id].locator in cs[0].tree
    ensures id in cs[k - 1].bindings.value && id in cs[k].bindings.value
    ensures cs[k - 1].bindings.value[id].locator == cs[0].bindings.value[id].locator
    ensures PairOk(repo, cs[k - 1], cs[k], cs[k - 1].bindings.value[id], cs[k].bindings.value[id])
  {
    BindingsSurvive(repo, cs, id, k - 1);
    assert Accepts(repo, cs[k - 1], cs[k]);
  }

  /** Once a receipt binds nodes, it does so in every later commit. */
  lemma {:induction false} NeverDowngraded(repo: Repo, cs: seq<Commit>, id: string, i: nat, k: nat)
    requires Chain(repo, cs) && i <= k < |cs| && id in cs[0].bindings.value
    requires cs[0].bindings.value[id].locator in cs[0].tree
    requires NodeBound(repo, cs[i], cs[0].bindings.value[id].locator)
    ensures NodeBound(repo, cs[k], cs[0].bindings.value[id].locator)
  {
    if i < k {
      NeverDowngraded(repo, cs, id, i, k - 1);
      Neighbours(repo, cs, id, k);
      StaysBound(repo, cs[k - 1], cs[k], cs[k - 1].bindings.value[id], cs[k].bindings.value[id]);
    }
  }

  /** Everything the receipt describes stands still in this commit. */
  ghost predicate StandsStill(repo: Repo, c: Commit, path: string, blobs: map<string, Blob>, nodes: seq<string>) {
    && BodyAt(repo, c, path).Some?
    && BodyAt(repo, c, path).value.guardBlobs == Some(blobs) && BodyAt(repo, c, path).value.nodes == Some(nodes)
  }

  /** One accepted step while everything stands still: no change, or the migration. */
  lemma StillStep(repo: Repo, base: Commit, c: Commit, trusted: Binding, now: Binding,
                  blobs: map<string, Blob>, nodes: seq<string>)
    requires PairOk(repo, base, c, trusted, now)
    requires StandsStill(repo, base, trusted.locator, blobs, nodes)
              && StandsStill(repo, c, trusted.locator, blobs, nodes)
    requires SelfConsistent(repo, BodyAt(repo, base, trusted.locator).value)
    ensures var path := trusted.locator;
            var prior, next := BodyAt(repo, base, path).value, BodyAt(repo, c, path).value;
            && SelfConsistent(repo, next)
            && (base.tree[path].blob == c.tree[path].blob || (prior.schema == 1 && Migrates(repo, prior, next)))
  {
    var path := trusted.locator;
    var prior, next := BodyAt(repo, base, path).value, BodyAt(repo, c, path).value;
    if DigestsOf(prior).Bound? && DigestsOf(next).Bound? && SelfConsistent(repo, next) {
      SameDigests(repo, prior, next);
    }
  }

  /** Two self-consistent receipts of the same guard blobs and nodes agree on digests. */
  lemma SameDigests(repo: Repo, a: Body, b: Body)
    requires DigestsOf(a).Bound? && DigestsOf(b).Bound? && SelfConsistent(repo, a) && SelfConsistent(repo, b)
    requires a.guardBlobs == b.guardBlobs && a.nodes == b.nodes
    ensures DigestsOf(a) == DigestsOf(b)
  {
    assert forall n :: n in a.digests.value <==> n in b.digests.value;
    forall n | n in a.digests.value ensures a.digests.value[n] == b.digests.value[n] {
      assert RecordedSha(repo, a, n) == RecordedSha(repo, b, n);
    }
  }

  ghost predicate Still(repo: Repo, cs: seq<Commit>, path: string, blobs: map<string, Blob>, nodes: seq<string>) {
    forall i :: 0 <= i < |cs| ==> StandsStill(repo, cs[i], path, blobs, nodes)
  }

  ghost function BodyIn(repo: Repo, c: Commit, path: string): Body
    requires BodyAt(repo, c, path).Some?
  {
    BodyAt(repo, c, path).value
  }

  /** The receipt's bytes stay as they were up to step k and as step k made them after. */
  ghost predicate OneChange(cs: seq<Commit>, path: string, k: nat) {
    && 1 <= k <= |cs|
    && (forall i :: 0 <= i < |cs| ==> path in cs[i].tree)
    && (forall i :: 0 <= i < k ==> cs[i].tree[path].blob == cs[0].tree[path].blob)
    && (forall i :: k <= i < |cs| ==> cs[i].tree[path].blob == cs[k].tree[path].blob)
  }

  lemma OneChangeGrows(cs: seq<Commit>, path: string, k: nat, n: nat)
    requires |cs| == n + 1 && n > 0 && OneChange(cs[..n], path, k) && path in cs[n].tree
    requires k < n ==> cs[n].tree[path].blob == cs[n - 1].tree[path].blob
    ensures OneChange(cs, path, if k == n && cs[n].tree[path].blob == cs[n - 1].tree[path].blob then n + 1 else k)
  {
    assert forall i :: 0 <= i < n ==> cs[..n][i] == cs[i];
    forall i | 0 <= i < |cs| ensures path in cs[i].tree {
      assert i < n ==> path in cs[..n][i].tree;
    }
  }

  /** While the recorded guard blobs and the node list stand still along a whole chain, a
      self-consistent receipt changes at most once, and that change is the migration to
      node binding: before step k the original bytes, from step k on one migrated form. */
  lemma {:induction false} ChangesAtMostOnce(repo: Repo, cs: seq<Commit>, id: string, blobs: map<string, Blob>,
                                             nodes: seq<string>) returns (k: nat)
    requires cs != [] && Chain(repo, cs) && id in cs[0].bindings.value
    requires cs[0].bindings.value[id].locator in cs[0].tree
    requires Still(repo, cs, cs[0].bindings.value[id].locator, blobs, nodes)
    requires SelfConsistent(repo, BodyIn(repo, cs[0], cs[0].bindings.value[id].locator))
    ensures OneChange(cs, cs[0].bindings.value[id].locator, k)
    ensures SelfConsistent(repo, BodyIn(repo, cs[|cs| - 1], cs[0].bindings.value[id].locator))
    ensures var path := cs[0].bindings.value[id].locator;
            k < |cs| ==> Migrates(repo, BodyIn(repo, cs[0], path), BodyIn(repo, cs[k], path))
  {
    var path := cs[0].bindings.value[id].locator;
    var n := |cs| - 1;
    if n == 0 {
      k := 1;
    } else {
      var m := ChangesAtMostOnce(repo, cs[..n], id, blobs, nodes);
      Neighbours(repo, cs, id, n);
      assert cs[..n][n - 1] == cs[n - 1];
      StillStep(repo, cs[n - 1], cs[n], cs[n - 1].bindings.value[id], cs[n].bindings.value[id], blobs, nodes);
      if m < n {
        assert cs[n - 1].tree[path].blob == cs[m].tree[path].blob;
      } else {
        assert cs[n - 1].tree[path].blob == cs[0].tree[path].blob;
      }
      OneChangeGrows(cs, path, m, n);
      k := if m == n && cs[n].tree[path].blob == cs[n - 1].tree[path].blob then n + 1 else m;
    }
  }

  // ---------------------------------------------------------------- what a new receipt says

  /** The receipt at this path decodes to a failing local run of the guard files and test nodes
      that the commit holds: each recorded file is there with the recorded blob, and each listed
      node, and no other, has the digest that the recorded file gives it. */
  ghost predicate RedIn(repo: Repo, c: Commit, path: string) {
    && path in c.tree && repo.content(c.tree[path].blob).Receipt?
    && var b := repo.content(c.tree[path].blob).body;
    && b.localExecuted && b.exitCode != 0
    && b.guardBlobs.Some?
    && (forall p :: p in b.guardBlobs.value ==> p in c.tree && c.tree[p].blob == b.guardBlobs.value[p])
    && (b.schema == 1 || (b.schema == 2 && b.nodes.Some? && b.digests.Present? && NodesRed(repo, b)))
  }

  ghost predicate NodesRed(repo: Repo, b: Body)
    requires b.guardBlobs.Some? && b.nodes.Some? && b.digests.Present?
  {
    && (forall n :: n in b.nodes.value <==> n in b.digests.value)
    && forall n :: n in b.digests.value ==>
         && FileOf(n) in b.guardBlobs.value
         && repo.nodeSha(b.guardBlobs.value[FileOf(n)], n) == Some(b.digests.value[n])
  }

  /** Why a receipt may be replaced: the guard files moved under it, the node digests it binds did,
      or it only gains node digests for what it already recorded. */
  ghost predicate Superseded(prior: Body, next: Body) {
    || (prior.guardBlobs.Some? && next.guardBlobs.Some? && prior.guardBlobs != next.guardBlobs && prior.schema == 1)
    || (prior.schema == 2 && next.schema == 2 && prior.digests != next.digests)
    || (prior.schema == 1 && prior.digests == Absent && next == prior.(schema := 2, digests := next.digests))
  }

  lemma MovedIsRed(repo: Repo, base: Commit, c: Commit, trusted: Binding, now: Binding)
    requires PairOk(repo, base, c, trusted, now)
    ensures var path := trusted.locator;
            now.digest != trusted.digest ==>
              && RedIn(repo, c, path) && repo.sha256(c.tree[path].blob) == now.digest
              && repo.content(base.tree[path].blob).Receipt?
              && Superseded(repo.content(base.tree[path].blob).body, repo.content(c.tree[path].blob).body)
  {
    hide FileOf;
    var path := trusted.locator;
    if now.digest != trusted.digest {
      var prior, next := BodyAt(repo, base, path).value, BodyAt(repo, c, path).value;
      assert DigestsOf(next).Bound? ==> next.schema == 2;
      if next.schema == 2 {
        forall n | n in next.digests.value
          ensures FileOf(n) in next.guardBlobs.value
          ensures repo.nodeSha(next.guardBlobs.value[FileOf(n)], n) == Some(next.digests.value[n])
        {
          assert RecordedSha(repo, next, n) == Some(next.digests.value[n]);
        }
      }
    }
  }

  /** Along any accepted chain a bound receipt's bytes change exactly when its registered digest
      does, and then the new bytes are a red receipt of the commit that brings them. */
  lemma ChangedIsRed(repo: Repo, cs: seq<Commit>, id: string, k: nat)
    requires Chain(repo, cs) && 0 < k < |cs| && id in cs[0].bindings.value
    requires cs[0].bindings.value[id].locator in cs[0].tree
    ensures id in cs[k - 1].bindings.value && id in cs[k].bindings.value
    ensures var path := cs[0].bindings.value[id].locator;
            var was, now := cs[k - 1].bindings.value[id].digest, cs[k].bindings.value[id].digest;
            && path in cs[k - 1].tree && path in cs[k].tree
            && (was == now <==> cs[k - 1].tree[path].blob == cs[k].tree[path].blob)
            && (was != now ==>
                  && RedIn(repo, cs[k], path) && repo.sha256(cs[k].tree[path].blob) == now
                  && repo.content(cs[k - 1].tree[path].blob).Receipt?
                  && Superseded(repo.content(cs[k - 1].tree[path].blob).body,
                                repo.content(cs[k].tree[path].blob).body))
  {
    Neighbours(repo, cs, id, k);
    MovedIsRed(repo, cs[k - 1], cs[k], cs[k - 1].bindings.value[id], cs[k].bindings.value[id]);
    hide RedIn, Superseded, MayMove, Honest, BodyAt;
  }

  function BlobIn(c: Commit, path: string): Option<Blob> {
    if path in c.tree then Some(c.tree[path].blob) else None
  }

  /** The receipt is there and has the same bytes from step m to step k. */
  ghost predicate Unmoved(cs: seq<Commit>, path: string, m: nat, k: nat) {
    m <= k < |cs| && BlobIn(cs[k], path).Some? && forall i :: m <= i <= k ==> BlobIn(cs[i], path) == BlobIn(cs[k], path)
  }

  /** So whatever receipt a later commit carries is the original one, or arrived at some step as a
      red receipt of that step and has kept its bytes since. */
  lemma {:induction false} ReceiptsArriveRed(repo: Repo, cs: seq<Commit>, id: string, k: nat) returns (m: nat)
    requires Chain(repo, cs) && k < |cs| && id in cs[0].bindings.value
    requires cs[0].bindings.value[id].locator in cs[0].tree
    ensures Unmoved(cs, cs[0].bindings.value[id].locator, m, k)
    ensures m > 0 ==> RedIn(repo, cs[m], cs[0].bindings.value[id].locator)
  {
    m := k;
    if k > 0 {
      var path := cs[0].bindings.value[id].locator;
      ChangedIsRed(repo, cs, id, k);
      if BlobIn(cs[k - 1], path) == BlobIn(cs[k], path) {
        m := ReceiptsArriveRed(repo, cs, id, k - 1);
        hide RedIn, BlobIn;
        assert forall i :: m <= i <= k ==> BlobIn(cs[i], path) == BlobIn(cs[k], path);
      } else {
        assert RedIn(repo, cs[k], path);
      }
    }
    hide RedIn, Chain;
  }
}
