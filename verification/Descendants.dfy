/** Two searches for the processes below a given one. Both are level-by-level searches over
    parent links; each is shown to compute reachability on every table, cyclic ones
    included, and to end. */
module Descendants {
  import opened Counting

  datatype Identity = Identity(pid: int, start: real)

  datatype Entry = Entry(id: Identity, parent: int)

  datatype Snapshot = Snapshot(entry: Entry, running: bool)

  const CEILING: nat := 128

  // ------------------------------------------------------------ reachability

  /** Parent links that lead from a process to the last entry of the path. */
  ghost predicate Path(table: set<Entry>, from: int, path: seq<Entry>) {
    && path != [] && path[0].parent == from
    && (forall i :: 0 <= i < |path| ==> path[i] in table)
    && forall i, j :: 0 <= i && j == i + 1 < |path| ==> path[j].parent == path[i].id.pid
  }

  ghost predicate PathTo(table: set<Entry>, from: int, path: seq<Entry>, e: Entry) {
    Path(table, from, path) && path[|path| - 1] == e
  }

  ghost predicate Descends(table: set<Entry>, from: int, e: Entry) {
    exists path :: PathTo(table, from, path, e)
  }

  lemma Child(table: set<Entry>, from: int, e: Entry)
    requires e in table && e.parent == from
    ensures Descends(table, from, e)
  {
    assert PathTo(table, from, [e], e);
  }

  lemma Grandchild(table: set<Entry>, from: int, e: Entry, child: Entry)
    requires Descends(table, from, e) && child in table && child.parent == e.id.pid
    ensures Descends(table, from, child)
  {
    var path :| PathTo(table, from, path, e);
    assert PathTo(table, from, path + [child], child);
  }

  /** A set of process numbers that holds every child of the start and of a member. */
  ghost predicate ClosedUnder(table: set<Entry>, from: int, pids: set<int>) {
    forall e :: e in table && (e.parent == from || e.parent in pids) ==> e.id.pid in pids
  }

  lemma {:induction false} ClosedHoldsPath(table: set<Entry>, from: int, pids: set<int>, path: seq<Entry>)
    requires Path(table, from, path) && ClosedUnder(table, from, pids)
    ensures path[|path| - 1].id.pid in pids
  {
    var n := |path| - 1;
    assert path[n] in table;
    if n > 0 {
      assert Path(table, from, path[..n]);
      ClosedHoldsPath(table, from, pids, path[..n]);
      assert path[n].parent == path[n - 1].id.pid;
    }
  }

  lemma ClosedHoldsDescendants(table: set<Entry>, from: int, pids: set<int>)
    requires ClosedUnder(table, from, pids)
    ensures forall e :: Descends(table, from, e) ==> e.id.pid in pids && e in table
  {
    forall e | Descends(table, from, e) ensures e.id.pid in pids && e in table {
      var path :| PathTo(table, from, path, e);
      ClosedHoldsPath(table, from, pids, path);
    }
  }

  // ------------------------------------------------------------ the soak harness's search

  /** The last running snapshot of a process number. */
  function Live(snapshots: seq<Snapshot>, pid: int): Option<Entry> {
    if snapshots == [] then None else
      var last := snapshots[|snapshots| - 1];
      if last.running && last.entry.id.pid == pid then Some(last.entry) else Live(snapshots[..|snapshots| - 1], pid)
  }

  /** The snapshot at this place is the last running one of its number. */
  ghost predicate LastRunning(snapshots: seq<Snapshot>, i: int) {
    0 <= i < |snapshots| && snapshots[i].running &&
    forall j :: i < j < |snapshots| && snapshots[j].running ==> snapshots[j].entry.id.pid != snapshots[i].entry.id.pid
  }

  lemma {:induction false} LiveMeans(snapshots: seq<Snapshot>, pid: int, e: Entry)
    ensures Live(snapshots, pid) == Some(e) <==>
            e.id.pid == pid && exists i :: LastRunning(snapshots, i) && snapshots[i].entry == e
  {
    if snapshots != [] {
      var n := |snapshots| - 1;
      var before, last := snapshots[..n], snapshots[n];
      LiveMeans(before, pid, e);
      assert forall j :: 0 <= j < n ==> before[j] == snapshots[j];
      if last.running && last.entry.id.pid == pid {
        assert LastRunning(snapshots, n);
      } else {
        if i :| LastRunning(before, i) && before[i].entry == e && e.id.pid == pid {
          assert LastRunning(snapshots, i);
        }
        if i :| LastRunning(snapshots, i) && snapshots[i].entry == e && e.id.pid == pid {
          assert LastRunning(before, i);
        }
      }
    }
  }

  method ByPid(snapshots: seq<Snapshot>) returns (byPid: map<int, Entry>)
    ensures forall pid :: pid in byPid <==> Live(snapshots, pid).Some?
    ensures forall pid :: pid in byPid ==> Some(byPid[pid]) == Live(snapshots, pid)
  {
    byPid := map[];
    for i := 0 to |snapshots|
      invariant forall pid :: (pid in byPid <==> Live(snapshots[..i], pid).Some?)
                              && (pid in byPid ==> Some(byPid[pid]) == Live(snapshots[..i], pid))
    {
      assert snapshots[..i + 1][..i] == snapshots[..i];
      if snapshots[i].running {
        byPid := byPid[snapshots[i].entry.id.pid := snapshots[i].entry];
      }
    }
    assert snapshots[..|snapshots|] == snapshots;
  }

  function Entries(byPid: map<int, Entry>): set<Entry> { set pid | pid in byPid :: byPid[pid] }

  ghost predicate IsTable(snapshots: seq<Snapshot>, table: set<Entry>) {
    forall e :: e in table <==> Live(snapshots, e.id.pid) == Some(e)
  }

  /** The running processes, one for each number. */
  function LiveTable(snapshots: seq<Snapshot>): set<Entry> {
    set s | s in snapshots && Live(snapshots, s.entry.id.pid) == Some(s.entry) :: s.entry
  }

  lemma {:induction false} LiveMember(snapshots: seq<Snapshot>, pid: int) returns (s: Snapshot)
    requires Live(snapshots, pid).Some?
    ensures s in snapshots && s.running && s.entry == Live(snapshots, pid).value && s.entry.id.pid == pid
  {
    s := snapshots[|snapshots| - 1];
    if !(s.running && s.entry.id.pid == pid) {
      s := LiveMember(snapshots[..|snapshots| - 1], pid);
    }
  }

  /** The table holds exactly the last running process of each number, so numbers are unique. */
  lemma LiveTableMeans(snapshots: seq<Snapshot>)
    ensures IsTable(snapshots, LiveTable(snapshots)) && UniquePids(LiveTable(snapshots))
  {
    forall e ensures e in LiveTable(snapshots) <==> Live(snapshots, e.id.pid) == Some(e) {
      if Live(snapshots, e.id.pid) == Some(e) {
        var s := LiveMember(snapshots, e.id.pid);
      }
    }
  }

  ghost predicate UniquePids(table: set<Entry>) {
    forall a, b :: a in table && b in table && a.id.pid == b.id.pid ==> a == b
  }

  function Pids(entries: set<Entry>): set<int> { set e | e in entries :: e.id.pid }

  /** What a search has found when the pids of the frontier are still to be expanded. */
  ghost predicate Explored(table: set<Entry>, root: Entry, owned: set<Entry>, frontier: set<int>) {
    && owned <= table && root in owned && frontier <= Pids(owned)
    && (forall e :: e in owned ==> e == root || Descends(table, root.id.pid, e))
    && forall e :: e in table && e.parent in Pids(owned) && e.parent !in frontier ==> e in owned
  }

  /** One level: every unowned child of the frontier. */
  ghost predicate Level(table: set<Entry>, owned: set<Entry>, frontier: set<int>, found: set<Entry>) {
    forall e :: e in found <==> e in table && e !in owned && e.parent in frontier
  }

  lemma Owner(owned: set<Entry>, pid: int) returns (e: Entry)
    requires pid in Pids(owned)
    ensures e in owned && e.id.pid == pid
  {
    e :| e in owned && e.id.pid == pid;
  }

  lemma LevelDescends(table: set<Entry>, root: Entry, owned: set<Entry>, frontier: set<int>, e: Entry)
    requires Explored(table, root, owned, frontier) && e in table && e.parent in frontier
    ensures Descends(table, root.id.pid, e)
  {
    var p := Owner(owned, e.parent);
    if p == root {
      Child(table, root.id.pid, e);
    } else {
      Grandchild(table, root.id.pid, p, e);
    }
  }

  lemma LevelKeepsExplored(table: set<Entry>, root: Entry, owned: set<Entry>, frontier: set<int>, found: set<Entry>)
    requires Explored(table, root, owned, frontier) && Level(table, owned, frontier, found)
    ensures Explored(table, root, owned + found, Pids(found))
  {
    forall e | e in owned + found ensures e == root || Descends(table, root.id.pid, e) {
      if e in found {
        LevelDescends(table, root, owned, frontier, e);
      }
    }
    forall e | e in table && e.parent in Pids(owned + found) && e.parent !in Pids(found) ensures e in owned + found {
      var p := Owner(owned + found, e.parent);
      assert p in owned;
    }
  }

  /** The set the first search promises. */
  ghost predicate Family(table: set<Entry>, root: Entry, owned: set<Entry>) {
    forall e :: e in owned <==> e in table && (e == root || Descends(table, root.id.pid, e))
  }

  lemma ExploredAll(table: set<Entry>, root: Entry, owned: set<Entry>)
    requires Explored(table, root, owned, {}) && UniquePids(table)
    ensures Family(table, root, owned)
  {
    assert ClosedUnder(table, root.id.pid, Pids(owned));
    ClosedHoldsDescendants(table, root.id.pid, Pids(owned));
    forall e | e in table && Descends(table, root.id.pid, e) ensures e in owned {
      var p := Owner(owned, e.id.pid);
    }
  }

  /** The inner loop of the first search, over the table in any order. */
  method Expand(table: set<Entry>, owned: set<Entry>, frontier: set<int>) returns (found: set<Entry>)
    ensures Level(table, owned, frontier, found)
  {
    found := {};
    var todo := table;
    while todo != {}
      invariant todo <= table
      invariant Level(table - todo, owned, frontier, found)
      decreases todo
    {
      var e :| e in todo;
      todo := todo - {e};
      if e !in owned && e.parent in frontier {
        found := found + {e};
      }
    }
    assert table - todo == table;
  }

  lemma InSize<T>(small: set<T>, large: set<T>, e: T)
    requires small <= large && e in large && e !in small
    ensures |small| < |large|
  {
    var rest := large - {e};
    assert small <= rest;
    SubsetSize(small, rest);
  }

  lemma {:induction false} SubsetSize<T>(small: set<T>, large: set<T>)
    requires small <= large
    ensures |small| <= |large|
    decreases small
  {
    if small != {} {
      var e :| e in small;
      SubsetSize(small - {e}, large - {e});
    }
  }

  /** The level loop of the first search. */
  method GrowFamily(table: set<Entry>, root: Entry) returns (owned: set<Entry>)
    requires root in table && UniquePids(table)
    ensures Family(table, root, owned)
  {
    owned := {root};
    var frontier := {root.id.pid};
    assert root.id.pid in Pids(owned);
    while frontier != {}
      invariant Explored(table, root, owned, frontier)
      decreases |table - owned|, frontier
    {
      var found := Expand(table, owned, frontier);
      LevelKeepsExplored(table, root, owned, frontier, found);
      if found != {} {
      } else {
        assert owned + found == owned;
      }
      owned := owned + found;
      frontier := Pids(found);
    }
    ExploredAll(table, root, owned);
  }

  /** Nothing unless the root is live with exactly that start; otherwise the root and
      everything below it. */
  method LiveFamily(snapshots: seq<Snapshot>, root: Identity) returns (owned: set<Entry>)
    ensures (forall e :: e in LiveTable(snapshots) ==> e.id != root) ==> owned == {}
    ensures forall e :: e in LiveTable(snapshots) && e.id == root ==> Family(LiveTable(snapshots), e, owned)
  {
    hide Family, LiveTable;
    var byPid := ByPid(snapshots);
    LivePid(snapshots);
    TableOf(snapshots, byPid);
    LiveTableMeans(snapshots);
    if root.pid !in byPid || byPid[root.pid].id != root {
      return {};
    }
    owned := GrowFamily(Entries(byPid), byPid[root.pid]);
    assert forall e :: e in LiveTable(snapshots) && e.id == root ==> e == byPid[root.pid];
  }

  lemma {:induction false} LivePidOf(snapshots: seq<Snapshot>, pid: int)
    ensures Live(snapshots, pid).Some? ==> Live(snapshots, pid).value.id.pid == pid
  {
    if snapshots != [] {
      LivePidOf(snapshots[..|snapshots| - 1], pid);
    }
  }

  lemma LivePid(snapshots: seq<Snapshot>)
    ensures forall pid :: Live(snapshots, pid).Some? ==> Live(snapshots, pid).value.id.pid == pid
  {
    forall pid ensures Live(snapshots, pid).Some? ==> Live(snapshots, pid).value.id.pid == pid {
      LivePidOf(snapshots, pid);
    }
  }

  lemma KeyOf(byPid: map<int, Entry>, e: Entry) returns (pid: int)
    requires e in Entries(byPid)
    ensures pid in byPid && byPid[pid] == e
  {
    pid :| pid in byPid && byPid[pid] == e;
  }

  lemma TableOf(snapshots: seq<Snapshot>, byPid: map<int, Entry>)
    requires forall pid :: pid in byPid ==> byPid[pid].id.pid == pid
    requires forall pid :: pid in byPid <==> Live(snapshots, pid).Some?
    requires forall pid :: pid in byPid ==> Some(byPid[pid]) == Live(snapshots, pid)
    ensures Entries(byPid) == LiveTable(snapshots)
    ensures forall e :: e in Entries(byPid) ==> e.id.pid in byPid && byPid[e.id.pid] == e
  {
    LiveTableMeans(snapshots);
    forall e ensures e in Entries(byPid) <==> Live(snapshots, e.id.pid) == Some(e) {
      if e in Entries(byPid) {
        var pid := KeyOf(byPid, e);
      }
      if Live(snapshots, e.id.pid) == Some(e) {
        assert byPid[e.id.pid] == e;
      }
    }
  }

  // ------------------------------------------------------------ the runner's search

  ghost predicate PidBelow(table: set<Entry>, leader: int, pid: int) {
    exists e :: e in table && e.id.pid == pid && Descends(table, leader, e)
  }

  ghost predicate IdBelow(table: set<Entry>, leader: int, id: Identity) {
    exists e :: e in table && e.id == id && Descends(table, leader, e)
  }

  ghost predicate Holds(owned: set<Identity>, pid: int) { exists id :: id in owned && id.pid == pid }

  /** Who is counted: one process per number below the leader that is not a service. */
  ghost predicate Counts(table: set<Entry>, leader: int, services: set<int>, owned: set<Identity>, seen: set<int>) {
    && (forall pid :: pid in seen ==> PidBelow(table, leader, pid))
    && (forall id :: id in owned ==> IdBelow(table, leader, id) && id.pid in seen && id.pid !in services)
    && (forall pid :: pid in seen && pid !in services ==> Holds(owned, pid))
    && |owned| == |seen - services|
  }

  /** All children of seen numbers are seen, except those of the frontier. */
  ghost predicate Swept(table: set<Entry>, leader: int, seen: set<int>, frontier: set<int>) {
    && frontier <= seen + {leader}
    && forall e :: e in table && (e.parent == leader || e.parent in seen) && e.parent !in frontier ==> e.id.pid in seen
  }

  lemma HoldsMore(owned: set<Identity>, id: Identity, pid: int)
    requires pid == id.pid || Holds(owned, pid)
    ensures Holds(owned + {id}, pid)
  {
    if pid == id.pid {
      assert id in owned + {id};
    } else {
      var other :| other in owned && other.pid == pid;
      assert other in owned + {id};
    }
  }

  lemma SizeMore(services: set<int>, owned: set<Identity>, seen: set<int>, id: Identity)
    requires |owned| == |seen - services| && id !in owned && id.pid !in seen && id.pid !in services
    ensures |owned + {id}| == |seen + {id.pid} - services|
  {
    assert seen + {id.pid} - services == seen - services + {id.pid};
  }

  lemma CountService(table: set<Entry>, leader: int, services: set<int>, owned: set<Identity>, seen: set<int>, e: Entry)
    requires Counts(table, leader, services, owned, seen)
    requires e in table && Descends(table, leader, e) && e.id.pid in services
    ensures Counts(table, leader, services, owned, seen + {e.id.pid})
  {
    hide Descends, Holds;
    assert seen + {e.id.pid} - services == seen - services;
  }

  lemma CountOneMore(table: set<Entry>, leader: int, services: set<int>, owned: set<Identity>, seen: set<int>, e: Entry)
    requires Counts(table, leader, services, owned, seen)
    requires e in table && Descends(table, leader, e) && e.id.pid !in seen && e.id.pid !in services
    ensures Counts(table, leader, services, owned + {e.id}, seen + {e.id.pid})
  {
    hide Descends, Holds;
    SizeMore(services, owned, seen, e.id);
    forall pid | pid in seen + {e.id.pid} && pid !in services ensures Holds(owned + {e.id}, pid) {
      HoldsMore(owned, e.id, pid);
    }
  }

  lemma NextBelow(table: set<Entry>, leader: int, pid: int, e: Entry)
    requires pid == leader || PidBelow(table, leader, pid)
    requires e in table && e.parent == pid
    ensures Descends(table, leader, e)
  {
    if pid == leader {
      Child(table, leader, e);
    } else {
      var p :| p in table && p.id.pid == pid && Descends(table, leader, p);
      Grandchild(table, leader, p, e);
    }
  }

  lemma CountsSays(table: set<Entry>, leader: int, services: set<int>, owned: set<Identity>, seen: set<int>,
                   id: Identity, pid: int)
    requires Counts(table, leader, services, owned, seen)
    ensures (id in owned ==> id.pid in seen) && (pid in seen ==> PidBelow(table, leader, pid))
  {
  }

  function EntrySet(observed: seq<Entry>): set<Entry> { set e | e in observed }

  datatype Sweep = Sweep(owned: set<Identity>, seen: set<int>, next: set<int>)

  /** One pass over the observed processes. */
  method SweepLevel(observed: seq<Entry>, services: set<int>, ghost leader: int, owned: set<Identity>, seen: set<int>,
                    frontier: set<int>) returns (r: Sweep)
    requires Counts(EntrySet(observed), leader, services, owned, seen)
    requires frontier <= seen + {leader}
    ensures Counts(EntrySet(observed), leader, services, r.owned, r.seen)
    ensures r.next !! seen && r.seen == seen + r.next
    ensures forall e :: e in observed && e.parent in frontier ==> e.id.pid in r.seen
  {
    hide Counts, PidBelow, Descends;
    r := Sweep(owned, seen, {});
    for i := 0 to |observed|
      invariant Counts(EntrySet(observed), leader, services, r.owned, r.seen)
      invariant r.next !! seen && r.seen == seen + r.next
      invariant forall k :: 0 <= k < i && observed[k].parent in frontier ==> observed[k].id.pid in r.seen
    {
      var e := observed[i];
      CountsSays(EntrySet(observed), leader, services, r.owned, r.seen, e.id, e.parent);
      if e.id in r.owned || e.id.pid in r.seen || e.parent !in frontier {
        continue;
      }
      NextBelow(EntrySet(observed), leader, e.parent, e);
      if e.id.pid in services {
        CountService(EntrySet(observed), leader, services, r.owned, r.seen, e);
        r := Sweep(r.owned, r.seen + {e.id.pid}, r.next + {e.id.pid});
      } else {
        CountOneMore(EntrySet(observed), leader, services, r.owned, r.seen, e);
        r := Sweep(r.owned + {e.id}, r.seen + {e.id.pid}, r.next + {e.id.pid});
      }
    }
  }

  /** The numbers below the leader that are not services. */
  ghost function Countable(table: set<Entry>, leader: int, services: set<int>): set<int> {
    set e | e in table && Descends(table, leader, e) && e.id.pid !in services :: e.id.pid
  }

  /** One process for each countable number. */
  ghost predicate Roster(table: set<Entry>, leader: int, services: set<int>, owned: set<Identity>) {
    && (forall id :: id in owned ==> IdBelow(table, leader, id) && id.pid in Countable(table, leader, services))
    && (forall pid :: pid in Countable(table, leader, services) ==> Holds(owned, pid))
    && |owned| == |Countable(table, leader, services)|
  }

  lemma SeenCountable(table: set<Entry>, leader: int, services: set<int>, owned: set<Identity>, seen: set<int>)
    requires Counts(table, leader, services, owned, seen)
    ensures seen - services <= Countable(table, leader, services)
  {
    forall pid | pid in seen - services ensures pid in Countable(table, leader, services) {
      var e :| e in table && e.id.pid == pid && Descends(table, leader, e);
    }
  }

  lemma SweptAll(table: set<Entry>, leader: int, services: set<int>, owned: set<Identity>, seen: set<int>)
    requires Counts(table, leader, services, owned, seen) && Swept(table, leader, seen, {})
    ensures Roster(table, leader, services, owned)
  {
    assert ClosedUnder(table, leader, seen);
    ClosedHoldsDescendants(table, leader, seen);
    SeenCountable(table, leader, services, owned, seen);
    assert seen - services == Countable(table, leader, services);
  }

  lemma NewSeen(all: set<int>, seen: set<int>, next: set<int>)
    requires next !! seen && next != {} && seen + next <= all
    ensures |all - (seen + next)| < |all - seen|
  {
    assert all - (seen + next) <= all - seen;
    Smaller(all - (seen + next), all - seen, next);
  }

  lemma Smaller<T>(small: set<T>, large: set<T>, gone: set<T>)
    requires small <= large && gone <= large && gone !! small && gone != {}
    ensures |small| < |large|
  {
    var e :| e in gone;
    InSize(small, large, e);
  }

  lemma SeenObserved(table: set<Entry>, leader: int, services: set<int>, owned: set<Identity>, seen: set<int>)
    requires Counts(table, leader, services, owned, seen)
    ensures seen <= Pids(table)
  {
    forall pid | pid in seen ensures pid in Pids(table) {
      var e :| e in table && e.id.pid == pid && Descends(table, leader, e);
    }
  }

  /** The roster of everything below the leader, service processes traversed but not counted;
      refused exactly above the ceiling. */
  method FindDescendants(observed: seq<Entry>, services: set<int>, leader: int) returns (result: Option<set<Identity>>)
    ensures result.None? <==> |Countable(EntrySet(observed), leader, services)| > 128
    ensures result.Some? ==> Roster(EntrySet(observed), leader, services, result.value)
  {
    ghost var table := EntrySet(observed);
    var owned, seen, frontier := {}, {}, {leader};
    while frontier != {}
      invariant Counts(table, leader, services, owned, seen) && Swept(table, leader, seen, frontier)
      invariant |owned| <= CEILING
      decreases |Pids(table) - seen|, frontier
    {
      var r := SweepLevel(observed, services, leader, owned, seen, frontier);
      SeenObserved(table, leader, services, r.owned, r.seen);
      if |r.owned| > CEILING {
        SeenCountable(table, leader, services, r.owned, r.seen);
        SubsetSize(r.seen - services, Countable(table, leader, services));
        return None;
      }
      if r.next != {} {
        NewSeen(Pids(table), seen, r.next);
      }
      owned, seen, frontier := r.owned, r.seen, r.next;
    }
    SweptAll(table, leader, services, owned, seen);
    return Some(owned);
  }

  // ------------------------------------------------------------ observing first

  /** How observing one listed process ends: it is gone, which is skipped; its identity cannot
      be established or has changed, which refuses the scan; or it is known. */
  datatype Candidate = Gone | Unproven | Known(entry: Entry)

  function KnownOf(candidates: seq<Candidate>): seq<Entry> {
    if candidates == [] then [] else
      KnownOf(candidates[..|candidates| - 1]) +
      (if candidates[|candidates| - 1].Known? then [candidates[|candidates| - 1].entry] else [])
  }

  /** Exactly the entries of the known candidates. */
  lemma {:induction false} KnownMeans(candidates: seq<Candidate>)
    ensures forall e :: e in EntrySet(KnownOf(candidates)) <==> Known(e) in candidates
  {
    if candidates != [] {
      var n := |candidates| - 1;
      KnownMeans(candidates[..n]);
      assert candidates == candidates[..n] + [candidates[n]];
    }
  }

  method ObserveAll(candidates: seq<Candidate>) returns (observed: Option<seq<Entry>>)
    ensures observed == if Unproven in candidates then None else Some(KnownOf(candidates))
  {
    var known := [];
    for i := 0 to |candidates|
      invariant known == KnownOf(candidates[..i]) && Unproven !in candidates[..i]
    {
      assert candidates[..i + 1][..i] == candidates[..i];
      match candidates[i]
      case Gone =>
      case Unproven => return None;
      case Known(entry) => known := known + [entry];
    }
    assert candidates[..|candidates|] == candidates;
    return Some(known);
  }

  /** The whole scan, with every observation able to fail. */
  method ScanDescendants(before: Option<Identity>, listed: Option<seq<Candidate>>, after: Option<Identity>,
                         services: set<int>, leader: Identity) returns (result: Option<set<Identity>>)
    ensures result.Some? <==>
              && before == Some(leader) && after == Some(leader)
              && listed.Some? && Unproven !in listed.value
              && |Countable(EntrySet(KnownOf(listed.value)), leader.pid, services)| <= 128
    ensures result.Some? ==> Roster(EntrySet(KnownOf(listed.value)), leader.pid, services, result.value)
  {
    if before != Some(leader) || listed.None? {
      return None;
    }
    var observed := ObserveAll(listed.value);
    if observed.None? {
      return None;
    }
    result := FindDescendants(observed.value, services, leader.pid);
    if after != Some(leader) {
      return None;
    }
  }

  // ------------------------------------------------------------ the two searches together

  /** Every link leads upwards in some ranking: no process is its own ancestor. */
  ghost predicate Acyclic(table: set<Entry>, rank: int -> int) {
    forall e :: e in table ==> rank(e.parent) < rank(e.id.pid)
  }

  lemma {:induction false} RankRises(table: set<Entry>, rank: int -> int, from: int, path: seq<Entry>)
    requires Acyclic(table, rank) && Path(table, from, path)
    ensures rank(from) < rank(path[|path| - 1].id.pid)
  {
    var n := |path| - 1;
    assert path[n] in table;
    if n > 0 {
      assert Path(table, from, path[..n]);
      RankRises(table, rank, from, path[..n]);
      assert path[n].parent == path[n - 1].id.pid;
    }
  }

  /** On an acyclic table nothing with the leader's number is below the leader. */
  lemma LeaderExcluded(table: set<Entry>, rank: int -> int, leader: int, services: set<int>)
    requires Acyclic(table, rank)
    ensures leader !in Countable(table, leader, services)
  {
    forall e | e in table && Descends(table, leader, e) ensures e.id.pid != leader {
      var path :| PathTo(table, leader, path, e);
      RankRises(table, rank, leader, path);
    }
  }

  lemma RosterIdentities(table: set<Entry>, leader: int, services: set<int>, owned: set<Identity>,
                         e: Entry)
    requires UniquePids(table) && Roster(table, leader, services, owned) && e in table
    ensures e.id in owned <==> Descends(table, leader, e) && e.id.pid !in services
  {
    if Descends(table, leader, e) && e.id.pid !in services {
      assert e.id.pid in Countable(table, leader, services);
      var id :| id in owned && id.pid == e.id.pid;
      var other :| other in table && other.id == id && Descends(table, leader, other);
    }
  }

  /** Without services, on an acyclic table of unique numbers, the first search finds what
      the second finds and the root. */
  lemma SearchesAgree(table: set<Entry>, rank: int -> int, root: Entry, family: set<Entry>,
                      owned: set<Identity>)
    requires UniquePids(table) && Acyclic(table, rank) && root in table
    requires Family(table, root, family) && Roster(table, root.id.pid, {}, owned)
    ensures root.id !in owned
    ensures forall e :: e in table ==> (e in family <==> e == root || e.id in owned)
    ensures forall id :: id in owned ==> exists e :: e in family && e.id == id
  {
    LeaderExcluded(table, rank, root.id.pid, {});
    forall e | e in table ensures e.id in owned <==> Descends(table, root.id.pid, e) {
      RosterIdentities(table, root.id.pid, {}, owned, e);
    }
    forall id | id in owned ensures exists e :: e in family && e.id == id {
      var e :| e in table && e.id == id && Descends(table, root.id.pid, e);
      assert e in family;
    }
  }
}
