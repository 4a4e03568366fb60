/** Path resolution below the export root, one component at a time, as an operating system does it.
    The recursive resolver, with its bound on nested links, finds exactly what that walk finds: the
    bound only stops walks that would never end. */
module Resolution {
  import opened Counting
  import opened ManifestFrame
  import opened ManifestTree
  import opened Export
  import opened ExportRuns

  // ------------------------------------------------------------ the walk

  /** Where a walk is, and the components it still has to go. */
  datatype Spot = Spot(at: seq<string>, rest: seq<string>)

  /** The place that a link's target is taken from: the top, or the directory of the link. */
  function From(at: seq<string>, target: string): seq<string> {
    if target != "" && target[0] == '/' then [] else at
  }

  /** One component: nothing, one directory up, one down, or the components of a link's target. */
  function Move(root: seq<string>, leaves: Leaves, s: Spot): Spot
    requires s.rest != []
  {
    var name, rest := s.rest[0], s.rest[1..];
    if name == "" || name == "." then Spot(s.at, rest)
    else if name == ".." then Spot(if s.at == [] then [] else s.at[..|s.at| - 1], rest)
    else match LinkAt(root, leaves, s.at + [name])
      case None => Spot(s.at + [name], rest)
      case Some(target) => Spot(From(s.at, target), Split(target, SLASH) + rest)
  }

  /** The walk ends there after exactly n components. */
  ghost predicate Ends(root: seq<string>, leaves: Leaves, s: Spot, n: nat, end: seq<string>)
    decreases n
  {
    if s.rest == [] then n == 0 && end == s.at else n > 0 && Ends(root, leaves, Move(root, leaves, s), n - 1, end)
  }

  lemma {:induction false} OneEnd(root: seq<string>, leaves: Leaves, s: Spot, n: nat, end: seq<string>, m: nat,
                                  other: seq<string>)
    requires Ends(root, leaves, s, n, end) && Ends(root, leaves, s, m, other)
    ensures n == m && end == other
    decreases n
  {
    if s.rest != [] {
      OneEnd(root, leaves, Move(root, leaves, s), n - 1, end, m - 1, other);
    }
  }

  /** A move looks at the first component only. */
  lemma MoveAhead(root: seq<string>, leaves: Leaves, s: Spot, more: seq<string>)
    requires s.rest != []
    ensures var t := Move(root, leaves, s);
            Move(root, leaves, Spot(s.at, s.rest + more)) == Spot(t.at, t.rest + more)
  {
    hide LinkAt, Split;
    assert (s.rest + more)[1..] == s.rest[1..] + more;
  }

  lemma {:induction false} EndsJoin(root: seq<string>, leaves: Leaves, s: Spot, n: nat, mid: seq<string>,
                                    more: seq<string>, m: nat, end: seq<string>)
    requires Ends(root, leaves, s, n, mid) && Ends(root, leaves, Spot(mid, more), m, end)
    ensures Ends(root, leaves, Spot(s.at, s.rest + more), n + m, end)
    decreases n
  {
    if s.rest == [] {
      assert s.rest + more == more;
    } else {
      MoveAhead(root, leaves, s, more);
      EndsJoin(root, leaves, Move(root, leaves, s), n - 1, mid, more, m, end);
    }
    hide Move;
  }

  lemma {:induction false} EndsSplit(root: seq<string>, leaves: Leaves, s: Spot, more: seq<string>, n: nat,
                                     end: seq<string>) returns (m: nat, mid: seq<string>)
    requires Ends(root, leaves, Spot(s.at, s.rest + more), n, end)
    ensures m <= n && Ends(root, leaves, s, m, mid) && Ends(root, leaves, Spot(mid, more), n - m, end)
    decreases n
  {
    hide Move;
    if s.rest == [] {
      assert s.rest + more == more;
      m, mid := 0, s.at;
    } else {
      MoveAhead(root, leaves, s, more);
      var t := Move(root, leaves, s);
      m, mid := EndsSplit(root, leaves, t, more, n - 1, end);
      m := m + 1;
    }
  }

  // ------------------------------------------------------------ what the resolver finds is there

  predicate Ordinary(name: string) { name != "" && name != "." && name != ".." }

  /** Moving onto a link goes on with the components of its target. */
  lemma MoveInto(root: seq<string>, leaves: Leaves, at: seq<string>, name: string, tail: seq<string>, target: string)
    requires Ordinary(name) && LinkAt(root, leaves, at + [name]) == Some(target)
    ensures Move(root, leaves, Spot(at, [name] + tail)) == Spot(From(at, target), Split(target, SLASH) + tail)
  {
    hide LinkAt, Split;
    assert ([name] + tail)[1..] == tail;
  }

  /** And so does the resolver, one level deeper. */
  lemma WalkThrough(root: seq<string>, leaves: Leaves, at: seq<string>, name: string, tail: seq<string>, depth: nat,
                    target: string)
    requires Ordinary(name) && LinkAt(root, leaves, at + [name]) == Some(target)
    ensures Walk(root, leaves, at, [name] + tail, depth) ==
            if depth == 0 then None
            else match Walk(root, leaves, From(at, target), Split(target, SLASH), depth - 1)
                 case None => None
                 case Some(mid) => Walk(root, leaves, mid, tail, depth)
  {
    hide LinkAt, Split;
    assert ([name] + tail)[1..] == tail;
  }

  /** One component that is no link. */
  lemma WalkPast(root: seq<string>, leaves: Leaves, at: seq<string>, rest: seq<string>, depth: nat) returns (t: Spot)
    requires rest != [] && (Ordinary(rest[0]) ==> LinkAt(root, leaves, at + [rest[0]]).None?)
    ensures t == Move(root, leaves, Spot(at, rest)) && t.rest == rest[1..]
    ensures Walk(root, leaves, at, rest, depth) == Walk(root, leaves, t.at, t.rest, depth)
  {
    hide LinkAt, Split;
    t := Move(root, leaves, Spot(at, rest));
  }

  lemma {:induction false} WalkEnds(root: seq<string>, leaves: Leaves, at: seq<string>, rest: seq<string>, depth: nat)
    returns (n: nat)
    requires Walk(root, leaves, at, rest, depth).Some?
    ensures Ends(root, leaves, Spot(at, rest), n, Walk(root, leaves, at, rest, depth).value)
    decreases depth, |rest|, 1
  {
    n := 0;
    if rest != [] {
      var name, tail := rest[0], rest[1..];
      assert rest == [name] + tail;
      if Ordinary(name) && LinkAt(root, leaves, at + [name]).Some? {
        n := LinkEnds(root, leaves, at, name, tail, depth);
      } else {
        var t := WalkPast(root, leaves, at, rest, depth);
        n := WalkEnds(root, leaves, t.at, t.rest, depth);
        hide Walk, Move, LinkAt;
        n := n + 1;
      }
    }
  }

  lemma {:induction false} LinkEnds(root: seq<string>, leaves: Leaves, at: seq<string>, name: string,
                                    tail: seq<string>, depth: nat) returns (n: nat)
    requires Ordinary(name) && LinkAt(root, leaves, at + [name]).Some?
    requires Walk(root, leaves, at, [name] + tail, depth).Some?
    ensures Ends(root, leaves, Spot(at, [name] + tail), n, Walk(root, leaves, at, [name] + tail, depth).value)
    decreases depth, |tail| + 1, 0
  {
    var target := LinkAt(root, leaves, at + [name]).value;
    var start, parts := From(at, target), Split(target, SLASH);
    WalkThrough(root, leaves, at, name, tail, depth, target);
    MoveInto(root, leaves, at, name, tail, target);
    hide Walk, Move, LinkAt, Split;
    var mid := Walk(root, leaves, start, parts, depth - 1).value;
    var k := WalkEnds(root, leaves, start, parts, depth - 1);
    var m := WalkEnds(root, leaves, mid, tail, depth);
    EndsJoin(root, leaves, Spot(start, parts), k, mid, tail, m, Walk(root, leaves, mid, tail, depth).value);
    n := k + m + 1;
  }

  // ------------------------------------------------------------ and nothing that is there is missed

  predicate NoSlash(parts: seq<string>) { forall i :: 0 <= i < |parts| ==> Free(parts[i], SLASH) }

  lemma {:induction false} SplitNoSlash(s: string)
    ensures NoSlash(Split(s, SLASH))
    decreases |s|
  {
    var at := Find(s, SLASH);
    if at.Some? {
      SplitNoSlash(s[at.value + 1..]);
    }
  }

  lemma {:induction false} SplitJoin(parts: seq<string>)
    requires NoSlash(parts) && parts != []
    ensures Split(Join(parts), SLASH) == parts
  {
    hide Split, Find;
    if |parts| == 1 {
      SplitOne(parts[0]);
    } else {
      var rest := parts[1..];
      SplitJoin(rest);
      SplitFirst(parts[0], SLASH, Join(rest));
      assert parts == [parts[0]] + rest;
    }
  }

  /** The key under which the leaf of a path below the root is stored. */
  function Key(root: seq<string>, q: seq<string>): string
    requires root <= q
  {
    Join(q[|root|..])
  }

  lemma KeysDiffer(root: seq<string>, q: seq<string>, r: seq<string>)
    requires root < q && root < r && NoSlash(q) && NoSlash(r) && Key(root, q) == Key(root, r)
    ensures q == r
  {
    var x, y := q[|root|..], r[|root|..];
    assert q == root + x && r == root + y;
    assert forall i :: 0 <= i < |x| ==> x[i] == q[|root| + i];
    assert forall i :: 0 <= i < |y| ==> y[i] == r[|root| + i];
    SplitJoin(x);
    SplitJoin(y);
  }

  /** Links whose targets are being resolved: each takes at least n components to its end. */
  ghost predicate Pending(root: seq<string>, leaves: Leaves, open: set<seq<string>>, n: nat) {
    forall q :: q in open ==> root < q && NoSlash(q) && LinkAt(root, leaves, q).Some? && Slow(root, leaves, q, n)
  }

  /** The target of this link is walked to its end in at least n components. */
  ghost predicate Slow(root: seq<string>, leaves: Leaves, q: seq<string>, n: nat)
    requires root < q && LinkAt(root, leaves, q).Some?
  {
    exists m: nat, end :: m >= n && Ends(root, leaves, Into(root, leaves, q), m, end)
  }

  /** The walk through the target of a link. */
  function Into(root: seq<string>, leaves: Leaves, q: seq<string>): Spot
    requires root < q && LinkAt(root, leaves, q).Some?
  {
    var target := LinkAt(root, leaves, q).value;
    Spot(From(q[..|q| - 1], target), Split(target, SLASH))
  }

  /** Different links below the root have different leaves. */
  lemma {:induction false} FewPending(root: seq<string>, leaves: Leaves, open: set<seq<string>>)
    requires forall q :: q in open ==> root < q && NoSlash(q) && LinkAt(root, leaves, q).Some?
    ensures |open| <= |leaves|
  {
    var keys := set q | q in open :: Key(root, q);
    hide Join, NoSlash;
    assert keys <= leaves.Keys;
    SubsetSize(keys, leaves.Keys);
    forall q, r | q in open && r in open && Key(root, q) == Key(root, r) ensures q == r {
      KeysDiffer(root, q, r);
    }
    ImageSize(root, open);
  }

  lemma {:induction false} ImageSize(root: seq<string>, open: set<seq<string>>)
    requires forall q :: q in open ==> root <= q
    requires forall q, r :: q in open && r in open && Key(root, q) == Key(root, r) ==> q == r
    ensures |set q | q in open :: Key(root, q)| == |open|
  {
    hide Key;
    var keys := set q | q in open :: Key(root, q);
    if open == {} {
      assert keys == {};
    } else {
      var q :| q in open;
      ImageSize(root, open - {q});
      var fewer := set r | r in open - {q} :: Key(root, r);
      assert keys == fewer + {Key(root, q)};
      assert Key(root, q) !in fewer;
    }
  }

  lemma {:induction false} SubsetSize(a: set<string>, b: set<string>)
    requires a <= b
    ensures |a| <= |b|
  {
    assert b == a + (b - a);
  }

  lemma PendingLess(root: seq<string>, leaves: Leaves, open: set<seq<string>>, n: nat, m: nat)
    requires Pending(root, leaves, open, n) && m <= n
    ensures Pending(root, leaves, open, m)
  {
    forall q | q in open ensures Slow(root, leaves, q, m) {
      var k: nat, end :| k >= n && Ends(root, leaves, Into(root, leaves, q), k, end);
      assert k >= m && Ends(root, leaves, Into(root, leaves, q), k, end);
    }
  }

  /** A link met on the way is not one of those being resolved: its own walk is shorter. */
  lemma NotPending(root: seq<string>, leaves: Leaves, open: set<seq<string>>, n: nat, q: seq<string>, m: nat,
                   mid: seq<string>)
    requires Pending(root, leaves, open, n) && root < q && LinkAt(root, leaves, q).Some?
    requires Ends(root, leaves, Into(root, leaves, q), m, mid) && m < n
    ensures q !in open
  {
    if q in open {
      var k: nat, end :| k >= n && Ends(root, leaves, Into(root, leaves, q), k, end);
      OneEnd(root, leaves, Into(root, leaves, q), m, mid, k, end);
    }
  }

  lemma MovesApart(root: seq<string>, leaves: Leaves, at: seq<string>, name: string)
    requires NoSlash(at) && Free(name, SLASH) && LinkAt(root, leaves, at + [name]).Some?
    ensures root < at + [name] && NoSlash(at + [name])
    ensures (at + [name])[..|at + [name]| - 1] == at
  {
  }

  /** A walk that ends is found by the resolver, as long as the bound leaves room for every link that
      is not being resolved already. */
  lemma {:induction false} EndsWalk(root: seq<string>, leaves: Leaves, at: seq<string>, rest: seq<string>, n: nat,
                                    end: seq<string>, open: set<seq<string>>, depth: nat)
    requires Ends(root, leaves, Spot(at, rest), n, end) && NoSlash(at) && NoSlash(rest)
    requires Pending(root, leaves, open, n) && depth + |open| >= |leaves|
    ensures Walk(root, leaves, at, rest, depth) == Some(end)
    ensures NoSlash(end)
    decreases n
  {
    if rest != [] {
      var name, tail := rest[0], rest[1..];
      assert rest == [name] + tail;
      assert Free(name, SLASH) && NoSlash(tail) && NoSlash(at + [name]) && NoSlash(Parent(at));
      if Ordinary(name) && LinkAt(root, leaves, at + [name]).Some? {
        LinkWalk(root, leaves, at, name, tail, n, end, open, depth);
      } else {
        PendingLess(root, leaves, open, n, n - 1);
        hide Pending, NoSlash, Free, Split;
        var t := WalkPast(root, leaves, at, rest, depth);
        assert NoSlash(t.at);
        hide Walk, Move, LinkAt;
        EndsWalk(root, leaves, t.at, t.rest, n - 1, end, open, depth);
      }
    }
  }

  lemma {:induction false} LinkWalk(root: seq<string>, leaves: Leaves, at: seq<string>, name: string,
                                    tail: seq<string>, n: nat, end: seq<string>, open: set<seq<string>>, depth: nat)
    requires n > 0 && Ordinary(name) && LinkAt(root, leaves, at + [name]).Some?
    requires Ends(root, leaves, Move(root, leaves, Spot(at, [name] + tail)), n - 1, end)
    requires NoSlash(at) && Free(name, SLASH) && NoSlash(tail)
    requires Pending(root, leaves, open, n) && depth + |open| >= |leaves|
    ensures Walk(root, leaves, at, [name] + tail, depth) == Some(end)
    ensures NoSlash(end)
    decreases n, 0
  {
    hide *;
    var q := at + [name];
    var s := LinkFacts(root, leaves, at, name, tail, depth);
    var m, mid := EndsSplit(root, leaves, s, tail, n - 1, end);
    NotPending(root, leaves, open, n, q, m, mid);
    PendingMore(root, leaves, open, n, q, m, mid);
    PendingLess(root, leaves, open, n, n - 1 - m);
    PendingKnown(root, leaves, open + {q}, m);
    FewPending(root, leaves, open + {q});
    EndsWalk(root, leaves, s.at, s.rest, m, mid, open + {q}, depth - 1);
    EndsWalk(root, leaves, mid, tail, n - 1 - m, end, open, depth);
  }

  /** The walk through a link, in the words of the walk and of the resolver. */
  lemma LinkFacts(root: seq<string>, leaves: Leaves, at: seq<string>, name: string, tail: seq<string>, depth: nat)
    returns (s: Spot)
    requires Ordinary(name) && LinkAt(root, leaves, at + [name]).Some?
    requires NoSlash(at) && Free(name, SLASH)
    ensures root < at + [name] && NoSlash(at + [name]) && s == Into(root, leaves, at + [name])
    ensures NoSlash(s.at) && NoSlash(s.rest)
    ensures Move(root, leaves, Spot(at, [name] + tail)) == Spot(s.at, s.rest + tail)
    ensures depth > 0 && Walk(root, leaves, s.at, s.rest, depth - 1).Some? ==>
              Walk(root, leaves, at, [name] + tail, depth) ==
              Walk(root, leaves, Walk(root, leaves, s.at, s.rest, depth - 1).value, tail, depth)
  {
    var target := LinkAt(root, leaves, at + [name]).value;
    MovesApart(root, leaves, at, name);
    MoveInto(root, leaves, at, name, tail, target);
    WalkThrough(root, leaves, at, name, tail, depth, target);
    SplitNoSlash(target);
    hide Split, LinkAt, Walk, Move;
    s := Into(root, leaves, at + [name]);
    assert s == Spot(From(at, target), Split(target, SLASH));
  }

  lemma PendingKnown(root: seq<string>, leaves: Leaves, open: set<seq<string>>, n: nat)
    requires Pending(root, leaves, open, n)
    ensures forall q :: q in open ==> root < q && NoSlash(q) && LinkAt(root, leaves, q).Some?
  {
  }

  lemma PendingMore(root: seq<string>, leaves: Leaves, open: set<seq<string>>, n: nat, q: seq<string>, m: nat,
                    mid: seq<string>)
    requires Pending(root, leaves, open, n) && m < n && root < q && NoSlash(q) && LinkAt(root, leaves, q).Some?
    requires Ends(root, leaves, Into(root, leaves, q), m, mid)
    ensures Pending(root, leaves, open + {q}, m)
  {
    PendingLess(root, leaves, open, n, m);
    assert Slow(root, leaves, q, m);
    hide Slow;
  }

  /** The walk from the root along these components ends there. */
  ghost predicate Arrives(root: seq<string>, leaves: Leaves, rest: seq<string>, end: seq<string>) {
    exists n: nat :: Ends(root, leaves, Spot(root, rest), n, end)
  }

  lemma NothingPending(root: seq<string>, leaves: Leaves, n: nat)
    ensures Pending(root, leaves, {}, n)
  {
  }

  /** Below a root of ordinary components the resolver finds an end exactly when the walk has one. */
  lemma ResolvesExactly(root: seq<string>, leaves: Leaves, rest: seq<string>, end: seq<string>)
    requires NoSlash(root) && NoSlash(rest)
    ensures Walk(root, leaves, root, rest, |leaves|) == Some(end) <==> Arrives(root, leaves, rest, end)
  {
    hide Walk, Ends, NoSlash, Pending;
    if Walk(root, leaves, root, rest, |leaves|) == Some(end) {
      var n := WalkEnds(root, leaves, root, rest, |leaves|);
    }
    if n: nat :| Ends(root, leaves, Spot(root, rest), n, end) {
      NothingPending(root, leaves, n);
      EndsWalk(root, leaves, root, rest, n, end, {}, |leaves|);
    }
  }

  /** The walk from the root ends below the root. */
  ghost predicate StaysInside(root: seq<string>, leaves: Leaves, rest: seq<string>) {
    exists end :: Arrives(root, leaves, rest, end) && root <= end
  }

  lemma InsideMeans(root: seq<string>, leaves: Leaves, rest: seq<string>)
    requires NoSlash(root) && NoSlash(rest)
    ensures InsideAfter(root, leaves, rest) <==> StaysInside(root, leaves, rest)
  {
    hide Walk, NoSlash, Arrives;
    if InsideAfter(root, leaves, rest) {
      ResolvesExactly(root, leaves, rest, Walk(root, leaves, root, rest, |leaves|).value);
    }
    if end :| Arrives(root, leaves, rest, end) && root <= end {
      ResolvesExactly(root, leaves, rest, end);
    }
  }
}
