/** Finite counting facts used by the acceptance theorems: unique matches,
    one-to-one relations between finite sets, and the pigeonhole step that turns
    "every left item has one partner, no partner is shared, and the two sides are
    equally long" into a pairing in both directions. */
module Counting {

  datatype Option<+T> = None | Some(value: T)

  function Members<T(!new)>(s: seq<T>): (m: set<T>)
    ensures forall t :: t in m <==> t in s
  {
    set t | t in s
  }

  /** The number of elements of s that satisfy p. */
  function Count<T>(s: seq<T>, p: T -> bool): nat {
    if s == [] then 0 else (if p(s[0]) then 1 else 0) + Count(s[1..], p)
  }

  /** Exactly one index of s satisfies p. */
  ghost predicate UniqueIndex<T>(s: seq<T>, p: T -> bool) {
    exists i :: 0 <= i < |s| && p(s[i]) && forall k :: 0 <= k < |s| && p(s[k]) ==> k == i
  }

  lemma {:induction false} CountZero<T>(s: seq<T>, p: T -> bool)
    ensures Count(s, p) == 0 <==> forall i :: 0 <= i < |s| ==> !p(s[i])
  {
    if s != [] {
      CountZero(s[1..], p);
      assert forall i :: 1 <= i < |s| ==> s[i] == s[1..][i - 1];
      assert forall i :: 0 <= i < |s| - 1 ==> s[1..][i] == s[i + 1];
    }
  }

  lemma {:induction false} CountOne<T>(s: seq<T>, p: T -> bool)
    ensures Count(s, p) == 1 <==> UniqueIndex(s, p)
  {
    if s != [] {
      var t := s[1..];
      CountOne(t, p);
      CountZero(t, p);
      assert forall i :: 1 <= i < |s| ==> s[i] == t[i - 1];
      if p(s[0]) {
        if Count(s, p) == 1 {
          assert forall k :: 0 <= k < |s| && p(s[k]) ==> k == 0;
        }
        if UniqueIndex(s, p) {
          forall i | 0 <= i < |t| ensures !p(t[i]) { assert t[i] == s[i + 1]; }
        }
      } else {
        if UniqueIndex(t, p) {
          var i :| 0 <= i < |t| && p(t[i]) && forall k :: 0 <= k < |t| && p(t[k]) ==> k == i;
          assert p(s[i + 1]) && forall k :: 0 <= k < |s| && p(s[k]) ==> k == i + 1;
        }
        if UniqueIndex(s, p) {
          var i :| 0 <= i < |s| && p(s[i]) && forall k :: 0 <= k < |s| && p(s[k]) ==> k == i;
          assert p(t[i - 1]);
          forall k | 0 <= k < |t| && p(t[k]) ensures k == i - 1 { assert t[k] == s[k + 1]; }
        }
      }
    }
  }

  /** b is the one partner of a in right. */
  ghost predicate Partner<A(!new), B(!new)>(right: set<B>, r: (A, B) -> bool, a: A, b: B) {
    b in right && r(a, b) && forall c :: c in right && r(a, c) ==> c == b
  }

  /** a is the one partner of b in left. */
  ghost predicate Copartner<A(!new), B(!new)>(left: set<A>, r: (A, B) -> bool, a: A, b: B) {
    a in left && r(a, b) && forall c :: c in left && r(c, b) ==> c == a
  }

  /** Every element of left has exactly one partner in right. */
  ghost predicate Functional<A(!new), B(!new)>(left: set<A>, right: set<B>, r: (A, B) -> bool) {
    forall a :: a in left ==> exists b :: Partner(right, r, a, b)
  }

  /** Every element of right has exactly one partner in left. */
  ghost predicate Cofunctional<A(!new), B(!new)>(left: set<A>, right: set<B>, r: (A, B) -> bool) {
    forall b :: b in right ==> exists a :: Copartner(left, r, a, b)
  }

  /** Both directions at once. */
  ghost predicate OneToOne<A(!new), B(!new)>(left: set<A>, right: set<B>, r: (A, B) -> bool) {
    Functional(left, right, r) && Cofunctional(left, right, r)
  }

  /** No element of right is the partner of two elements of left. */
  ghost predicate NeverShared<A(!new), B(!new)>(left: set<A>, right: set<B>, r: (A, B) -> bool) {
    forall a, c, b :: a in left && c in left && b in right && r(a, b) && r(c, b) ==> a == c
  }

  lemma DropPair<A(!new), B(!new)>(left: set<A>, right: set<B>, r: (A, B) -> bool, a: A, b: B)
    requires Functional(left, right, r) && NeverShared(left, right, r)
    requires a in left && Partner(right, r, a, b)
    ensures Functional(left - {a}, right - {b}, r) && NeverShared(left - {a}, right - {b}, r)
  {
    forall x | x in left - {a} ensures exists y :: Partner(right - {b}, r, x, y) {
      var y :| Partner(right, r, x, y);
      assert Partner(right - {b}, r, x, y);
    }
  }

  /** A functional relation that never shares a partner is no larger on the left. */
  lemma {:induction false} InjectionSize<A(!new), B(!new)>(left: set<A>, right: set<B>, r: (A, B) -> bool)
    requires Functional(left, right, r) && NeverShared(left, right, r)
    ensures |left| <= |right|
    decreases left
  {
    if left != {} {
      var a :| a in left;
      var b :| Partner(right, r, a, b);
      DropPair(left, right, r, a, b);
      InjectionSize(left - {a}, right - {b}, r);
    }
  }

  /** A relation that is one-to-one in both directions equates the two sizes. */
  lemma OneToOneSizes<A(!new), B(!new)>(left: set<A>, right: set<B>, r: (A, B) -> bool)
    requires OneToOne(left, right, r)
    ensures |left| == |right|
  {
    InjectionSize(left, right, r);
    var q := (b, a) => r(a, b);
    forall b | b in right ensures exists a :: Partner(left, q, b, a) {
      var a :| Copartner(left, r, a, b);
      assert Partner(left, q, b, a);
    }
    forall b, d, a | b in right && d in right && a in left && q(b, a) && q(d, a) ensures b == d {
      var e :| Partner(right, r, a, e);
    }
    InjectionSize(right, left, q);
  }

  /** Pigeonhole: a functional relation that never shares a partner, between sets
      of equal size, reaches every element on the right. */
  lemma {:induction false} Pigeonhole<A(!new), B(!new)>(left: set<A>, right: set<B>, r: (A, B) -> bool)
    requires Functional(left, right, r) && NeverShared(left, right, r) && |left| == |right|
    ensures OneToOne(left, right, r)
    decreases left
  {
    if left != {} {
      var a :| a in left;
      var b :| Partner(right, r, a, b);
      DropPair(left, right, r, a, b);
      Pigeonhole(left - {a}, right - {b}, r);
      forall y | y in right ensures exists x :: Copartner(left, r, x, y) {
        if y == b {
          assert Copartner(left, r, a, y);
        } else {
          assert y in right - {b};
          var x :| Copartner(left - {a}, r, x, y);
          assert Copartner(left, r, x, y);
        }
      }
    }
  }

  /** A one-to-one relation stays one-to-one between parts that correspond. */
  lemma Restriction<A(!new), B(!new)>(left: set<A>, right: set<B>, r: (A, B) -> bool, some: set<A>, part: set<B>)
    requires OneToOne(left, right, r) && some <= left && part <= right
    requires forall a, b :: a in left && b in right && r(a, b) ==> (a in some <==> b in part)
    ensures OneToOne(some, part, r)
  {
    forall a | a in some ensures exists b :: Partner(part, r, a, b) {
      var b :| Partner(right, r, a, b);
      assert Partner(part, r, a, b);
    }
    forall b | b in part ensures exists a :: Copartner(some, r, a, b) {
      var a :| Copartner(left, r, a, b);
      assert Copartner(some, r, a, b);
    }
  }

  /** The indices below n. */
  function Below(n: nat): (r: set<int>)
    ensures |r| == n
    ensures forall i :: i in r <==> 0 <= i < n
  {
    if n == 0 then {} else Below(n - 1) + {n - 1}
  }
}
