/** Stable sorting by a real key, and what sorting preserves. */
module Ordering {
  import opened Counting

  function Insert<T>(x: T, s: seq<T>, key: T -> real): seq<T> {
    if s == [] || key(x) <= key(s[0]) then [x] + s else [s[0]] + Insert(x, s[1..], key)
  }

  /** A stable sort by key. */
  function Sort<T>(s: seq<T>, key: T -> real): seq<T> {
    if s == [] then [] else Insert(s[0], Sort(s[1..], key), key)
  }

  ghost predicate Sorted<T>(s: seq<T>, key: T -> real) {
    forall i, j :: 0 <= i < j < |s| ==> key(s[i]) <= key(s[j])
  }

  lemma {:induction false} InsertMembers<T>(x: T, s: seq<T>, key: T -> real)
    ensures forall y :: y in Insert(x, s, key) <==> y == x || y in s
  {
    if s != [] && key(x) > key(s[0]) {
      InsertMembers(x, s[1..], key);
    }
  }

  lemma {:induction false} InsertAbove<T>(x: T, s: seq<T>, key: T -> real, low: real)
    requires low <= key(x) && forall i :: 0 <= i < |s| ==> low <= key(s[i])
    ensures forall i :: 0 <= i < |Insert(x, s, key)| ==> low <= key(Insert(x, s, key)[i])
  {
    if s != [] && key(x) > key(s[0]) {
      InsertAbove(x, s[1..], key, low);
    }
  }

  lemma {:induction false} InsertSorted<T>(x: T, s: seq<T>, key: T -> real)
    requires Sorted(s, key)
    ensures Sorted(Insert(x, s, key), key)
  {
    if s == [] || key(x) <= key(s[0]) {
      assert forall j :: 0 <= j < |s| ==> key(x) <= key(s[j]);
    } else {
      InsertSorted(x, s[1..], key);
      InsertAbove(x, s[1..], key, key(s[0]));
    }
  }

  lemma {:induction false} SortSorts<T>(s: seq<T>, key: T -> real)
    ensures Sorted(Sort(s, key), key)
    ensures forall y :: y in Sort(s, key) <==> y in s
  {
    if s != [] {
      SortSorts(s[1..], key);
      InsertSorted(s[0], Sort(s[1..], key), key);
      InsertMembers(s[0], Sort(s[1..], key), key);
    }
  }

  /** Sorting changes nothing exactly when the input was already in order. */
  lemma {:induction false} SortFixes<T>(s: seq<T>, key: T -> real)
    ensures Sort(s, key) == s <==> Sorted(s, key)
  {
    SortSorts(s, key);
    if s != [] && Sorted(s, key) {
      assert Sorted(s[1..], key);
      SortFixes(s[1..], key);
      assert s == [s[0]] + s[1..];
    }
  }

  lemma {:induction false} InsertCount<T>(x: T, s: seq<T>, key: T -> real, p: T -> bool)
    ensures Count(Insert(x, s, key), p) == Count(s, p) + if p(x) then 1 else 0
    ensures |Insert(x, s, key)| == |s| + 1
  {
    if s == [] || key(x) <= key(s[0]) {
      assert ([x] + s)[1..] == s;
    } else {
      InsertCount(x, s[1..], key, p);
      assert ([s[0]] + Insert(x, s[1..], key))[1..] == Insert(x, s[1..], key);
    }
  }

  /** Sorting keeps how many elements satisfy any property. */
  lemma {:induction false} SortCount<T>(s: seq<T>, key: T -> real, p: T -> bool)
    ensures Count(Sort(s, key), p) == Count(s, p) && |Sort(s, key)| == |s|
  {
    if s != [] {
      SortCount(s[1..], key, p);
      InsertCount(s[0], Sort(s[1..], key), key, p);
    }
  }

  lemma {:induction false} CountAppend<T>(s: seq<T>, x: T, p: T -> bool)
    ensures Count(s + [x], p) == Count(s, p) + if p(x) then 1 else 0
  {
    if s != [] {
      assert (s + [x])[1..] == s[1..] + [x];
      CountAppend(s[1..], x, p);
    }
  }
}
