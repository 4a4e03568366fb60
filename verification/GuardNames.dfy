/** What the text helpers of the guard-receipt protocol say about the texts themselves: stripping
    and splitting, the action of a warning filter, and which node belongs to which guard. */
module GuardNames {
  import opened GuardText

  // ------------------------------------------------------------ blanks and actions

  predicate Blank(s: string) { forall i :: 0 <= i < |s| ==> IsSpace(s[i]) }

  /** The word between blanks. */
  ghost predicate Padded(s: string, l: string, word: string, r: string) { Blank(l) && Blank(r) && s == l + word + r }

  /** The filter's action is error: that word, perhaps between blanks, up to the first colon. */
  ghost predicate ErrorAction(filter: string) {
    exists l, r, action, rest :: Padded(action, l, "error", r) && Splits(filter, action, rest)
  }

  ghost predicate Splits(filter: string, action: string, rest: string) {
    filter == action + rest && (rest == [] || rest[0] == ':')
  }

  lemma {:induction false} StripLeftSkips(l: string, s: string)
    requires Blank(l)
    ensures StripLeft(l + s) == StripLeft(s)
  {
    if l == [] {
      assert l + s == s;
    } else {
      assert (l + s)[1..] == l[1..] + s;
      StripLeftSkips(l[1..], s);
    }
  }

  lemma {:induction false} StripRightSkips(s: string, r: string)
    requires Blank(r)
    ensures StripRight(s + r) == StripRight(s)
  {
    if r == [] {
      assert s + r == s;
    } else {
      var n := |r| - 1;
      assert (s + r)[..|s + r| - 1] == s + r[..n] && (s + r)[|s + r| - 1] == r[n];
      StripRightSkips(s, r[..n]);
    }
  }

  lemma {:induction false} StripLeftCuts(s: string) returns (l: string)
    ensures Blank(l) && s == l + StripLeft(s)
  {
    if s != [] && IsSpace(s[0]) {
      l := StripLeftCuts(s[1..]);
      l := [s[0]] + l;
      assert s == [s[0]] + s[1..];
    } else {
      l := [];
    }
  }

  lemma {:induction false} StripRightCuts(s: string) returns (r: string)
    ensures Blank(r) && s == StripRight(s) + r
  {
    if s != [] && IsSpace(s[|s| - 1]) {
      var n := |s| - 1;
      r := StripRightCuts(s[..n]);
      r := r + [s[n]];
      assert s == s[..n] + [s[n]];
    } else {
      r := [];
    }
  }

  /** Stripping leaves a word that neither starts nor ends blank exactly from its padded forms. */
  lemma StripMeans(s: string, word: string)
    requires word != [] && !IsSpace(word[0]) && !IsSpace(word[|word| - 1])
    ensures Strip(s) == word <==> exists l, r :: Padded(s, l, word, r)
  {
    if Strip(s) == word {
      var l := StripLeftCuts(s);
      var r := StripRightCuts(StripLeft(s));
      assert Padded(s, l, word, r);
    }
    if l, r :| Padded(s, l, word, r) {
      assert s == l + (word + r);
      StripLeftSkips(l, word + r);
      assert StripLeft(word + r) == word + r;
      StripRightSkips(word, r);
    }
  }

  lemma {:induction false} StripEmpty(s: string)
    ensures Strip(s) == "" <==> Blank(s)
  {
    var l := StripLeftCuts(s);
    var t := StripLeft(s);
    var r := StripRightCuts(t);
    if Strip(s) == "" {
      assert s == l + r;
    }
    if Blank(s) {
      StripLeftSkips(s, "");
      assert s + "" == s;
    }
  }

  lemma {:induction false} BeforeMeans(s: string, c: char)
    ensures c !in Before(s, c) && Before(s, c) <= s
    ensures s == Before(s, c) || s[|Before(s, c)|] == c
  {
    if s != [] && s[0] != c {
      BeforeMeans(s[1..], c);
      assert s == [s[0]] + s[1..];
    }
  }

  lemma {:induction false} BeforeFirst(a: string, c: char, rest: string)
    requires c !in a && (rest == [] || rest[0] == c)
    ensures Before(a + rest, c) == a
  {
    if a == [] {
      assert a + rest == rest;
    } else {
      assert (a + rest)[1..] == a[1..] + rest;
      BeforeFirst(a[1..], c, rest);
    }
  }

  lemma BlankNoColon(s: string)
    requires Blank(s)
    ensures ':' !in s
  {
  }

  lemma PaddedFirst(filter: string, l: string, r: string, action: string, rest: string)
    requires Padded(action, l, "error", r) && Splits(filter, action, rest)
    ensures action == Before(filter, ':')
  {
    BlankNoColon(l);
    BlankNoColon(r);
    BeforeFirst(action, ':', rest);
  }

  lemma BeforeSplits(filter: string)
    ensures |Before(filter, ':')| <= |filter|
    ensures Splits(filter, Before(filter, ':'), filter[|Before(filter, ':')|..])
  {
    BeforeMeans(filter, ':');
    Cut(filter, Before(filter, ':'));
  }

  lemma Cut(filter: string, action: string)
    requires action <= filter && (filter == action || filter[|action|] == ':')
    ensures Splits(filter, action, filter[|action|..])
  {
    assert filter == action + filter[|action|..];
  }

  lemma ErrorFilterMeans(filter: string)
    ensures ErrorFilter(filter) <==> ErrorAction(filter)
  {
    var before := Before(filter, ':');
    BeforeMeans(filter, ':');
    StripMeans(before, "error");
    BeforeSplits(filter);
    hide Strip, Before, Padded, Splits;
    if ErrorFilter(filter) {
      var l, r :| Padded(before, l, "error", r);
      assert Splits(filter, before, filter[|before|..]);
    }
    if l, r, action, rest :| Padded(action, l, "error", r) && Splits(filter, action, rest) {
      PaddedFirst(filter, l, r, action, rest);
      assert Padded(before, l, "error", r);
    }
  }

  // ------------------------------------------------------------ names

  ghost predicate HasSeparator(s: string) { exists i :: 0 <= i < |s| - 1 && s[i] == ':' && s[i + 1] == ':' }

  lemma {:induction false} SeparatorMeans(s: string)
    ensures Contains(s, "::") <==> HasSeparator(s)
  {
    if s != [] {
      SeparatorMeans(s[1..]);
      if HasSeparator(s[1..]) {
        var i :| 0 <= i < |s[1..]| - 1 && s[1..][i] == ':' && s[1..][i + 1] == ':';
        assert s[i + 1] == ':' && s[i + 1 + 1] == ':';
      }
      if HasSeparator(s) {
        var i :| 0 <= i < |s| - 1 && s[i] == ':' && s[i + 1] == ':';
        if i > 0 {
          assert s[1..][i - 1] == ':' && s[1..][i - 1 + 1] == ':';
        } else {
          assert "::" <= s;
        }
      }
      if "::" <= s {
        assert s[0] == ':' && s[0 + 1] == ':';
      }
    }
  }

  /** The node is the guard, a parameter set of it, or something in the file it names. */
  ghost predicate NamesOrSplits(guard: string, nodeid: string) {
    nodeid == guard || guard + "[" <= nodeid || (!HasSeparator(guard) && guard + "::" <= nodeid)
  }

  lemma {:induction false} LastSegmentMeans(s: string) returns (head: string)
    requires HasSeparator(s)
    ensures s == head + "::" + LastSegment(s) && !HasSeparator(":" + LastSegment(s))
  {
    SeparatorMeans(s);
    SeparatorMeans(s[1..]);
    if HasSeparator(s[1..]) {
      head := LastSegmentMeans(s[1..]);
      head := [s[0]] + head;
    } else {
      head := "";
      assert s[..2] == "::" && s == "::" + s[2..];
      assert ":" + s[2..] == s[1..];
    }
  }

  lemma Separated(head: string, tail: string)
    ensures HasSeparator(head + "::" + tail)
  {
    var s := head + "::" + tail;
    assert s[|head|] == ':' && s[|head| + 1] == ':';
  }

  lemma LastSegmentUnique(a: string, b: string, c: string, d: string)
    requires a + "::" + b == c + "::" + d && !HasSeparator(":" + b) && !HasSeparator(":" + d)
    ensures b == d
  {
    if |a| < |c| {
      NotLater(a, b, c, d);
    } else if |c| < |a| {
      NotLater(c, d, a, b);
    } else {
      assert (a + "::" + b)[|a| + 2..] == b && (c + "::" + d)[|a| + 2..] == d;
    }
  }

  lemma NotLater(a: string, b: string, c: string, d: string)
    requires a + "::" + b == c + "::" + d && |a| < |c|
    ensures HasSeparator(":" + b)
  {
    var s, t := a + "::" + b, ":" + b;
    assert s[|a| + 1..] == t && s == c + "::" + d;
    var i := |c| - |a| - 1;
    assert t[i] == s[|c|] == ':' && t[i + 1] == s[|c| + 1] == ':';
  }

  /** A node belongs to a guard that is its name; to a file guard whose items it is one of; or to a
      guard whose last part has no bracket, as one of its parameter sets. */
  lemma MatchesMeans(guard: string, nodeid: string)
    ensures Matches(guard, nodeid) <==>
            || nodeid == guard
            || (!HasSeparator(guard) && guard + "::" <= nodeid)
            || (guard + "[" <= nodeid &&
                exists head, tail :: guard == head + "::" + tail && !HasSeparator(":" + tail) && '[' !in tail)
  {
    SeparatorMeans(guard);
    if HasSeparator(guard) {
      var head := LastSegmentMeans(guard);
      BracketMeans(LastSegment(guard));
      forall other, tail | guard == other + "::" + tail && !HasSeparator(":" + tail)
        ensures tail == LastSegment(guard)
      {
        LastSegmentUnique(head, LastSegment(guard), other, tail);
      }
    } else {
      forall head, tail ensures HasSeparator(head + "::" + tail) {
        Separated(head, tail);
      }
    }
    hide HasSeparator, LastSegment, Contains;
  }

  lemma {:induction false} BracketMeans(s: string)
    ensures Contains(s, "[") <==> '[' in s
  {
    if s != [] {
      BracketMeans(s[1..]);
      assert "[" <= s <==> s[0] == '[';
    }
  }
}
