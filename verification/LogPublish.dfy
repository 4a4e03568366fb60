/** The published logs: valid UTF-8, within the ceiling, and as much of the end of the text as
    fits. */
module LogPublish {
  import opened Counting
  import opened LogDrain
  import opened LogTail
  import opened Utf8

  const MARKER_WORDS: string := "[launcher log truncated; bounded tail follows]\n"

  /** The code points of an ASCII string. */
  function CodePoints(words: string): (text: seq<Scalar>)
    ensures |text| == |words| && forall i :: 0 <= i < |text| ==> text[i] == words[i] as int % 0x80
  {
    seq(|words|, i requires 0 <= i < |words| => words[i] as int % 0x80)
  }

  function Marker(): seq<Scalar> { CodePoints(MARKER_WORDS) }

  const TAIL_ROOM: nat := MAX_LOG_BYTES - |MARKER_WORDS|

  /** encoded[-n:], where a count of zero keeps everything and a negative one drops bytes. */
  function EndSlice(encoded: seq<Byte>, n: int): seq<Byte> {
    if n > 0 then Last(encoded, n) else if n == 0 then encoded else encoded[Least(-n, |encoded|)..]
  }

  function Least(a: nat, b: nat): nat { if a <= b then a else b }

  lemma LongestWhole(text: seq<Scalar>, room: nat, j: nat)
    requires |EncodeAll(text)| <= room && LongestFrom(text, |EncodeAll(text)|, j)
    ensures LongestFrom(text, room, j)
  {
    if j > 0 {
      SuffixShorter(text, j - 1);
    }
  }

  lemma {:induction false} SuffixShorter(text: seq<Scalar>, j: nat)
    requires j <= |text|
    ensures |EncodeAll(text[j..])| <= |EncodeAll(text)|
  {
    if j == 0 {
      assert text[0..] == text;
    } else {
      SuffixShorter(text[1..], j - 1);
      assert text[1..][j - 1..] == text[j..];
    }
  }

  /** These bytes encode the longest end of the text that fits into the room. */
  ghost predicate LongestEnd(text: seq<Scalar>, room: int, bytes: seq<Byte>) {
    exists j: nat :: LongestFrom(text, room, j) && bytes == EncodeAll(text[j..])
  }

  /** The end of an encoding, cut to a room and stripped, is the longest suffix that fits. */
  lemma CutIsSuffix(text: seq<Scalar>, room: int)
    requires room > 0
    ensures LongestEnd(text, room, StripContinuations(EndSlice(EncodeAll(text), room)))
  {
    hide LongestFrom, Encode, StripContinuations;
    var encoded := EncodeAll(text);
    var j: nat;
    if |encoded| <= room {
      assert encoded[0..] == encoded;
      j := StripRepairs(text, 0);
      LongestWhole(text, room, j);
    } else {
      j := StripRepairs(text, |encoded| - room);
    }
  }

  /** The repaired end of an encoding that was cut to the room left beside the notices. */
  method RepairedTail(text: seq<Scalar>, room: int) returns (tail: seq<Byte>)
    requires room > 0
    ensures LongestEnd(text, room, tail)
  {
    hide LongestEnd, EncodeAll, EndSlice;
    CutIsSuffix(text, room);
    tail := EndSlice(EncodeAll(text), room);
    while tail != [] && 0x80 <= tail[0] < 0xC0
      invariant LongestEnd(text, room, StripContinuations(tail))
    {
      tail := tail[1..];
    }
  }

  /** Such an end fits, and decoding it leniently and encoding it again changes nothing. */
  lemma EndFits(text: seq<Scalar>, room: int, tail: seq<Byte>)
    requires LongestEnd(text, room, tail)
    ensures |tail| <= room && EncodeAll(DecodeIgnoring(tail)) == tail
  {
    var j: nat :| LongestFrom(text, room, j) && tail == EncodeAll(text[j..]);
    RoundTrip(text[j..]);
  }

  /** What is published of a truncated text: the encoding of a lead and of its longest end that
      fits into the room. */
  ghost predicate LeadAndEnd(lead: seq<Scalar>, text: seq<Scalar>, room: int, payload: seq<Byte>) {
    exists j: nat :: LongestFrom(text, room, j) && payload == EncodeAll(lead + text[j..])
  }

  lemma LeadThenEnd(lead: seq<Scalar>, text: seq<Scalar>, room: int, tail: seq<Byte>)
    requires LongestEnd(text, room, tail)
    ensures LeadAndEnd(lead, text, room, EncodeAll(lead) + tail)
  {
    var j: nat :| LongestFrom(text, room, j) && tail == EncodeAll(text[j..]);
    EncodeConcat(lead, text[j..]);
  }

  /** text is the decoded and redacted retained output, rawSize its size before, total the size of the
      whole stream. Truncated or not, what is published is the encoding of a text. */
  method PublishLauncherLog(text: seq<Scalar>, rawSize: nat, total: nat, allowTruncated: bool)
    returns (payload: Option<seq<Byte>>)
    ensures payload.None? <==>
              total < rawSize || (!allowTruncated && (total > 8 * 1024 * 1024 || |EncodeAll(text)| > 8 * 1024 * 1024))
    ensures payload.Some? ==> |payload.value| <= 8 * 1024 * 1024
    ensures payload.Some? ==>
              if total <= 8 * 1024 * 1024 && |EncodeAll(text)| <= 8 * 1024 * 1024 then payload.value == EncodeAll(text)
              else LeadAndEnd(Marker(), text, 8 * 1024 * 1024 - |MARKER_WORDS|, payload.value)
  {
    if total < rawSize {
      return None;
    }
    var encoded := EncodeAll(text);
    var truncated := total > MAX_LOG_BYTES || |encoded| > MAX_LOG_BYTES;
    if truncated && !allowTruncated {
      return None;
    }
    if !truncated {
      return Some(encoded);
    }
    var tail := RepairedTail(text, TAIL_ROOM);
    AsciiLength(Marker());
    EndFits(text, TAIL_ROOM, tail);
    LeadThenEnd(Marker(), text, TAIL_ROOM, tail);
    return Some(EncodeAll(Marker()) + EncodeAll(DecodeIgnoring(tail)));
  }

  // ------------------------------------------------------------ the logs of the child processes

  /** How many characters each refusal notice has. */
  function NoticeLength(refusal: Refusal): nat {
    match refusal
    case SymbolicLink => 221
    case NotRegular => 256
    case HardLinked => 194
    case ReplacedOrUnreadable => 224
    case OpenedButUnreadable => 217
    case SpansBoundary => 294
  }

  ghost predicate Worded(words: Refusal -> string) { forall r :: |words(r)| == NoticeLength(r) }

  function Notice(words: Refusal -> string, refusals: seq<Refusal>): seq<Scalar> {
    if refusals == [] then [] else CodePoints(words(refusals[0])) + Notice(words, refusals[1..])
  }

  ghost predicate Distinct(refusals: seq<Refusal>) {
    forall i, j :: 0 <= i < j < |refusals| ==> refusals[i] != refusals[j]
  }

  /** One file of the assistant's log, oldest first. */
  datatype Leaf = Absent | Present(measured: Option<Inode>, found: Opened)

  /** The file was not changed between its opening and its reading. */
  predicate Unchanged(leaf: Leaf) { leaf.Present? && leaf.found.Handle? ==> |leaf.found.content| == leaf.found.size }

  /** What was read of each file, oldest first: nothing of an absent one. */
  type Tails = seq<Option<Tail>>

  function RawOf(t: Option<Tail>): seq<Byte> { if t.Some? && t.value.Tail? then t.value.raw else [] }

  function SizeOf(t: Option<Tail>): nat { if t.Some? && t.value.Tail? then t.value.size else 0 }

  /** All bytes that were read, in the order of the files. */
  function Kept(tails: Tails): seq<Byte> { if tails == [] then [] else RawOf(tails[0]) + Kept(tails[1..]) }

  function SourceSize(tails: Tails): nat { if tails == [] then 0 else SizeOf(tails[0]) + SourceSize(tails[1..]) }

  /** Each file was read within the room that the newer ones left. */
  ghost predicate Walked(leaves: seq<Leaf>, tails: Tails) {
    |tails| == |leaves| && forall i :: 0 <= i < |leaves| ==> LeafWalked(leaves[i], tails[i], tails[i + 1..])
  }

  ghost predicate LeafWalked(leaf: Leaf, t: Option<Tail>, newer: Tails) {
    match leaf
    case Absent => t == None
    case Present(measured, found) => t.Some? && LeafRead(measured, found, MAX_LOG_BYTES - |Kept(newer)|, t.value)
  }

  ghost predicate Told(tails: Tails, refusals: seq<Refusal>) {
    forall r :: r in refusals <==> exists i :: 0 <= i < |tails| && tails[i] == Some(Refused(r))
  }

  /** One file more at the old end of the walk. */
  lemma WalkedGrows(leaves: seq<Leaf>, i: nat, tails: Tails, t: Option<Tail>)
    requires i < |leaves| && Walked(leaves[i + 1..], tails) && LeafWalked(leaves[i], t, tails)
    ensures Walked(leaves[i..], [t] + tails)
  {
    hide LeafWalked;
    var more, rest := [t] + tails, leaves[i..];
    forall k | 0 <= k < |rest| ensures LeafWalked(rest[k], more[k], more[k + 1..]) {
      if k == 0 {
        assert more[1..] == tails;
      } else {
        assert rest[k] == leaves[i + 1..][k - 1] && more[k + 1..] == tails[k..];
        assert LeafWalked(leaves[i + 1..][k - 1], tails[k - 1], tails[k..]);
      }
    }
  }

  lemma ToldGrows(tails: Tails, refusals: seq<Refusal>, t: Option<Tail>)
    requires Told(tails, refusals)
    ensures Told([t] + tails, if t.Some? && t.value.Refused? && t.value.refusal !in refusals
                              then refusals + [t.value.refusal] else refusals)
  {
    var more := [t] + tails;
    assert more[0] == t && forall k :: 0 <= k < |tails| ==> more[k + 1] == tails[k];
    forall r ensures (exists i :: 0 <= i < |more| && more[i] == Some(Refused(r))) <==>
                     t == Some(Refused(r)) || exists i :: 0 <= i < |tails| && tails[i] == Some(Refused(r))
    {
      if i :| 0 <= i < |more| && more[i] == Some(Refused(r)) {
        assert i > 0 ==> tails[i - 1] == Some(Refused(r));
      }
      if i :| 0 <= i < |tails| && tails[i] == Some(Refused(r)) {
        assert more[i + 1] == Some(Refused(r));
      }
    }
  }

  /** The walk from the newest file to the oldest: each is read within what the newer ones left of the
      ceiling, what is kept is joined in the order of the files, and every refusal is listed, once. */
  method CollectLogs(leaves: seq<Leaf>)
    returns (pieces: seq<seq<Byte>>, sourceBytes: nat, refusals: seq<Refusal>, ghost tails: Tails)
    ensures Walked(leaves, tails) && Concat(pieces) == Kept(tails) && sourceBytes == SourceSize(tails)
    ensures |Concat(pieces)| <= MAX_LOG_BYTES && Distinct(refusals) && Told(tails, refusals)
  {
    hide LeafRead, Told;
    pieces, sourceBytes, refusals, tails := [], 0, [], [];
    var retained := 0;
    assert Told(tails, refusals) by { NothingTold(); }
    for i := |leaves| downto 0
      invariant Walked(leaves[i..], tails) && Concat(pieces) == Kept(tails) && sourceBytes == SourceSize(tails)
      invariant retained == |Concat(pieces)| <= MAX_LOG_BYTES && Distinct(refusals) && Told(tails, refusals)
    {
      ghost var t: Option<Tail> := None;
      ghost var newer := tails;
      ToldGrows(tails, refusals, None);
      if leaves[i].Present? {
        var tail := ReadLeaf(leaves[i].measured, leaves[i].found, MAX_LOG_BYTES - retained);
        t := Some(tail);
        ToldGrows(tails, refusals, t);
        WithinRoom(leaves[i], MAX_LOG_BYTES - retained, tail);
        if tail.Refused? {
          if tail.refusal !in refusals {
            refusals := refusals + [tail.refusal];
          }
        } else {
          sourceBytes := sourceBytes + tail.size;
          if tail.raw != [] {
            assert Concat([tail.raw] + pieces) == tail.raw + Concat(pieces);
            pieces := [tail.raw] + pieces;
            retained := retained + |tail.raw|;
          }
        }
      }
      WalkedGrows(leaves, i, tails, t);
      tails := [t] + tails;
      assert tails[1..] == newer;
    }
    assert leaves[0..] == leaves;
  }

  lemma NothingTold()
    ensures Told([], [])
  {
  }

  lemma WithinRoom(leaf: Leaf, room: int, tail: Tail)
    requires leaf.Present? && LeafRead(leaf.measured, leaf.found, room, tail)
    ensures tail.Tail? && tail.raw != [] ==> |tail.raw| <= room
  {
  }

  /** While the files read stay as they are, nothing is kept twice, and everything is kept if it fits. */
  lemma {:induction false} AllKept(leaves: seq<Leaf>, tails: Tails)
    requires Walked(leaves, tails) && forall i :: 0 <= i < |leaves| ==> Unchanged(leaves[i])
    ensures |Kept(tails)| <= SourceSize(tails) && |Kept(tails)| <= MAX_LOG_BYTES
    ensures SourceSize(tails) <= MAX_LOG_BYTES ==> |Kept(tails)| == SourceSize(tails)
  {
    if tails != [] {
      var rest := tails[1..];
      WalkedRest(leaves, tails);
      assert forall i :: 0 <= i < |leaves| - 1 ==> leaves[1..][i] == leaves[i + 1];
      AllKept(leaves[1..], rest);
      FirstKept(leaves[0], tails[0], rest);
      hide Walked, LeafWalked, RawOf, SizeOf;
    }
  }

  /** The oldest file takes no more than its size and the room, and all of itself if it fits. */
  lemma FirstKept(leaf: Leaf, t: Option<Tail>, newer: Tails)
    requires LeafWalked(leaf, t, newer) && Unchanged(leaf) && |Kept(newer)| <= MAX_LOG_BYTES
    ensures |RawOf(t)| <= SizeOf(t) && |RawOf(t)| + |Kept(newer)| <= MAX_LOG_BYTES
    ensures SizeOf(t) + |Kept(newer)| <= MAX_LOG_BYTES ==> |RawOf(t)| == SizeOf(t)
  {
    hide LeafRead, Unchanged, Kept;
    var room := MAX_LOG_BYTES - |Kept(newer)|;
    if leaf.Present? && t.value.Tail? {
      WithinRoom(leaf, room, t.value);
      LeafSize(leaf, room, t.value);
    }
  }

  lemma WalkedRest(leaves: seq<Leaf>, tails: Tails)
    requires Walked(leaves, tails) && tails != []
    ensures LeafWalked(leaves[0], tails[0], tails[1..]) && Walked(leaves[1..], tails[1..])
  {
    hide LeafWalked;
    var files, rest := leaves[1..], tails[1..];
    forall i | 0 <= i < |files| ensures LeafWalked(files[i], rest[i], rest[i + 1..]) {
      assert rest[i + 1..] == tails[i + 2..] && LeafWalked(leaves[i + 1], tails[i + 1], tails[i + 2..]);
    }
  }

  lemma LeafSize(leaf: Leaf, room: nat, tail: Tail)
    requires leaf.Present? && Unchanged(leaf) && LeafRead(leaf.measured, leaf.found, room, tail) && tail.Tail?
    ensures |tail.raw| <= tail.size && (tail.size <= room ==> |tail.raw| == tail.size)
  {
    if leaf.found.readable || room == 0 {
      TailSize(leaf.found.content, room, tail);
    }
  }

  /** The bounded tail of a file that fits is the whole file, and any is within its size. */
  lemma TailSize(content: seq<Byte>, maximum: int, tail: Tail)
    requires BoundedTail(content, maximum, tail) && tail.Tail?
    ensures |tail.raw| <= tail.size && (0 <= maximum && tail.size <= maximum ==> |tail.raw| == tail.size)
  {
  }

  /** There are six conditions, so a list without repetitions is short. */
  lemma FewRefusals(refusals: seq<Refusal>)
    requires Distinct(refusals)
    ensures |refusals| <= 6
  {
    var all := {SymbolicLink, NotRegular, HardLinked, ReplacedOrUnreadable, OpenedButUnreadable, SpansBoundary};
    forall i | 0 <= i < |refusals| ensures refusals[i] in all {
      match refusals[i] {
        case SymbolicLink => case NotRegular => case HardLinked =>
        case ReplacedOrUnreadable => case OpenedButUnreadable => case SpansBoundary =>
      }
    }
    DistinctFit(refusals, all);
  }

  lemma {:induction false} DistinctFit(refusals: seq<Refusal>, all: set<Refusal>)
    requires Distinct(refusals) && forall i :: 0 <= i < |refusals| ==> refusals[i] in all
    ensures |refusals| <= |all|
  {
    if refusals != [] {
      var n := |refusals| - 1;
      DistinctFit(refusals[..n], all - {refusals[n]});
    }
  }

  lemma {:induction false} NoticeShort(words: Refusal -> string, refusals: seq<Refusal>)
    requires Worded(words)
    ensures |EncodeAll(Notice(words, refusals))| <= 294 * |refusals|
  {
    if refusals != [] {
      var first := CodePoints(words(refusals[0]));
      NoticeShort(words, refusals[1..]);
      EncodeConcat(first, Notice(words, refusals[1..]));
      AsciiLength(first);
      assert |words(refusals[0])| == NoticeLength(refusals[0]) <= 294;
    }
  }

  /** The published bytes: the notices and the text, or marker, notices and the longest end of
      the text that fits beside them. */
  ghost predicate ChildPublished(notice: seq<Scalar>, text: seq<Scalar>, sourceBytes: nat, payload: seq<Byte>) {
    var whole := EncodeAll(notice + text);
    if sourceBytes <= MAX_LOG_BYTES && |whole| <= MAX_LOG_BYTES then payload == whole
    else LeadAndEnd(Marker() + notice, text, TAIL_ROOM - |EncodeAll(notice)|, payload)
  }

  /** Any list of different refusals, the empty one for the engine's log, leaves room for some
      of the text, and the ceiling holds. */
  method PublishChildLog(words: Refusal -> string, refusals: seq<Refusal>, text: seq<Scalar>, sourceBytes: nat)
    returns (payload: seq<Byte>)
    requires Worded(words) && Distinct(refusals)
    ensures |EncodeAll(Notice(words, refusals))| < TAIL_ROOM
    ensures ChildPublished(Notice(words, refusals), text, sourceBytes, payload) && |payload| <= MAX_LOG_BYTES
  {
    hide LongestEnd, LeadAndEnd, EncodeAll, Notice;
    FewRefusals(refusals);
    NoticeShort(words, refusals);
    var notice := Notice(words, refusals);
    EncodeConcat(notice, text);
    var encoded := EncodeAll(notice) + EncodeAll(text);
    if sourceBytes <= MAX_LOG_BYTES && |encoded| <= MAX_LOG_BYTES {
      return encoded;
    }
    var room := TAIL_ROOM - |EncodeAll(notice)|;
    var tail := RepairedTail(text, room);
    EncodeConcat(Marker(), notice);
    AsciiLength(Marker());
    EndFits(text, room, tail);
    LeadThenEnd(Marker() + notice, text, room, tail);
    payload := EncodeAll(Marker()) + EncodeAll(notice) + tail;
  }
}
