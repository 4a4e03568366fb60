/** The bounded read of a log file that the measured process can replace: only a lone regular
    file is read, and a truncated read starts at a record boundary or is refused. */
module LogTail {
  import opened Counting
  import opened LogDrain

  const NEWLINE: Byte := 10

  /** Why a leaf is not read. */
  datatype Refusal =
    | SymbolicLink
    | NotRegular
    | HardLinked
    | ReplacedOrUnreadable
    | OpenedButUnreadable
    | SpansBoundary

  datatype Tail = Tail(raw: seq<Byte>, size: nat) | Refused(refusal: Refusal)

  function FirstNewline(raw: seq<Byte>): (found: Option<nat>)
    ensures found.None? <==> NEWLINE !in raw
    ensures found.Some? ==> found.value < |raw| && raw[found.value] == NEWLINE
    ensures found.Some? ==> forall i :: 0 <= i < found.value ==> raw[i] != NEWLINE
  {
    if raw == [] then None else if raw[0] == NEWLINE then Some(0)
    else match FirstNewline(raw[1..]) case None => None case Some(i) => Some(i + 1)
  }

  /** A record starts at the beginning and after every newline. */
  predicate RecordStart(content: seq<Byte>, k: int) {
    0 <= k <= |content| && (k == 0 || content[k - 1] == NEWLINE)
  }

  /** A place from which a truncated read may begin: some bytes, at most the bound. */
  predicate Eligible(content: seq<Byte>, maximum: int, k: int) {
    |content| - maximum <= k < |content| && RecordStart(content, k)
  }

  /** What a bounded read returns: nothing for no budget, the whole file if it fits, and
      otherwise the longest eligible tail, refused exactly when there is none. */
  ghost predicate BoundedTail(content: seq<Byte>, maximum: int, tail: Tail) {
    if maximum <= 0 then tail == Tail([], |content|)
    else if |content| <= maximum then tail == Tail(content, |content|)
    else match tail
      case Refused(refusal) =>
        refusal == SpansBoundary && forall k :: 0 <= k < |content| ==> !Eligible(content, maximum, k)
      case Tail(raw, size) =>
        && size == |content| && 0 < |raw| <= maximum
        && raw == content[size - |raw|..]
        && Eligible(content, maximum, size - |raw|)
        && forall k :: 0 <= k < size - |raw| ==> !Eligible(content, maximum, k)
  }

  /** The bytes a truncated read takes: the bound, and one byte of context before it. */
  function Window(content: seq<Byte>, maximum: nat): seq<Byte>
    requires maximum < |content|
  {
    content[|content| - maximum - 1..]
  }

  lemma NoRecord(content: seq<Byte>, maximum: nat, found: Option<nat>)
    requires 0 < maximum < |content| && found == FirstNewline(Window(content, maximum))
    requires found.None? || found.value == maximum
    ensures BoundedTail(content, maximum, Refused(SpansBoundary))
  {
    var raw, start := Window(content, maximum), |content| - maximum - 1;
    forall k | 0 <= k < |content| ensures !Eligible(content, maximum, k) {
      if start < k {
        assert raw[k - 1 - start] == content[k - 1];
      }
    }
  }

  lemma FirstRecord(content: seq<Byte>, maximum: nat, newline: nat)
    requires 0 < maximum < |content| && FirstNewline(Window(content, maximum)) == Some(newline) && newline < maximum
    ensures BoundedTail(content, maximum, Tail(Window(content, maximum)[newline + 1..], |content|))
  {
    var raw, start := Window(content, maximum), |content| - maximum - 1;
    assert raw[newline] == content[start + newline];
    assert raw[newline + 1..] == content[start + newline + 1..];
    forall k | 0 <= k < start + newline + 1 ensures !Eligible(content, maximum, k) {
      if start < k {
        assert raw[k - 1 - start] == content[k - 1];
      }
    }
  }

  /** The bytes a read of n finds from an offset on, which may lie beyond the end by then. */
  function ReadAt(content: seq<Byte>, start: nat, n: nat): (raw: seq<Byte>)
    ensures |raw| <= n
  {
    if start >= |content| then []
    else if start + n <= |content| then content[start..start + n] else content[start..]
  }

  /** These bytes stand in the file from the start of a record on. */
  ghost predicate FromRecord(content: seq<Byte>, raw: seq<Byte>) {
    exists k: nat :: RecordStart(content, k) && k + |raw| <= |content| && raw == content[k..k + |raw|]
  }

  /** What is left of a truncated read after its first newline, unless there is nothing. A
      newline before the cut, which is read with it, keeps the cut itself. */
  method Align(raw: seq<Byte>) returns (aligned: Option<seq<Byte>>)
    ensures match FirstNewline(raw)
            case None => aligned == None
            case Some(i) => aligned == if i > 0 && i == |raw| - 1 then None else Some(raw[i + 1..])
  {
    if raw != [] && raw[0] == NEWLINE {
      return Some(raw[1..]);
    }
    var newline := FirstNewline(raw);
    if newline.None? || newline.value == |raw| - 1 {
      return None;
    }
    return Some(raw[newline.value + 1..]);
  }

  /** A bounded read of a file that had a size when it was opened and holds this content when it
      is read. If that is the same file the tail is the bounded one; in any case what is returned
      stands in the file from the start of a record on, and within the bound. */
  method ReadTail(content: seq<Byte>, size: nat, maximum: int) returns (tail: Tail)
    ensures |content| == size ==> BoundedTail(content, maximum, tail)
    ensures tail.Refused? ==> tail.refusal == SpansBoundary
    ensures tail.Tail? ==> tail.size == size
    ensures tail.Tail? && tail.raw != [] ==> |tail.raw| <= maximum && FromRecord(content, tail.raw)
  {
    EasyReads(content, maximum);
    hide BoundedTail, FromRecord, FirstNewline, ReadAt, Window;
    if maximum <= 0 {
      return Tail([], size);
    }
    if size <= maximum {
      var raw := ReadAt(content, 0, maximum);
      WholeRead(content, maximum);
      return Tail(raw, size);
    }
    var start := size - maximum - 1;
    var raw := ReadAt(content, start, maximum + 1);
    var aligned := Align(raw);
    CutRead(content, start, maximum + 1);
    if |content| == size {
      UnchangedRead(content, maximum);
    }
    if aligned.None? {
      return Refused(SpansBoundary);
    }
    return Tail(aligned.value, size);
  }

  /** No budget, and a file that fits. */
  lemma EasyReads(content: seq<Byte>, maximum: int)
    ensures maximum <= 0 ==> BoundedTail(content, maximum, Tail([], |content|))
    ensures 0 < maximum && |content| <= maximum ==> BoundedTail(content, maximum, Tail(content, |content|))
  {
  }

  lemma WholeRead(content: seq<Byte>, n: nat)
    ensures FromRecord(content, ReadAt(content, 0, n))
    ensures |content| <= n ==> ReadAt(content, 0, n) == content
  {
    var raw := ReadAt(content, 0, n);
    assert RecordStart(content, 0) && raw == content[0..|raw|];
  }

  /** What stands in the file at a place of a read. */
  lemma ReadPart(content: seq<Byte>, start: nat, n: nat, i: nat)
    requires i < |ReadAt(content, start, n)|
    ensures var raw := ReadAt(content, start, n);
            && start + |raw| <= |content| && content[start + i] == raw[i]
            && raw[i + 1..] == content[start + i + 1..start + i + 1 + |raw[i + 1..]|]
  {
    var raw := ReadAt(content, start, n);
    assert raw == content[start..start + |raw|];
  }

  /** After any newline of a read stands the start of a record. */
  lemma CutRead(content: seq<Byte>, start: nat, n: nat)
    ensures var raw := ReadAt(content, start, n);
            forall i :: 0 <= i < |raw| && raw[i] == NEWLINE ==> FromRecord(content, raw[i + 1..])
  {
    hide ReadAt;
    var raw := ReadAt(content, start, n);
    forall i | 0 <= i < |raw| && raw[i] == NEWLINE ensures FromRecord(content, raw[i + 1..]) {
      ReadPart(content, start, n, i);
      assert RecordStart(content, start + i + 1);
    }
  }

  /** A truncated read of an unchanged file. */
  lemma UnchangedRead(content: seq<Byte>, maximum: nat)
    requires 0 < maximum < |content|
    ensures ReadAt(content, |content| - maximum - 1, maximum + 1) == Window(content, maximum)
    ensures |Window(content, maximum)| == maximum + 1
    ensures var raw := Window(content, maximum);
            match FirstNewline(raw)
            case None => BoundedTail(content, maximum, Refused(SpansBoundary))
            case Some(i) =>
              if i == |raw| - 1 then BoundedTail(content, maximum, Refused(SpansBoundary))
              else BoundedTail(content, maximum, Tail(raw[i + 1..], |content|))
  {
    hide BoundedTail;
    var raw := Window(content, maximum);
    var newline := FirstNewline(raw);
    if newline.None? || newline.value == |raw| - 1 {
      NoRecord(content, maximum, newline);
    } else {
      FirstRecord(content, maximum, newline.value);
    }
  }

  // ------------------------------------------------------------ the leaf

  datatype Kind = Link | Regular | Special

  datatype Inode = Inode(id: int, kind: Kind, links: nat)

  /** What the open gives: a link met on the way, a failure, a descriptor that cannot be
      measured, or one that can, with its size then and the content that a read finds later. */
  datatype Opened = Looped | Unopened | Unmeasured | Handle(inode: Inode, size: nat, content: seq<Byte>, readable: bool)

  /** The leaf measured by name is the regular file, with one link, that was opened. */
  predicate Lone(measured: Option<Inode>, found: Opened) {
    && measured.Some? && measured.value.kind == Regular
    && found.Handle? && found.inode.id == measured.value.id && found.inode.kind == Regular && found.inode.links == 1
  }

  /** Somebody saw the condition that the refusal names. */
  predicate Observed(refusal: Refusal, measured: Option<Inode>, found: Opened) {
    match refusal
    case SymbolicLink =>
      measured.Some? && (measured.value.kind == Link || found.Looped? || (found.Handle? && found.inode.kind == Link))
    case NotRegular =>
      measured.Some? && (measured.value.kind == Special || (found.Handle? && found.inode.kind == Special))
    case HardLinked => found.Handle? && found.inode.kind == Regular && found.inode.links != 1
    case ReplacedOrUnreadable =>
      measured.None? || found.Unopened? || (found.Handle? && found.inode.id != measured.value.id)
    case OpenedButUnreadable => found.Unmeasured? || (found.Handle? && !found.readable)
    case SpansBoundary => Lone(measured, found)
  }

  /** What a read may return: bytes only of the one regular file that was measured, opened and has no
      other name, then the bounded tail if it did not change; otherwise a refusal that somebody saw. */
  ghost predicate LeafRead(measured: Option<Inode>, found: Opened, maximum: int, tail: Tail) {
    var lone := measured.Some? && found.Handle? && measured.value.id == found.inode.id &&
                measured.value.kind == Regular && found.inode.kind == Regular && found.inode.links == 1;
    && (tail.Tail? ==> lone && tail.size == found.size)
    && (tail.Tail? && tail.raw != [] ==> |tail.raw| <= maximum && FromRecord(found.content, tail.raw))
    && (lone && (found.readable || maximum <= 0) && |found.content| == found.size ==>
          BoundedTail(found.content, maximum, tail))
    && (!lone || (!found.readable && maximum > 0) ==> tail.Refused? && tail.refusal != SpansBoundary)
    && (tail.Refused? ==> Observed(tail.refusal, measured, found))
  }

  /** The whole read. Only a lone regular file gives bytes, and a refusal names what was seen. */
  method ReadLeaf(measured: Option<Inode>, found: Opened, maximum: int) returns (tail: Tail)
    ensures LeafRead(measured, found, maximum, tail)
  {
    if measured.None? {
      return Refused(ReplacedOrUnreadable);
    }
    if measured.value.kind == Link {
      return Refused(SymbolicLink);
    }
    if measured.value.kind != Regular {
      return Refused(NotRegular);
    }
    match found {
      case Looped => return Refused(SymbolicLink);
      case Unopened => return Refused(ReplacedOrUnreadable);
      case Unmeasured => return Refused(OpenedButUnreadable);
      case Handle(inode, size, content, readable) =>
        if inode.id != measured.value.id {
          return Refused(ReplacedOrUnreadable);
        }
        if inode.kind == Link {
          return Refused(SymbolicLink);
        }
        if inode.kind != Regular {
          return Refused(NotRegular);
        }
        if inode.links != 1 {
          return Refused(HardLinked);
        }
        if maximum > 0 && !readable {
          return Refused(OpenedButUnreadable);
        }
        tail := ReadTail(content, size, maximum);
    }
  }

  /** The contract leaves no choice: any two tails that meet it are equal. */
  lemma TailUnique(content: seq<Byte>, maximum: int, a: Tail, b: Tail)
    requires BoundedTail(content, maximum, a) && BoundedTail(content, maximum, b)
    ensures a == b
  {
    if a.Tail? && b.Tail? && 0 < maximum < |content| {
      assert !(|a.raw| < |b.raw|) by { StartOrder(content, maximum, b, a); }
      assert !(|b.raw| < |a.raw|) by { StartOrder(content, maximum, a, b); }
    }
  }

  lemma StartOrder(content: seq<Byte>, maximum: int, long: Tail, short: Tail)
    requires 0 < maximum < |content| && long.Tail? && short.Tail?
    requires BoundedTail(content, maximum, long) && BoundedTail(content, maximum, short)
    ensures |short.raw| >= |long.raw|
  {
    var k := |content| - |long.raw|;
    assert Eligible(content, maximum, k);
  }
}
