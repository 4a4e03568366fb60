/** The bounded relay of candidate diagnostics: the end of what could be rendered, within
    an item bound and a byte budget, and a notice when anything marked was left out. */
module Relay {
  import opened Counting

  const MAX_LINE: nat := 8192
  const MAX_TOTAL: nat := 16384
  const MAX_ITEMS: nat := 4

  /** The lengths of the two fixed messages. */
  const FALLBACK_BYTES: nat := 110
  const NOTICE_BYTES: nat := 121

  /** A line of candidate output: whether it carries one of the two prefixes, and the ASCII
      summary it parses to, if it parses. */
  datatype Line = Line(marked: bool, summary: Option<string>)

  /** A relayed line on standard output, or one of the fixed messages on standard error. */
  datatype Emission = Out(text: string) | Fallback | Notice

  /** The rendered form of a marked line, if it parses and is short enough. */
  function Render(line: Line): Option<string> {
    if line.summary.Some? && |line.summary.value| > MAX_LINE then None else line.summary
  }

  function Rendered(lines: seq<Line>): seq<string> {
    if lines == [] then [] else
      var n := |lines| - 1;
      Rendered(lines[..n]) + if lines[n].marked && Render(lines[n]).Some? then [Render(lines[n]).value] else []
  }

  function Marked(lines: seq<Line>): nat {
    if lines == [] then 0 else Marked(lines[..|lines| - 1]) + if lines[|lines| - 1].marked then 1 else 0
  }

  /** Bytes of the lines, each with its newline. */
  function Bytes(texts: seq<string>): nat {
    if texts == [] then 0 else |texts[0]| + 1 + Bytes(texts[1..])
  }

  function LastOf(texts: seq<string>, n: nat): seq<string>
    requires n <= |texts|
  {
    texts[|texts| - n..]
  }

  /** Relaying the last n rendered lines fits: few enough, and within the budget together
      with the notice that is due when a marked line is missing. */
  predicate Fits(rendered: seq<string>, marked: nat, n: nat) {
    n <= |rendered| && n <= MAX_ITEMS && Cost(rendered, marked, n) <= MAX_TOTAL
  }

  function Cost(rendered: seq<string>, marked: nat, n: nat): nat
    requires n <= |rendered|
  {
    Bytes(LastOf(rendered, n)) + if n < marked then NOTICE_BYTES + 1 else 0
  }

  /** No end longer than n fits. */
  ghost predicate TooLong(rendered: seq<string>, marked: nat, n: nat) {
    forall m :: n < m <= |rendered| ==> !Fits(rendered, marked, m)
  }

  ghost predicate Largest(rendered: seq<string>, marked: nat, n: nat) {
    Fits(rendered, marked, n) && TooLong(rendered, marked, n)
  }

  function ToOut(texts: seq<string>): seq<Emission> { seq(|texts|, i requires 0 <= i < |texts| => Out(texts[i])) }

  function Emitted(rendered: seq<string>, marked: nat, n: nat): seq<Emission>
    requires n <= |rendered|
  {
    ToOut(LastOf(rendered, n)) + if n < marked then [Notice] else []
  }

  lemma {:induction false} RenderedMarked(lines: seq<Line>)
    ensures |Rendered(lines)| <= Marked(lines)
    ensures forall t :: t in Rendered(lines) ==> |t| <= 8192
  {
    if lines != [] {
      RenderedMarked(lines[..|lines| - 1]);
    }
  }

  /** A marked line whose summary parses and is short enough. */
  ghost predicate Relayable(line: Line) { line.marked && line.summary.Some? && |line.summary.value| <= 8192 }

  /** These texts are the whole summaries of the relayable lines, in their order. */
  ghost predicate Summaries(lines: seq<Line>, texts: seq<string>, chosen: seq<nat>) {
    && |chosen| == |texts| && (forall i, j :: 0 <= i < j < |chosen| ==> chosen[i] < chosen[j])
    && (forall i :: 0 <= i < |chosen| ==> chosen[i] < |lines| && lines[chosen[i]].summary == Some(texts[i]))
    && (forall k: nat :: k in chosen <==> k < |lines| && Relayable(lines[k]))
  }

  lemma SummariesGrow(lines: seq<Line>, texts: seq<string>, chosen: seq<nat>, line: Line)
    requires Summaries(lines, texts, chosen)
    ensures if Relayable(line) then Summaries(lines + [line], texts + [line.summary.value], chosen + [|lines|])
            else Summaries(lines + [line], texts, chosen)
  {
    var more, later := lines + [line], chosen + [|lines|];
    assert forall i :: 0 <= i < |chosen| ==> chosen[i] in chosen;
    assert forall k :: 0 <= k < |lines| ==> more[k] == lines[k];
    assert more[|lines|] == line && later[|chosen|] == |lines|;
    forall k: nat ensures k in later <==> k in chosen || k == |lines| {}
    if Relayable(line) {
      var longer := texts + [line.summary.value];
      forall i | 0 <= i < |later| ensures later[i] < |more| && more[later[i]].summary == Some(longer[i]) {
        assert i < |chosen| ==> later[i] == chosen[i] && longer[i] == texts[i];
      }
      forall i, j | 0 <= i < j < |later| ensures later[i] < later[j] {}
      hide Relayable;
    }
  }

  lemma {:induction false} RenderedMeans(lines: seq<Line>) returns (chosen: seq<nat>)
    ensures Summaries(lines, Rendered(lines), chosen)
  {
    chosen := [];
    if lines != [] {
      var n := |lines| - 1;
      chosen := RenderedMeans(lines[..n]);
      SummariesGrow(lines[..n], Rendered(lines[..n]), chosen, lines[n]);
      assert lines[..n] + [lines[n]] == lines;
      hide Summaries;
      if Relayable(lines[n]) {
        chosen := chosen + [n];
      } else {
        assert Rendered(lines[..n]) + [] == Rendered(lines[..n]);
      }
    }
  }

  /** A full deque drops its oldest item for a new one. */
  function Append(deque: seq<string>, t: string): seq<string> {
    (if |deque| < MAX_ITEMS then deque else deque[|deque| - (MAX_ITEMS - 1)..]) + [t]
  }

  function Recent(texts: seq<string>): seq<string> {
    if |texts| <= MAX_ITEMS then texts else texts[|texts| - MAX_ITEMS..]
  }

  lemma RecentAppend(texts: seq<string>, t: string)
    ensures Append(Recent(texts), t) == Recent(texts + [t])
  {
  }

  /** The first loop: the last rendered lines, and whether any marked line is missing. */
  method Collect(lines: seq<Line>) returns (relayed: seq<string>, omitted: bool)
    ensures relayed == Recent(Rendered(lines))
    ensures omitted <==> |relayed| < Marked(lines)
  {
    relayed, omitted := [], false;
    for i := 0 to |lines|
      invariant relayed == Recent(Rendered(lines[..i]))
      invariant omitted <==> |relayed| < Marked(lines[..i])
    {
      assert lines[..i + 1][..i] == lines[..i];
      RenderedMarked(lines[..i]);
      if !lines[i].marked {
        continue;
      }
      var rendered := Render(lines[i]);
      if rendered.None? {
        omitted := true;
        continue;
      }
      if |relayed| == MAX_ITEMS {
        omitted := true;
      }
      RecentAppend(Rendered(lines[..i]), rendered.value);
      relayed := Append(relayed, rendered.value);
    }
    assert lines[..|lines|] == lines;
  }

  lemma OneAlwaysFits(rendered: seq<string>, marked: nat)
    requires rendered != [] && |rendered[|rendered| - 1]| <= MAX_LINE
    ensures Fits(rendered, marked, 1)
  {
    var last := rendered[|rendered| - 1];
    assert LastOf(rendered, 1) == [last];
    assert Bytes([last]) == |last| + 1 + Bytes([]);
  }

  method CountBytes(texts: seq<string>) returns (total: nat)
    ensures total == Bytes(texts)
  {
    total := 0;
    for i := 0 to |texts|
      invariant total + Bytes(texts[i..]) == Bytes(texts)
    {
      assert texts[i..][1..] == texts[i + 1..];
      total := total + |texts[i]| + 1;
    }
  }

  /** The second loop drops lines from the front until the rest fits; at least one does. */
  method Select(ghost rendered: seq<string>, ghost marked: nat, relayed: seq<string>, missing: bool)
    returns (n: nat, omitted: bool)
    requires relayed == Recent(rendered) && relayed != [] && |rendered| <= marked
    requires |rendered[|rendered| - 1]| <= MAX_LINE
    requires missing <==> |relayed| < marked
    ensures Largest(rendered, marked, n) && 0 < n <= |relayed| <= |rendered|
    ensures omitted <==> n < marked
  {
    hide Cost, LastOf;
    var selected := relayed;
    omitted := missing;
    OneAlwaysFits(rendered, marked);
    WholeRecent(rendered);
    while selected != []
      invariant 0 <= |selected| <= |relayed| && selected == LastOf(rendered, |selected|)
      invariant omitted <==> |selected| < marked
      invariant TooLong(rendered, marked, |selected|)
      decreases |selected|
    {
      var total := CountBytes(selected);
      total := total + if omitted then NOTICE_BYTES + 1 else 0;
      CostOf(rendered, marked, selected);
      if total <= MAX_TOTAL {
        break;
      }
      DropFront(rendered, |selected|);
      selected := selected[1..];
      omitted := true;
    }
    n := |selected|;
  }

  lemma WholeRecent(rendered: seq<string>)
    ensures Recent(rendered) == LastOf(rendered, |Recent(rendered)|) && |Recent(rendered)| <= MAX_ITEMS
  {
  }

  lemma CostOf(rendered: seq<string>, marked: nat, selected: seq<string>)
    requires |selected| <= |rendered| && selected == LastOf(rendered, |selected|)
    ensures Cost(rendered, marked, |selected|) == Bytes(selected) + if |selected| < marked then NOTICE_BYTES + 1 else 0
  {
  }

  lemma DropFront(rendered: seq<string>, n: nat)
    requires 0 < n <= |rendered|
    ensures LastOf(rendered, n)[1..] == LastOf(rendered, n - 1)
  {
  }

  /** What is relayed: the fallback when nothing could be rendered, and otherwise the largest
      fitting end of the rendered lines, with the notice exactly when a marked line is
      missing. */
  method RelayFailure(lines: seq<Line>) returns (emitted: seq<Emission>, ghost n: nat)
    ensures Rendered(lines) == [] ==> emitted == [Fallback]
    ensures Rendered(lines) != [] ==>
              n > 0 && Largest(Rendered(lines), Marked(lines), n)
                && emitted == Emitted(Rendered(lines), Marked(lines), n)
  {
    hide Rendered, Marked, Cost, TooLong, LastOf, ToOut, Fits;
    var relayed, missing := Collect(lines);
    n := 0;
    if relayed == [] {
      return [Fallback], 0;
    }
    LastRendered(lines);
    var count, omitted := Select(Rendered(lines), Marked(lines), relayed, missing);
    n := count;
    emitted := EmitAll(Rendered(lines), relayed, count);
    if omitted {
      emitted := emitted + [Notice];
    }
  }

  lemma LastRendered(lines: seq<Line>)
    ensures |Rendered(lines)| <= Marked(lines)
    ensures Rendered(lines) != [] ==> |Rendered(lines)[|Rendered(lines)| - 1]| <= MAX_LINE
  {
    RenderedMarked(lines);
    if Rendered(lines) != [] {
      assert Rendered(lines)[|Rendered(lines)| - 1] in Rendered(lines);
    }
  }

  method EmitAll(ghost rendered: seq<string>, relayed: seq<string>, count: nat) returns (emitted: seq<Emission>)
    requires relayed == Recent(rendered) && count <= |relayed|
    ensures emitted == ToOut(LastOf(rendered, count))
  {
    var selected := relayed[|relayed| - count..];
    assert selected == LastOf(rendered, count);
    emitted := [];
    for i := 0 to |selected|
      invariant emitted == ToOut(selected[..i])
    {
      emitted := emitted + [Out(selected[i])];
    }
    assert selected[..|selected|] == selected;
  }

  // ------------------------------------------------------------ consequences

  function Size(e: Emission): nat {
    match e case Out(text) => |text| case Fallback => FALLBACK_BYTES case Notice => NOTICE_BYTES
  }

  function EmittedBytes(emitted: seq<Emission>): nat {
    if emitted == [] then 0 else Size(emitted[0]) + 1 + EmittedBytes(emitted[1..])
  }

  lemma {:induction false} OutBytes(texts: seq<string>, rest: seq<Emission>)
    ensures EmittedBytes(ToOut(texts) + rest) == Bytes(texts) + EmittedBytes(rest)
  {
    if texts == [] {
      assert ToOut(texts) + rest == rest;
    } else {
      OutBytes(texts[1..], rest);
      assert (ToOut(texts) + rest)[1..] == ToOut(texts[1..]) + rest;
    }
  }

  /** Everything relayed, the notice included, stays within the budget. */
  lemma WithinBudget(rendered: seq<string>, marked: nat, n: nat)
    requires Fits(rendered, marked, n)
    ensures EmittedBytes(Emitted(rendered, marked, n)) <= 16384 && |Emitted(rendered, marked, n)| <= 5 && n <= 4
  {
    var notice := if n < marked then [Notice] else [];
    OutBytes(LastOf(rendered, n), notice);
    assert notice != [] ==> notice[1..] == [];
  }

  /** The choice is forced. */
  lemma LargestUnique(rendered: seq<string>, marked: nat, m: nat, n: nat)
    requires Largest(rendered, marked, m) && Largest(rendered, marked, n)
    ensures m == n
  {
    assert m <= |rendered| && n <= |rendered|;
  }

  /** The notice appears exactly when some marked line is not among the relayed ones; without
      it every marked line was rendered and relayed. */
  lemma NoticeIff(lines: seq<Line>, n: nat)
    requires n <= |Rendered(lines)|
    ensures Notice !in Emitted(Rendered(lines), Marked(lines), n) <==> n == |Rendered(lines)| == Marked(lines)
  {
    hide Rendered, Marked;
    RenderedMarked(lines);
  }
}
