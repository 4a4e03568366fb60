/** The receipt as text. The producer prints it as one line of JSON that leaves characters
    outside ASCII as they are; the validator first cuts the whole output into lines, and some of
    those characters end a line. */
module GuardOutput {
  import opened Counting
  import opened GuardText
  import opened GuardReceipt
  import opened GuardProtocol
  import opened Ordering

  const PREFIX: string := "CRYODAQ_ACTIVE_GUARD_RECEIPT "

  // ------------------------------------------------------------ lines

  /** Where str.splitlines ends a line. */
  predicate IsBreak(c: char) {
    var n := c as int;
    10 <= n <= 13 || 28 <= n <= 30 || n == 0x85 || n == 0x2028 || n == 0x2029
  }

  predicate Plain(s: string) { forall i :: 0 <= i < |s| ==> !IsBreak(s[i]) }

  function FirstBreak(s: string): (at: Option<nat>)
    ensures at.None? <==> Plain(s)
    ensures at.Some? ==> at.value < |s| && IsBreak(s[at.value]) && Plain(s[..at.value])
  {
    if s == [] then None else if IsBreak(s[0]) then Some(0)
    else match FirstBreak(s[1..])
      case None => assert forall i :: 1 <= i < |s| ==> s[i] == s[1..][i - 1]; None
      case Some(i) => assert s[..i + 1] == [s[0]] + s[1..][..i]; Some(i + 1)
  }

  lemma BreaksAt(a: string, c: char, b: string)
    requires Plain(a) && IsBreak(c)
    ensures FirstBreak(a + [c] + b) == Some(|a|)
  {
    hide FirstBreak, IsBreak;
    var s := a + [c] + b;
    assert s[|a|] == c && !Plain(s);
    assert forall k :: 0 <= k < |a| ==> s[k] == a[k];
    forall k | |a| < k <= |s| ensures !Plain(s[..k]) {
      assert s[..k][|a|] == c;
    }
  }

  function SplitLines(s: string): (pieces: seq<string>)
    ensures pieces != []
    decreases |s|
  {
    match FirstBreak(s) case None => [s] case Some(i) => [s[..i]] + SplitLines(s[i + 1..])
  }

  /** What follows the prefix on the lines that start with it, decoded. */
  function Decoded(pieces: seq<string>, decode: string -> Line): seq<Line> {
    if pieces == [] then [] else
      (if PREFIX <= pieces[0] then [decode(pieces[0][|PREFIX|..])] else []) + Decoded(pieces[1..], decode)
  }

  function ReceiptLines(output: string, decode: string -> Line): seq<Line> { Decoded(SplitLines(output), decode) }

  lemma {:induction false} DecodedConcat(a: seq<string>, b: seq<string>, decode: string -> Line)
    ensures Decoded(a + b, decode) == Decoded(a, decode) + Decoded(b, decode)
  {
    if a == [] {
      assert a + b == b;
    } else {
      assert (a + b)[1..] == a[1..] + b;
      DecodedConcat(a[1..], b, decode);
    }
  }

  lemma SplitPlain(a: string, c: char, b: string)
    requires Plain(a) && IsBreak(c)
    ensures SplitLines(a + [c] + b) == [a] + SplitLines(b)
  {
    BreaksAt(a, c, b);
    hide FirstBreak, Plain, IsBreak;
    var s := a + [c] + b;
    assert s[..|a|] == a && s[|a| + 1..] == b;
  }

  lemma {:induction false} SplitConcat(a: string, c: char, b: string)
    requires IsBreak(c)
    ensures SplitLines(a + [c] + b) == SplitLines(a) + SplitLines(b)
    decreases |a|
  {
    hide SplitLines, FirstBreak, Plain, IsBreak;
    if FirstBreak(a).None? {
      SplitPlain(a, c, b);
      SplitWhole(a);
    } else {
      var i := FirstBreak(a).value;
      var p, d, q := a[..i], a[i], a[i + 1..];
      assert a == p + [d] + q && a + [c] + b == p + [d] + (q + [c] + b);
      SplitPlain(p, d, q);
      SplitPlain(p, d, q + [c] + b);
      SplitConcat(q, c, b);
    }
  }

  lemma SplitWhole(s: string)
    requires Plain(s)
    ensures SplitLines(s) == [s]
  {
  }

  // ------------------------------------------------------------ the printed receipt

  function TextsOf(v: Violation): set<string> {
    match v
    case CollectionOnly => {}
    case NoActiveGuards => {}
    case NotSelected(guard) => {guard}
    case WasDeselected(nodeid) => {nodeid}
    case Unexpected(nodeid) => {nodeid}
    case MarkerPolicy(nodeid, _) => {nodeid}
    case PhaseReports(nodeid, _) => {nodeid}
    case XfailOutcome(nodeid) => {nodeid}
    case EmittedWarning(w) => {w.when, w.nodeid, w.category}
  }

  predicate InDetail(d: Detail, t: string) {
    match d
    case Filters(values) => Text(t) in values
    case Skip(_, why, _) => why == Some(t)
    case UnknownDetail => false
  }

  /** The strings a receipt records. */
  ghost predicate Records(r: Receipt, t: string) {
    || t == r.suite || t in r.expected || t in r.deselected
    || (exists v :: v in r.violations && t in TextsOf(v))
    || (exists w :: w in r.warnings && (t == w.when || t == w.nodeid || t == w.category))
    || (exists n :: n in r.concrete && (t == n.nodeid || t in n.guards || exists d :: d in n.markers && InDetail(d, t)))
  }

  /** No recorded string holds U+0085, U+2028 or U+2029. The other line ends are control
      characters, which JSON escapes. */
  ghost predicate Unbroken(r: Receipt) {
    forall t, i :: Records(r, t) && 0 <= i < |t| ==> t[i] as int !in {0x85, 0x2028, 0x2029}
  }

  /** The ten characters at which the validator ends a line. */
  ghost predicate HoldsLineEnd(s: string) {
    exists i :: 0 <= i < |s| && s[i] as int in {10, 11, 12, 13, 28, 29, 30, 0x85, 0x2028, 0x2029}
  }

  lemma PlainMeans(s: string)
    ensures FirstBreak(s).None? <==> !HoldsLineEnd(s)
  {
    hide FirstBreak;
    forall c: char ensures IsBreak(c) <==> c as int in {10, 11, 12, 13, 28, 29, 30, 0x85, 0x2028, 0x2029} {}
    hide IsBreak;
  }

  /** What the theorems need of JSON: the text of a receipt decodes to it, no proper beginning of
      that text decodes, and of the characters that end a line it holds exactly those of the
      recorded strings that are not escaped. */
  ghost predicate Json(encode: Receipt -> string, decode: string -> Line) {
    && (forall r :: decode(encode(r)) == Canonical(r))
    && (forall r, n: nat :: n < |encode(r)| ==> decode(encode(r)[..n]) == Garbled(None))
    && (forall r :: HoldsLineEnd(encode(r)) <==> !Unbroken(r))
  }

  /** What the recorded strings make of the printed line after the first line end in it. */
  function Echoes(r: Receipt, encode: Receipt -> string, decode: string -> Line): seq<Line> {
    Decoded(SplitLines(PREFIX + encode(r))[1..], decode)
  }

  lemma PrefixPlain()
    ensures Plain(PREFIX)
  {
  }

  lemma PlainConcat(a: string, b: string)
    requires Plain(a) && Plain(b)
    ensures Plain(a + b)
  {
  }

  /** A plain lead stays with the first line of what follows it. */
  lemma LeadSplits(lead: string, s: string)
    requires Plain(lead)
    ensures var at := FirstBreak(s);
            SplitLines(lead + s)
            == if at.None? then [lead + s] else [lead + s[..at.value]] + SplitLines(s[at.value + 1..])
  {
    hide SplitLines, FirstBreak, IsBreak, Plain;
    if FirstBreak(s).None? {
      PlainConcat(lead, s);
      SplitWhole(lead + s);
    } else {
      var i := FirstBreak(s).value;
      PlainConcat(lead, s[..i]);
      assert lead + s == lead + s[..i] + [s[i]] + s[i + 1..];
      SplitPlain(lead + s[..i], s[i], s[i + 1..]);
    }
  }

  lemma DecodedFirst(first: string, rest: seq<string>, decode: string -> Line)
    ensures Decoded([PREFIX + first] + rest, decode) == [decode(first)] + Decoded(rest, decode)
  {
    var pieces := [PREFIX + first] + rest;
    assert PREFIX <= PREFIX + first && (PREFIX + first)[|PREFIX|..] == first;
    assert pieces[0] == PREFIX + first && pieces[1..] == rest;
  }

  /** One canonical line exactly when nothing recorded is broken; otherwise the line that starts
      the receipt is no JSON, and what follows is up to the recorded strings. */
  lemma PrintedLines(r: Receipt, encode: Receipt -> string, decode: string -> Line)
    requires Json(encode, decode)
    ensures ReceiptLines(PREFIX + encode(r), decode)
            == if Unbroken(r) then [Canonical(r)] else [Garbled(None)] + Echoes(r, encode, decode)
  {
    var text, at := encode(r), FirstBreak(encode(r));
    PrefixPlain();
    LeadSplits(PREFIX, text);
    PlainMeans(text);
    hide Unbroken, SplitLines, FirstBreak;
    assert at.None? <==> Unbroken(r);
    if at.None? {
      DecodedFirst(text, [], decode);
      assert [PREFIX + text] + [] == [PREFIX + text];
      assert Decoded([], decode) == [];
    } else {
      var rest := SplitLines(text[at.value + 1..]);
      DecodedFirst(text[..at.value], rest, decode);
      assert ([PREFIX + text[..at.value]] + rest)[1..] == rest;
    }
  }

  // ------------------------------------------------------------ the output of a run

  /** The producer's line between whatever else was printed. */
  function Output(before: string, line: string, after: string): string { before + "\n" + line + "\n" + after }

  /** The lines the validator looks at. */
  function Kept(lines: seq<Line>, siblings: bool, expected: seq<string>): seq<Line> {
    if siblings then Select(lines, expected) else lines
  }

  lemma {:induction false} SelectConcat(a: seq<Line>, b: seq<Line>, expected: seq<string>)
    ensures Select(a + b, expected) == Select(a, expected) + Select(b, expected)
  {
    hide Claims;
    if a == [] {
      assert a + b == b;
    } else {
      var rest := a[1..];
      assert (a + b)[0] == a[0] && (a + b)[1..] == rest + b;
      SelectConcat(rest, b, expected);
      var head := if Claims(a[0]) == Some(expected) then [a[0]] else [];
      assert Select(a + b, expected) == head + Select(rest + b, expected);
      assert Select(a, expected) == head + Select(rest, expected);
      hide Select;
    }
  }

  lemma OutputLines(before: string, line: string, after: string, decode: string -> Line)
    ensures ReceiptLines(Output(before, line, after), decode)
            == ReceiptLines(before, decode) + ReceiptLines(line, decode) + ReceiptLines(after, decode)
  {
    hide SplitLines, Decoded;
    var rest := line + ['\n'] + after;
    assert Output(before, line, after) == before + ['\n'] + rest;
    SplitConcat(before, '\n', rest);
    SplitConcat(line, '\n', after);
    DecodedConcat(SplitLines(line), SplitLines(after), decode);
    DecodedConcat(SplitLines(before), SplitLines(rest), decode);
  }

  lemma KeptAlone(before: string, line: string, after: string, siblings: bool, expected: seq<string>,
                  decode: string -> Line)
    requires Kept(ReceiptLines(before, decode), siblings, expected) == []
    requires Kept(ReceiptLines(after, decode), siblings, expected) == []
    ensures Kept(ReceiptLines(Output(before, line, after), decode), siblings, expected)
            == Kept(ReceiptLines(line, decode), siblings, expected)
  {
    OutputLines(before, line, after, decode);
    var a, b, c := ReceiptLines(before, decode), ReceiptLines(line, decode), ReceiptLines(after, decode);
    SelectConcat(a + b, c, expected);
    SelectConcat(a, b, expected);
  }

  /** The validator from the output on. */
  method ValidateOutput(output: string, decode: string -> Line, siblings: bool, suite: string, expected: seq<string>,
                        platforms: map<string, Option<Platform>>, platform: Platform, key: Detail -> real)
    returns (ok: bool)
    ensures ok <==> OutputAccepted(ReceiptLines(output, decode), siblings, suite, expected, platforms, platform, key)
  {
    var pieces, lines := SplitLines(output), [];
    for i := 0 to |pieces|
      invariant lines == Decoded(pieces[..i], decode)
    {
      assert pieces[..i + 1] == pieces[..i] + [pieces[i]];
      DecodedConcat(pieces[..i], [pieces[i]], decode);
      if PREFIX <= pieces[i] {
        lines := lines + [decode(pieces[i][|PREFIX|..])];
      }
    }
    assert pieces[..|pieces|] == pieces;
    ok := Validate(lines, siblings, suite, expected, platforms, platform, key);
  }

  /** What the validator makes of a whole output for this configuration. */
  ghost predicate Accepts(lines: seq<Line>, siblings: bool, config: Config, key: Detail -> real) {
    OutputAccepted(lines, siblings, config.suite, Nodes(config.expected), PlatformsOf(config.expected),
                   config.platform, key)
  }

  // ------------------------------------------------------------ the two halves

  lemma AcceptsKept(a: seq<Line>, b: seq<Line>, siblings: bool, config: Config, key: Detail -> real)
    requires Kept(a, siblings, Nodes(config.expected)) == Kept(b, siblings, Nodes(config.expected))
    ensures Accepts(a, siblings, config, key) <==> Accepts(b, siblings, config, key)
  {
    hide ReceiptAccepted, Select;
  }

  /** The first line of a broken receipt never passes. */
  lemma AcceptsBroken(echoes: seq<Line>, siblings: bool, config: Config, key: Detail -> real)
    ensures Accepts([Garbled(None)] + echoes, siblings, config, key)
            <==> siblings && Accepts(echoes, true, config, key)
  {
    hide ReceiptAccepted;
    var lines := [Garbled(None)] + echoes;
    assert lines[1..] == echoes;
    if !siblings && |lines| == 1 {
      assert lines[0].Garbled?;
    }
  }

  /** The two halves on every history of hooks, as text. If no recorded string is broken, the
      validator accepts the output exactly when the producer saw no violation and every expected
      guard is scoped to the platform that ran. A broken receipt is refused, unless sibling
      receipts are allowed and what the recorded strings spell out is itself one. */
  lemma HalvesAgree(config: Config, events: seq<Event>, r: Receipt, before: string, after: string, siblings: bool,
                    key: Detail -> real, encode: Receipt -> string, decode: string -> Line)
    requires ReceiptOf(Run(Start(config), events, key), r) && Json(encode, decode)
    requires Kept(ReceiptLines(before, decode), siblings, Nodes(config.expected)) == []
    requires Kept(ReceiptLines(after, decode), siblings, Nodes(config.expected)) == []
    ensures Accepts(ReceiptLines(Output(before, PREFIX + encode(r), after), decode), siblings, config, key)
            <==> if Unbroken(r) then Run(Start(config), events, key).Violations() == {} && Scoped(config)
                 else siblings && Accepts(Echoes(r, encode, decode), true, config, key)
  {
    var line := PREFIX + encode(r);
    KeptAlone(before, line, after, siblings, Nodes(config.expected), decode);
    PrintedLines(r, encode, decode);
    hide ReceiptLines, Output, Kept, Json, Unbroken, ReceiptOf, Run, Scoped, Echoes, Accepts;
    AcceptsKept(ReceiptLines(Output(before, line, after), decode), ReceiptLines(line, decode), siblings, config, key);
    if Unbroken(r) {
      DecodedAgrees(config, events, r, siblings, key);
    } else {
      AcceptsBroken(Echoes(r, encode, decode), siblings, config, key);
    }
  }

  lemma DecodedAgrees(config: Config, events: seq<Event>, r: Receipt, siblings: bool, key: Detail -> real)
    requires ReceiptOf(Run(Start(config), events, key), r)
    ensures Accepts([Canonical(r)], siblings, config, key)
            <==> Run(Start(config), events, key).Violations() == {} && Scoped(config)
  {
    ReceiptAgrees(config, events, r, siblings, key);
  }

  /** So without siblings, or when no recorded string spells a receipt line, acceptance is: no
      violation, every guard scoped to this platform, and nothing broken. */
  lemma HalvesAgreePlainly(config: Config, events: seq<Event>, r: Receipt, before: string, after: string,
                           siblings: bool, key: Detail -> real, encode: Receipt -> string, decode: string -> Line)
    requires ReceiptOf(Run(Start(config), events, key), r) && Json(encode, decode)
    requires Kept(ReceiptLines(before, decode), siblings, Nodes(config.expected)) == []
    requires Kept(ReceiptLines(after, decode), siblings, Nodes(config.expected)) == []
    requires siblings ==> Echoes(r, encode, decode) == []
    ensures Accepts(ReceiptLines(Output(before, PREFIX + encode(r), after), decode), siblings, config, key)
            <==> Run(Start(config), events, key).Violations() == {} && Scoped(config) && Unbroken(r)
  {
    HalvesAgree(config, events, r, before, after, siblings, key, encode, decode);
  }

  /** Acceptance of such an output means every expected guard ran. */
  lemma AcceptedOutputRan(config: Config, events: seq<Event>, r: Receipt, before: string, after: string,
                          siblings: bool, key: Detail -> real, encode: Receipt -> string, decode: string -> Line)
    requires ReceiptOf(Run(Start(config), events, key), r) && Json(encode, decode)
    requires Kept(ReceiptLines(before, decode), siblings, Nodes(config.expected)) == []
    requires Kept(ReceiptLines(after, decode), siblings, Nodes(config.expected)) == []
    requires siblings ==> Echoes(r, encode, decode) == []
    requires Accepts(ReceiptLines(Output(before, PREFIX + encode(r), after), decode), siblings, config, key)
    ensures forall g :: g in Nodes(config.expected) ==> exists n :: Ran(Run(Start(config), events, key), g, n)
  {
    HalvesAgreePlainly(config, events, r, before, after, siblings, key, encode, decode);
    DecodedAgrees(config, events, r, siblings, key);
    AcceptedGuardsRan(config, events, r, siblings, key);
  }

  // ------------------------------------------------------------ a history that the halves read differently

  const GUARD: string := "tests/agents/test_a.py::test_b"
  const REASON: string := "a\U{2028}b"
  const SKIP: Mark := SkipIf(true, true, Some(REASON))

  function ScopedConfig(): Config { Config("agents", Posix, [GuardSpec(GUARD, Some(Posix))], false) }

  /** One scoped guard whose skip reason holds a line separator, run without any trouble. */
  function SplitHistory(): seq<Event> {
    [Bound(Item(GUARD, [SKIP])), Reported(GUARD, Setup, Passed, false), Reported(GUARD, CallPhase, Passed, false),
     Reported(GUARD, Teardown, Passed, false)]
  }

  lemma GuardScope()
    ensures var specs := ScopedConfig().expected;
            && Nodes(specs) == [GUARD] && PlatformsOf(specs) == map[GUARD := Some(Posix)]
            && MatchesOf(specs, GUARD) == {GUARD} && ScopesOf(specs, {GUARD}) == {Some(Posix)}
  {
    var specs := ScopedConfig().expected;
    assert Nodes(specs) == [GUARD];
    assert specs[..0] == [] && Nodes([]) == [];
    assert Matches(GUARD, GUARD);
  }

  lemma ReasonKept(key: Detail -> real)
    ensures MarkerDetails([SKIP], Some(Posix), key) == ([Skip(true, Some(REASON), Some(Posix))], {})
  {
    assert [SKIP][1..] == [] && SkipMarks([SKIP]) == [SKIP];
    assert FilterDetails([SKIP]) == [];
    ReasonIsText();
    assert FilterReasons([SKIP]) == {};
    var d := Skip(true, Some(REASON), Some(Posix));
    assert [] + [d] == [d] && [d][1..] == [];
    assert Sort([d], key) == [d];
  }

  lemma ReasonIsText()
    ensures Strip(REASON) != ""
  {
    assert StripLeft(REASON) == REASON && StripRight(REASON) == REASON;
  }

  lemma BoundState(key: Detail -> real)
    ensures var st := Start(ScopedConfig()).Bind(Item(GUARD, [SKIP]), key);
            && st.config == ScopedConfig()
            && st.links == Links(map[GUARD := {GUARD}], map[GUARD := {GUARD}])
            && st.marks.markers == map[GUARD := [Skip(true, Some(REASON), Some(Posix))]]
            && st.marks.violations == map[GUARD := {}]
            && st.log == Log(map[], {}, {}, {}, [])
  {
    GuardScope();
    ReasonKept(key);
    var config := ScopedConfig();
    hide MatchesOf, ScopesOf, PlatformsOf, Nodes, MarkerDetails;
    assert TheScope(config.expected, {GUARD}) == Some(Posix) by {
      assert TheScope(config.expected, {GUARD}) in ScopesOf(config.expected, {GUARD});
    }
    var start := Start(config);
    assert start.links.guardToConcrete == map[GUARD := {}];
  }

  function Phases(): map<(string, Phase), seq<Outcome>> {
    map[(GUARD, Setup) := [Passed], (GUARD, CallPhase) := [Passed], (GUARD, Teardown) := [Passed]]
  }

  lemma PhasesReported(st: State)
    requires GUARD in st.links.concreteToGuards && st.log == Log(map[], {}, {}, {}, [])
    ensures st.Report(GUARD, Setup, Passed, false).Report(GUARD, CallPhase, Passed, false).
              Report(GUARD, Teardown, Passed, false) == st.(log := Log(Phases(), {}, {}, {}, []))
  {
    assert [] + [Passed] == [Passed];
  }

  lemma SplitEnds(key: Detail -> real)
    ensures var bound := Start(ScopedConfig()).Bind(Item(GUARD, [SKIP]), key);
            Run(Start(ScopedConfig()), SplitHistory(), key) == bound.(log := Log(Phases(), {}, {}, {}, []))
  {
    BoundState(key);
    var start, events := Start(ScopedConfig()), SplitHistory();
    RunSnoc(start, [], events[0], key);
    RunSnoc(start, events[..1], events[1], key);
    RunSnoc(start, events[..2], events[2], key);
    RunSnoc(start, events[..3], events[3], key);
    assert [] + [events[0]] == events[..1] && events[..1] + [events[1]] == events[..2];
    assert events[..2] + [events[2]] == events[..3] && events[..3] + [events[3]] == events;
    PhasesReported(start.Bind(Item(GUARD, [SKIP]), key));
    hide Run, Start, Phases;
  }

  lemma SplitClean(key: Detail -> real)
    ensures var st := Run(Start(ScopedConfig()), SplitHistory(), key);
            && Clean(st) && GUARD in st.links.concreteToGuards
            && GUARD in st.marks.markers && st.marks.markers[GUARD] == [Skip(true, Some(REASON), Some(Posix))]
  {
    BoundState(key);
    SplitEnds(key);
    hide Run, Start, Clean, Phases;
    QuietIsClean(Run(Start(ScopedConfig()), SplitHistory(), key));
  }

  lemma QuietIsClean(st: State)
    requires st.config == ScopedConfig() && st.links == Links(map[GUARD := {GUARD}], map[GUARD := {GUARD}])
    requires st.marks.violations == map[GUARD := {}] && st.log == Log(Phases(), {}, {}, {}, [])
    ensures Clean(st)
  {
    forall p: Phase ensures st.log.PhaseAt(GUARD, p) == [Passed] {
      assert p == Setup || p == CallPhase || p == Teardown;
    }
  }

  lemma RunSnoc(start: State, events: seq<Event>, e: Event, key: Detail -> real)
    ensures Run(start, events + [e], key) == Step(Run(start, events, key), e, key)
    ensures Run(start, [], key) == start
  {
    assert (events + [e])[..|events|] == events;
  }

  /** The producer sees no violation, every guard is scoped to the platform that ran, and the
      validator refuses the output. */
  lemma SeparatorRefused(r: Receipt, key: Detail -> real, encode: Receipt -> string, decode: string -> Line)
    requires ReceiptOf(Run(Start(ScopedConfig()), SplitHistory(), key), r) && Json(encode, decode)
    ensures Run(Start(ScopedConfig()), SplitHistory(), key).Violations() == {} && Scoped(ScopedConfig())
    ensures !Accepts(ReceiptLines(Output("", PREFIX + encode(r), ""), decode), false, ScopedConfig(), key)
  {
    SplitClean(key);
    GuardIsScoped();
    var st := Run(Start(ScopedConfig()), SplitHistory(), key);
    hide Run, Start, SplitHistory, ScopedConfig, Scoped, Json, Accepts, Clean, Unbroken, ReceiptOf;
    CleanIsClean(st);
    ReasonRecorded(st, r);
    NothingElse(decode);
    HalvesAgreePlainly(ScopedConfig(), SplitHistory(), r, "", "", false, key, encode, decode);
  }

  lemma GuardIsScoped()
    ensures Scoped(ScopedConfig())
  {
    GuardScope();
  }

  lemma NothingElse(decode: string -> Line)
    ensures ReceiptLines("", decode) == []
  {
    assert SplitLines("") == [""];
  }

  lemma ReasonRecorded(st: State, r: Receipt)
    requires ReceiptOf(st, r) && GUARD in st.links.concreteToGuards && GUARD in st.marks.markers
    requires st.marks.markers[GUARD] == [Skip(true, Some(REASON), Some(Posix))]
    ensures !Unbroken(r)
  {
    var i :| 0 <= i < |r.concrete| && r.concrete[i].nodeid == GUARD;
    var d := st.marks.markers[GUARD][0];
    assert r.concrete[i] in r.concrete && d in r.concrete[i].markers && InDetail(d, REASON);
    assert Records(r, REASON) && REASON[1] as int == 0x2028;
  }
}
