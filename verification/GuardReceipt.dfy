/** Strict guard-execution receipts. One half of the program builds a receipt from what
    pytest reported; another half, written independently, decides whether to accept it.

    Sets that the program lists in sorted order are sets here; a receipt's node list and
    each node's guard list are any duplicate-free listings of theirs. JSON is represented
    by what it decodes to: a line is either the canonical encoding of a receipt or
    garbled. The text order used to sort marker details is a key into the reals. */
module GuardReceipt {
  import opened Counting
  import opened GuardText
  import opened Ordering

  datatype Platform = Posix | Windows

  datatype GuardSpec = GuardSpec(node: string, platform: Option<Platform>)

  datatype Arg = Text(text: string) | NonText

  /** A pytest marker as the producer sees it. */
  datatype Mark =
    | FilterWarnings(args: seq<Arg>, keywords: bool)
    | SkipIf(falseOnly: bool, reasonOnly: bool, reason: Option<string>)
    | Forbidden
    | Ordinary

  /** A marker detail in a receipt. */
  datatype Detail =
    | Filters(values: seq<Arg>)
    | Skip(conditionFalse: bool, why: Option<string>, target: Option<Platform>)
    | UnknownDetail

  datatype Reason = ForbiddenMarker | SuppressiveFilter | SkipUnscoped | SkipCount | SkipMalformed | ScopeConflict

  datatype Phase = Setup | CallPhase | Teardown

  datatype Outcome = Passed | Failed | Skipped

  datatype Warning = Warning(when: string, nodeid: string, category: string)

  datatype Violation =
    | CollectionOnly
    | NoActiveGuards
    | NotSelected(guard: string)
    | WasDeselected(nodeid: string)
    | Unexpected(nodeid: string)
    | MarkerPolicy(nodeid: string, reason: Reason)
    | PhaseReports(nodeid: string, phase: Phase)
    | XfailOutcome(nodeid: string)
    | EmittedWarning(warning: Warning)

  datatype Node = Node(guards: seq<string>, markers: seq<Detail>, nodeid: string,
                       phases: map<Phase, seq<Outcome>>, wasXfail: bool)

  datatype Receipt = Receipt(schema: int, suite: string, platform: Platform, expected: seq<string>,
                             platforms: map<string, Option<Platform>>, passed: bool, deselected: set<string>,
                             violations: set<Violation>, warnings: seq<Warning>, concrete: seq<Node>)

  datatype Line = Garbled(claims: Option<seq<string>>) | Canonical(receipt: Receipt)

  const PHASES: seq<Phase> := [Setup, CallPhase, Teardown]

  const ALL_PASSED: map<Phase, seq<Outcome>> := map[Setup := [Passed], CallPhase := [Passed], Teardown := [Passed]]

  function Nodes(specs: seq<GuardSpec>): (nodes: seq<string>)
    ensures |nodes| == |specs| && forall i :: 0 <= i < |specs| ==> nodes[i] == specs[i].node
  {
    seq(|specs|, i requires 0 <= i < |specs| => specs[i].node)
  }

  /** The platform of each guard; the last declaration wins. */
  function PlatformsOf(specs: seq<GuardSpec>): (m: map<string, Option<Platform>>)
    ensures forall g :: g in m <==> g in Nodes(specs)
  {
    if specs == [] then map[] else
      var n := |specs| - 1;
      assert Nodes(specs) == Nodes(specs[..n]) + [specs[n].node];
      PlatformsOf(specs[..n])[specs[n].node := specs[n].platform]
  }

  // ---------------------------------------------------------------- producer

  predicate GoodFilters(args: seq<Arg>) {
    args != [] && forall i :: 0 <= i < |args| ==> args[i].Text? && ErrorFilter(args[i].text)
  }

  function FilterDetails(marks: seq<Mark>): seq<Detail> {
    if marks == [] then [] else
      (if marks[0].FilterWarnings? && !marks[0].keywords && GoodFilters(marks[0].args)
       then [Filters(marks[0].args)] else []) + FilterDetails(marks[1..])
  }

  function FilterReasons(marks: seq<Mark>): set<Reason> {
    (if Forbidden in marks then {ForbiddenMarker} else {}) +
    (if exists i :: 0 <= i < |marks| && marks[i].FilterWarnings? && (marks[i].keywords || !GoodFilters(marks[i].args))
     then {SuppressiveFilter} else {})
  }

  function SkipMarks(marks: seq<Mark>): (skips: seq<Mark>)
    ensures forall m :: m in skips ==> m.SkipIf?
  {
    if marks == [] then [] else (if marks[0].SkipIf? then [marks[0]] else []) + SkipMarks(marks[1..])
  }

  predicate GoodSkip(m: Mark) {
    m.SkipIf? && m.falseOnly && m.reasonOnly && m.reason.Some? && Strip(m.reason.value) != ""
  }

  /** The recorded marker details of one item and the policy violations it commits. */
  function MarkerDetails(marks: seq<Mark>, scope: Option<Platform>, key: Detail -> real): (seq<Detail>, set<Reason>) {
    var skips := SkipMarks(marks);
    var (skipDetail, skipReasons) :=
      if scope.None? then ([], if skips != [] then {SkipUnscoped} else {})
      else if |skips| != 1 then ([], {SkipCount})
      else if !GoodSkip(skips[0]) then ([], {SkipMalformed})
      else ([Skip(true, skips[0].reason, scope)], {});
    (Sort(FilterDetails(marks) + skipDetail, key), FilterReasons(marks) + skipReasons)
  }

  function MatchesOf(expected: seq<GuardSpec>, nodeid: string): set<string> {
    set g | g in Nodes(expected) && Matches(g, nodeid)
  }

  function ScopesOf(expected: seq<GuardSpec>, guards: set<string>): set<Option<Platform>> {
    set g | g in guards && g in PlatformsOf(expected) :: PlatformsOf(expected)[g]
  }

  /** The one scope shared by these guards. */
  function TheScope(expected: seq<GuardSpec>, guards: set<string>): (scope: Option<Platform>)
    requires |ScopesOf(expected, guards)| == 1
    ensures ScopesOf(expected, guards) == {scope}
  {
    Singleton(ScopesOf(expected, guards));
    var scope :| scope in ScopesOf(expected, guards);
    scope
  }

  datatype Item = Item(nodeid: string, marks: seq<Mark>)

  /** Which concrete nodes each guard selected, and back. */
  datatype Links = Links(guardToConcrete: map<string, set<string>>, concreteToGuards: map<string, set<string>>) {
    function Add(nodeid: string, guards: set<string>): Links {
      var known := if nodeid in concreteToGuards then concreteToGuards[nodeid] else {};
      Links(map g | g in guardToConcrete ::
              if g in guards then guardToConcrete[g] + {nodeid} else guardToConcrete[g],
            concreteToGuards[nodeid := known + guards])
    }
  }

  /** Recorded marker details and marker-policy violations. */
  datatype Marks = Marks(markers: map<string, seq<Detail>>, violations: map<string, set<Reason>>) {
    function ReasonsAt(nodeid: string): set<Reason> {
      if nodeid in violations then violations[nodeid] else {}
    }

    function Blame(nodeid: string, reasons: set<Reason>): Marks {
      this.(violations := violations[nodeid := ReasonsAt(nodeid) + reasons])
    }

    /** The item's markers are recorded against the one scope of its guards. */
    function Add(specs: seq<GuardSpec>, item: Item, guards: set<string>, key: Detail -> real): Marks {
      if |ScopesOf(specs, guards)| != 1 then Blame(item.nodeid, {ScopeConflict}) else
        var (details, reasons) := MarkerDetails(item.marks, TheScope(specs, guards), key);
        this.(markers := markers[item.nodeid := details]).Blame(item.nodeid, reasons)
    }
  }

  /** Everything else the hooks accumulate. */
  datatype Log = Log(phases: map<(string, Phase), seq<Outcome>>, wasXfail: set<string>, deselected: set<string>,
                     unexpected: set<string>, warnings: seq<Warning>)
  {
    function PhaseAt(nodeid: string, phase: Phase): seq<Outcome> {
      if (nodeid, phase) in phases then phases[(nodeid, phase)] else []
    }
  }

  datatype Config = Config(suite: string, platform: Platform, expected: seq<GuardSpec>, collectOnly: bool)

  /** The guard-execution state between pytest hooks. */
  datatype State = State(config: Config, links: Links, marks: Marks, log: Log) {
    function Bind(item: Item, key: Detail -> real): State {
      var guards := MatchesOf(config.expected, item.nodeid);
      if guards == {} then this.(log := log.(unexpected := log.unexpected + {item.nodeid}))
      else this.(links := links.Add(item.nodeid, guards), marks := marks.Add(config.expected, item, guards, key))
    }

    function Report(nodeid: string, phase: Phase, outcome: Outcome, xfail: bool): State {
      if nodeid !in links.concreteToGuards then this else
        this.(log := log.(phases := log.phases[(nodeid, phase) := log.PhaseAt(nodeid, phase) + [outcome]],
                          wasXfail := if xfail then log.wasXfail + {nodeid} else log.wasXfail))
    }

    function Deselect(nodeid: string): State {
      if MatchesOf(config.expected, nodeid) == {} then this
      else this.(log := log.(deselected := log.deselected + {nodeid}))
    }

    function Warn(warning: Warning): State {
      if MatchesOf(config.expected, warning.nodeid) == {} then this
      else this.(log := log.(warnings := log.warnings + [warning]))
    }

    function Violations(): set<Violation> {
      (if config.collectOnly then {CollectionOnly} else {}) +
      (if config.expected == [] then {NoActiveGuards} else {}) +
      (set g | g in links.guardToConcrete && links.guardToConcrete[g] == {} :: NotSelected(g)) +
      (set n | n in log.deselected :: WasDeselected(n)) +
      (set n | n in log.unexpected :: Unexpected(n)) +
      (set n, r | n in marks.violations && r in marks.violations[n] :: MarkerPolicy(n, r)) +
      (set n, p | n in links.concreteToGuards && p in PHASES && log.PhaseAt(n, p) != [Passed] :: PhaseReports(n, p)) +
      (set n | n in links.concreteToGuards && n in log.wasXfail :: XfailOutcome(n)) +
      (set w | w in log.warnings :: EmittedWarning(w))
    }

    /** The receipt entry of one concrete node, given a listing of its guards. */
    function NodeFor(nodeid: string, guards: seq<string>): Node {
      Node(guards, if nodeid in marks.markers then marks.markers[nodeid] else [], nodeid,
           map[Setup := log.PhaseAt(nodeid, Setup), CallPhase := log.PhaseAt(nodeid, CallPhase),
               Teardown := log.PhaseAt(nodeid, Teardown)],
           nodeid in log.wasXfail)
    }
  }

  lemma Singleton<T>(s: set<T>)
    requires |s| == 1
    ensures exists x :: x in s && s == {x}
  {
    var x :| x in s;
    assert |s - {x}| == 0;
    assert s == {x};
  }

  function Start(config: Config): State {
    State(config, Links(map g | g in Nodes(config.expected) :: {}, map[]), Marks(map[], map[]),
          Log(map[], {}, {}, {}, []))
  }

  /** A duplicate-free listing of a set. */
  ghost predicate Lists<T(!new)>(list: seq<T>, s: set<T>) {
    (forall x :: x in list <==> x in s) && forall i, j :: 0 <= i < j < |list| ==> list[i] != list[j]
  }

  /** The receipt of a state: built node by node, passed exactly when nothing was violated. */
  ghost predicate ReceiptOf(st: State, r: Receipt) {
    && r.schema == 3 && r.suite == st.config.suite && r.platform == st.config.platform
    && r.expected == Nodes(st.config.expected) && r.platforms == PlatformsOf(st.config.expected)
    && r.violations == st.Violations() && (r.passed <==> st.Violations() == {})
    && r.deselected == st.log.deselected && multiset(r.warnings) == multiset(st.log.warnings)
    && NodesOf(st, st.links.concreteToGuards.Keys, r.concrete)
  }

  /** One entry for each of these nodes, each with a listing of its guards. */
  ghost predicate NodesOf(st: State, ids: set<string>, nodes: seq<Node>) {
    && (forall i :: 0 <= i < |nodes| ==>
          && nodes[i].nodeid in ids && nodes[i].nodeid in st.links.concreteToGuards
          && Lists(nodes[i].guards, st.links.concreteToGuards[nodes[i].nodeid])
          && nodes[i] == st.NodeFor(nodes[i].nodeid, nodes[i].guards))
    && (forall n :: n in ids ==> exists i :: 0 <= i < |nodes| && nodes[i].nodeid == n)
    && DistinctIds(nodes)
  }

  // ---------------------------------------------------------------- validator

  predicate DetailOk(d: Detail, scope: Option<Platform>, platform: Platform) {
    match d
    case Filters(values) => GoodFilters(values)
    case Skip(conditionFalse, why, target) =>
      scope == Some(platform) && target == scope && conditionFalse && why.Some? && Strip(why.value) != ""
    case UnknownDetail => false
  }

  predicate IsSkip(d: Detail) { d.Skip? }

  function SkipCountOf(details: seq<Detail>): nat { Count(details, IsSkip) }

  /** What the validator requires of one node's marker details. */
  ghost predicate MarkersOk(details: seq<Detail>, scope: Option<Platform>, platform: Platform, key: Detail -> real) {
    && (forall i :: 0 <= i < |details| ==> DetailOk(details[i], scope, platform))
    && Sorted(details, key)
    && SkipCountOf(details) == (if scope.Some? then 1 else 0)
  }

  ghost predicate NodeOk(n: Node, expected: seq<string>, platforms: map<string, Option<Platform>>, platform: Platform,
                         key: Detail -> real)
  {
    && n.guards != []
    && (forall i :: 0 <= i < |n.guards| ==> n.guards[i] in expected && n.guards[i] in platforms)
    && !n.wasXfail
    && (forall i :: 0 <= i < |n.guards| ==> platforms[n.guards[i]] == platforms[n.guards[0]])
    && MarkersOk(n.markers, platforms[n.guards[0]], platform, key)
    && n.phases == ALL_PASSED
    && exists i :: 0 <= i < |n.guards| && BoundTo(n.guards[i], n.nodeid)
  }

  /** The judgement of one node, as a value. */
  ghost function Judge(expected: seq<string>, platforms: map<string, Option<Platform>>, platform: Platform,
                       key: Detail -> real): Node -> bool
  {
    n => NodeOk(n, expected, platforms, platform, key)
  }

  ghost predicate NodesOk(nodes: seq<Node>, judge: Node -> bool) {
    (forall i :: 0 <= i < |nodes| ==> judge(nodes[i])) && DistinctIds(nodes)
  }

  ghost predicate DistinctIds(nodes: seq<Node>) {
    forall i, j :: 0 <= i < j < |nodes| ==> nodes[i].nodeid != nodes[j].nodeid
  }

  ghost predicate Covers(nodes: seq<Node>, expected: seq<string>) {
    forall g :: g in expected ==> exists i :: 0 <= i < |nodes| && g in nodes[i].guards
  }

  ghost predicate ReceiptAccepted(r: Receipt, suite: string, expected: seq<string>,
                                  platforms: map<string, Option<Platform>>, platform: Platform, key: Detail -> real)
  {
    && r.schema == 3 && r.suite == suite && r.platform == platform
    && r.expected == expected && r.platforms == platforms && r.passed
    && r.deselected == {} && r.violations == {} && r.warnings == []
    && r.concrete != []
    && NodesOk(r.concrete, Judge(expected, platforms, platform, key))
    && Covers(r.concrete, expected)
  }

  function Claims(line: Line): Option<seq<string>> {
    if line.Canonical? then Some(line.receipt.expected) else line.claims
  }

  function Select(lines: seq<Line>, expected: seq<string>): seq<Line> {
    if lines == [] then [] else
      (if Claims(lines[0]) == Some(expected) then [lines[0]] else []) + Select(lines[1..], expected)
  }

  /** Exactly one receipt line, canonical, and acceptable. */
  ghost predicate OutputAccepted(lines: seq<Line>, siblings: bool, suite: string, expected: seq<string>,
                                 platforms: map<string, Option<Platform>>, platform: Platform, key: Detail -> real)
  {
    var kept := if siblings then Select(lines, expected) else lines;
    && |kept| == 1 && kept[0].Canonical?
    && ReceiptAccepted(kept[0].receipt, suite, expected, platforms, platform, key)
  }

  method CheckMarkers(details: seq<Detail>, scope: Option<Platform>, platform: Platform, key: Detail -> real)
    returns (ok: bool)
    ensures ok <==> MarkersOk(details, scope, platform, key)
  {
    var skips := 0;
    var normalized := [];
    for i := 0 to |details|
      invariant forall j :: 0 <= j < i ==> DetailOk(details[j], scope, platform)
      invariant skips == SkipCountOf(details[..i])
      invariant normalized == details[..i]
    {
      if !DetailOk(details[i], scope, platform) {
        return false;
      }
      assert details[..i + 1] == details[..i] + [details[i]];
      CountAppend(details[..i], details[i], IsSkip);
      if details[i].Skip? {
        skips := skips + 1;
      }
      normalized := normalized + [details[i]];
    }
    assert details[..|details|] == details;
    SortFixes(details, key);
    if details != Sort(normalized, key) {
      return false;
    }
    return skips == if scope.Some? then 1 else 0;
  }

  method CheckNode(n: Node, expected: seq<string>, platforms: map<string, Option<Platform>>, platform: Platform,
                   key: Detail -> real) returns (ok: bool)
    ensures ok <==> NodeOk(n, expected, platforms, platform, key)
  {
    if n.guards == [] || exists i :: 0 <= i < |n.guards| && (n.guards[i] !in expected || n.guards[i] !in platforms) {
      return false;
    }
    if n.wasXfail {
      return false;
    }
    var scope := platforms[n.guards[0]];
    if exists i :: 0 <= i < |n.guards| && platforms[n.guards[i]] != scope {
      return false;
    }
    ok := CheckMarkers(n.markers, scope, platform, key);
    if !ok || n.phases != ALL_PASSED {
      return false;
    }
    return exists i :: 0 <= i < |n.guards| && BoundTo(n.guards[i], n.nodeid);
  }

  /** The guards named by a list of nodes. */
  function GuardsNamed(nodes: seq<Node>): set<string> {
    if nodes == [] then {} else GuardsNamed(nodes[..|nodes| - 1]) + Members(nodes[|nodes| - 1].guards)
  }

  lemma {:induction false} GuardsNamedMembers(nodes: seq<Node>)
    ensures forall g :: g in GuardsNamed(nodes) <==> exists i :: 0 <= i < |nodes| && g in nodes[i].guards
  {
    if nodes != [] {
      var n := |nodes| - 1;
      GuardsNamedMembers(nodes[..n]);
      forall g ensures g in GuardsNamed(nodes) <==> exists i :: 0 <= i < |nodes| && g in nodes[i].guards {
        if g in GuardsNamed(nodes[..n]) {
          var i :| 0 <= i < n && g in nodes[..n][i].guards;
          assert g in nodes[i].guards;
        }
        if exists i :: 0 <= i < |nodes| && g in nodes[i].guards {
          var i :| 0 <= i < |nodes| && g in nodes[i].guards;
          assert i < n ==> g in nodes[..n][i].guards;
        }
      }
    }
  }

  function IdsNamed(nodes: seq<Node>): set<string> {
    if nodes == [] then {} else IdsNamed(nodes[..|nodes| - 1]) + {nodes[|nodes| - 1].nodeid}
  }

  lemma {:induction false} IdsNamedMembers(nodes: seq<Node>)
    ensures forall i :: 0 <= i < |nodes| ==> nodes[i].nodeid in IdsNamed(nodes)
    ensures forall id :: id in IdsNamed(nodes) ==> exists i :: 0 <= i < |nodes| && nodes[i].nodeid == id
  {
    if nodes != [] {
      var n := |nodes| - 1;
      IdsNamedMembers(nodes[..n]);
      assert forall i :: 0 <= i < n ==> nodes[..n][i] == nodes[i];
    }
  }

  lemma NodesGrow(nodes: seq<Node>, i: nat, judge: Node -> bool)
    requires i < |nodes| && NodesOk(nodes[..i], judge)
    ensures NodesOk(nodes[..i + 1], judge) <==> judge(nodes[i]) && nodes[i].nodeid !in IdsNamed(nodes[..i])
    ensures NodesOk(nodes, judge) ==> NodesOk(nodes[..i + 1], judge)
  {
    var p, q := nodes[..i], nodes[..i + 1];
    assert q[i] == nodes[i] && forall j :: 0 <= j < i ==> q[j] == p[j] == nodes[j];
    IdsNamedMembers(p);
  }

  /** The node loop: every node acceptable, no node twice; the guards seen are returned. */
  method CheckEach(nodes: seq<Node>, expected: seq<string>, platforms: map<string, Option<Platform>>,
                   platform: Platform, key: Detail -> real) returns (ok: bool, bound: set<string>)
    ensures ok <==> NodesOk(nodes, Judge(expected, platforms, platform, key))
    ensures ok ==> bound == GuardsNamed(nodes)
  {
    ghost var judge := Judge(expected, platforms, platform, key);
    bound := {};
    var nodeids: set<string> := {};
    for i := 0 to |nodes|
      invariant NodesOk(nodes[..i], judge)
      invariant nodeids == IdsNamed(nodes[..i]) && bound == GuardsNamed(nodes[..i])
    {
      var n := nodes[i];
      var good := CheckNode(n, expected, platforms, platform, key);
      NodesGrow(nodes, i, judge);
      assert nodes[..i + 1][..i] == nodes[..i];
      if !good || n.nodeid in nodeids {
        return false, {};
      }
      nodeids := nodeids + {n.nodeid};
      bound := bound + Members(n.guards);
    }
    assert nodes[..|nodes|] == nodes;
    ok := true;
  }

  method CheckNodes(nodes: seq<Node>, expected: seq<string>, platforms: map<string, Option<Platform>>,
                    platform: Platform, key: Detail -> real) returns (ok: bool)
    ensures ok <==> NodesOk(nodes, Judge(expected, platforms, platform, key)) && Covers(nodes, expected)
  {
    var bound;
    ok, bound := CheckEach(nodes, expected, platforms, platform, key);
    if ok {
      GuardsNamedMembers(nodes);
      NamedAreExpected(nodes, expected, platforms, platform, key);
      ok := bound == Members(expected);
    }
  }

  lemma NamedAreExpected(nodes: seq<Node>, expected: seq<string>, platforms: map<string, Option<Platform>>,
                         platform: Platform, key: Detail -> real)
    requires NodesOk(nodes, Judge(expected, platforms, platform, key))
    ensures GuardsNamed(nodes) <= Members(expected)
  {
    GuardsNamedMembers(nodes);
    forall g | g in GuardsNamed(nodes) ensures g in expected {
      var i :| 0 <= i < |nodes| && g in nodes[i].guards;
      assert Judge(expected, platforms, platform, key)(nodes[i]);
      KnownGuards(nodes[i], expected, platforms, platform, key);
    }
  }

  lemma KnownGuards(n: Node, expected: seq<string>, platforms: map<string, Option<Platform>>, platform: Platform,
                    key: Detail -> real)
    requires NodeOk(n, expected, platforms, platform, key)
    ensures Members(n.guards) <= Members(expected)
  {
    forall g | g in n.guards ensures g in expected {
      var i :| 0 <= i < |n.guards| && n.guards[i] == g;
    }
  }

  /** The validator: accepts exactly what OutputAccepted describes. */
  method Validate(lines: seq<Line>, siblings: bool, suite: string, expected: seq<string>,
                  platforms: map<string, Option<Platform>>, platform: Platform, key: Detail -> real)
    returns (ok: bool)
    ensures ok <==> OutputAccepted(lines, siblings, suite, expected, platforms, platform, key)
  {
    var kept := if siblings then Select(lines, expected) else lines;
    if |kept| != 1 || kept[0].Garbled? {
      return false;
    }
    var r := kept[0].receipt;
    if r.schema != 3 || r.suite != suite || r.platform != platform || r.expected != expected ||
      r.platforms != platforms || !r.passed || r.deselected != {} || r.violations != {} || r.warnings != [] ||
      r.concrete == []
    {
      return false;
    }
    ok := CheckNodes(r.concrete, expected, platforms, platform, key);
  }
}
