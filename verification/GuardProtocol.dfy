/** The two halves of the guard-receipt protocol on what a receipt says: for every history of
    pytest hooks, the receipt the producer builds is acceptable exactly when nothing was violated
    and every expected guard is scoped to the platform that ran. */
module GuardProtocol {
  import opened Counting
  import opened GuardText
  import opened Ordering
  import opened GuardReceipt

  // ---------------------------------------------------------------- the producer object

  /** The producer's mutable state, updated by pytest hooks. */
  class GuardState {
    const config: Config
    var guardToConcrete: map<string, set<string>>
    var concreteToGuards: map<string, set<string>>
    var markers: map<string, seq<Detail>>
    var markerViolations: map<string, set<Reason>>
    var phases: map<(string, Phase), seq<Outcome>>
    var wasXfail: set<string>
    var deselected: set<string>
    var unexpected: set<string>
    var warnings: seq<Warning>

    function Model(): State
      reads this
    {
      State(config, Links(guardToConcrete, concreteToGuards), Marks(markers, markerViolations),
            Log(phases, wasXfail, deselected, unexpected, warnings))
    }

    constructor (config: Config)
      ensures Model() == Start(config)
    {
      this.config := config;
      guardToConcrete := map g | g in Nodes(config.expected) :: {};
      concreteToGuards, markers, markerViolations, phases := map[], map[], map[], map[];
      wasXfail, deselected, unexpected, warnings := {}, {}, {}, [];
    }

    method Blame(nodeid: string, reasons: set<Reason>)
      modifies this`markerViolations
      ensures Model().marks == old(Model()).marks.Blame(nodeid, reasons)
    {
      var known := if nodeid in markerViolations then markerViolations[nodeid] else {};
      markerViolations := markerViolations[nodeid := known + reasons];
    }

    /** One item is linked to its matching guards, guard by guard. */
    method LinkItem(nodeid: string, guards: set<string>)
      requires guards != {}
      modifies this`guardToConcrete, this`concreteToGuards
      ensures Model().links == old(Model()).links.Add(nodeid, guards)
    {
      var pending := guards;
      ghost var done := {};
      while pending != {}
        invariant pending <= guards && done == guards - pending
        invariant Extended(old(guardToConcrete), guardToConcrete, nodeid, done)
        invariant concreteToGuards == Gained(old(concreteToGuards), nodeid, done)
        decreases pending
      {
        var g :| g in pending;
        ExtendStep(old(guardToConcrete), guardToConcrete, nodeid, done, g);
        GainStep(old(concreteToGuards), nodeid, done, g);
        if g in guardToConcrete {
          guardToConcrete := guardToConcrete[g := guardToConcrete[g] + {nodeid}];
        }
        concreteToGuards := concreteToGuards[nodeid := SetAt(concreteToGuards, nodeid) + {g}];
        done := done + {g};
        pending := pending - {g};
      }
      assert done == guards;
    }

    method BindItem(item: Item, key: Detail -> real)
      modifies this
      ensures Model() == old(Model()).Bind(item, key)
    {
      var guards := MatchesOf(config.expected, item.nodeid);
      if guards == {} {
        unexpected := unexpected + {item.nodeid};
        return;
      }
      LinkItem(item.nodeid, guards);
      if |ScopesOf(config.expected, guards)| != 1 {
        Blame(item.nodeid, {ScopeConflict});
        return;
      }
      var (details, reasons) := MarkerDetails(item.marks, TheScope(config.expected, guards), key);
      markers := markers[item.nodeid := details];
      Blame(item.nodeid, reasons);
    }

    method LogReport(nodeid: string, phase: Phase, outcome: Outcome, xfail: bool)
      modifies this`phases, this`wasXfail
      ensures Model() == old(Model()).Report(nodeid, phase, outcome, xfail)
    {
      if nodeid !in concreteToGuards {
        return;
      }
      phases := phases[(nodeid, phase) := Model().log.PhaseAt(nodeid, phase) + [outcome]];
      if xfail {
        wasXfail := wasXfail + {nodeid};
      }
    }

    method Deselect(nodeid: string)
      modifies this`deselected
      ensures Model() == old(Model()).Deselect(nodeid)
    {
      if MatchesOf(config.expected, nodeid) != {} {
        deselected := deselected + {nodeid};
      }
    }

    method RecordWarning(warning: Warning)
      modifies this`warnings
      ensures Model() == old(Model()).Warn(warning)
    {
      if MatchesOf(config.expected, warning.nodeid) != {} {
        warnings := warnings + [warning];
      }
    }

    method ListNodes() returns (concrete: seq<Node>)
      ensures NodesOf(Model(), concreteToGuards.Keys, concrete)
    {
      concrete := [];
      ghost var st := Model();
      var pending := concreteToGuards.Keys;
      while pending != {}
        invariant pending <= concreteToGuards.Keys
        invariant NodesOf(st, concreteToGuards.Keys - pending, concrete)
        decreases pending
      {
        var nodeid :| nodeid in pending;
        var guards := ListOf(concreteToGuards[nodeid]);
        NodesOfGrow(st, concreteToGuards.Keys - pending, concrete, nodeid, guards);
        concrete := concrete + [Model().NodeFor(nodeid, guards)];
        assert concreteToGuards.Keys - (pending - {nodeid}) == concreteToGuards.Keys - pending + {nodeid};
        pending := pending - {nodeid};
      }
      assert concreteToGuards.Keys - pending == concreteToGuards.Keys;
    }

    method BuildReceipt() returns (r: Receipt)
      ensures ReceiptOf(Model(), r)
    {
      var violations := Model().Violations();
      var concrete := ListNodes();
      r := Receipt(3, config.suite, config.platform, Nodes(config.expected), PlatformsOf(config.expected),
                   violations == {}, deselected, violations, warnings, concrete);
    }
  }

  /** The guards done so far have gained the node. */
  ghost predicate Extended(was: map<string, set<string>>, now: map<string, set<string>>, nodeid: string,
                           done: set<string>)
  {
    && (forall g :: g in now <==> g in was)
    && forall g :: g in was ==> now[g] == (if g in done then was[g] + {nodeid} else was[g])
  }

  function SetAt(m: map<string, set<string>>, n: string): set<string> { if n in m then m[n] else {} }

  /** The node has gained the guards done so far. */
  ghost function Gained(was: map<string, set<string>>, nodeid: string, done: set<string>): map<string, set<string>> {
    if done == {} then was else was[nodeid := SetAt(was, nodeid) + done]
  }

  lemma GainStep(was: map<string, set<string>>, nodeid: string, done: set<string>, g: string)
    ensures var now := Gained(was, nodeid, done);
            Gained(was, nodeid, done + {g}) == now[nodeid := SetAt(now, nodeid) + {g}]
  {
    var now := Gained(was, nodeid, done);
    var gained := SetAt(was, nodeid) + (done + {g});
    assert SetAt(now, nodeid) + {g} == gained;
    assert now[nodeid := gained] == was[nodeid := gained];
  }

  lemma ExtendStep(was: map<string, set<string>>, now: map<string, set<string>>, nodeid: string, done: set<string>,
                   g: string)
    requires Extended(was, now, nodeid, done)
    ensures Extended(was, if g in now then now[g := now[g] + {nodeid}] else now, nodeid, done + {g})
  {
  }

  lemma NodesOfGrow(st: State, ids: set<string>, nodes: seq<Node>, n: string, guards: seq<string>)
    requires NodesOf(st, ids, nodes) && n !in ids
    requires n in st.links.concreteToGuards && Lists(guards, st.links.concreteToGuards[n])
    ensures NodesOf(st, ids + {n}, nodes + [st.NodeFor(n, guards)])
  {
    var more := nodes + [st.NodeFor(n, guards)];
    assert more[|nodes|].nodeid == n && forall i :: 0 <= i < |nodes| ==> more[i] == nodes[i];
    forall m | m in ids + {n} ensures exists i :: 0 <= i < |more| && more[i].nodeid == m {
      if m != n {
        var i :| 0 <= i < |nodes| && nodes[i].nodeid == m;
        assert more[i].nodeid == m;
      }
    }
  }

  method ListOf(s: set<string>) returns (list: seq<string>)
    ensures Lists(list, s)
  {
    list := [];
    var pending := s;
    while pending != {}
      invariant pending <= s && Lists(list, s - pending)
      decreases pending
    {
      var x :| x in pending;
      list := list + [x];
      pending := pending - {x};
    }
    assert s - pending == s;
  }

  // ---------------------------------------------------------------- histories

  datatype Event =
    | Bound(item: Item)
    | Reported(nodeid: string, phase: Phase, outcome: Outcome, xfail: bool)
    | Deselected(nodeid: string)
    | Warned(warning: Warning)

  function Step(st: State, e: Event, key: Detail -> real): State {
    match e
    case Bound(item) => st.Bind(item, key)
    case Reported(nodeid, phase, outcome, xfail) => st.Report(nodeid, phase, outcome, xfail)
    case Deselected(nodeid) => st.Deselect(nodeid)
    case Warned(warning) => st.Warn(warning)
  }

  function Run(start: State, events: seq<Event>, key: Detail -> real): State {
    if events == [] then start else Step(Run(start, events[..|events| - 1], key), events[|events| - 1], key)
  }

  // ---------------------------------------------------------------- marker details

  /** Details fit for a node of this scope, on the scope's own platform. */
  ghost predicate DetailsSound(details: seq<Detail>, scope: Option<Platform>, key: Detail -> real) {
    MarkersOk(details, scope, if scope.Some? then scope.value else Posix, key)
  }

  lemma SoundAnywhere(details: seq<Detail>, scope: Option<Platform>, platform: Platform, key: Detail -> real)
    requires DetailsSound(details, scope, key) && (scope.Some? ==> scope.value == platform)
    ensures MarkersOk(details, scope, platform, key)
  {
    forall i | 0 <= i < |details| ensures DetailOk(details[i], scope, platform) {
      assert DetailOk(details[i], scope, if scope.Some? then scope.value else Posix);
    }
  }

  lemma {:induction false} FilterDetailsGood(marks: seq<Mark>)
    ensures forall d :: d in FilterDetails(marks) ==> d.Filters? && GoodFilters(d.values)
    ensures SkipCountOf(FilterDetails(marks)) == 0
  {
    if marks != [] {
      FilterDetailsGood(marks[1..]);
    }
    CountZero(FilterDetails(marks), IsSkip);
    assert forall i :: 0 <= i < |FilterDetails(marks)| ==> FilterDetails(marks)[i] in FilterDetails(marks);
  }

  lemma MarkerDetailsSound(marks: seq<Mark>, scope: Option<Platform>, key: Detail -> real)
    requires MarkerDetails(marks, scope, key).1 == {}
    ensures DetailsSound(MarkerDetails(marks, scope, key).0, scope, key)
  {
    var filters, skips := FilterDetails(marks), SkipMarks(marks);
    FilterDetailsGood(marks);
    var raw := filters + if scope.None? then [] else [Skip(true, skips[0].reason, scope)];
    if scope.None? {
      assert raw == filters;
    } else {
      CountAppend(filters, raw[|filters|], IsSkip);
    }
    SortSorts(raw, key);
    SortCount(raw, key, IsSkip);
    var details := Sort(raw, key);
    forall i | 0 <= i < |details| ensures DetailOk(details[i], scope, if scope.Some? then scope.value else Posix) {
      assert details[i] in details && details[i] in raw;
    }
  }

  // ---------------------------------------------------------------- the invariant

  /** Guards and nodes point at each other, and a node's guards are all that match it. */
  ghost predicate Linked(specs: seq<GuardSpec>, links: Links) {
    && (forall g :: g in links.guardToConcrete <==> g in Nodes(specs))
    && Mutual(links)
    && (forall n :: n in links.concreteToGuards ==>
          links.concreteToGuards[n] == MatchesOf(specs, n) && MatchesOf(specs, n) != {})
  }

  /** A node without a marker violation has one scope and details fit for it. */
  ghost predicate NodeSound(specs: seq<GuardSpec>, marks: Marks, n: string, key: Detail -> real) {
    marks.ReasonsAt(n) == {} ==>
      var guards := MatchesOf(specs, n);
      && |ScopesOf(specs, guards)| == 1
      && n in marks.markers && DetailsSound(marks.markers[n], TheScope(specs, guards), key)
  }

  ghost predicate Marked(specs: seq<GuardSpec>, links: Links, marks: Marks, key: Detail -> real) {
    forall n :: n in links.concreteToGuards ==> NodeSound(specs, marks, n, key)
  }

  ghost predicate Inv(st: State, key: Detail -> real) {
    Linked(st.config.expected, st.links) && Marked(st.config.expected, st.links, st.marks, key)
  }

  /** Every guard of a node's guard list also lists the node, and back. */
  ghost predicate Mutual(links: Links) {
    forall g, n :: g in links.guardToConcrete && n in links.guardToConcrete[g] ==>
      n in links.concreteToGuards && g in links.concreteToGuards[n]
  }

  lemma AddMutual(links: Links, nodeid: string, guards: set<string>)
    requires Mutual(links)
    ensures Mutual(links.Add(nodeid, guards))
  {
  }

  lemma AddKeepsLinks(specs: seq<GuardSpec>, links: Links, nodeid: string)
    requires Linked(specs, links) && MatchesOf(specs, nodeid) != {}
    ensures Linked(specs, links.Add(nodeid, MatchesOf(specs, nodeid)))
  {
    var guards := MatchesOf(specs, nodeid);
    AddMutual(links, nodeid, guards);
    hide Mutual, MatchesOf;
    assert SetAt(links.concreteToGuards, nodeid) + guards == guards;
  }

  lemma AddSound(specs: seq<GuardSpec>, marks: Marks, item: Item, key: Detail -> real)
    ensures NodeSound(specs, marks.Add(specs, item, MatchesOf(specs, item.nodeid), key), item.nodeid, key)
  {
    var guards := MatchesOf(specs, item.nodeid);
    if |ScopesOf(specs, guards)| == 1 && MarkerDetails(item.marks, TheScope(specs, guards), key).1 == {} {
      MarkerDetailsSound(item.marks, TheScope(specs, guards), key);
    }
  }

  lemma AddElsewhere(specs: seq<GuardSpec>, marks: Marks, item: Item, n: string, key: Detail -> real)
    requires n != item.nodeid && NodeSound(specs, marks, n, key)
    ensures NodeSound(specs, marks.Add(specs, item, MatchesOf(specs, item.nodeid), key), n, key)
  {
  }

  lemma BindKeeps(st: State, item: Item, key: Detail -> real)
    requires Inv(st, key)
    ensures Inv(st.Bind(item, key), key)
  {
    var specs := st.config.expected;
    var guards := MatchesOf(specs, item.nodeid);
    if guards != {} {
      AddKeepsLinks(specs, st.links, item.nodeid);
      var links, marks := st.links.Add(item.nodeid, guards), st.marks.Add(specs, item, guards, key);
      forall n | n in links.concreteToGuards ensures NodeSound(specs, marks, n, key) {
        if n == item.nodeid {
          AddSound(specs, st.marks, item, key);
        } else {
          AddElsewhere(specs, st.marks, item, n, key);
        }
      }
    }
  }

  lemma StepKeeps(st: State, e: Event, key: Detail -> real)
    requires Inv(st, key)
    ensures Inv(Step(st, e, key), key) && Step(st, e, key).config == st.config
  {
    if e.Bound? {
      BindKeeps(st, e.item, key);
    }
  }

  lemma {:induction false} RunKeeps(config: Config, events: seq<Event>, key: Detail -> real)
    ensures Inv(Run(Start(config), events, key), key) && Run(Start(config), events, key).config == config
  {
    if events != [] {
      RunKeeps(config, events[..|events| - 1], key);
      StepKeeps(Run(Start(config), events[..|events| - 1], key), events[|events| - 1], key);
    }
  }

  // ---------------------------------------------------------------- agreement

  /** Every expected guard runs on every platform or on this one. */
  ghost predicate Scoped(config: Config) {
    forall g :: g in Nodes(config.expected) ==>
      PlatformsOf(config.expected)[g] == None || PlatformsOf(config.expected)[g] == Some(config.platform)
  }

  /** What the absence of violations says. */
  ghost predicate Clean(st: State) {
    && !st.config.collectOnly && st.config.expected != []
    && (forall g :: g in st.links.guardToConcrete ==> st.links.guardToConcrete[g] != {})
    && st.log.deselected == {} && st.log.unexpected == {} && st.log.warnings == []
    && (forall n :: n in st.marks.violations ==> st.marks.violations[n] == {})
    && (forall n :: n in st.links.concreteToGuards ==>
          n !in st.log.wasXfail && forall p :: st.log.PhaseAt(n, p) == [Passed])
  }

  lemma CleanIsClean(st: State)
    ensures st.Violations() == {} <==> Clean(st)
  {
    var v := st.Violations();
    if g :| g in st.links.guardToConcrete && st.links.guardToConcrete[g] == {} { assert NotSelected(g) in v; }
    if n :| n in st.log.deselected { assert WasDeselected(n) in v; }
    if n :| n in st.log.unexpected { assert Unexpected(n) in v; }
    if st.log.warnings != [] { assert EmittedWarning(st.log.warnings[0]) in v; }
    if n :| n in st.marks.violations && st.marks.violations[n] != {} {
      var r :| r in st.marks.violations[n];
      assert MarkerPolicy(n, r) in v;
    }
    if n :| n in st.links.concreteToGuards && n in st.log.wasXfail { assert XfailOutcome(n) in v; }
    if n, p :| n in st.links.concreteToGuards && st.log.PhaseAt(n, p) != [Passed] {
      assert p == PHASES[0] || p == PHASES[1] || p == PHASES[2];
      assert PhaseReports(n, p) in v;
    }
  }

  /** Every entry of a clean, scoped state's receipt satisfies the validator. */
  lemma CleanNodeAccepted(st: State, node: Node, key: Detail -> real)
    requires Inv(st, key) && Clean(st) && Scoped(st.config)
    requires node.nodeid in st.links.concreteToGuards
    requires Lists(node.guards, st.links.concreteToGuards[node.nodeid]) && node == st.NodeFor(node.nodeid, node.guards)
    ensures NodeOk(node, Nodes(st.config.expected), PlatformsOf(st.config.expected), st.config.platform, key)
  {
    var specs, n := st.config.expected, node.nodeid;
    var guards := MatchesOf(specs, n);
    assert NodeSound(specs, st.marks, n, key);
    assert st.marks.ReasonsAt(n) == {};
    var scope := TheScope(specs, guards);
    forall i | 0 <= i < |node.guards|
      ensures node.guards[i] in guards && PlatformsOf(specs)[node.guards[i]] == scope
    {
      assert node.guards[i] in node.guards;
      assert PlatformsOf(specs)[node.guards[i]] in ScopesOf(specs, guards);
    }
    var g :| g in guards;
    assert g in node.guards;
    SoundAnywhere(st.marks.markers[n], scope, st.config.platform, key);
    MatchesIsBound(node.guards[0], n);
    assert node.phases == ALL_PASSED;
  }

  lemma JudgedAll(st: State, nodes: seq<Node>, key: Detail -> real)
    requires Inv(st, key) && Clean(st) && Scoped(st.config) && NodesOf(st, st.links.concreteToGuards.Keys, nodes)
    ensures NodesOk(nodes, Judge(Nodes(st.config.expected), PlatformsOf(st.config.expected), st.config.platform, key))
  {
    var judge := Judge(Nodes(st.config.expected), PlatformsOf(st.config.expected), st.config.platform, key);
    hide Inv, Clean, Scoped, NodeOk;
    forall i | 0 <= i < |nodes| ensures judge(nodes[i]) {
      CleanNodeAccepted(st, nodes[i], key);
    }
  }

  lemma SomeNode(nodes: seq<Node>, specs: seq<GuardSpec>)
    requires specs != [] && Covers(nodes, Nodes(specs))
    ensures nodes != []
  {
    assert Nodes(specs)[0] in Nodes(specs);
  }

  lemma CleanReceiptAccepted(st: State, r: Receipt, key: Detail -> real)
    requires Inv(st, key) && st.Violations() == {} && Scoped(st.config) && ReceiptOf(st, r)
    ensures ReceiptAccepted(r, st.config.suite, Nodes(st.config.expected), PlatformsOf(st.config.expected),
                            st.config.platform, key)
  {
    hide Inv, Scoped, NodesOf, NodesOk, Covers, Judge;
    CleanIsClean(st);
    JudgedAll(st, r.concrete, key);
    ReceiptCovers(st, r, key);
    SomeNode(r.concrete, st.config.expected);
    assert |multiset(r.warnings)| == |multiset(st.log.warnings)| == 0;
  }

  /** With every guard selected, the receipt names every guard. */
  lemma ReceiptCovers(st: State, r: Receipt, key: Detail -> real)
    requires Inv(st, key) && ReceiptOf(st, r)
    requires forall g :: g in st.links.guardToConcrete ==> st.links.guardToConcrete[g] != {}
    ensures Covers(r.concrete, Nodes(st.config.expected))
  {
    hide NodesOf, Marked, MatchesOf;
    forall g | g in Nodes(st.config.expected) ensures exists i :: 0 <= i < |r.concrete| && g in r.concrete[i].guards {
      assert g in st.links.guardToConcrete;
      var n :| n in st.links.guardToConcrete[g];
      NodeNamesGuard(st, r.concrete, n, g);
    }
  }

  lemma NodeNamesGuard(st: State, nodes: seq<Node>, n: string, g: string)
    requires NodesOf(st, st.links.concreteToGuards.Keys, nodes)
    requires n in st.links.concreteToGuards && g in st.links.concreteToGuards[n]
    ensures exists i :: 0 <= i < |nodes| && g in nodes[i].guards
  {
    var i :| 0 <= i < |nodes| && nodes[i].nodeid == n;
    assert g in nodes[i].guards;
  }

  /** Accepted marker details tie a scoped node to the platform that ran. */
  lemma ScopeIsPlatform(details: seq<Detail>, scope: Option<Platform>, platform: Platform, key: Detail -> real)
    requires MarkersOk(details, scope, platform, key)
    ensures scope.None? || scope == Some(platform)
  {
    if scope.Some? {
      CountOne(details, IsSkip);
      var i :| 0 <= i < |details| && IsSkip(details[i]);
      assert DetailOk(details[i], scope, platform);
    }
  }

  lemma NodeScoped(node: Node, expected: seq<string>, platforms: map<string, Option<Platform>>, platform: Platform,
                   k: nat, key: Detail -> real)
    requires NodeOk(node, expected, platforms, platform, key) && k < |node.guards|
    ensures platforms[node.guards[k]] == None || platforms[node.guards[k]] == Some(platform)
  {
    hide MarkersOk;
    ScopeIsPlatform(node.markers, platforms[node.guards[0]], platform, key);
  }

  lemma AcceptedGuardScoped(nodes: seq<Node>, config: Config, g: string, key: Detail -> real)
    requires NodesOk(nodes, Judge(Nodes(config.expected), PlatformsOf(config.expected), config.platform, key))
    requires Covers(nodes, Nodes(config.expected)) && g in Nodes(config.expected)
    ensures PlatformsOf(config.expected)[g] == None || PlatformsOf(config.expected)[g] == Some(config.platform)
  {
    var expected, platforms := Nodes(config.expected), PlatformsOf(config.expected);
    hide Nodes, PlatformsOf, NodeOk;
    var i :| 0 <= i < |nodes| && g in nodes[i].guards;
    assert Judge(expected, platforms, config.platform, key)(nodes[i]);
    var k :| 0 <= k < |nodes[i].guards| && nodes[i].guards[k] == g;
    NodeScoped(nodes[i], expected, platforms, config.platform, k, key);
  }

  lemma AcceptedIsScoped(config: Config, r: Receipt, key: Detail -> real)
    requires ReceiptAccepted(r, config.suite, Nodes(config.expected), PlatformsOf(config.expected), config.platform,
              key)
    ensures Scoped(config)
  {
    hide NodesOk, Judge, Covers;
    forall g | g in Nodes(config.expected)
      ensures PlatformsOf(config.expected)[g] == None || PlatformsOf(config.expected)[g] == Some(config.platform)
    {
      AcceptedGuardScoped(r.concrete, config, g, key);
    }
  }

  /** On every history the validator accepts the producer's receipt, once it has read it,
      exactly when the producer saw no violation and every expected guard is scoped to the
      platform that ran. */
  lemma ReceiptAgrees(config: Config, events: seq<Event>, r: Receipt, siblings: bool,
                      key: Detail -> real)
    requires ReceiptOf(Run(Start(config), events, key), r)
    ensures OutputAccepted([Canonical(r)], siblings, config.suite, Nodes(config.expected),
                           PlatformsOf(config.expected), config.platform, key)
            <==> Run(Start(config), events, key).Violations() == {} && Scoped(config)
  {
    RunKeeps(config, events, key);
    var st := Run(Start(config), events, key);
    assert Select([Canonical(r)], Nodes(config.expected)) == [Canonical(r)];
    if st.Violations() == {} && Scoped(config) {
      CleanReceiptAccepted(st, r, key);
    }
    if ReceiptAccepted(r, config.suite, Nodes(config.expected), PlatformsOf(config.expected), config.platform, key) {
      AcceptedIsScoped(config, r, key);
    }
  }

  /** This node matches the guard and passed each phase exactly once, with no xfail. */
  ghost predicate Ran(st: State, g: string, n: string) {
    && n in st.links.concreteToGuards && Matches(g, n) && n !in st.log.wasXfail
    && forall p :: st.log.PhaseAt(n, p) == [Passed]
  }

  lemma CleanGuardsRan(st: State, g: string, key: Detail -> real)
    requires Inv(st, key) && Clean(st) && g in Nodes(st.config.expected)
    ensures exists n :: Ran(st, g, n)
  {
    assert g in st.links.guardToConcrete;
    var n :| n in st.links.guardToConcrete[g];
    assert g in MatchesOf(st.config.expected, n);
    assert Ran(st, g, n);
  }

  /** Acceptance of a produced receipt means every expected guard ran. */
  lemma AcceptedGuardsRan(config: Config, events: seq<Event>, r: Receipt, siblings: bool,
                          key: Detail -> real)
    requires ReceiptOf(Run(Start(config), events, key), r)
    requires OutputAccepted([Canonical(r)], siblings, config.suite, Nodes(config.expected),
                            PlatformsOf(config.expected), config.platform, key)
    ensures forall g :: g in Nodes(config.expected) ==> exists n :: Ran(Run(Start(config), events, key), g, n)
  {
    ReceiptAgrees(config, events, r, siblings, key);
    RunKeeps(config, events, key);
    var st := Run(Start(config), events, key);
    CleanIsClean(st);
    forall g | g in Nodes(config.expected) ensures exists n :: Ran(st, g, n) {
      CleanGuardsRan(st, g, key);
    }
  }
}
