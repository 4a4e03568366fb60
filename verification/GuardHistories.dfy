/** The guard-receipt protocol from the hooks alone: which histories of pytest events record no
    violation, and so which are accepted, told from the events without the producer's state. */
module GuardHistories {
  import opened Counting
  import opened GuardText
  import opened GuardNames
  import opened GuardReceipt
  import opened GuardProtocol
  import opened GuardOutput
  import opened Ordering

  // ------------------------------------------------------------ one item

  ghost predicate ProperFilter(m: Mark)
    requires m.FilterWarnings?
  {
    !m.keywords && m.args != [] &&
    forall k :: 0 <= k < |m.args| ==> m.args[k].Text? && ErrorAction(m.args[k].text)
  }

  ghost predicate ProperSkip(m: Mark)
    requires m.SkipIf?
  {
    m.falseOnly && m.reasonOnly && m.reason.Some? && !Blank(m.reason.value)
  }

  /** No skipif without a platform, and exactly one proper one with a platform. */
  ghost predicate SkipsFit(marks: seq<Mark>, scope: Option<Platform>) {
    if scope.None? then forall i :: 0 <= i < |marks| ==> !marks[i].SkipIf?
    else exists i :: 0 <= i < |marks| && marks[i].SkipIf? && ProperSkip(marks[i]) &&
                     forall j :: 0 <= j < |marks| && marks[j].SkipIf? ==> j == i
  }

  ghost predicate ProperMarks(marks: seq<Mark>, scope: Option<Platform>) {
    && (forall i :: 0 <= i < |marks| ==> !marks[i].Forbidden?)
    && (forall i :: 0 <= i < |marks| && marks[i].FilterWarnings? ==> ProperFilter(marks[i]))
    && SkipsFit(marks, scope)
  }

  /** Some expected guard names this node. */
  ghost predicate Selects(specs: seq<GuardSpec>, nodeid: string) {
    exists k :: 0 <= k < |specs| && Matches(specs[k].node, nodeid)
  }

  /** The last declaration of the guard gives it this platform. */
  ghost predicate Declares(specs: seq<GuardSpec>, g: string, scope: Option<Platform>) {
    exists k :: LastSpec(specs, g, k) && specs[k].platform == scope
  }

  ghost predicate LastSpec(specs: seq<GuardSpec>, g: string, k: int) {
    0 <= k < |specs| && specs[k].node == g && forall j :: k < j < |specs| ==> specs[j].node != g
  }

  /** Every guard that names the node has this platform. */
  ghost predicate OneScope(specs: seq<GuardSpec>, nodeid: string, scope: Option<Platform>) {
    forall k :: 0 <= k < |specs| && Matches(specs[k].node, nodeid) ==> Declares(specs, specs[k].node, scope)
  }

  ghost predicate ProperItem(specs: seq<GuardSpec>, item: Item) {
    Selects(specs, item.nodeid) &&
    exists scope :: OneScope(specs, item.nodeid, scope) && ProperMarks(item.marks, scope)
  }

  // ------------------------------------------------------------ one history

  predicate Binds(e: Event, n: string) { e.Bound? && e.item.nodeid == n }

  ghost predicate BoundIn(events: seq<Event>, n: string) { exists i :: 0 <= i < |events| && Binds(events[i], n) }

  /** A report of a phase of a node that was bound before. */
  ghost predicate Reports(events: seq<Event>, i: int, n: string, p: Phase) {
    0 <= i < |events| && events[i].Reported? && events[i].nodeid == n && events[i].phase == p && BoundIn(events[..i], n)
  }

  /** One report, and it passed without an xfail. */
  ghost predicate RanOnce(events: seq<Event>, n: string, p: Phase) {
    exists i :: Reports(events, i, n, p) && events[i].outcome == Passed && !events[i].xfail &&
                forall j :: Reports(events, j, n, p) ==> j == i
  }

  /** Some item of the history belongs to this guard. */
  ghost predicate Chosen(events: seq<Event>, guard: string) {
    exists i :: 0 <= i < |events| && events[i].Bound? && Matches(guard, events[i].item.nodeid)
  }

  ghost predicate CleanHistory(config: Config, events: seq<Event>) {
    && !config.collectOnly && config.expected != []
    && (forall i :: 0 <= i < |events| && events[i].Bound? ==> ProperItem(config.expected, events[i].item))
    && AllChosen(config, events)
    && (forall i :: 0 <= i < |events| && events[i].Deselected? ==> !Selects(config.expected, events[i].nodeid))
    && (forall i :: 0 <= i < |events| && events[i].Warned? ==> !Selects(config.expected, events[i].warning.nodeid))
    && AllRan(events)
  }

  ghost predicate AllChosen(config: Config, events: seq<Event>) {
    forall k :: 0 <= k < |config.expected| ==> Chosen(events, config.expected[k].node)
  }

  ghost predicate AllRan(events: seq<Event>) {
    forall i, p :: 0 <= i < |events| && events[i].Bound? ==> RanOnce(events, events[i].item.nodeid, p)
  }

  // ------------------------------------------------------------ the policy of one item

  lemma FiltersMean(m: Mark)
    requires m.FilterWarnings?
    ensures !m.keywords && GoodFilters(m.args) <==> ProperFilter(m)
  {
    forall k | 0 <= k < |m.args| && m.args[k].Text?
      ensures ErrorFilter(m.args[k].text) <==> ErrorAction(m.args[k].text)
    {
      ErrorFilterMeans(m.args[k].text);
    }
    hide ErrorFilter, ErrorAction;
  }

  lemma FilterReasonsMean(marks: seq<Mark>)
    ensures FilterReasons(marks) == {} <==>
            && (forall i :: 0 <= i < |marks| ==> !marks[i].Forbidden?)
            && forall i :: 0 <= i < |marks| && marks[i].FilterWarnings? ==> ProperFilter(marks[i])
  {
    forall i | 0 <= i < |marks| && marks[i].FilterWarnings?
      ensures marks[i].keywords || !GoodFilters(marks[i].args) <==> !ProperFilter(marks[i])
    {
      FiltersMean(marks[i]);
    }
    assert Forbidden in marks <==> exists i :: 0 <= i < |marks| && marks[i].Forbidden?;
    hide GoodFilters, ProperFilter;
    if FilterReasons(marks) == {} {
      assert ForbiddenMarker !in FilterReasons(marks) && SuppressiveFilter !in FilterReasons(marks);
    }
  }

  lemma {:induction false} SkipMarksNone(marks: seq<Mark>)
    ensures SkipMarks(marks) == [] <==> forall i :: 0 <= i < |marks| ==> !marks[i].SkipIf?
  {
    if marks != [] {
      SkipMarksNone(marks[1..]);
      assert forall i :: 1 <= i < |marks| ==> marks[i] == marks[1..][i - 1];
      assert forall i :: 0 <= i < |marks| - 1 ==> marks[1..][i] == marks[i + 1];
    }
  }

  ghost predicate OnlySkip(marks: seq<Mark>, i: int) {
    0 <= i < |marks| && marks[i].SkipIf? && forall j :: 0 <= j < |marks| && marks[j].SkipIf? ==> j == i
  }

  /** The filtered list has one element exactly when one mark is a skipif, and it is that one. */
  lemma {:induction false} SkipMarksOne(marks: seq<Mark>)
    ensures |SkipMarks(marks)| == 1 ==> exists i :: OnlySkip(marks, i)
    ensures forall i :: OnlySkip(marks, i) ==> SkipMarks(marks) == [marks[i]]
  {
    if marks != [] {
      var rest := marks[1..];
      SkipMarksOne(rest);
      SkipMarksNone(rest);
      assert forall i :: 1 <= i < |marks| ==> marks[i] == rest[i - 1];
      assert forall i :: 0 <= i < |rest| ==> rest[i] == marks[i + 1];
      if |SkipMarks(marks)| == 1 {
        if marks[0].SkipIf? {
          assert OnlySkip(marks, 0);
        } else {
          var i :| OnlySkip(rest, i);
          assert OnlySkip(marks, i + 1);
        }
      }
      forall i | OnlySkip(marks, i) ensures SkipMarks(marks) == [marks[i]] {
        if i > 0 {
          assert OnlySkip(rest, i - 1);
          assert SkipMarks(rest) == [rest[i - 1]];
        } else {
          assert SkipMarks(rest) == [];
        }
      }
    }
  }

  lemma SkipsMean(marks: seq<Mark>, scope: Option<Platform>)
    ensures var skips := SkipMarks(marks);
            SkipsFit(marks, scope) <==>
            if scope.None? then skips == [] else |skips| == 1 && GoodSkip(skips[0])
  {
    SkipMarksNone(marks);
    SkipMarksOne(marks);
    forall m: Mark | m.SkipIf? ensures GoodSkip(m) <==> ProperSkip(m) {
      if m.reason.Some? {
        StripEmpty(m.reason.value);
      }
    }
    hide GoodSkip, ProperSkip;
    if scope.Some? && SkipsFit(marks, scope) {
      var i :| 0 <= i < |marks| && marks[i].SkipIf? && ProperSkip(marks[i]) &&
               forall j :: 0 <= j < |marks| && marks[j].SkipIf? ==> j == i;
      assert OnlySkip(marks, i);
    }
    if scope.Some? && |SkipMarks(marks)| == 1 && GoodSkip(SkipMarks(marks)[0]) {
      var i :| OnlySkip(marks, i);
      assert ProperSkip(marks[i]);
    }
  }

  lemma MarkerReasonsMean(marks: seq<Mark>, scope: Option<Platform>, key: Detail -> real)
    ensures MarkerDetails(marks, scope, key).1 == {} <==> ProperMarks(marks, scope)
  {
    FilterReasonsMean(marks);
    SkipsMean(marks, scope);
    hide SkipsFit, FilterReasons, ProperFilter, GoodSkip;
  }

  lemma LastSpecGrows(specs: seq<GuardSpec>, n: nat, g: string, k: int)
    requires |specs| == n + 1
    ensures LastSpec(specs, g, k) <==> if specs[n].node == g then k == n else LastSpec(specs[..n], g, k)
  {
    assert forall j :: 0 <= j < n ==> specs[..n][j] == specs[j];
  }

  lemma DeclaresGrows(specs: seq<GuardSpec>, n: nat, g: string, scope: Option<Platform>)
    requires |specs| == n + 1
    ensures Declares(specs, g, scope) <==>
            if specs[n].node == g then specs[n].platform == scope else Declares(specs[..n], g, scope)
  {
    forall k ensures LastSpec(specs, g, k) <==> if specs[n].node == g then k == n else LastSpec(specs[..n], g, k) {
      LastSpecGrows(specs, n, g, k);
    }
    assert forall k :: LastSpec(specs[..n], g, k) ==> 0 <= k < n && specs[..n][k] == specs[k];
    assert forall k :: LastSpec(specs, g, k) ==> 0 <= k <= n;
    hide LastSpec;
    if specs[n].node == g {
      assert LastSpec(specs, g, n);
    } else {
      if k :| LastSpec(specs[..n], g, k) && specs[..n][k].platform == scope {
        assert LastSpec(specs, g, k);
      }
      if k :| LastSpec(specs, g, k) && specs[k].platform == scope {
        assert LastSpec(specs[..n], g, k);
      }
    }
  }

  lemma {:induction false} PlatformsDeclare(specs: seq<GuardSpec>, g: string, scope: Option<Platform>)
    ensures g in PlatformsOf(specs) && PlatformsOf(specs)[g] == scope <==> Declares(specs, g, scope)
  {
    if specs == [] {
      assert PlatformsOf(specs) == map[];
    } else {
      var n := |specs| - 1;
      PlatformsDeclare(specs[..n], g, scope);
      DeclaresGrows(specs, n, g, scope);
      hide Declares, Nodes;
    }
  }

  lemma SelectsMeans(specs: seq<GuardSpec>, nodeid: string)
    ensures MatchesOf(specs, nodeid) != {} <==> Selects(specs, nodeid)
  {
    if k :| 0 <= k < |specs| && Matches(specs[k].node, nodeid) {
      assert Nodes(specs)[k] in MatchesOf(specs, nodeid);
    }
    if g :| g in MatchesOf(specs, nodeid) {
      var k :| 0 <= k < |specs| && Nodes(specs)[k] == g;
      assert Matches(specs[k].node, nodeid);
    }
  }

  /** The scope set is a singleton exactly when the guards of the node agree on one platform. */
  lemma ScopesMean(specs: seq<GuardSpec>, nodeid: string)
    requires Selects(specs, nodeid)
    ensures var guards := MatchesOf(specs, nodeid);
            && (|ScopesOf(specs, guards)| == 1 <==> exists scope :: OneScope(specs, nodeid, scope))
            && forall scope :: OneScope(specs, nodeid, scope) <==> ScopesOf(specs, guards) == {scope}
  {
    var guards := MatchesOf(specs, nodeid);
    forall g, scope ensures g in PlatformsOf(specs) && PlatformsOf(specs)[g] == scope <==> Declares(specs, g, scope) {
      PlatformsDeclare(specs, g, scope);
    }
    var k :| 0 <= k < |specs| && Matches(specs[k].node, nodeid);
    assert Nodes(specs)[k] in guards;
    hide Declares, Matches;
    forall scope ensures OneScope(specs, nodeid, scope) <==> ScopesOf(specs, guards) == {scope} {
      if OneScope(specs, nodeid, scope) {
        assert PlatformsOf(specs)[specs[k].node] == scope;
        forall s | s in ScopesOf(specs, guards) ensures s == scope {
          var g :| g in guards && g in PlatformsOf(specs) && PlatformsOf(specs)[g] == s;
          var m :| 0 <= m < |specs| && Nodes(specs)[m] == g;
          assert Declares(specs, specs[m].node, scope);
        }
        assert scope in ScopesOf(specs, guards);
      }
      if ScopesOf(specs, guards) == {scope} {
        forall m | 0 <= m < |specs| && Matches(specs[m].node, nodeid) ensures Declares(specs, specs[m].node, scope) {
          assert Nodes(specs)[m] in guards;
          assert PlatformsOf(specs)[specs[m].node] in ScopesOf(specs, guards);
        }
      }
    }
    if |ScopesOf(specs, guards)| == 1 {
      Singleton(ScopesOf(specs, guards));
    }
  }

  ghost predicate Blameless(marks: Marks) { forall n :: n in marks.violations ==> marks.violations[n] == {} }

  lemma BlameMeans(marks: Marks, nodeid: string, reasons: set<Reason>)
    ensures Blameless(marks.Blame(nodeid, reasons)) <==> Blameless(marks) && reasons == {}
  {
    var after := marks.Blame(nodeid, reasons);
    assert after.violations[nodeid] == marks.ReasonsAt(nodeid) + reasons;
    if Blameless(after) {
      forall n | n in marks.violations ensures marks.violations[n] == {} {
        assert n in after.violations && after.violations[n] == {};
        assert marks.violations[n] <= after.violations[n];
      }
    }
  }

  lemma AddMeans(specs: seq<GuardSpec>, marks: Marks, item: Item, key: Detail -> real)
    requires Selects(specs, item.nodeid)
    ensures Blameless(marks.Add(specs, item, MatchesOf(specs, item.nodeid), key))
            <==> Blameless(marks) && ProperItem(specs, item)
  {
    var guards := MatchesOf(specs, item.nodeid);
    ScopesMean(specs, item.nodeid);
    if |ScopesOf(specs, guards)| != 1 {
      BlameMeans(marks, item.nodeid, {ScopeConflict});
    } else {
      var scope := TheScope(specs, guards);
      var (details, reasons) := MarkerDetails(item.marks, scope, key);
      MarkerReasonsMean(item.marks, scope, key);
      BlameMeans(marks.(markers := marks.markers[item.nodeid := details]), item.nodeid, reasons);
      hide OneScope, ProperMarks, MatchesOf, MarkerDetails, ScopesOf;
      forall other | OneScope(specs, item.nodeid, other) ensures other == scope {
        assert {other} == {scope};
        assert other in {scope};
      }
    }
    hide Selects, OneScope, ProperMarks, MatchesOf, MarkerDetails, ScopesOf, Blameless;
  }

  // ------------------------------------------------------------ the state after a history

  lemma BoundGrows(events: seq<Event>, e: Event, n: string)
    ensures BoundIn(events + [e], n) <==> BoundIn(events, n) || Binds(e, n)
  {
    var more := events + [e];
    assert more[|events|] == e;
    if i :| 0 <= i < |events| && Binds(events[i], n) {
      assert Binds(more[i], n);
    }
    if i :| 0 <= i < |more| && Binds(more[i], n) {
      assert i < |events| ==> Binds(events[i], n);
    }
  }

  lemma {:induction false} ConfigStays(config: Config, events: seq<Event>, key: Detail -> real)
    ensures Run(Start(config), events, key).config == config
  {
    if events != [] {
      ConfigStays(config, events[..|events| - 1], key);
    }
  }

  ghost predicate Each(events: seq<Event>, p: Event -> bool) { forall i :: 0 <= i < |events| ==> p(events[i]) }

  lemma EachGrows(events: seq<Event>, p: Event -> bool)
    requires events != []
    ensures Each(events, p) <==> Each(events[..|events| - 1], p) && p(events[|events| - 1])
  {
    var n := |events| - 1;
    assert forall i :: 0 <= i < n ==> events[..n][i] == events[i];
  }

  ghost predicate KeysAre(config: Config, events: seq<Event>, links: Links) {
    forall n :: n in links.concreteToGuards <==> Selects(config.expected, n) && BoundIn(events, n)
  }

  lemma KeysStep(st: State, e: Event, n: string, key: Detail -> real)
    ensures n in Step(st, e, key).links.concreteToGuards <==>
            n in st.links.concreteToGuards || (Binds(e, n) && Selects(st.config.expected, n))
  {
    SelectsMeans(st.config.expected, n);
    hide Selects, MatchesOf;
  }

  lemma {:induction false} KeysFollow(config: Config, events: seq<Event>, key: Detail -> real)
    ensures KeysAre(config, events, Run(Start(config), events, key).links)
  {
    if events != [] {
      var last := |events| - 1;
      var st, e := Run(Start(config), events[..last], key), events[last];
      KeysFollow(config, events[..last], key);
      ConfigStays(config, events[..last], key);
      assert events == events[..last] + [e];
      hide Selects, BoundIn, Step;
      forall n ensures n in Run(Start(config), events, key).links.concreteToGuards <==>
                       Selects(config.expected, n) && BoundIn(events, n)
      {
        BoundGrows(events[..last], e, n);
        KeysStep(st, e, n, key);
      }
    }
  }

  lemma GuardsStep(st: State, e: Event, g: string, n: string, key: Detail -> real)
    requires g in st.links.guardToConcrete && g in Nodes(st.config.expected)
    ensures g in Step(st, e, key).links.guardToConcrete
    ensures n in Step(st, e, key).links.guardToConcrete[g] <==>
            n in st.links.guardToConcrete[g] || (Binds(e, n) && Matches(g, n))
  {
    hide Matches;
    if e.Bound? && Matches(g, e.item.nodeid) {
      assert g in MatchesOf(st.config.expected, e.item.nodeid);
    }
  }

  lemma {:induction false} GuardKeys(config: Config, events: seq<Event>, key: Detail -> real)
    ensures Run(Start(config), events, key).links.guardToConcrete.Keys == Members(Nodes(config.expected))
  {
    if events != [] {
      GuardKeys(config, events[..|events| - 1], key);
      hide Nodes, MatchesOf;
    }
  }

  /** The guard's set of nodes holds exactly the bound nodes that match it. */
  lemma {:induction false} GuardFollows(config: Config, events: seq<Event>, g: string, n: string, key: Detail -> real)
    requires g in Nodes(config.expected)
    ensures var links := Run(Start(config), events, key).links;
            g in links.guardToConcrete && (n in links.guardToConcrete[g] <==> Matches(g, n) && BoundIn(events, n))
  {
    hide *;
    if events == [] {
      NothingFollows(config, g, n, key);
    } else {
      var last := |events| - 1;
      RunLast(Start(config), events, key);
      GuardFollows(config, events[..last], g, n, key);
      ConfigStays(config, events[..last], key);
      BoundGrows(events[..last], events[last], n);
      GuardsStep(Run(Start(config), events[..last], key), events[last], g, n, key);
    }
  }

  lemma RunLast(start: State, events: seq<Event>, key: Detail -> real)
    requires events != []
    ensures var last := |events| - 1;
            && Run(start, events, key) == Step(Run(start, events[..last], key), events[last], key)
            && events == events[..last] + [events[last]]
  {
    hide Step;
  }

  lemma NothingFollows(config: Config, g: string, n: string, key: Detail -> real)
    requires g in Nodes(config.expected)
    ensures var links := Run(Start(config), [], key).links;
            g in links.guardToConcrete && n !in links.guardToConcrete[g] && !BoundIn([], n)
  {
  }

  ghost function Guarded(specs: seq<GuardSpec>): Event -> bool {
    (e: Event) => e.Bound? ==> Selects(specs, e.item.nodeid)
  }

  ghost function KeepsSelected(specs: seq<GuardSpec>): Event -> bool {
    (e: Event) => e.Deselected? ==> !Selects(specs, e.nodeid)
  }

  ghost function KeepsQuiet(specs: seq<GuardSpec>): Event -> bool {
    (e: Event) => e.Warned? ==> !Selects(specs, e.warning.nodeid)
  }

  ghost function KeepsPolicy(specs: seq<GuardSpec>): Event -> bool {
    (e: Event) => e.Bound? && Selects(specs, e.item.nodeid) ==> ProperItem(specs, e.item)
  }

  /** The four parts of a state in which single events leave their violations. */
  lemma PartsStep(st: State, e: Event, key: Detail -> real)
    ensures var t, specs := Step(st, e, key), st.config.expected;
            && t.config == st.config
            && (t.log.unexpected == {} <==> st.log.unexpected == {} && Guarded(specs)(e))
            && (t.log.deselected == {} <==> st.log.deselected == {} && KeepsSelected(specs)(e))
            && (t.log.warnings == [] <==> st.log.warnings == [] && KeepsQuiet(specs)(e))
  {
    match e {
      case Bound(item) => SelectsMeans(st.config.expected, item.nodeid);
      case Deselected(n) => SelectsMeans(st.config.expected, n);
      case Warned(w) => SelectsMeans(st.config.expected, w.nodeid);
      case Reported(_, _, _, _) =>
    }
    hide Selects, MatchesOf;
  }

  lemma MarksStep(st: State, e: Event, key: Detail -> real)
    ensures Blameless(Step(st, e, key).marks) <==> Blameless(st.marks) && KeepsPolicy(st.config.expected)(e)
  {
    if e.Bound? {
      SelectsMeans(st.config.expected, e.item.nodeid);
      if Selects(st.config.expected, e.item.nodeid) {
        AddMeans(st.config.expected, st.marks, e.item, key);
      }
    }
    hide Selects, MatchesOf, ProperItem, Blameless;
  }

  lemma {:induction false} PartsFollow(config: Config, events: seq<Event>, key: Detail -> real)
    ensures var st, specs := Run(Start(config), events, key), config.expected;
            && (st.log.unexpected == {} <==> Each(events, Guarded(specs)))
            && (st.log.deselected == {} <==> Each(events, KeepsSelected(specs)))
            && (st.log.warnings == [] <==> Each(events, KeepsQuiet(specs)))
            && (Blameless(st.marks) <==> Each(events, KeepsPolicy(specs)))
  {
    if events != [] {
      var last := |events| - 1;
      var st, e := Run(Start(config), events[..last], key), events[last];
      PartsFollow(config, events[..last], key);
      ConfigStays(config, events[..last], key);
      EachGrows(events, Guarded(config.expected));
      EachGrows(events, KeepsSelected(config.expected));
      EachGrows(events, KeepsQuiet(config.expected));
      EachGrows(events, KeepsPolicy(config.expected));
      PartsStep(st, e, key);
      MarksStep(st, e, key);
      hide Step, Each, Guarded, KeepsSelected, KeepsQuiet, KeepsPolicy, Blameless;
    }
  }

  /** The outcomes reported for a phase of a node since it was bound. */
  ghost function Outcomes(events: seq<Event>, n: string, p: Phase): seq<Outcome> {
    if events == [] then [] else
      var last := |events| - 1;
      Outcomes(events[..last], n, p) + if Reports(events, last, n, p) then [events[last].outcome] else []
  }

  lemma PhaseStep(st: State, e: Event, n: string, p: Phase, key: Detail -> real)
    ensures Step(st, e, key).log.PhaseAt(n, p) == st.log.PhaseAt(n, p) +
            if e.Reported? && e.nodeid == n && e.phase == p && n in st.links.concreteToGuards then [e.outcome] else []
    ensures n in Step(st, e, key).log.wasXfail <==>
            n in st.log.wasXfail || (e.Reported? && e.nodeid == n && e.xfail && n in st.links.concreteToGuards)
  {
    hide MatchesOf;
    assert st.log.PhaseAt(n, p) + [] == st.log.PhaseAt(n, p);
  }

  lemma {:induction false} PhasesFollow(config: Config, events: seq<Event>, n: string, p: Phase, key: Detail -> real)
    requires Selects(config.expected, n)
    ensures Run(Start(config), events, key).log.PhaseAt(n, p) == Outcomes(events, n, p)
  {
    if events != [] {
      var last := |events| - 1;
      PhasesFollow(config, events[..last], n, p, key);
      KeysFollow(config, events[..last], key);
      PhaseStep(Run(Start(config), events[..last], key), events[last], n, p, key);
      hide Selects, BoundIn, Step;
    }
  }

  ghost predicate Xfailed(events: seq<Event>, n: string) {
    exists i, p :: Reports(events, i, n, p) && events[i].xfail
  }

  lemma XfailGrows(events: seq<Event>, n: string)
    requires events != []
    ensures var last := |events| - 1;
            Xfailed(events, n) <==> Xfailed(events[..last], n) ||
                                    exists p :: Reports(events, last, n, p) && events[last].xfail
  {
    var last := |events| - 1;
    var before := events[..last];
    forall i, p | i < last ensures Reports(before, i, n, p) <==> Reports(events, i, n, p) {
      ReportsPrefix(events, last, i, n, p);
    }
    hide BoundIn;
    if Xfailed(before, n) {
      var i, p :| Reports(before, i, n, p) && before[i].xfail;
      assert Reports(events, i, n, p) && events[i].xfail;
    }
    if Xfailed(events, n) {
      var i, p :| Reports(events, i, n, p) && events[i].xfail;
      assert i < last ==> Reports(before, i, n, p) && before[i].xfail;
    }
  }

  lemma {:induction false} XfailFollow(config: Config, events: seq<Event>, n: string, key: Detail -> real)
    requires Selects(config.expected, n)
    ensures n in Run(Start(config), events, key).log.wasXfail <==> Xfailed(events, n)
  {
    if events != [] {
      var last := |events| - 1;
      XfailFollow(config, events[..last], n, key);
      KeysFollow(config, events[..last], key);
      XfailGrows(events, n);
      PhaseStep(Run(Start(config), events[..last], key), events[last], n, Setup, key);
      hide Selects, BoundIn, Step, Xfailed;
      var e := events[last];
      if e.Reported? && e.nodeid == n && BoundIn(events[..last], n) && e.xfail {
        assert Reports(events, last, n, e.phase);
      }
    }
  }

  lemma ReportsPrefix(events: seq<Event>, last: nat, i: int, n: string, p: Phase)
    requires last <= |events| && i < last
    ensures Reports(events[..last], i, n, p) <==> Reports(events, i, n, p)
  {
    if 0 <= i {
      assert events[..last][..i] == events[..i];
    }
  }

  lemma {:induction false} OutcomesNone(events: seq<Event>, n: string, p: Phase)
    ensures Outcomes(events, n, p) == [] <==> forall i :: !Reports(events, i, n, p)
  {
    if events != [] {
      var last := |events| - 1;
      OutcomesNone(events[..last], n, p);
      forall i | i < last ensures Reports(events[..last], i, n, p) <==> Reports(events, i, n, p) {
        ReportsPrefix(events, last, i, n, p);
      }
      hide BoundIn;
    }
  }

  /** The only report of the phase. */
  ghost predicate OnlyReport(events: seq<Event>, n: string, p: Phase, i: int) {
    Reports(events, i, n, p) && forall j :: Reports(events, j, n, p) ==> j == i
  }

  lemma OnlyReportGrows(events: seq<Event>, n: string, p: Phase, i: int)
    requires events != []
    ensures var last := |events| - 1;
            OnlyReport(events, n, p, i) <==>
            if Reports(events, last, n, p) then i == last && forall j :: !Reports(events[..last], j, n, p)
            else OnlyReport(events[..last], n, p, i)
  {
    var last := |events| - 1;
    var before := events[..last];
    forall j | j < last ensures Reports(before, j, n, p) <==> Reports(events, j, n, p) {
      ReportsPrefix(events, last, j, n, p);
    }
    hide BoundIn;
    if OnlyReport(events, n, p, i) && Reports(events, last, n, p) {
      assert forall j :: Reports(before, j, n, p) ==> Reports(events, j, n, p) && j < last;
    }
  }

  ghost predicate OnlyOutcome(events: seq<Event>, n: string, p: Phase, o: Outcome) {
    exists i :: OnlyReport(events, n, p, i) && events[i].outcome == o
  }

  lemma OnlyOutcomeGrows(events: seq<Event>, n: string, p: Phase, o: Outcome)
    requires events != []
    ensures var last := |events| - 1;
            OnlyOutcome(events, n, p, o) <==>
            if Reports(events, last, n, p)
            then (forall j :: !Reports(events[..last], j, n, p)) && events[last].outcome == o
            else OnlyOutcome(events[..last], n, p, o)
  {
    var last := |events| - 1;
    var before := events[..last];
    forall i ensures OnlyReport(events, n, p, i) <==>
                     if Reports(events, last, n, p) then i == last && forall j :: !Reports(before, j, n, p)
                     else OnlyReport(before, n, p, i)
    {
      OnlyReportGrows(events, n, p, i);
    }
    assert forall i :: OnlyReport(before, n, p, i) ==> 0 <= i < last && before[i] == events[i];
    hide BoundIn, OnlyReport;
    if Reports(events, last, n, p) {
      if (forall j :: !Reports(before, j, n, p)) && events[last].outcome == o {
        assert OnlyReport(events, n, p, last);
      }
    } else {
      if OnlyOutcome(before, n, p, o) {
        var i :| OnlyReport(before, n, p, i) && before[i].outcome == o;
        assert OnlyReport(events, n, p, i);
      }
      if OnlyOutcome(events, n, p, o) {
        var i :| OnlyReport(events, n, p, i) && events[i].outcome == o;
        assert OnlyReport(before, n, p, i);
      }
    }
  }

  lemma {:induction false} OutcomesOne(events: seq<Event>, n: string, p: Phase, o: Outcome)
    ensures Outcomes(events, n, p) == [o] <==> OnlyOutcome(events, n, p, o)
  {
    if events != [] {
      var last := |events| - 1;
      var before := events[..last];
      assert Outcomes(events, n, p) ==
             Outcomes(before, n, p) + if Reports(events, last, n, p) then [events[last].outcome] else [];
      OutcomesOne(before, n, p, o);
      OutcomesNone(before, n, p);
      OnlyOutcomeGrows(events, n, p, o);
      hide BoundIn, OnlyOutcome, Outcomes;
      if Reports(events, last, n, p) {
        OneAfter(Outcomes(before, n, p), events[last].outcome, o);
      }
    }
  }

  lemma OneAfter(before: seq<Outcome>, now: Outcome, o: Outcome)
    ensures before + [now] == [o] <==> before == [] && now == o
  {
    var after := before + [now];
    assert after[|before|] == now;
    if before == [] && now == o {
      assert after == [o];
    }
  }

  // ------------------------------------------------------------ clean histories

  lemma RanOnceMeans(events: seq<Event>, n: string)
    ensures (forall p :: RanOnce(events, n, p)) <==>
            !Xfailed(events, n) && forall p :: OnlyOutcome(events, n, p, Passed)
  {
    hide BoundIn;
    if forall p :: RanOnce(events, n, p) {
      forall p ensures OnlyOutcome(events, n, p, Passed) {
        assert RanOnce(events, n, p);
        var i :| Reports(events, i, n, p) && events[i].outcome == Passed && !events[i].xfail &&
                 forall j :: Reports(events, j, n, p) ==> j == i;
        assert OnlyReport(events, n, p, i);
      }
      forall i, p | Reports(events, i, n, p) ensures !events[i].xfail {
        assert RanOnce(events, n, p);
      }
    }
    if !Xfailed(events, n) && forall p :: OnlyOutcome(events, n, p, Passed) {
      forall p ensures RanOnce(events, n, p) {
        assert OnlyOutcome(events, n, p, Passed);
        var i :| OnlyReport(events, n, p, i) && events[i].outcome == Passed;
        assert Reports(events, i, n, p);
      }
    }
  }

  /** The node's reports, in the state and in the history. */
  lemma NodeFollows(config: Config, events: seq<Event>, n: string, key: Detail -> real)
    requires Selects(config.expected, n)
    ensures var log := Run(Start(config), events, key).log;
            n !in log.wasXfail && (forall p :: log.PhaseAt(n, p) == [Passed]) <==> forall p :: RanOnce(events, n, p)
  {
    XfailFollow(config, events, n, key);
    RanOnceMeans(events, n);
    hide Run, RanOnce, Selects, Xfailed, OnlyOutcome, Outcomes;
    forall p ensures Run(Start(config), events, key).log.PhaseAt(n, p) == [Passed] <==>
                     OnlyOutcome(events, n, p, Passed)
    {
      PhasesFollow(config, events, n, p, key);
      OutcomesOne(events, n, p, Passed);
    }
  }

  lemma GuardChosen(config: Config, events: seq<Event>, g: string, key: Detail -> real)
    requires g in Nodes(config.expected)
    ensures var links := Run(Start(config), events, key).links;
            g in links.guardToConcrete && (links.guardToConcrete[g] != {} <==> Chosen(events, g))
  {
    var links := Run(Start(config), events, key).links;
    GuardFollows(config, events, g, g, key);
    forall n ensures g in links.guardToConcrete
                     && (n in links.guardToConcrete[g] <==> Matches(g, n) && BoundIn(events, n))
    {
      GuardFollows(config, events, g, n, key);
    }
    hide Run, Matches, Start, Nodes;
    if n :| n in links.guardToConcrete[g] {
      var i :| 0 <= i < |events| && Binds(events[i], n);
    }
    if i :| 0 <= i < |events| && events[i].Bound? && Matches(g, events[i].item.nodeid) {
      assert Binds(events[i], events[i].item.nodeid);
      assert events[i].item.nodeid in links.guardToConcrete[g];
    }
  }

  lemma GuardSelected(config: Config, events: seq<Event>, key: Detail -> real)
    ensures var links := Run(Start(config), events, key).links;
            (forall g :: g in links.guardToConcrete ==> links.guardToConcrete[g] != {}) <==> AllChosen(config, events)
  {
    GuardKeys(config, events, key);
    var links := Run(Start(config), events, key).links;
    assert forall g :: g in links.guardToConcrete <==> g in links.guardToConcrete.Keys;
    forall g | g in Nodes(config.expected)
      ensures g in links.guardToConcrete && (links.guardToConcrete[g] != {} <==> Chosen(events, g))
    {
      GuardChosen(config, events, g, key);
    }
    hide Run, Start, Chosen;
    assert forall k :: 0 <= k < |config.expected| ==> config.expected[k].node == Nodes(config.expected)[k];
    assert forall k :: 0 <= k < |config.expected| ==> Nodes(config.expected)[k] in Nodes(config.expected);
  }

  lemma NodesRan(config: Config, events: seq<Event>, key: Detail -> real)
    requires forall i :: 0 <= i < |events| && events[i].Bound? ==> Selects(config.expected, events[i].item.nodeid)
    ensures var st := Run(Start(config), events, key);
            (forall n :: n in st.links.concreteToGuards ==>
               n !in st.log.wasXfail && forall p :: st.log.PhaseAt(n, p) == [Passed])
            <==> AllRan(events)
  {
    KeysFollow(config, events, key);
    var st := Run(Start(config), events, key);
    forall n | Selects(config.expected, n)
      ensures n !in st.log.wasXfail && (forall p :: st.log.PhaseAt(n, p) == [Passed])
              <==> forall p :: RanOnce(events, n, p)
    {
      NodeFollows(config, events, n, key);
    }
    hide Run, RanOnce, Selects;
    forall i | 0 <= i < |events| && events[i].Bound? ensures BoundIn(events, events[i].item.nodeid) {
      assert Binds(events[i], events[i].item.nodeid);
    }
    if AllRan(events) {
      forall n | n in st.links.concreteToGuards
        ensures n !in st.log.wasXfail && forall p :: st.log.PhaseAt(n, p) == [Passed]
      {
        var i :| 0 <= i < |events| && Binds(events[i], n);
        assert forall p :: RanOnce(events, n, p);
      }
    }
  }

  /** A history records no violation exactly when: every item belongs to an expected guard, all its
      guards share one platform and its markers keep to the policy; every expected guard got an
      item; nothing guarded was deselected or warned about; and every bound node reported each
      phase once, passed and without an xfail. */
  lemma NoViolationExactly(config: Config, events: seq<Event>, key: Detail -> real)
    ensures Run(Start(config), events, key).Violations() == {} <==> CleanHistory(config, events)
  {
    var st, specs := Run(Start(config), events, key), config.expected;
    hide Run, Start, Each, Guarded, KeepsSelected, KeepsQuiet, KeepsPolicy, Selects, AllChosen, AllRan, ProperItem;
    CleanIsClean(st);
    ConfigStays(config, events, key);
    GuardSelected(config, events, key);
    PartsFollow(config, events, key);
    PartsMean(events, specs);
    if Each(events, Guarded(specs)) {
      NodesRan(config, events, key);
    }
  }

  /** The clauses about single events, as the history has them. */
  lemma PartsMean(events: seq<Event>, specs: seq<GuardSpec>)
    ensures Each(events, Guarded(specs)) <==>
            forall i :: 0 <= i < |events| && events[i].Bound? ==> Selects(specs, events[i].item.nodeid)
    ensures Each(events, Guarded(specs)) && Each(events, KeepsPolicy(specs)) <==>
            forall i :: 0 <= i < |events| && events[i].Bound? ==> ProperItem(specs, events[i].item)
    ensures Each(events, KeepsSelected(specs)) <==>
            forall i :: 0 <= i < |events| && events[i].Deselected? ==> !Selects(specs, events[i].nodeid)
    ensures Each(events, KeepsQuiet(specs)) <==>
            forall i :: 0 <= i < |events| && events[i].Warned? ==> !Selects(specs, events[i].warning.nodeid)
  {
    hide Selects, OneScope, ProperMarks;
  }

  /** Every guard is declared for all platforms or for the one that ran. */
  ghost predicate RunsHere(config: Config) {
    forall k :: 0 <= k < |config.expected| ==>
      Declares(config.expected, config.expected[k].node, None) ||
      Declares(config.expected, config.expected[k].node, Some(config.platform))
  }

  lemma ScopedMeans(config: Config)
    ensures Scoped(config) <==> RunsHere(config)
  {
    forall k, scope | 0 <= k < |config.expected|
      ensures PlatformsOf(config.expected)[config.expected[k].node] == scope <==>
              Declares(config.expected, config.expected[k].node, scope)
    {
      assert Nodes(config.expected)[k] in Nodes(config.expected);
      PlatformsDeclare(config.expected, config.expected[k].node, scope);
    }
    hide Declares;
    if Scoped(config) {
      forall k | 0 <= k < |config.expected|
        ensures Declares(config.expected, config.expected[k].node, None) ||
                Declares(config.expected, config.expected[k].node, Some(config.platform))
      {
        assert Nodes(config.expected)[k] in Nodes(config.expected);
      }
    }
    if RunsHere(config) {
      forall g | g in Nodes(config.expected)
        ensures PlatformsOf(config.expected)[g] == None || PlatformsOf(config.expected)[g] == Some(config.platform)
      {
        var k :| 0 <= k < |config.expected| && Nodes(config.expected)[k] == g;
        assert config.expected[k].node == g;
      }
    }
  }

  /** From the hooks to the verdict. Without siblings, or when no recorded string spells a receipt
      line, the validator accepts the output of a run exactly when its history is clean, its guards
      are declared for the platform that ran, and nothing it recorded breaks a line. */
  lemma AcceptedHistories(config: Config, events: seq<Event>, r: Receipt, before: string, after: string,
                          siblings: bool, key: Detail -> real, encode: Receipt -> string, decode: string -> Line)
    requires ReceiptOf(Run(Start(config), events, key), r) && Json(encode, decode)
    requires Kept(ReceiptLines(before, decode), siblings, Nodes(config.expected)) == []
    requires Kept(ReceiptLines(after, decode), siblings, Nodes(config.expected)) == []
    requires siblings ==> Echoes(r, encode, decode) == []
    ensures Accepts(ReceiptLines(Output(before, PREFIX + encode(r), after), decode), siblings, config, key)
            <==> CleanHistory(config, events) && RunsHere(config) && Unbroken(r)
  {
    HalvesAgreePlainly(config, events, r, before, after, siblings, key, encode, decode);
    NoViolationExactly(config, events, key);
    ScopedMeans(config);
    hide Accepts, ReceiptLines, Kept, Json, ReceiptOf, CleanHistory, RunsHere, Unbroken, Scoped, Run;
  }

  // ------------------------------------------------------------ what the validator leaves open

  /** The verdict leaves nothing of a receipt open but its node list: any two receipts that are
      accepted for the same suite, guards and platform agree in every other field. */
  lemma AcceptedHeader(a: Receipt, b: Receipt, suite: string, expected: seq<string>,
                       platforms: map<string, Option<Platform>>, platform: Platform, key: Detail -> real)
    requires ReceiptAccepted(a, suite, expected, platforms, platform, key)
    requires ReceiptAccepted(b, suite, expected, platforms, platform, key)
    ensures a == b.(concrete := a.concrete)
    ensures a.suite == suite && a.platform == platform && a.expected == expected && a.platforms == platforms
    ensures a.schema == 3 && a.passed && a.deselected == {} && a.violations == {} && a.warnings == []
    ensures forall i, j :: 0 <= i < j < |a.concrete| ==> a.concrete[i].nodeid != a.concrete[j].nodeid
    ensures forall g :: g in expected ==> exists i :: 0 <= i < |a.concrete| && g in a.concrete[i].guards
  {
    hide Judge;
  }

  /** A detail that the policy allows for a node of this scope. */
  ghost predicate ProperDetail(d: Detail, scope: Option<Platform>) {
    match d
    case Filters(values) =>
      values != [] && forall k :: 0 <= k < |values| ==> values[k].Text? && ErrorAction(values[k].text)
    case Skip(conditionFalse, why, target) =>
      conditionFalse && why.Some? && !Blank(why.value) && scope.Some? && target == scope
    case UnknownDetail => false
  }

  /** An accepted node names only expected guards of one scope, belongs to one of them, passed each
      of the three phases exactly once without xfail, and carries only proper details, with exactly
      one skipif if it is scoped and none otherwise; a scoped one is scoped to this platform. */
  lemma AcceptedNode(n: Node, expected: seq<string>, platforms: map<string, Option<Platform>>, platform: Platform,
                     key: Detail -> real) returns (scope: Option<Platform>)
    requires NodeOk(n, expected, platforms, platform, key)
    ensures n.guards != [] && forall g :: g in n.guards ==> g in expected && g in platforms && platforms[g] == scope
    ensures scope.None? || scope == Some(platform)
    ensures exists g :: g in n.guards && NamesOrSplits(g, n.nodeid)
    ensures !n.wasXfail && n.phases == map[Setup := [Passed], CallPhase := [Passed], Teardown := [Passed]]
    ensures forall i :: 0 <= i < |n.markers| ==> ProperDetail(n.markers[i], scope)
    ensures if scope.Some? then UniqueIndex(n.markers, IsSkip)
            else forall i :: 0 <= i < |n.markers| ==> !n.markers[i].Skip?
    ensures forall i, j :: 0 <= i < j < |n.markers| ==> key(n.markers[i]) <= key(n.markers[j])
  {
    scope := platforms[n.guards[0]];
    forall g | g in n.guards ensures g in expected && g in platforms && platforms[g] == scope {
      var i :| 0 <= i < |n.guards| && n.guards[i] == g;
    }
    forall i | 0 <= i < |n.markers| ensures ProperDetail(n.markers[i], scope) {
      DetailMeans(n.markers[i], scope, platform);
    }
    CountOne(n.markers, IsSkip);
    CountZero(n.markers, IsSkip);
    ScopeIsPlatform(n.markers, scope, platform, key);
    var i :| 0 <= i < |n.guards| && BoundTo(n.guards[i], n.nodeid);
    SeparatorMeans(n.guards[i]);
    assert NamesOrSplits(n.guards[i], n.nodeid);
    hide DetailOk, ProperDetail, BoundTo, NamesOrSplits;
  }

  lemma DetailMeans(d: Detail, scope: Option<Platform>, platform: Platform)
    requires DetailOk(d, scope, platform)
    ensures ProperDetail(d, scope)
  {
    match d {
      case Filters(values) =>
        forall k | 0 <= k < |values| && values[k].Text?
          ensures ErrorFilter(values[k].text) <==> ErrorAction(values[k].text)
        {
          ErrorFilterMeans(values[k].text);
        }
        hide ErrorFilter, ErrorAction;
      case Skip(_, why, _) => StripEmpty(why.value);
      case UnknownDetail =>
    }
  }

  /** And nothing but the nodes themselves: two accepted nodes with the same name, guards and
      details are equal. */
  lemma AcceptedNodesEqual(a: Node, b: Node, expected: seq<string>, platforms: map<string, Option<Platform>>,
                           platform: Platform, key: Detail -> real)
    requires NodeOk(a, expected, platforms, platform, key) && NodeOk(b, expected, platforms, platform, key)
    requires a.nodeid == b.nodeid && a.guards == b.guards && a.markers == b.markers
    ensures a == b
  {
    hide MarkersOk, BoundTo;
  }
}
