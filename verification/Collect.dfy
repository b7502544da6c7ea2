/** internal/runner/runner.go, runCatalog: the expressions of rule files and
    dashboards, each with where it came from. */
module Collect {
  import opened Common
  import opened Entries
  import opened Findings
  import opened Checks
  import opened Places

  datatype Tagged<T> = Tagged(res: T, source: Source)

  datatype Corpus = Corpus(prom: seq<Tagged<PromResult>>, log: seq<Tagged<LogResult>>, trace: seq<Tagged<TraceResult>>)

  datatype Rule<T> = Rule(alert: string, record: string, error: string, res: T)
  datatype Group<T> = Group(name: string, rules: seq<Rule<T>>)
  datatype RuleFile<T> = RuleFile(path: string, groups: seq<Group<T>>)

  /** What extraction made of a target or a variable. */
  datatype Extraction = Extraction(language: string, error: string,
                                   promql: Option<PromResult>, logql: Option<LogResult>, traceql: Option<TraceResult>)
  datatype Target = Target(refId: string, extraction: Extraction)
  datatype Panel = Panel(title: string, idText: string, targets: seq<Target>)
  datatype Variable = Variable(name: string, extraction: Extraction)
  datatype Dashboard = Dashboard(path: string, panels: seq<Panel>, variables: seq<Variable>)

  function RuleName<T>(r: Rule<T>): string { if r.alert != "" then r.alert else r.record }

  function PanelLabel(p: Panel, t: Target): string {
    (if p.title == "" then "id=" + p.idText else p.title) + if t.refId != "" then "/" + t.refId else ""
  }

  // ---------- rule files ----------

  function OfRule<T>(path: string, group: string): Rule<T> -> seq<Tagged<T>> {
    (r: Rule<T>) => if r.error != "" then [] else [Tagged(r.res, Source(path, 0, group, RuleName(r), ""))]
  }

  function OfGroup<T>(path: string): Group<T> -> seq<Tagged<T>> { (g: Group<T>) => Flat(g.rules, OfRule(path, g.name)) }

  function OfFile<T>(): RuleFile<T> -> seq<Tagged<T>> { (f: RuleFile<T>) => Flat(f.groups, OfGroup(f.path)) }

  method CollectGroup<T>(path: string, g: Group<T>) returns (out: seq<Tagged<T>>)
    ensures out == OfGroup(path)(g)
  {
    out := [];
    for n := 0 to |g.rules|
      invariant out == Flat(g.rules[..n], OfRule(path, g.name))
    {
      FlatNext(g.rules, OfRule(path, g.name), n);
      if g.rules[n].error != "" {
        continue;
      }
      out := out + [Tagged(g.rules[n].res, Source(path, 0, g.name, RuleName(g.rules[n]), ""))];
    }
    assert g.rules[..|g.rules|] == g.rules;
  }

  method CollectFile<T>(f: RuleFile<T>) returns (out: seq<Tagged<T>>)
    ensures out == OfFile()(f)
  {
    out := [];
    for k := 0 to |f.groups|
      invariant out == Flat(f.groups[..k], OfGroup(f.path))
    {
      var more := CollectGroup(f.path, f.groups[k]);
      FlatNext(f.groups, OfGroup(f.path), k);
      out := out + more;
    }
    assert f.groups[..|f.groups|] == f.groups;
  }

  method CollectRules<T>(files: seq<RuleFile<T>>) returns (out: seq<Tagged<T>>)
    ensures out == Flat(files, OfFile())
  {
    out := [];
    for i := 0 to |files|
      invariant out == Flat(files[..i], OfFile())
    {
      var more := CollectFile(files[i]);
      FlatNext(files, OfFile(), i);
      out := out + more;
    }
    assert files[..|files|] == files;
  }

  // ---------- dashboards ----------

  datatype Item = Item(extraction: Extraction, source: Source)

  function OfTarget(path: string, p: Panel): Target -> seq<Item> {
    (t: Target) => [Item(t.extraction, Source(path, 0, "", "", PanelLabel(p, t)))]
  }

  function OfPanel(path: string): Panel -> seq<Item> { (p: Panel) => Flat(p.targets, OfTarget(path, p)) }

  function OfVariable(path: string): Variable -> seq<Item> {
    (v: Variable) => [Item(v.extraction, Source(path, 0, "", "", "var=" + v.name))]
  }

  /** Panels before variables. */
  function OfDashboard(): Dashboard -> seq<Item> {
    (d: Dashboard) => Flat(d.panels, OfPanel(d.path)) + Flat(d.variables, OfVariable(d.path))
  }

  /** An extraction of one language, without error. */
  function AsProm(): Item -> Option<Tagged<PromResult>> {
    (x: Item) => if x.extraction.language == PROMQL && x.extraction.promql.Some? && x.extraction.error == ""
                 then Some(Tagged(x.extraction.promql.value, x.source)) else None
  }

  function AsLog(): Item -> Option<Tagged<LogResult>> {
    (x: Item) => if x.extraction.language == LOGQL && x.extraction.logql.Some? && x.extraction.error == ""
                 then Some(Tagged(x.extraction.logql.value, x.source)) else None
  }

  function AsTrace(): Item -> Option<Tagged<TraceResult>> {
    (x: Item) => if x.extraction.language == TRACEQL && x.extraction.traceql.Some? && x.extraction.error == ""
                 then Some(Tagged(x.extraction.traceql.value, x.source)) else None
  }

  function Plus(x: Corpus, items: seq<Item>): Corpus {
    Corpus(x.prom + Flat(items, OfEach(AsProm())), x.log + Flat(items, OfEach(AsLog())),
           x.trace + Flat(items, OfEach(AsTrace())))
  }

  lemma {:induction false} PlusOne(x: Corpus, items: seq<Item>, y: Item)
    ensures Plus(x, items + [y]) ==
      Corpus(Plus(x, items).prom + OfEach(AsProm())(y), Plus(x, items).log + OfEach(AsLog())(y),
             Plus(x, items).trace + OfEach(AsTrace())(y))
  {
    assert Front(items + [y]) == items;
  }

  method AddItem(x: Corpus, e: Extraction, src: Source, ghost x0: Corpus, ghost items: seq<Item>) returns (x': Corpus)
    requires x == Plus(x0, items)
    ensures x' == Plus(x0, items + [Item(e, src)])
  {
    PlusOne(x0, items, Item(e, src));
    x' := x;
    if e.language == PROMQL {
      if e.promql.Some? && e.error == "" {
        x' := x.(prom := x.prom + [Tagged(e.promql.value, src)]);
      }
    } else if e.language == LOGQL {
      if e.logql.Some? && e.error == "" {
        x' := x.(log := x.log + [Tagged(e.logql.value, src)]);
      }
    } else if e.language == TRACEQL {
      if e.traceql.Some? && e.error == "" {
        x' := x.(trace := x.trace + [Tagged(e.traceql.value, src)]);
      }
    }
  }

  method CollectPanel(x0: Corpus, path: string, p: Panel) returns (x: Corpus)
    ensures x == Plus(x0, OfPanel(path)(p))
  {
    x := x0;
    for k := 0 to |p.targets|
      invariant x == Plus(x0, Flat(p.targets[..k], OfTarget(path, p)))
    {
      var t := p.targets[k];
      FlatNext(p.targets, OfTarget(path, p), k);
      var src := Source(path, 0, "", "", PanelLabel(p, t));
      x := AddItem(x, t.extraction, src, x0, Flat(p.targets[..k], OfTarget(path, p)));
    }
    assert p.targets[..|p.targets|] == p.targets;
  }

  method CollectVariables(x0: Corpus, path: string, vs: seq<Variable>) returns (x: Corpus)
    ensures x == Plus(x0, Flat(vs, OfVariable(path)))
  {
    x := x0;
    for i := 0 to |vs|
      invariant x == Plus(x0, Flat(vs[..i], OfVariable(path)))
    {
      FlatNext(vs, OfVariable(path), i);
      var src := Source(path, 0, "", "", "var=" + vs[i].name);
      x := AddItem(x, vs[i].extraction, src, x0, Flat(vs[..i], OfVariable(path)));
    }
    assert vs[..|vs|] == vs;
  }

  method CollectDashboard(x0: Corpus, d: Dashboard) returns (x: Corpus)
    ensures x == Plus(x0, OfDashboard()(d))
  {
    x := x0;
    for i := 0 to |d.panels|
      invariant x == Plus(x0, Flat(d.panels[..i], OfPanel(d.path)))
    {
      FlatNext(d.panels, OfPanel(d.path), i);
      PlusConcat(x0, Flat(d.panels[..i], OfPanel(d.path)), OfPanel(d.path)(d.panels[i]));
      x := CollectPanel(x, d.path, d.panels[i]);
    }
    assert d.panels[..|d.panels|] == d.panels;
    PlusConcat(x0, Flat(d.panels, OfPanel(d.path)), Flat(d.variables, OfVariable(d.path)));
    x := CollectVariables(x, d.path, d.variables);
  }

  /** Rule files first, then dashboards, all in document order. */
  function CorpusOf(prom: seq<RuleFile<PromResult>>, log: seq<RuleFile<LogResult>>,
      dashboards: seq<Dashboard>): Corpus {
    Plus(Corpus(Flat(prom, OfFile()), Flat(log, OfFile()), []), Flat(dashboards, OfDashboard()))
  }

  method Collect(prom: seq<RuleFile<PromResult>>, log: seq<RuleFile<LogResult>>, dashboards: seq<Dashboard>)
      returns (x: Corpus)
    ensures x == CorpusOf(prom, log, dashboards)
  {
    var promExprs := CollectRules(prom);
    var logExprs := CollectRules(log);
    x := Corpus(promExprs, logExprs, []);
    ghost var x0 := x;
    for i := 0 to |dashboards|
      invariant x == Plus(x0, Flat(dashboards[..i], OfDashboard()))
    {
      FlatNext(dashboards, OfDashboard(), i);
      PlusConcat(x0, Flat(dashboards[..i], OfDashboard()), OfDashboard()(dashboards[i]));
      x := CollectDashboard(x, dashboards[i]);
    }
    assert dashboards[..|dashboards|] == dashboards;
  }

  lemma {:induction false} PlusConcat(x: Corpus, a: seq<Item>, b: seq<Item>)
    ensures Plus(x, a + b) == Plus(Plus(x, a), b)
  {
    ConcatAfter(x.prom, a, b, OfEach(AsProm()));
    ConcatAfter(x.log, a, b, OfEach(AsLog()));
    ConcatAfter(x.trace, a, b, OfEach(AsTrace()));
  }

  lemma {:induction false} ConcatAfter<S, T>(x: seq<T>, a: seq<S>, b: seq<S>, f: S -> seq<T>)
    ensures x + Flat(a + b, f) == x + Flat(a, f) + Flat(b, f)
  {
    FlatConcat(a, b, f);
  }

  // ---------- what is collected ----------

  /** The rule at p = [file, group, rule] has no error and gives e, named after its alert or,
      without one, after what it records. */
  ghost predicate RuleAt<T>(files: seq<RuleFile<T>>, p: Place, e: Tagged<T>) {
    && |p| == 3 && p[0] < |files| && p[1] < |files[p[0]].groups| && p[2] < |files[p[0]].groups[p[1]].rules|
    && var f, g := files[p[0]], files[p[0]].groups[p[1]];
      var r := g.rules[p[2]];
      r.error == "" && e == Tagged(r.res, Source(f.path, 0, g.name, if r.alert != "" then r.alert else r.record, ""))
  }

  /** The target at p = [dashboard, 0, panel, target], or the variable at p = [dashboard, 1,
      variable], has this extraction, and that source. */
  ghost predicate ItemAt(dashboards: seq<Dashboard>, p: Place, x: Item) {
    && |p| >= 3 && p[0] < |dashboards|
    && var d := dashboards[p[0]];
      if p[1] == 0 then
        && |p| == 4 && p[2] < |d.panels| && p[3] < |d.panels[p[2]].targets|
        && var panel, target := d.panels[p[2]], d.panels[p[2]].targets[p[3]];
          && x.extraction == target.extraction
          && x.source.(panel := "") == Source(d.path, 0, "", "", "")
          && Labels(panel, target, x.source.panel)
      else
        && p[1] == 1 && |p| == 3 && p[2] < |d.variables|
        && x == Item(d.variables[p[2]].extraction, Source(d.path, 0, "", "", "var=" + d.variables[p[2]].name))
  }

  /** A panel's title, or its number, then a slash and the target's letter, if it has one. */
  ghost predicate Labels(p: Panel, t: Target, text: string) {
    if t.refId != "" then exists head :: text == head + "/" + t.refId && Heads(p, head) else Heads(p, text)
  }

  ghost predicate Heads(p: Panel, head: string) {
    (p.title != "" && head == p.title) || (p.title == "" && head == "id=" + p.idText)
  }

  // Rules come first, and then what the dashboards hold in the language, without error.

  ghost predicate PromAt(rules: seq<RuleFile<PromResult>>, dashboards: seq<Dashboard>, p: Place,
      e: Tagged<PromResult>) {
    || (p != [] && p[0] == 0 && RuleAt(rules, p[1..], e))
    || (p != [] && p[0] == 1 && PromItemAt(dashboards, p[1..], e))
  }

  ghost predicate PromItemAt(dashboards: seq<Dashboard>, p: Place, e: Tagged<PromResult>) {
    exists x :: ItemAt(dashboards, p, x) && x.extraction.language == "promql" && x.extraction.error == ""
      && x.extraction.promql == Some(e.res) && x.source == e.source
  }

  ghost predicate LogAt(rules: seq<RuleFile<LogResult>>, dashboards: seq<Dashboard>, p: Place, e: Tagged<LogResult>) {
    || (p != [] && p[0] == 0 && RuleAt(rules, p[1..], e))
    || (p != [] && p[0] == 1 && LogItemAt(dashboards, p[1..], e))
  }

  ghost predicate LogItemAt(dashboards: seq<Dashboard>, p: Place, e: Tagged<LogResult>) {
    exists x :: ItemAt(dashboards, p, x) && x.extraction.language == "logql" && x.extraction.error == ""
      && x.extraction.logql == Some(e.res) && x.source == e.source
  }

  ghost predicate TraceItemAt(dashboards: seq<Dashboard>, p: Place, e: Tagged<TraceResult>) {
    exists x :: ItemAt(dashboards, p, x) && x.extraction.language == "traceql" && x.extraction.error == ""
      && x.extraction.traceql == Some(e.res) && x.source == e.source
  }

  /** Every PromQL expression of the rule files and dashboards is checked as often as it
      occurs and in document order, and nothing else is. */
  lemma {:induction false} PromCollected(prom: seq<RuleFile<PromResult>>, log: seq<RuleFile<LogResult>>,
      dashboards: seq<Dashboard>)
    ensures InDocumentOrder(CorpusOf(prom, log, dashboards).prom, (p, e) => PromAt(prom, dashboards, p, e))
  {
    var rules, items := (p, e) => RuleAt(prom, p, e), (p, e) => PromItemAt(dashboards, p, e);
    RulesInOrder(prom);
    ItemsInOrder(dashboards);
    forall p, e ensures items(p, e) <==> PickedAt(ItemsOf(dashboards), AsProm(), p, e) {
      PromPicked(dashboards, p, e);
    }
    PickInOrder(Flat(dashboards, OfDashboard()), ItemsOf(dashboards), AsProm(), items);
    PartsInOrder(Flat(prom, OfFile()), Flat(Flat(dashboards, OfDashboard()), OfEach(AsProm())), rules, items);
    SameDocument(CorpusOf(prom, log, dashboards).prom, InParts(rules, items), (p, e) => PromAt(prom, dashboards, p, e));
  }

  lemma {:induction false} LogCollected(prom: seq<RuleFile<PromResult>>, log: seq<RuleFile<LogResult>>,
      dashboards: seq<Dashboard>)
    ensures InDocumentOrder(CorpusOf(prom, log, dashboards).log, (p, e) => LogAt(log, dashboards, p, e))
  {
    var rules, items := (p, e) => RuleAt(log, p, e), (p, e) => LogItemAt(dashboards, p, e);
    RulesInOrder(log);
    ItemsInOrder(dashboards);
    forall p, e ensures items(p, e) <==> PickedAt(ItemsOf(dashboards), AsLog(), p, e) {
      LogPicked(dashboards, p, e);
    }
    PickInOrder(Flat(dashboards, OfDashboard()), ItemsOf(dashboards), AsLog(), items);
    PartsInOrder(Flat(log, OfFile()), Flat(Flat(dashboards, OfDashboard()), OfEach(AsLog())), rules, items);
    SameDocument(CorpusOf(prom, log, dashboards).log, InParts(rules, items), (p, e) => LogAt(log, dashboards, p, e));
  }

  lemma {:induction false} TraceCollected(prom: seq<RuleFile<PromResult>>, log: seq<RuleFile<LogResult>>,
      dashboards: seq<Dashboard>)
    ensures InDocumentOrder(CorpusOf(prom, log, dashboards).trace, (p, e) => TraceItemAt(dashboards, p, e))
  {
    var items := (p, e) => TraceItemAt(dashboards, p, e);
    ItemsInOrder(dashboards);
    forall p, e ensures items(p, e) <==> PickedAt(ItemsOf(dashboards), AsTrace(), p, e) {
      TracePicked(dashboards, p, e);
    }
    PickInOrder(Flat(dashboards, OfDashboard()), ItemsOf(dashboards), AsTrace(), items);
    var picked := Flat(Flat(dashboards, OfDashboard()), OfEach(AsTrace()));
    assert CorpusOf(prom, log, dashboards).trace == [] + picked == picked;
  }

  ghost function ItemsOf(dashboards: seq<Dashboard>): (Place, Item) -> bool { (p, x) => ItemAt(dashboards, p, x) }

  lemma {:induction false} PromPicked(dashboards: seq<Dashboard>, p: Place, e: Tagged<PromResult>)
    ensures PromItemAt(dashboards, p, e) <==> PickedAt(ItemsOf(dashboards), AsProm(), p, e)
  {
    if x :| ItemAt(dashboards, p, x) && AsProm()(x) == Some(e) { assert ItemsOf(dashboards)(p, x); }
    if PromItemAt(dashboards, p, e) {
      var x :| ItemAt(dashboards, p, x) && x.extraction.language == "promql" && x.extraction.error == ""
        && x.extraction.promql == Some(e.res) && x.source == e.source;
      assert ItemsOf(dashboards)(p, x) && AsProm()(x) == Some(e);
    }
  }

  lemma {:induction false} LogPicked(dashboards: seq<Dashboard>, p: Place, e: Tagged<LogResult>)
    ensures LogItemAt(dashboards, p, e) <==> PickedAt(ItemsOf(dashboards), AsLog(), p, e)
  {
    if x :| ItemAt(dashboards, p, x) && AsLog()(x) == Some(e) { assert ItemsOf(dashboards)(p, x); }
    if LogItemAt(dashboards, p, e) {
      var x :| ItemAt(dashboards, p, x) && x.extraction.language == "logql" && x.extraction.error == ""
        && x.extraction.logql == Some(e.res) && x.source == e.source;
      assert ItemsOf(dashboards)(p, x) && AsLog()(x) == Some(e);
    }
  }

  lemma {:induction false} TracePicked(dashboards: seq<Dashboard>, p: Place, e: Tagged<TraceResult>)
    ensures TraceItemAt(dashboards, p, e) <==> PickedAt(ItemsOf(dashboards), AsTrace(), p, e)
  {
    if x :| ItemAt(dashboards, p, x) && AsTrace()(x) == Some(e) { assert ItemsOf(dashboards)(p, x); }
    if TraceItemAt(dashboards, p, e) {
      var x :| ItemAt(dashboards, p, x) && x.extraction.language == "traceql" && x.extraction.error == ""
        && x.extraction.traceql == Some(e.res) && x.source == e.source;
      assert ItemsOf(dashboards)(p, x) && AsTrace()(x) == Some(e);
    }
  }

  // ---------- where the parts of a document stand ----------

  function RuleHere<T(==)>(path: string, group: string): (Rule<T>, Place, Tagged<T>) -> bool {
    (r: Rule<T>, p: Place, e: Tagged<T>) =>
      p == [] && r.error == "" && e == Tagged(r.res, Source(path, 0, group, RuleName(r), ""))
  }

  function RuleInGroup<T(==)>(path: string): (Group<T>, Place, Tagged<T>) -> bool {
    (g: Group<T>, p: Place, e: Tagged<T>) => Within(g.rules, RuleHere(path, g.name))(p, e)
  }

  function RuleInFile<T(==)>(): (RuleFile<T>, Place, Tagged<T>) -> bool {
    (f: RuleFile<T>, p: Place, e: Tagged<T>) => Within(f.groups, RuleInGroup(f.path))(p, e)
  }

  lemma {:induction false} GroupInOrder<T(!new)>(path: string, g: Group<T>)
    ensures InDocumentOrder(OfGroup(path)(g), AtOf(g, RuleInGroup(path)))
  {
    forall r: Rule<T> ensures InDocumentOrder(OfRule(path, g.name)(r), AtOf(r, RuleHere(path, g.name))) {
      OneInOrder(OfRule(path, g.name)(r), AtOf(r, RuleHere(path, g.name)));
    }
    FlatInOrder(g.rules, OfRule(path, g.name), RuleHere(path, g.name));
    SameDocument(OfGroup(path)(g), Within(g.rules, RuleHere(path, g.name)), AtOf(g, RuleInGroup(path)));
  }

  lemma {:induction false} FileInOrder<T(!new)>(f: RuleFile<T>)
    ensures InDocumentOrder(OfFile()(f), AtOf(f, RuleInFile()))
  {
    forall g: Group<T> ensures InDocumentOrder(OfGroup(f.path)(g), AtOf(g, RuleInGroup(f.path))) {
      GroupInOrder(f.path, g);
    }
    FlatInOrder(f.groups, OfGroup(f.path), RuleInGroup(f.path));
    SameDocument(OfFile()(f), Within(f.groups, RuleInGroup(f.path)), AtOf(f, RuleInFile()));
  }

  lemma {:induction false} RulesInOrder<T(!new)>(files: seq<RuleFile<T>>)
    ensures InDocumentOrder(Flat(files, OfFile()), (p, e) => RuleAt(files, p, e))
  {
    forall f: RuleFile<T> ensures InDocumentOrder(OfFile<T>()(f), AtOf(f, RuleInFile<T>())) { FileInOrder(f); }
    FlatInOrder(files, OfFile(), RuleInFile());
    forall p, e ensures Within(files, RuleInFile())(p, e) <==> RuleAt(files, p, e) { RulePlace(files, p, e); }
    SameDocument(Flat(files, OfFile()), Within(files, RuleInFile()), (p, e) => RuleAt(files, p, e));
  }

  lemma {:induction false} RulePlace<T>(files: seq<RuleFile<T>>, p: Place, e: Tagged<T>)
    ensures Within(files, RuleInFile())(p, e) <==> RuleAt(files, p, e)
  {
    if p != [] && p[0] < |files| {
      var f, q := files[p[0]], p[1..];
      assert Within(files, RuleInFile())(p, e) == Within(f.groups, RuleInGroup(f.path))(q, e);
      if q != [] && q[0] < |f.groups| {
        var g, r := f.groups[q[0]], q[1..];
        assert Within(f.groups, RuleInGroup(f.path))(q, e) == Within(g.rules, RuleHere(f.path, g.name))(r, e);
        assert q[0] == p[1] && r == p[2..];
        if |r| == 1 { assert r[1..] == [] && r[0] == p[2]; }
      }
    }
  }

  function TargetHere(path: string, panel: Panel): (Target, Place, Item) -> bool {
    (t: Target, p: Place, x: Item) => p == [] && x == Item(t.extraction, Source(path, 0, "", "", PanelLabel(panel, t)))
  }

  function TargetInPanel(path: string): (Panel, Place, Item) -> bool {
    (panel: Panel, p: Place, x: Item) => Within(panel.targets, TargetHere(path, panel))(p, x)
  }

  function VariableHere(path: string): (Variable, Place, Item) -> bool {
    (v: Variable, p: Place, x: Item) => p == [] && x == Item(v.extraction, Source(path, 0, "", "", "var=" + v.name))
  }

  function ItemInDashboard(): (Dashboard, Place, Item) -> bool {
    (d: Dashboard, p: Place, x: Item) =>
      InParts(Within(d.panels, TargetInPanel(d.path)), Within(d.variables, VariableHere(d.path)))(p, x)
  }

  lemma {:induction false} PanelInOrder(path: string, panel: Panel)
    ensures InDocumentOrder(OfPanel(path)(panel), AtOf(panel, TargetInPanel(path)))
  {
    forall t ensures InDocumentOrder(OfTarget(path, panel)(t), AtOf(t, TargetHere(path, panel))) {
      OneInOrder(OfTarget(path, panel)(t), AtOf(t, TargetHere(path, panel)));
    }
    FlatInOrder(panel.targets, OfTarget(path, panel), TargetHere(path, panel));
    SameDocument(OfPanel(path)(panel), Within(panel.targets, TargetHere(path, panel)),
                 AtOf(panel, TargetInPanel(path)));
  }

  lemma {:induction false} DashboardInOrder(d: Dashboard)
    ensures InDocumentOrder(OfDashboard()(d), AtOf(d, ItemInDashboard()))
  {
    forall panel ensures InDocumentOrder(OfPanel(d.path)(panel), AtOf(panel, TargetInPanel(d.path))) {
      PanelInOrder(d.path, panel);
    }
    forall v ensures InDocumentOrder(OfVariable(d.path)(v), AtOf(v, VariableHere(d.path))) {
      OneInOrder(OfVariable(d.path)(v), AtOf(v, VariableHere(d.path)));
    }
    var panels, variables := Within(d.panels, TargetInPanel(d.path)), Within(d.variables, VariableHere(d.path));
    FlatInOrder(d.panels, OfPanel(d.path), TargetInPanel(d.path));
    FlatInOrder(d.variables, OfVariable(d.path), VariableHere(d.path));
    PartsInOrder(Flat(d.panels, OfPanel(d.path)), Flat(d.variables, OfVariable(d.path)), panels, variables);
    SameDocument(OfDashboard()(d), InParts(panels, variables), AtOf(d, ItemInDashboard()));
  }

  lemma {:induction false} ItemsInOrder(dashboards: seq<Dashboard>)
    ensures InDocumentOrder(Flat(dashboards, OfDashboard()), ItemsOf(dashboards))
  {
    forall d ensures InDocumentOrder(OfDashboard()(d), AtOf(d, ItemInDashboard())) { DashboardInOrder(d); }
    FlatInOrder(dashboards, OfDashboard(), ItemInDashboard());
    forall p, x ensures Within(dashboards, ItemInDashboard())(p, x) <==> ItemAt(dashboards, p, x) {
      ItemPlace(dashboards, p, x);
    }
    SameDocument(Flat(dashboards, OfDashboard()), Within(dashboards, ItemInDashboard()), ItemsOf(dashboards));
  }

  lemma {:induction false} PanelLabelIs(p: Panel, t: Target, text: string)
    ensures text == PanelLabel(p, t) <==> Labels(p, t, text)
  {
    if Labels(p, t, text) && t.refId != "" {
      var head :| text == head + "/" + t.refId && Heads(p, head);
      assert head + "/" + t.refId == head + ("/" + t.refId);
    }
    var head := if p.title == "" then "id=" + p.idText else p.title;
    assert Heads(p, head) && head + "/" + t.refId == head + ("/" + t.refId) && head + "" == head;
  }

  lemma {:induction false} ItemPlace(dashboards: seq<Dashboard>, p: Place, x: Item)
    ensures Within(dashboards, ItemInDashboard())(p, x) <==> ItemAt(dashboards, p, x)
  {
    if p != [] && p[0] < |dashboards| {
      var d, q := dashboards[p[0]], p[1..];
      var panels, variables := Within(d.panels, TargetInPanel(d.path)), Within(d.variables, VariableHere(d.path));
      assert Within(dashboards, ItemInDashboard())(p, x) == InParts(panels, variables)(q, x);
      if q != [] {
        assert q[0] == p[1] && q[1..] == p[2..];
        if q[0] == 0 { TargetPlace(d, q[1..], x); }
        if q[0] == 1 && |q| == 2 { assert q[1..][0] == p[2] && q[1..][1..] == []; }
      }
    }
  }

  lemma {:induction false} TargetPlace(d: Dashboard, q: Place, x: Item)
    ensures Within(d.panels, TargetInPanel(d.path))(q, x) <==>
      && |q| == 2 && q[0] < |d.panels| && q[1] < |d.panels[q[0]].targets|
      && var panel, target := d.panels[q[0]], d.panels[q[0]].targets[q[1]];
        && x.extraction == target.extraction && x.source.(panel := "") == Source(d.path, 0, "", "", "")
        && Labels(panel, target, x.source.panel)
  {
    if q != [] && q[0] < |d.panels| {
      var panel, r := d.panels[q[0]], q[1..];
      assert Within(d.panels, TargetInPanel(d.path))(q, x) == Within(panel.targets, TargetHere(d.path, panel))(r, x);
      if r != [] && r[0] < |panel.targets| {
        PanelLabelIs(panel, panel.targets[r[0]], x.source.panel);
        assert r[0] == q[1] && r[1..] == q[2..];
      }
    }
  }
}
