/** pkg/catalog/checker.go against pkg/catalog/prewarm.go: exactly which lists a check asks
    for, where it stops, and that the plan holds no list a check could not ask for. */
module CheckAsks {
  import opened Common
  import opened Findings
  import opened Cache
  import opened Checks
  import opened CheckExact
  import opened Plan
  import opened Coverage

  // ---------- where a check stops ----------

  /** Every list asked for arrived, or the last one did not, and that is the error. */
  ghost predicate Halts(w: World, run: Run) {
    match run.err
    case None => forall r | r in run.asks :: w.upstream(r).Ok?
    case Some(e) =>
      && run.asks != [] && (forall r | r in Front(run.asks) :: w.upstream(r).Ok?)
      && var last := run.asks[|run.asks| - 1];
        w.upstream(last).Failed? && e == UpstreamError(w.upstream(last).msg)
  }

  lemma {:induction false} HaltsThen(w: World, a: Run, b: Run)
    requires Halts(w, a) && (a.err.None? ==> Halts(w, b))
    ensures Halts(w, Then(a, b))
  {
    if a.err.None? && b.err.Some? {
      assert Front(a.asks + b.asks) == a.asks + Front(b.asks);
    }
  }

  lemma {:induction false} HaltsAll(w: World, rs: seq<Run>)
    requires forall i | 0 <= i < |rs| :: Halts(w, rs[i])
    ensures Halts(w, RunAll(rs))
    decreases |rs|
  {
    if rs != [] {
      HaltsAll(w, rs[..|rs| - 1]);
      HaltsThen(w, RunAll(rs[..|rs| - 1]), rs[|rs| - 1]);
    }
  }

  lemma {:induction false} AskingHalts(w: World, r: Request)
    ensures Halts(w, Asking(w, r))
  {
    assert Front([r]) == [];
  }

  lemma {:induction false} AskingAllHalts(w: World, scopes: seq<string>, req: string -> Request)
    ensures Halts(w, AskingAll(w, scopes, req))
  {
    forall i | 0 <= i < |scopes| { AskingHalts(w, req(scopes[i])); }
    HaltsAll(w, seq(|scopes|, i requires 0 <= i < |scopes| => Asking(w, req(scopes[i]))));
  }

  lemma {:induction false} SelectorHalts(w: World, src: Source, expr: string, s: Selector)
    ensures Halts(w, SelectorRun(w, src, expr, s))
  {
    if Considered(w, s) {
      var labels, values := MetricLabels(s.metric), MetricValues(s.metric, s.labelName);
      AskingHalts(w, labels);
      AskingHalts(w, values);
      HaltsThen(w, Asking(w, values), Reports(ValueReport(w, src, expr, s)));
      HaltsThen(w, Asking(w, labels),
                if ValueConsidered(w, s) then Then(Asking(w, values), Reports(ValueReport(w, src, expr, s)))
                else Reports(LabelReport(w, src, expr, s)));
    }
  }

  /** Without a client a check does nothing, without a source it is an error, and otherwise it
      asks until a list does not arrive. */
  lemma {:induction false} PromStops(w: World, res: PromResult, src: Source)
    ensures !w.cfg.prom ==> PromRun(w, res, src) == Run(None, [], [])
    ensures w.cfg.prom && w.cfg.promSource == "" ==>
      PromRun(w, res, src) == Run(Some(SourceNotSet("promql")), [], [])
    ensures w.cfg.prom && w.cfg.promSource != "" ==> Halts(w, PromRun(w, res, src))
  {
    var rs := SelectorRuns(w, src, res.expr, res.selectors);
    forall i | 0 <= i < |rs| { SelectorHalts(w, src, res.expr, res.selectors[i]); }
    HaltsAll(w, rs);
    AskingHalts(w, MetricNames);
    HaltsThen(w, Reports(MetricReports(w, src, res.expr, res.metricRefs)), RunAll(rs));
    HaltsThen(w, Asking(w, MetricNames), Then(Reports(MetricReports(w, src, res.expr, res.metricRefs)), RunAll(rs)));
  }

  lemma {:induction false} StreamHalts(w: World, src: Source, expr: string, s: LabelMatcher)
    ensures Halts(w, StreamRun(w, src, expr, s))
  {
    AskingHalts(w, StreamValues(s.labelName));
    HaltsThen(w, Asking(w, StreamValues(s.labelName)), Reports(StreamValueReport(w, src, expr, s)));
  }

  lemma {:induction false} LogStops(w: World, res: LogResult, src: Source)
    ensures !w.cfg.loki ==> LogRun(w, res, src) == Run(None, [], [])
    ensures w.cfg.loki && w.cfg.lokiSource == "" ==> LogRun(w, res, src) == Run(Some(SourceNotSet("logql")), [], [])
    ensures w.cfg.loki && w.cfg.lokiSource != "" ==> Halts(w, LogRun(w, res, src))
  {
    var rs := StreamRuns(w, src, res.expr, res.streamSelectors);
    forall i | 0 <= i < |rs| { StreamHalts(w, src, res.expr, res.streamSelectors[i]); }
    HaltsAll(w, rs);
    AskingHalts(w, StreamLabels);
    HaltsThen(w, Asking(w, StreamLabels), RunAll(rs));
  }

  lemma {:induction false} TraceStops(w: World, res: TraceResult, src: Source)
    ensures !w.cfg.tempo ==> TraceRun(w, res, src) == Run(None, [], [])
    ensures w.cfg.tempo && w.cfg.tempoSource == "" ==>
      TraceRun(w, res, src) == Run(Some(SourceNotSet("traceql")), [], [])
    ensures w.cfg.tempo && w.cfg.tempoSource != "" ==> Halts(w, TraceRun(w, res, src))
  {
    var attrs := AttributeRuns(w, src, res.expr, res.attributes);
    var ms := MatcherRuns(w, src, res.expr, res.attributes, res.matchers);
    forall i | 0 <= i < |attrs| ensures Halts(w, attrs[i]) {
      var a := res.attributes[i];
      AskingAllHalts(w, TraceScopes(a.scope), NamesRequest());
      HaltsThen(w, AskingAll(w, TraceScopes(a.scope), NamesRequest()),
                Reports(AttributeReport(w, src, res.expr, a)));
    }
    forall i | 0 <= i < |ms| ensures Halts(w, ms[i]) {
      var m := res.matchers[i];
      var asking := AskingAll(w, TraceScopes(m.attribute.scope), ValuesRequest(m.attribute.name));
      AskingAllHalts(w, TraceScopes(m.attribute.scope), ValuesRequest(m.attribute.name));
      HaltsThen(w, asking, Reports(MatcherReport(w, src, res.expr, m)));
    }
    HaltsAll(w, attrs);
    HaltsAll(w, ms);
    HaltsThen(w, RunAll(attrs), RunAll(ms));
  }

  // ---------- what is asked for ----------

  lemma {:induction false} AskedByOne(rs: seq<Run>, r: Request)
    requires RunAll(rs).err.None?
    ensures forall i | 0 <= i < |rs| :: rs[i].err.None?
    ensures r in RunAll(rs).asks <==> exists i :: 0 <= i < |rs| && r in rs[i].asks
    decreases |rs|
  {
    if rs != [] {
      var front, n := rs[..|rs| - 1], |rs| - 1;
      AskedByOne(front, r);
      assert forall i | 0 <= i < n :: front[i] == rs[i];
      if r in rs[n].asks { assert r in rs[n].asks && 0 <= n < |rs|; }
    }
  }

  lemma {:induction false} AskedOfScopes(w: World, scopes: seq<string>, req: string -> Request, r: Request)
    requires AskingAll(w, scopes, req).err.None?
    ensures r in AskingAll(w, scopes, req).asks <==> exists sc :: sc in scopes && r == req(sc)
  {
    var rs := seq(|scopes|, i requires 0 <= i < |scopes| => Asking(w, req(scopes[i])));
    AskedByOne(rs, r);
    if sc :| sc in scopes && r == req(sc) {
      var i :| 0 <= i < |scopes| && scopes[i] == sc;
      assert r in rs[i].asks;
    }
  }

  /** What a selector makes CheckPromQL ask for, besides the metric names. */
  ghost predicate SelectorAsksFor(w: World, s: Selector, r: Request) {
    && s.metric != "" && s.labelName != "" && s.metric in Upstream(w, MetricNames)
    && (r == MetricLabels(s.metric)
        || (r == MetricValues(s.metric, s.labelName) && s.op == "=" && s.value != ""
            && s.labelName in Upstream(w, MetricLabels(s.metric))))
  }

  lemma {:induction false} SelectorAsked(w: World, src: Source, expr: string, s: Selector, r: Request)
    requires SelectorRun(w, src, expr, s).err.None?
    ensures r in SelectorRun(w, src, expr, s).asks <==> SelectorAsksFor(w, s, r)
  {
    ListHas(w, MetricNames);
    ListHas(w, MetricLabels(s.metric));
  }

  lemma {:induction false} PromAsked(w: World, res: PromResult, src: Source, r: Request)
    requires w.cfg.prom && PromRun(w, res, src).err.None?
    ensures r in PromRun(w, res, src).asks <==>
      r == MetricNames || exists s :: s in res.selectors && SelectorAsksFor(w, s, r)
  {
    var rs := SelectorRuns(w, src, res.expr, res.selectors);
    AskedByOne(rs, r);
    forall i | 0 <= i < |rs| ensures r in rs[i].asks <==> SelectorAsksFor(w, res.selectors[i], r) {
      SelectorAsked(w, src, res.expr, res.selectors[i], r);
    }
    if s :| s in res.selectors && SelectorAsksFor(w, s, r) {
      var i :| 0 <= i < |res.selectors| && res.selectors[i] == s;
      assert r in rs[i].asks;
    }
  }

  ghost predicate StreamAsksFor(w: World, s: LabelMatcher, r: Request) {
    r == StreamValues(s.labelName) && s.labelName != "" && s.labelName in Upstream(w, StreamLabels)
    && s.op == "=" && s.value != ""
  }

  lemma {:induction false} StreamAsked(w: World, src: Source, expr: string, s: LabelMatcher, r: Request)
    requires StreamRun(w, src, expr, s).err.None?
    ensures r in StreamRun(w, src, expr, s).asks <==> StreamAsksFor(w, s, r)
  {
    ListHas(w, StreamLabels);
  }

  lemma {:induction false} LogAsked(w: World, res: LogResult, src: Source, r: Request)
    requires w.cfg.loki && LogRun(w, res, src).err.None?
    ensures r in LogRun(w, res, src).asks <==>
      r == StreamLabels || exists s :: s in res.streamSelectors && StreamAsksFor(w, s, r)
  {
    var rs := StreamRuns(w, src, res.expr, res.streamSelectors);
    AskedByOne(rs, r);
    forall i | 0 <= i < |rs| ensures r in rs[i].asks <==> StreamAsksFor(w, res.streamSelectors[i], r) {
      StreamAsked(w, src, res.expr, res.streamSelectors[i], r);
    }
    if s :| s in res.streamSelectors && StreamAsksFor(w, s, r) {
      var i :| 0 <= i < |res.streamSelectors| && res.streamSelectors[i] == s;
      assert r in rs[i].asks;
    }
  }

  /** The lists of names looked at for a scope: without one, those of resource and of span. */
  ghost predicate NamesFor(scope: string, r: Request) {
    if scope == "" then r == TraceNames("resource") || r == TraceNames("span") else r == TraceNames(scope)
  }

  ghost predicate ValuesFor(a: TraceQL.Attribute, r: Request) {
    if a.scope == "" then r == TraceValues("resource", a.name) || r == TraceValues("span", a.name)
    else r == TraceValues(a.scope, a.name)
  }

  /** A literal is looked up unless its attribute is reported or it stands for a variable. */
  ghost predicate LooksUp(w: World, attrs: seq<TraceQL.Attribute>, m: TraceQL.Matcher) {
    !NotInTempo(w, attrs, m.attribute.scope + "." + m.attribute.name) && m.value != "" && !ForVariable(m.value)
  }

  lemma {:induction false} NamesForIs(scope: string, r: Request)
    ensures (exists sc :: sc in TraceScopes(scope) && r == NamesRequest()(sc)) <==> NamesFor(scope, r)
  {
    CandidatesAre(scope);
    if NamesFor(scope, r) { assert r.scope in TraceScopes(scope) && r == NamesRequest()(r.scope); }
  }

  lemma {:induction false} ValuesForIs(a: TraceQL.Attribute, r: Request)
    ensures (exists sc :: sc in TraceScopes(a.scope) && r == ValuesRequest(a.name)(sc)) <==> ValuesFor(a, r)
  {
    CandidatesAre(a.scope);
    if ValuesFor(a, r) { assert r.scope in TraceScopes(a.scope) && r == ValuesRequest(a.name)(r.scope); }
  }

  lemma {:induction false} AttributeAsked(w: World, src: Source, expr: string, attrs: seq<TraceQL.Attribute>, i: nat,
      r: Request)
    requires i < |attrs| && AttributeRun(w, src, expr, attrs[..i], attrs[i]).err.None?
    ensures r in AttributeRun(w, src, expr, attrs[..i], attrs[i]).asks <==>
      FirstOfName(attrs, i) && NamesFor(attrs[i].scope, r)
  {
    FirstIs(attrs, i);
    NamesForIs(attrs[i].scope, r);
    if FirstOfName(attrs, i) {
      var asking := AskingAll(w, TraceScopes(attrs[i].scope), NamesRequest());
      AskedOfScopes(w, TraceScopes(attrs[i].scope), NamesRequest(), r);
      assert asking.asks + [] == asking.asks;
    }
  }

  lemma {:induction false} MatcherAsked(w: World, src: Source, expr: string, attrs: seq<TraceQL.Attribute>,
      m: TraceQL.Matcher, r: Request)
    requires MatcherRun(w, src, expr, attrs, m).err.None?
    ensures r in MatcherRun(w, src, expr, attrs, m).asks <==> LooksUp(w, attrs, m) && ValuesFor(m.attribute, r)
  {
    UnknownIs(w, attrs, TraceQL.Qualified(m.attribute));
    ContainsExactly(m.value, SENTINEL);
    ValuesForIs(m.attribute, r);
    if LooksUp(w, attrs, m) {
      var asking := AskingAll(w, TraceScopes(m.attribute.scope), ValuesRequest(m.attribute.name));
      AskedOfScopes(w, TraceScopes(m.attribute.scope), ValuesRequest(m.attribute.name), r);
      assert asking.asks + [] == asking.asks;
    }
  }

  lemma {:induction false} AttributesAsked(w: World, src: Source, expr: string, attrs: seq<TraceQL.Attribute>,
      r: Request)
    requires RunAll(AttributeRuns(w, src, expr, attrs)).err.None?
    ensures r in RunAll(AttributeRuns(w, src, expr, attrs)).asks <==>
      exists i :: 0 <= i < |attrs| && FirstOfName(attrs, i) && NamesFor(attrs[i].scope, r)
  {
    var rs := AttributeRuns(w, src, expr, attrs);
    AskedByOne(rs, r);
    forall i | 0 <= i < |rs| ensures r in rs[i].asks <==> FirstOfName(attrs, i) && NamesFor(attrs[i].scope, r) {
      AttributeAsked(w, src, expr, attrs, i, r);
    }
  }

  lemma {:induction false} MatchersAsked(w: World, src: Source, expr: string, attrs: seq<TraceQL.Attribute>,
      ms: seq<TraceQL.Matcher>, r: Request)
    requires RunAll(MatcherRuns(w, src, expr, attrs, ms)).err.None?
    ensures r in RunAll(MatcherRuns(w, src, expr, attrs, ms)).asks <==>
      exists m :: m in ms && LooksUp(w, attrs, m) && ValuesFor(m.attribute, r)
  {
    var rs := MatcherRuns(w, src, expr, attrs, ms);
    AskedByOne(rs, r);
    forall i | 0 <= i < |rs|
      ensures r in rs[i].asks <==> LooksUp(w, attrs, ms[i]) && ValuesFor(ms[i].attribute, r)
    {
      MatcherAsked(w, src, expr, attrs, ms[i], r);
    }
    if m :| m in ms && LooksUp(w, attrs, m) && ValuesFor(m.attribute, r) {
      var i :| 0 <= i < |ms| && ms[i] == m;
      assert r in rs[i].asks;
    }
  }

  /** A check asks for the names of every candidate scope of the first attribute of each
      qualified name, and for the values of every candidate scope of each literal it looks up. */
  lemma {:induction false} TraceAsked(w: World, res: TraceResult, src: Source, r: Request)
    requires w.cfg.tempo && TraceRun(w, res, src).err.None?
    ensures r in TraceRun(w, res, src).asks <==>
      || (exists i :: 0 <= i < |res.attributes| && FirstOfName(res.attributes, i)
            && NamesFor(res.attributes[i].scope, r))
      || (exists m :: m in res.matchers && LooksUp(w, res.attributes, m) && ValuesFor(m.attribute, r))
  {
    AttributesAsked(w, src, res.expr, res.attributes, r);
    MatchersAsked(w, src, res.expr, res.attributes, res.matchers, r);
  }

  // ---------- nothing is planned in vain ----------

  /** Some check of the corpus asks for r. */
  ghost predicate AskedBySome(w: World, x: Inputs, src: Source, r: Request) {
    || (exists k :: 0 <= k < |x.promql| && r in PromRun(w, x.promql[k], src).asks)
    || (exists k :: 0 <= k < |x.logql| && r in LogRun(w, x.logql[k], src).asks)
    || (exists k :: 0 <= k < |x.traceql| && r in TraceRun(w, x.traceql[k], src).asks)
  }

  /** With some upstream, it does. */
  ghost predicate Askable(cfg: Config, x: Inputs, src: Source, r: Request) {
    exists upstream: Request -> Fetched :: AskedBySome(World(cfg, upstream), x, src, r)
  }

  /** Some attribute that is the first to read as it does may be found in the scope. */
  ghost predicate FirstInScope(ts: seq<TraceResult>, sc: string) {
    exists k, i :: 0 <= k < |ts| && 0 <= i < |ts[k].attributes| && FirstOfName(ts[k].attributes, i)
      && NamesFor(ts[k].attributes[i].scope, TraceNames(sc))
  }

  /** An upstream that gives these names, whatever it is asked for. */
  function Giving(cfg: Config, names: seq<string>): World { World(cfg, (_: Request) => Ok(Entries.Present(names))) }

  lemma {:induction false} MetricAskable(cfg: Config, x: Inputs, src: Source, k: nat, s: Selector, r: Request)
    requires cfg.prom && SourcesSet(cfg) && k < |x.promql| && s in x.promql[k].selectors && Labelled(s)
    requires r == MetricLabels(s.metric) || (r == MetricValues(s.metric, s.labelName) && Valued(s))
    ensures Askable(cfg, x, src, r)
  {
    var w := Giving(cfg, [s.metric, s.labelName]);
    assert s.metric == [s.metric, s.labelName][0] && s.labelName == [s.metric, s.labelName][1];
    PromStops(w, x.promql[k], src);
    assert SelectorAsksFor(w, s, r);
    PromAsked(w, x.promql[k], src, r);
    assert AskedBySome(World(cfg, w.upstream), x, src, r);
  }

  lemma {:induction false} GlobalAskable(cfg: Config, x: Inputs, src: Source, r: Request)
    requires SourcesSet(cfg)
    requires (r == MetricNames && cfg.prom && x.promql != []) || (r == StreamLabels && cfg.loki && x.logql != [])
    ensures Askable(cfg, x, src, r)
  {
    var w := Giving(cfg, []);
    if r == MetricNames {
      PromStops(w, x.promql[0], src);
      PromAsked(w, x.promql[0], src, r);
    } else {
      LogStops(w, x.logql[0], src);
      LogAsked(w, x.logql[0], src, r);
    }
    assert AskedBySome(World(cfg, w.upstream), x, src, r);
  }

  lemma {:induction false} StreamAskable(cfg: Config, x: Inputs, src: Source, k: nat, s: LabelMatcher)
    requires cfg.loki && SourcesSet(cfg) && k < |x.logql| && s in x.logql[k].streamSelectors && StreamValued(s)
    ensures Askable(cfg, x, src, StreamValues(s.labelName))
  {
    var w := Giving(cfg, [s.labelName]);
    assert s.labelName == [s.labelName][0];
    LogStops(w, x.logql[k], src);
    assert StreamAsksFor(w, s, StreamValues(s.labelName));
    LogAsked(w, x.logql[k], src, StreamValues(s.labelName));
    assert AskedBySome(World(cfg, w.upstream), x, src, StreamValues(s.labelName));
  }

  lemma {:induction false} NamesAskable(cfg: Config, x: Inputs, src: Source, sc: string)
    requires cfg.tempo && SourcesSet(cfg) && FirstInScope(x.traceql, sc)
    ensures Askable(cfg, x, src, TraceNames(sc))
  {
    var w := Giving(cfg, []);
    var k, i :| 0 <= k < |x.traceql| && 0 <= i < |x.traceql[k].attributes| && FirstOfName(x.traceql[k].attributes, i)
      && NamesFor(x.traceql[k].attributes[i].scope, TraceNames(sc));
    TraceStops(w, x.traceql[k], src);
    TraceAsked(w, x.traceql[k], src, TraceNames(sc));
    assert AskedBySome(World(cfg, w.upstream), x, src, TraceNames(sc));
  }

  lemma {:induction false} ValuesAskable(cfg: Config, x: Inputs, src: Source, k: nat, m: TraceQL.Matcher, r: Request)
    requires cfg.tempo && SourcesSet(cfg) && k < |x.traceql| && m in x.traceql[k].matchers && TraceValued(m)
    requires ValuesFor(m.attribute, r)
    ensures Askable(cfg, x, src, r)
  {
    var attrs := x.traceql[k].attributes;
    var names := seq(|attrs|, i requires 0 <= i < |attrs| => attrs[i].name);
    var w := Giving(cfg, names);
    forall i | 0 <= i < |attrs| ensures attrs[i].name in TempoNames(w, attrs[i].scope) {
      assert names[i] == attrs[i].name && names[i] in names;
    }
    ContainsExactly(m.value, SENTINEL);
    TraceStops(w, x.traceql[k], src);
    assert LooksUp(w, attrs, m);
    TraceAsked(w, x.traceql[k], src, r);
    assert AskedBySome(World(cfg, w.upstream), x, src, r);
  }

  lemma {:induction false} AskedIsCovered(w: World, x: Inputs, src: Source, r: Request)
    requires AskedBySome(w, x, src, r)
    ensures Covered(w.cfg, x, r)
  {
    var env := Env(w, (_: nat) => 1, false);
    if k :| 0 <= k < |x.promql| && r in PromRun(w, x.promql[k], src).asks {
      PromCovered(env, x, k, src, r);
    } else if k :| 0 <= k < |x.logql| && r in LogRun(w, x.logql[k], src).asks {
      LogCovered(env, x, k, src, r);
    } else {
      var k :| 0 <= k < |x.traceql| && r in TraceRun(w, x.traceql[k], src).asks;
      TraceCovered(env, x, k, src, r);
    }
  }

  /** Whatever is planned has its reason. */
  lemma {:induction false} PlannedAskable(cfg: Config, x: Inputs, src: Source, r: Request)
    requires SourcesSet(cfg) && Planned(cfg, x, r) && (r.TraceNames? ==> FirstInScope(x.traceql, r.scope))
    ensures Askable(cfg, x, src, r)
  {
    match r
    case MetricNames => GlobalAskable(cfg, x, src, r);
    case MetricLabels(m) =>
      var s :| HasSelector(x.promql, s) && Labelled(s) && s.metric == m;
      var k :| 0 <= k < |x.promql| && s in x.promql[k].selectors;
      MetricAskable(cfg, x, src, k, s, r);
    case MetricValues(m, l) =>
      var s :| HasSelector(x.promql, s) && Valued(s) && s.metric == m && s.labelName == l;
      var k :| 0 <= k < |x.promql| && s in x.promql[k].selectors;
      MetricAskable(cfg, x, src, k, s, r);
    case StreamLabels => GlobalAskable(cfg, x, src, r);
    case StreamValues(l) =>
      var s :| HasStream(x.logql, s) && StreamValued(s) && s.labelName == l;
      var k :| 0 <= k < |x.logql| && s in x.logql[k].streamSelectors;
      StreamAskable(cfg, x, src, k, s);
    case TraceNames(sc) => NamesAskable(cfg, x, src, sc);
    case TraceValues(sc, n) =>
      var m :|
        HasMatcher(x.traceql, m) && TraceValued(m) && Candidate(m.attribute.scope, sc) && n == m.attribute.name;
      var k :| 0 <= k < |x.traceql| && m in x.traceql[k].matchers;
      ValuesAskable(cfg, x, src, k, m, r);
  }

  lemma {:induction false} PromAsksNoNames(w: World, res: PromResult, src: Source, sc: string)
    ensures TraceNames(sc) !in PromRun(w, res, src).asks
  {
    var env := Env(w, (_: nat) => 1, false);
    if TraceNames(sc) in PromRun(w, res, src).asks {
      var i := AskedInOne(SelectorRuns(w, src, res.expr, res.selectors), TraceNames(sc));
      SelectorAsks(env, src, res.expr, res.selectors[i], TraceNames(sc));
    }
  }

  lemma {:induction false} LogAsksNoNames(w: World, res: LogResult, src: Source, sc: string)
    ensures TraceNames(sc) !in LogRun(w, res, src).asks
  {
    var env := Env(w, (_: nat) => 1, false);
    if TraceNames(sc) in LogRun(w, res, src).asks {
      var i := AskedInOne(StreamRuns(w, src, res.expr, res.streamSelectors), TraceNames(sc));
      StreamAsks(env, src, res.expr, res.streamSelectors[i], TraceNames(sc));
    }
  }

  lemma {:induction false} MatcherAsksNoNames(w: World, src: Source, res: TraceResult, sc: string)
    ensures TraceNames(sc) !in RunAll(MatcherRuns(w, src, res.expr, res.attributes, res.matchers)).asks
  {
    var env := Env(w, (_: nat) => 1, false);
    var ms := MatcherRuns(w, src, res.expr, res.attributes, res.matchers);
    if TraceNames(sc) in RunAll(ms).asks {
      var i := AskedInOne(ms, TraceNames(sc));
      var a := res.matchers[i].attribute;
      var c := ScopeAsks(env, TraceScopes(a.scope), ValuesRequest(a.name), TraceNames(sc));
    }
  }

  lemma {:induction false} AttributeAsksNames(w: World, src: Source, expr: string, attrs: seq<TraceQL.Attribute>,
      i: nat, sc: string)
    requires i < |attrs| && TraceNames(sc) in AttributeRun(w, src, expr, attrs[..i], attrs[i]).asks
    ensures FirstOfName(attrs, i) && NamesFor(attrs[i].scope, TraceNames(sc))
  {
    FirstIs(attrs, i);
    var c := ScopeAsks(Env(w, (_: nat) => 1, false), TraceScopes(attrs[i].scope), NamesRequest(), TraceNames(sc));
    NamesForIs(attrs[i].scope, TraceNames(sc));
  }

  lemma {:induction false} FirstAsking(w: World, res: TraceResult, src: Source, sc: string) returns (i: nat)
    requires TraceNames(sc) in TraceRun(w, res, src).asks
    ensures i < |res.attributes| && FirstOfName(res.attributes, i) && NamesFor(res.attributes[i].scope, TraceNames(sc))
  {
    MatcherAsksNoNames(w, src, res, sc);
    i := AskedInOne(AttributeRuns(w, src, res.expr, res.attributes), TraceNames(sc));
    AttributeAsksNames(w, src, res.expr, res.attributes, i, sc);
  }

  /** The names in a scope are asked for only because of a first attribute. */
  lemma {:induction false} AskedInScope(w: World, x: Inputs, src: Source, sc: string)
    requires AskedBySome(w, x, src, TraceNames(sc))
    ensures FirstInScope(x.traceql, sc)
  {
    forall k | 0 <= k < |x.promql| { PromAsksNoNames(w, x.promql[k], src, sc); }
    forall k | 0 <= k < |x.logql| { LogAsksNoNames(w, x.logql[k], src, sc); }
    var k :| 0 <= k < |x.traceql| && TraceNames(sc) in TraceRun(w, x.traceql[k], src).asks;
    var i := FirstAsking(w, x.traceql[k], src, sc);
  }

  /** A list is planned exactly if, with some upstream, some check of the corpus asks for it;
      but for a global list of which the corpus names nothing, and the names in a scope in which
      every attribute reads like an earlier one of its query. */
  lemma {:induction false} PlannedExactly(cfg: Config, x: Inputs, src: Source, r: Request)
    requires SourcesSet(cfg)
    ensures Planned(cfg, x, r) && (r.TraceNames? ==> FirstInScope(x.traceql, r.scope)) <==>
      Askable(cfg, x, src, r) && !LeftOut(x, r)
  {
    if Planned(cfg, x, r) && (r.TraceNames? ==> FirstInScope(x.traceql, r.scope)) {
      PlannedAskable(cfg, x, src, r);
      NotLeftOut(cfg, x, r);
    }
    if Askable(cfg, x, src, r) && !LeftOut(x, r) {
      var upstream: Request -> Fetched :| AskedBySome(World(cfg, upstream), x, src, r);
      AskedIsCovered(World(cfg, upstream), x, src, r);
      if r.TraceNames? { AskedInScope(World(cfg, upstream), x, src, r.scope); }
    }
  }

  lemma {:induction false} NotLeftOut(cfg: Config, x: Inputs, r: Request)
    requires Planned(cfg, x, r)
    ensures !LeftOut(x, r)
  {
  }

  lemma {:induction false} FirstLike(attrs: seq<TraceQL.Attribute>, i: nat) returns (j: nat)
    requires i < |attrs|
    ensures j <= i && FirstOfName(attrs, j) && TraceQL.Qualified(attrs[j]) == TraceQL.Qualified(attrs[i])
  {
    if FirstOfName(attrs, i) {
      j := i;
    } else {
      var k :| 0 <= k < i && attrs[k].scope + "." + attrs[k].name == attrs[i].scope + "." + attrs[i].name;
      j := FirstLike(attrs, k);
    }
  }

  /** Where no scope holds a dot, as the parser's do not, that last exception does not arise. */
  lemma {:induction false} DotFreeFirst(cfg: Config, x: Inputs, sc: string)
    requires Planned(cfg, x, TraceNames(sc)) && forall a | HasAttribute(x.traceql, a) :: TraceQL.DotFree(a.scope)
    ensures FirstInScope(x.traceql, sc)
  {
    var a :| HasAttribute(x.traceql, a) && Candidate(a.scope, sc);
    var k :| 0 <= k < |x.traceql| && a in x.traceql[k].attributes;
    var attrs := x.traceql[k].attributes;
    var i :| 0 <= i < |attrs| && attrs[i] == a;
    var j := FirstLike(attrs, i);
    assert attrs[j] in attrs && HasAttribute(x.traceql, attrs[j]);
    TraceQL.QualifiedInjective(attrs[j], a);
  }

  /** It can: of two attributes that both read a.b.c the second is never looked up, and the names
      in its scope are planned all the same. */
  lemma {:induction false} PlannedInVain(cfg: Config, src: Source)
    requires cfg.tempo && SourcesSet(cfg)
    ensures var attrs := [TraceQL.Attribute("a.b", false, "c"), TraceQL.Attribute("a", false, "b.c")];
      var x := Inputs([], [], [TraceResult("", attrs, [])]);
      Planned(cfg, x, TraceNames("a")) && !Askable(cfg, x, src, TraceNames("a"))
  {
    var attrs := [TraceQL.Attribute("a.b", false, "c"), TraceQL.Attribute("a", false, "b.c")];
    var x := Inputs([], [], [TraceResult("", attrs, [])]);
    assert attrs[1] in x.traceql[0].attributes;
    assert attrs[0].scope + "." + attrs[0].name == "a.b.c" == attrs[1].scope + "." + attrs[1].name;
    assert !FirstOfName(attrs, 1);
    PlannedExactly(cfg, x, src, TraceNames("a"));
  }
}
