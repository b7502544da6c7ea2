/** pkg/catalog/checker.go: exactly what each check reports, in terms of the upstream
    catalog and the allowlist alone. */
module CheckExact {
  import opened Common
  import opened Lists
  import opened Findings
  import opened Cache
  import opened Checks
  import opened Allowlist

  /** At most one fault for each reference, selector, attribute or matcher. */
  function Somes(fs: seq<Option<Finding>>): seq<Finding> {
    if fs == [] then []
    else Somes(fs[..|fs| - 1]) + match fs[|fs| - 1] case None => [] case Some(f) => [f]
  }

  lemma {:induction false} InSomes(fs: seq<Option<Finding>>, f: Finding)
    ensures f in Somes(fs) <==> Some(f) in fs
  {
    if fs != [] {
      InSomes(fs[..|fs| - 1], f);
      assert fs == fs[..|fs| - 1] + [fs[|fs| - 1]];
    }
  }

  ghost predicate Matches(run: Run, fault: Option<Finding>) {
    run.err.None? ==> run.findings == match fault case None => [] case Some(f) => [f]
  }

  /** A sequence of runs that no error stops reports the faults in order. */
  lemma {:induction false} RunAllReports(rs: seq<Run>, faults: seq<Option<Finding>>)
    requires |rs| == |faults| && (forall i | 0 <= i < |rs| :: Matches(rs[i], faults[i])) && RunAll(rs).err.None?
    ensures RunAll(rs).findings == Somes(faults)
    decreases |rs|
  {
    if rs != [] { RunAllReports(rs[..|rs| - 1], faults[..|rs| - 1]); }
  }

  // ---------- what findings are made of ----------

  /** At most three suggestions from at most three edits away, unless configured otherwise. */
  ghost function Best(cfg: Config, name: string, known: seq<string>): seq<string> {
    Suggest.Matches(name, known, if cfg.maxSuggestions > 0 then cfg.maxSuggestions else 3,
                    if cfg.suggestDist > 0 then cfg.suggestDist else 3)
  }

  lemma {:induction false} SuggestionsAre(w: World, r: Request, name: string)
    ensures Suggestions(w.cfg, name, ListOf(w, r)) == Best(w.cfg, name, Upstream(w, r))
  {
    ListHas(w, r);
    Suggest.MatchesIgnoreOrder(name, ListOf(w, r), Upstream(w, r), MaxSuggestions(w.cfg), SuggestDist(w.cfg));
  }

  ghost predicate MetricAllowed(cfg: Config, metric: string) {
    cfg.allow.Some? && SomeAccepts(cfg.allow.value.metrics, metric)
  }

  ghost predicate LabelAllowed(cfg: Config, metric: string, labelName: string) {
    cfg.allow.Some? && exists key ::
      key in cfg.allow.value.labels && Accepts(key, metric) && SomeAccepts(cfg.allow.value.labels[key], labelName)
  }

  ghost predicate ValueAllowed(cfg: Config, metric: string, labelName: string, value: string) {
    cfg.allow.Some? && exists key ::
      key in cfg.allow.value.labelValues && KeyAccepts(key, metric, labelName)
      && SomeAccepts(cfg.allow.value.labelValues[key], value)
  }

  lemma {:induction false} AllowedExactly(cfg: Config, metric: string, labelName: string, value: string)
    ensures Checks.AllowsMetric(cfg, metric) <==> MetricAllowed(cfg, metric)
    ensures Checks.AllowsLabel(cfg, metric, labelName) <==> LabelAllowed(cfg, metric, labelName)
    ensures Checks.AllowsLabelValue(cfg, metric, labelName, value) <==> ValueAllowed(cfg, metric, labelName, value)
  {
    forall p: string, s: string ensures MatchPattern(p, s) <==> Accepts(p, s) { PatternExactly(p, s); }
    forall ps: seq<string>, s: string ensures MatchAny(ps, s) <==> SomeAccepts(ps, s) { AnyExactly(ps, s); }
    forall key ensures KeyMatches(key, metric, labelName) <==> KeyAccepts(key, metric, labelName) {
      KeyExactly(key, metric, labelName);
    }
  }

  // ---------- PromQL ----------

  /** A metric upstream does not list and no pattern allows. */
  ghost function MetricFault(w: World, src: Source, expr: string, m: string): Option<Finding> {
    if m in Upstream(w, MetricNames) || MetricAllowed(w.cfg, m) then None
    else Some(Finding("E101_METRIC_UNKNOWN", "error", "catalog", src,
                      "metric " + w.cfg.quote(m) + " not present in catalog",
                      Best(w.cfg, m, Upstream(w, MetricNames)), Context(m, "", "", expr)))
  }

  /** Nothing beneath an unknown metric or label; a value only for an equality. */
  ghost function SelectorFault(w: World, src: Source, expr: string, s: Selector): Option<Finding> {
    var labels, values := Upstream(w, MetricLabels(s.metric)), Upstream(w, MetricValues(s.metric, s.labelName));
    if s.metric == "" || s.labelName == "" || s.metric !in Upstream(w, MetricNames) then None
    else if s.labelName !in labels then
      if LabelAllowed(w.cfg, s.metric, s.labelName) then None
      else Some(Finding("E102_LABEL_UNKNOWN", "error", "catalog", src,
                        "label " + w.cfg.quote(s.labelName) + " not present on metric " + w.cfg.quote(s.metric),
                        Best(w.cfg, s.labelName, labels), Context(s.metric, s.labelName, "", expr)))
    else if s.op != "=" || s.value == "" || s.value in values then None
    else if ValueAllowed(w.cfg, s.metric, s.labelName, s.value) then None
    else Some(Finding("E103_LABEL_VALUE_UNKNOWN", "error", "catalog", src,
                      "value " + w.cfg.quote(s.value) + " not observed for label " + w.cfg.quote(s.labelName)
                      + " on metric " + w.cfg.quote(s.metric),
                      Best(w.cfg, s.value, values), Context(s.metric, s.labelName, s.value, expr)))
  }

  ghost function MetricFaults(w: World, src: Source, expr: string, refs: seq<string>): seq<Option<Finding>> {
    seq(|refs|, i requires 0 <= i < |refs| => MetricFault(w, src, expr, refs[i]))
  }

  ghost function SelectorFaults(w: World, src: Source, expr: string, sels: seq<Selector>): seq<Option<Finding>> {
    seq(|sels|, i requires 0 <= i < |sels| => SelectorFault(w, src, expr, sels[i]))
  }

  lemma {:induction false} MetricFaultIs(w: World, src: Source, expr: string, m: string)
    ensures MetricFault(w, src, expr, m) ==
      if UnknownMetric(w, m) then Some(MetricUnknown(w.cfg, src, expr, m, ListOf(w, MetricNames))) else None
  {
    ListHas(w, MetricNames);
    SuggestionsAre(w, MetricNames, m);
    AllowedExactly(w.cfg, m, "", "");
  }

  lemma {:induction false} MetricReportsAre(w: World, src: Source, expr: string, refs: seq<string>)
    ensures MetricReports(w, src, expr, refs) == Somes(MetricFaults(w, src, expr, refs))
    decreases |refs|
  {
    var fs := MetricFaults(w, src, expr, refs);
    if refs != [] {
      var front := refs[..|refs| - 1];
      MetricReportsAre(w, src, expr, front);
      assert fs[..|fs| - 1] == MetricFaults(w, src, expr, front);
      MetricFaultIs(w, src, expr, refs[|refs| - 1]);
    }
  }

  lemma {:induction false} LabelFaultIs(w: World, src: Source, expr: string, s: Selector)
    requires Considered(w, s) && s.labelName !in ListOf(w, MetricLabels(s.metric))
    ensures SelectorFault(w, src, expr, s) ==
      if Checks.AllowsLabel(w.cfg, s.metric, s.labelName) then None
      else Some(LabelUnknown(w.cfg, src, expr, s, ListOf(w, MetricLabels(s.metric))))
  {
    ListHas(w, MetricNames);
    ListHas(w, MetricLabels(s.metric));
    SuggestionsAre(w, MetricLabels(s.metric), s.labelName);
    AllowedExactly(w.cfg, s.metric, s.labelName, "");
  }

  lemma {:induction false} ValueFaultIs(w: World, src: Source, expr: string, s: Selector)
    requires Considered(w, s) && s.labelName in ListOf(w, MetricLabels(s.metric)) && s.op == "=" && s.value != ""
    ensures SelectorFault(w, src, expr, s) ==
      if s.value in ListOf(w, MetricValues(s.metric, s.labelName))
         || Checks.AllowsLabelValue(w.cfg, s.metric, s.labelName, s.value) then None
      else Some(ValueUnknown(w.cfg, src, expr, s, ListOf(w, MetricValues(s.metric, s.labelName))))
  {
    ListHas(w, MetricNames);
    ListHas(w, MetricLabels(s.metric));
    ListHas(w, MetricValues(s.metric, s.labelName));
    SuggestionsAre(w, MetricValues(s.metric, s.labelName), s.value);
    AllowedExactly(w.cfg, s.metric, s.labelName, s.value);
  }

  lemma {:induction false} SelectorMatches(w: World, src: Source, expr: string, s: Selector)
    ensures Matches(SelectorRun(w, src, expr, s), SelectorFault(w, src, expr, s))
  {
    ListHas(w, MetricNames);
    ListHas(w, MetricLabels(s.metric));
    if Considered(w, s) {
      if s.labelName !in ListOf(w, MetricLabels(s.metric)) {
        LabelFaultIs(w, src, expr, s);
      } else if s.op == "=" && s.value != "" {
        ValueFaultIs(w, src, expr, s);
      }
    }
  }

  /** CheckPromQL reports, for each unknown reference and each faulty selector, one
      finding, and nothing else. */
  lemma {:induction false} PromExactly(w: World, res: PromResult, src: Source)
    requires w.cfg.prom && PromRun(w, res, src).err.None?
    ensures PromRun(w, res, src).findings ==
      Somes(MetricFaults(w, src, res.expr, res.metricRefs)) + Somes(SelectorFaults(w, src, res.expr, res.selectors))
  {
    if w.cfg.promSource != "" {
      PromParts(w, res, src);
      SelectorsReport(w, src, res.expr, res.selectors);
      MetricReportsAre(w, src, res.expr, res.metricRefs);
    }
  }

  lemma {:induction false} SelectorsReport(w: World, src: Source, expr: string, sels: seq<Selector>)
    requires RunAll(SelectorRuns(w, src, expr, sels)).err.None?
    ensures RunAll(SelectorRuns(w, src, expr, sels)).findings == Somes(SelectorFaults(w, src, expr, sels))
  {
    var rs := SelectorRuns(w, src, expr, sels);
    forall i | 0 <= i < |rs| ensures Matches(rs[i], SelectorFaults(w, src, expr, sels)[i]) {
      SelectorMatches(w, src, expr, sels[i]);
    }
    RunAllReports(rs, SelectorFaults(w, src, expr, sels));
  }

  lemma {:induction false} PromParts(w: World, res: PromResult, src: Source)
    requires w.cfg.prom && w.cfg.promSource != "" && PromRun(w, res, src).err.None?
    ensures RunAll(SelectorRuns(w, src, res.expr, res.selectors)).err.None?
    ensures PromRun(w, res, src).findings ==
      MetricReports(w, src, res.expr, res.metricRefs) + RunAll(SelectorRuns(w, src, res.expr, res.selectors)).findings
  {
  }

  /** So a finding is reported exactly if it is the fault of some reference or selector. */
  lemma {:induction false} PromReported(w: World, res: PromResult, src: Source, f: Finding)
    requires w.cfg.prom && PromRun(w, res, src).err.None?
    ensures f in PromRun(w, res, src).findings <==>
      || (exists m :: m in res.metricRefs && MetricFault(w, src, res.expr, m) == Some(f))
      || (exists s :: s in res.selectors && SelectorFault(w, src, res.expr, s) == Some(f))
  {
    PromExactly(w, res, src);
    MetricReported(w, src, res.expr, res.metricRefs, f);
    SelectorReported(w, src, res.expr, res.selectors, f);
  }

  lemma {:induction false} MetricReported(w: World, src: Source, expr: string, refs: seq<string>, f: Finding)
    ensures f in Somes(MetricFaults(w, src, expr, refs)) <==>
      exists m :: m in refs && MetricFault(w, src, expr, m) == Some(f)
  {
    var fs := MetricFaults(w, src, expr, refs);
    InSomes(fs, f);
    assert forall i | 0 <= i < |fs| :: fs[i] == MetricFault(w, src, expr, refs[i]);
  }

  lemma {:induction false} SelectorReported(w: World, src: Source, expr: string, sels: seq<Selector>, f: Finding)
    ensures f in Somes(SelectorFaults(w, src, expr, sels)) <==>
      exists s :: s in sels && SelectorFault(w, src, expr, s) == Some(f)
  {
    var fs := SelectorFaults(w, src, expr, sels);
    InSomes(fs, f);
    assert forall i | 0 <= i < |fs| :: fs[i] == SelectorFault(w, src, expr, sels[i]);
  }

  // ---------- LogQL ----------

  ghost function StreamFault(w: World, src: Source, expr: string, s: LabelMatcher): Option<Finding> {
    var labels, values := Upstream(w, StreamLabels), Upstream(w, StreamValues(s.labelName));
    if s.labelName == "" then None
    else if s.labelName !in labels then
      if LabelAllowed(w.cfg, "", s.labelName) then None
      else Some(Finding("E201_STREAM_LABEL_UNKNOWN", "error", "catalog", src,
                        "stream label " + w.cfg.quote(s.labelName) + " not present in Loki",
                        Best(w.cfg, s.labelName, labels), Context("", s.labelName, "", expr)))
    else if s.op != "=" || s.value == "" || s.value in values then None
    else if ValueAllowed(w.cfg, "", s.labelName, s.value) then None
    else Some(Finding("E202_STREAM_VALUE_UNKNOWN", "error", "catalog", src,
                      "value " + w.cfg.quote(s.value) + " not observed for stream label " + w.cfg.quote(s.labelName),
                      Best(w.cfg, s.value, values), Context("", s.labelName, s.value, expr)))
  }

  ghost function StreamFaults(w: World, src: Source, expr: string, sels: seq<LabelMatcher>): seq<Option<Finding>> {
    seq(|sels|, i requires 0 <= i < |sels| => StreamFault(w, src, expr, sels[i]))
  }

  lemma {:induction false} StreamMatches(w: World, src: Source, expr: string, s: LabelMatcher)
    ensures Matches(StreamRun(w, src, expr, s), StreamFault(w, src, expr, s))
  {
    ListHas(w, StreamLabels);
    ListHas(w, StreamValues(s.labelName));
    SuggestionsAre(w, StreamLabels, s.labelName);
    SuggestionsAre(w, StreamValues(s.labelName), s.value);
    AllowedExactly(w.cfg, "", s.labelName, s.value);
  }

  lemma {:induction false} LogExactly(w: World, res: LogResult, src: Source)
    requires w.cfg.loki && LogRun(w, res, src).err.None?
    ensures LogRun(w, res, src).findings == Somes(StreamFaults(w, src, res.expr, res.streamSelectors))
  {
    if w.cfg.lokiSource != "" {
      LogParts(w, res, src);
      StreamsReport(w, src, res.expr, res.streamSelectors);
    }
  }

  lemma {:induction false} StreamsReport(w: World, src: Source, expr: string, sels: seq<LabelMatcher>)
    requires RunAll(StreamRuns(w, src, expr, sels)).err.None?
    ensures RunAll(StreamRuns(w, src, expr, sels)).findings == Somes(StreamFaults(w, src, expr, sels))
  {
    var rs := StreamRuns(w, src, expr, sels);
    forall i | 0 <= i < |rs| ensures Matches(rs[i], StreamFaults(w, src, expr, sels)[i]) {
      StreamMatches(w, src, expr, sels[i]);
    }
    RunAllReports(rs, StreamFaults(w, src, expr, sels));
  }

  lemma {:induction false} LogParts(w: World, res: LogResult, src: Source)
    requires w.cfg.loki && w.cfg.lokiSource != "" && LogRun(w, res, src).err.None?
    ensures RunAll(StreamRuns(w, src, res.expr, res.streamSelectors)).err.None?
    ensures LogRun(w, res, src).findings == RunAll(StreamRuns(w, src, res.expr, res.streamSelectors)).findings
  {
  }

  lemma {:induction false} LogReported(w: World, res: LogResult, src: Source, f: Finding)
    requires w.cfg.loki && LogRun(w, res, src).err.None?
    ensures f in LogRun(w, res, src).findings <==>
      exists s :: s in res.streamSelectors && StreamFault(w, src, res.expr, s) == Some(f)
  {
    var ss := StreamFaults(w, src, res.expr, res.streamSelectors);
    LogExactly(w, res, src);
    InSomes(ss, f);
    assert forall i | 0 <= i < |ss| :: ss[i] == StreamFault(w, src, res.expr, res.streamSelectors[i]);
  }

  // ---------- TraceQL ----------

  /** The names Tempo holds in a scope; for an unscoped attribute, in resource or span. */
  ghost function TempoNames(w: World, scope: string): seq<string> {
    if scope == "" then Upstream(w, TraceNames("resource")) + Upstream(w, TraceNames("span"))
    else Upstream(w, TraceNames(scope))
  }

  ghost function TempoValues(w: World, scope: string, name: string): seq<string> {
    if scope == "" then Upstream(w, TraceValues("resource", name)) + Upstream(w, TraceValues("span", name))
    else Upstream(w, TraceValues(scope, name))
  }

  ghost function SetOf(s: seq<string>): set<string> { set x | x in s }

  lemma {:induction false} InMerged(w: World, scopes: seq<string>, req: string -> Request, x: string)
    ensures x in Merged(w, scopes, req) <==> exists sc :: sc in scopes && x in Upstream(w, req(sc))
    decreases |scopes|
  {
    if scopes != [] {
      var front, last := scopes[..|scopes| - 1], scopes[|scopes| - 1];
      InMerged(w, front, req, x);
      InFront(scopes);
      ListHas(w, req(last));
      assert x in Merged(w, scopes, req) <==> x in Merged(w, front, req) || x in Upstream(w, req(last));
    }
  }

  lemma {:induction false} InFront(s: seq<string>)
    requires s != []
    ensures forall x :: x in s <==> x in s[..|s| - 1] || x == s[|s| - 1]
  {
    assert s == s[..|s| - 1] + [s[|s| - 1]];
  }

  /** A list of candidate scopes, merged: what upstream gives for the scope, or, without
      one, for resource or span. */
  lemma {:induction false} MergedIs(w: World, scope: string, req: string -> Request, x: string)
    ensures x in SortedUnique(Merged(w, TraceScopes(scope), req)) <==>
      if scope == "" then x in Upstream(w, req("resource")) || x in Upstream(w, req("span"))
      else x in Upstream(w, req(scope))
  {
    var scopes := TraceScopes(scope);
    SortedUniqueIs(Merged(w, scopes, req));
    InMerged(w, scopes, req, x);
    if scope == "" {
      assert scopes[0] == "resource" && scopes[1] == "span";
    } else {
      assert scopes[0] == scope;
    }
  }

  /** An unscoped name is known exactly if upstream has it for resource or for span, any
      other exactly if upstream has it for its scope; and each is listed once, sorted. */
  lemma {:induction false} NameListIs(w: World, scope: string)
    ensures forall name :: name in TraceNameList(w, scope) <==>
      if scope == "" then name in Upstream(w, TraceNames("resource")) || name in Upstream(w, TraceNames("span"))
      else name in Upstream(w, TraceNames(scope))
    ensures TraceNameList(w, scope) == SortedKeys(SetOf(TempoNames(w, scope)))
  {
    forall name { MergedIs(w, scope, NamesRequest(), name); }
    SortedUniqueIs(Merged(w, TraceScopes(scope), NamesRequest()));
    StrictlySortedUnique(TraceNameList(w, scope), SortedKeys(SetOf(TempoNames(w, scope))));
  }

  /** The same for values. */
  lemma {:induction false} ValueListIs(w: World, scope: string, name: string)
    ensures forall v :: v in TraceValueList(w, scope, name) <==>
      if scope == "" then
        v in Upstream(w, TraceValues("resource", name)) || v in Upstream(w, TraceValues("span", name))
      else v in Upstream(w, TraceValues(scope, name))
    ensures TraceValueList(w, scope, name) == SortedKeys(SetOf(TempoValues(w, scope, name)))
  {
    forall v { MergedIs(w, scope, ValuesRequest(name), v); }
    SortedUniqueIs(Merged(w, TraceScopes(scope), ValuesRequest(name)));
    StrictlySortedUnique(TraceValueList(w, scope, name), SortedKeys(SetOf(TempoValues(w, scope, name))));
  }

  /** No attribute before number i has its scope, dot and name. */
  ghost predicate FirstOfName(attrs: seq<TraceQL.Attribute>, i: int)
    requires 0 <= i < |attrs|
  {
    forall k | 0 <= k < i :: attrs[k].scope + "." + attrs[k].name != attrs[i].scope + "." + attrs[i].name
  }

  /** The first attribute that reads q is not in Tempo. */
  ghost predicate NotInTempo(w: World, attrs: seq<TraceQL.Attribute>, q: string) {
    exists i :: 0 <= i < |attrs| && attrs[i].scope + "." + attrs[i].name == q && FirstOfName(attrs, i)
      && attrs[i].name !in TempoNames(w, attrs[i].scope)
  }

  /** Attribute i is reported if it is the first of its qualified name, is in no
      candidate scope, and is not allowed. */
  ghost function AttributeFault(w: World, src: Source, expr: string, attrs: seq<TraceQL.Attribute>,
      i: nat): Option<Finding>
    requires i < |attrs|
  {
    var a, q := attrs[i], attrs[i].scope + "." + attrs[i].name;
    if !FirstOfName(attrs, i) || a.name in TempoNames(w, a.scope) || LabelAllowed(w.cfg, "", q) then None
    else Some(Finding("E801_TRACE_ATTRIBUTE_UNKNOWN", "error", "catalog", src,
                      "attribute " + w.cfg.quote(q) + " not present in Tempo",
                      Best(w.cfg, a.name, SortedKeys(SetOf(TempoNames(w, a.scope)))), Context("", q, "", expr)))
  }

  /** The literal stands in for a dashboard variable. */
  ghost predicate ForVariable(value: string) {
    exists before, after :: value == before + "__ratatoskr_dashboard_var__" + after
  }

  /** A matcher is reported if its attribute is known, its literal stands for no
      variable, is in no candidate scope, and is not allowed. */
  ghost function MatcherFault(w: World, src: Source, expr: string, attrs: seq<TraceQL.Attribute>,
      m: TraceQL.Matcher): Option<Finding> {
    var a, q := m.attribute, m.attribute.scope + "." + m.attribute.name;
    if NotInTempo(w, attrs, q) || m.value == "" || ForVariable(m.value)
       || m.value in TempoValues(w, a.scope, a.name) || ValueAllowed(w.cfg, "", q, m.value) then None
    else Some(Finding("E802_TRACE_ATTRIBUTE_VALUE_UNKNOWN", "error", "catalog", src,
                      "value " + w.cfg.quote(m.value) + " not observed for attribute " + w.cfg.quote(q),
                      Best(w.cfg, m.value, SortedKeys(SetOf(TempoValues(w, a.scope, a.name)))),
                      Context("", q, m.value, expr)))
  }

  ghost function AttributeFaults(w: World, src: Source, expr: string,
      attrs: seq<TraceQL.Attribute>): seq<Option<Finding>> {
    seq(|attrs|, i requires 0 <= i < |attrs| => AttributeFault(w, src, expr, attrs, i))
  }

  ghost function MatcherFaults(w: World, src: Source, expr: string, attrs: seq<TraceQL.Attribute>,
      ms: seq<TraceQL.Matcher>): seq<Option<Finding>> {
    seq(|ms|, i requires 0 <= i < |ms| => MatcherFault(w, src, expr, attrs, ms[i]))
  }

  lemma {:induction false} FirstIs(attrs: seq<TraceQL.Attribute>, i: nat)
    requires i < |attrs|
    ensures FirstOfName(attrs, i) <==> !SeenBefore(attrs[..i], TraceQL.Qualified(attrs[i]))
  {
    assert forall k | 0 <= k < i :: attrs[..i][k] == attrs[k];
  }

  lemma {:induction false} AttributeMatches(w: World, src: Source, expr: string, attrs: seq<TraceQL.Attribute>, i: nat)
    requires i < |attrs|
    ensures Matches(AttributeRun(w, src, expr, attrs[..i], attrs[i]), AttributeFault(w, src, expr, attrs, i))
  {
    var a := attrs[i];
    FirstIs(attrs, i);
    NameListIs(w, a.scope);
    AllowedExactly(w.cfg, "", TraceQL.Qualified(a), "");
    AskingReportsNothing(w, TraceScopes(a.scope), NamesRequest());
  }

  lemma {:induction false} UnknownIs(w: World, attrs: seq<TraceQL.Attribute>, q: string)
    ensures UnknownAttribute(w, attrs, q) <==> NotInTempo(w, attrs, q)
  {
    forall i | 0 <= i < |attrs|
      ensures FirstUnknown(w, attrs, i, q) <==>
        attrs[i].scope + "." + attrs[i].name == q && FirstOfName(attrs, i)
        && attrs[i].name !in TempoNames(w, attrs[i].scope)
    {
      FirstIs(attrs, i);
      NameListIs(w, attrs[i].scope);
    }
  }

  lemma {:induction false} MatcherMatches(w: World, src: Source, expr: string, attrs: seq<TraceQL.Attribute>,
      m: TraceQL.Matcher)
    ensures Matches(MatcherRun(w, src, expr, attrs, m), MatcherFault(w, src, expr, attrs, m))
  {
    var a := m.attribute;
    UnknownIs(w, attrs, TraceQL.Qualified(a));
    ContainsExactly(m.value, SENTINEL);
    ValueListIs(w, a.scope, a.name);
    AllowedExactly(w.cfg, "", TraceQL.Qualified(a), m.value);
    AskingReportsNothing(w, TraceScopes(a.scope), ValuesRequest(a.name));
  }

  lemma {:induction false} TraceExactly(w: World, res: TraceResult, src: Source)
    requires w.cfg.tempo && TraceRun(w, res, src).err.None?
    ensures TraceRun(w, res, src).findings ==
      Somes(AttributeFaults(w, src, res.expr, res.attributes))
          + Somes(MatcherFaults(w, src, res.expr, res.attributes, res.matchers))
  {
    var attrs, ms := res.attributes, res.matchers;
    forall i | 0 <= i < |attrs|
        ensures Matches(AttributeRuns(w, src, res.expr, attrs)[i], AttributeFaults(w, src, res.expr, attrs)[i]) {
      AttributeMatches(w, src, res.expr, attrs, i);
    }
    forall i | 0 <= i < |ms| ensures Matches(MatcherRuns(w, src, res.expr, attrs, ms)[i],
        MatcherFaults(w, src, res.expr, attrs, ms)[i]) {
      MatcherMatches(w, src, res.expr, attrs, ms[i]);
    }
    RunAllReports(AttributeRuns(w, src, res.expr, attrs), AttributeFaults(w, src, res.expr, attrs));
    RunAllReports(MatcherRuns(w, src, res.expr, attrs, ms), MatcherFaults(w, src, res.expr, attrs, ms));
  }

  lemma {:induction false} TraceReported(w: World, res: TraceResult, src: Source, f: Finding)
    requires w.cfg.tempo && TraceRun(w, res, src).err.None?
    ensures f in TraceRun(w, res, src).findings <==>
      || (exists i :: 0 <= i < |res.attributes| && AttributeFault(w, src, res.expr, res.attributes, i) == Some(f))
      || (exists m :: m in res.matchers && MatcherFault(w, src, res.expr, res.attributes, m) == Some(f))
  {
    TraceExactly(w, res, src);
    AttributeReported(w, src, res.expr, res.attributes, f);
    MatcherReported(w, src, res.expr, res.attributes, res.matchers, f);
  }

  lemma {:induction false} AttributeReported(w: World, src: Source, expr: string, attrs: seq<TraceQL.Attribute>,
      f: Finding)
    ensures f in Somes(AttributeFaults(w, src, expr, attrs)) <==>
      exists i :: 0 <= i < |attrs| && AttributeFault(w, src, expr, attrs, i) == Some(f)
  {
    var fs := AttributeFaults(w, src, expr, attrs);
    InSomes(fs, f);
    assert forall i | 0 <= i < |fs| :: fs[i] == AttributeFault(w, src, expr, attrs, i);
  }

  lemma {:induction false} MatcherReported(w: World, src: Source, expr: string, attrs: seq<TraceQL.Attribute>,
      ms: seq<TraceQL.Matcher>, f: Finding)
    ensures f in Somes(MatcherFaults(w, src, expr, attrs, ms)) <==>
      exists m :: m in ms && MatcherFault(w, src, expr, attrs, m) == Some(f)
  {
    var fs := MatcherFaults(w, src, expr, attrs, ms);
    InSomes(fs, f);
    assert forall i | 0 <= i < |fs| :: fs[i] == MatcherFault(w, src, expr, attrs, ms[i]);
  }
}
