/** pkg/catalog/checker.go: what CheckPromQL, CheckLogQL and CheckTraceQL report
    and ask for, in terms of the upstream catalog and the allowlist alone. */
module Checks {
  import opened Common
  import opened Lists
  import opened Entries
  import opened Findings
  import opened Cache
  import Suggest
  import TraceQL

  datatype Selector = Selector(metric: string, labelName: string, op: string, value: string)
  datatype PromResult = PromResult(expr: string, metricRefs: seq<string>, selectors: seq<Selector>)
  datatype LabelMatcher = LabelMatcher(labelName: string, op: string, value: string)
  datatype LogResult = LogResult(expr: string, streamSelectors: seq<LabelMatcher>)
  datatype TraceResult = TraceResult(expr: string, attributes: seq<TraceQL.Attribute>, matchers: seq<TraceQL.Matcher>)

  const SENTINEL := "__ratatoskr_dashboard_var__"

  /** strings.Contains */
  predicate Contains(s: string, part: string) {
    part <= s || (s != "" && Contains(s[1..], part))
  }

  lemma {:induction false} NotAtStart(s: string, before: string, part: string, after: string)
    requires s == before + part + after && !(part <= s)
    ensures before != "" && s[1..] == before[1..] + part + after
  {
    assert before == "" ==> s == part + after;
  }

  lemma {:induction false} ContainsExactly(s: string, part: string)
    ensures Contains(s, part) <==> exists before, after :: s == before + part + after
  {
    if part <= s {
      assert s == "" + part + s[|part|..];
    } else if s != "" {
      ContainsExactly(s[1..], part);
      if before, after :| s[1..] == before + part + after {
        assert s == [s[0]] + before + part + after;
      }
      if before, after :| s == before + part + after {
        NotAtStart(s, before, part, after);
      }
    }
  }

  // ---------- runs ----------

  /** An error if one stopped the check, the findings up to there, and the lists
      asked for, in order. */
  datatype Run = Run(err: Option<CatalogError>, findings: seq<Finding>, asks: seq<Request>)

  const NOTHING := Run(None, [], [])

  function Reports(fs: seq<Finding>): Run { Run(None, fs, []) }

  function Then(a: Run, b: Run): Run {
    if a.err.Some? then a else Run(b.err, a.findings + b.findings, a.asks + b.asks)
  }

  /** Runs one after the other, up to the first error. */
  function RunAll(rs: seq<Run>): Run {
    if rs == [] then NOTHING else Then(RunAll(rs[..|rs| - 1]), rs[|rs| - 1])
  }

  function Asking(w: World, r: Request): Run {
    Run(match w.upstream(r) case Failed(msg) => Some(UpstreamError(msg)) case Ok(_) => None, [], [r])
  }

  predicate SourcesSet(cfg: Config) {
    (cfg.prom ==> cfg.promSource != "") && (cfg.loki ==> cfg.lokiSource != "") && (cfg.tempo ==> cfg.tempoSource != "")
  }

  /** The elements upstream gives for a request, in its own order. */
  function Upstream(w: World, r: Request): seq<string> {
    match w.upstream(r)
    case Ok(list) => Items(list)
    case Failed(_) => []
  }

  /** The list upstream gives for a request, sorted. */
  function ListOf(w: World, r: Request): seq<string> {
    match w.upstream(r)
    case Ok(list) => Items(SortList(list))
    case Failed(_) => []
  }

  lemma {:induction false} ListHas(w: World, r: Request)
    ensures multiset(ListOf(w, r)) == multiset(Upstream(w, r))
    ensures forall x :: x in ListOf(w, r) <==> x in Upstream(w, r)
  {
    forall x ensures x in ListOf(w, r) <==> x in Upstream(w, r) {
      assert x in multiset(ListOf(w, r)) <==> x in multiset(Upstream(w, r));
    }
  }

  // ---------- findings ----------

  function MaxSuggestions(cfg: Config): int { if cfg.maxSuggestions > 0 then cfg.maxSuggestions else 3 }
  function SuggestDist(cfg: Config): int { if cfg.suggestDist > 0 then cfg.suggestDist else 3 }

  function Suggestions(cfg: Config, name: string, corpus: seq<string>): seq<string> {
    Suggest.Matches(name, corpus, MaxSuggestions(cfg), SuggestDist(cfg))
  }

  function NewFinding(code: string, src: Source, msg: string, suggestions: seq<string>, ctx: Context): Finding {
    Finding(code, "error", "catalog", src, msg, suggestions, ctx)
  }

  predicate AllowsMetric(cfg: Config, m: string) { cfg.allow.Some? && Allowlist.AllowsMetric(cfg.allow.value, m) }

  predicate AllowsLabel(cfg: Config, m: string, l: string) {
    cfg.allow.Some? && Allowlist.AllowsLabel(cfg.allow.value, m, l)
  }

  predicate AllowsLabelValue(cfg: Config, m: string, l: string, v: string) {
    cfg.allow.Some? && Allowlist.AllowsLabelValue(cfg.allow.value, m, l, v)
  }

  function MetricUnknown(cfg: Config, src: Source, expr: string, m: string, corpus: seq<string>): Finding {
    NewFinding("E101_METRIC_UNKNOWN", src, "metric " + cfg.quote(m) + " not present in catalog",
               Suggestions(cfg, m, corpus), Context(m, "", "", expr))
  }

  function LabelUnknown(cfg: Config, src: Source, expr: string, sel: Selector, corpus: seq<string>): Finding {
    NewFinding("E102_LABEL_UNKNOWN", src,
               "label " + cfg.quote(sel.labelName) + " not present on metric " + cfg.quote(sel.metric),
               Suggestions(cfg, sel.labelName, corpus), Context(sel.metric, sel.labelName, "", expr))
  }

  function ValueUnknown(cfg: Config, src: Source, expr: string, sel: Selector, corpus: seq<string>): Finding {
    NewFinding("E103_LABEL_VALUE_UNKNOWN", src,
               "value " + cfg.quote(sel.value) + " not observed for label " + cfg.quote(sel.labelName)
               + " on metric " + cfg.quote(sel.metric),
               Suggestions(cfg, sel.value, corpus), Context(sel.metric, sel.labelName, sel.value, expr))
  }

  function StreamLabelUnknown(cfg: Config, src: Source, expr: string, sel: LabelMatcher, corpus: seq<string>): Finding {
    NewFinding("E201_STREAM_LABEL_UNKNOWN", src, "stream label " + cfg.quote(sel.labelName) + " not present in Loki",
               Suggestions(cfg, sel.labelName, corpus), Context("", sel.labelName, "", expr))
  }

  function StreamValueUnknown(cfg: Config, src: Source, expr: string, sel: LabelMatcher, corpus: seq<string>): Finding {
    NewFinding("E202_STREAM_VALUE_UNKNOWN", src,
               "value " + cfg.quote(sel.value) + " not observed for stream label " + cfg.quote(sel.labelName),
               Suggestions(cfg, sel.value, corpus), Context("", sel.labelName, sel.value, expr))
  }

  function AttributeUnknown(cfg: Config, src: Source, expr: string, a: TraceQL.Attribute,
      corpus: seq<string>): Finding {
    var q := TraceQL.Qualified(a);
    NewFinding("E801_TRACE_ATTRIBUTE_UNKNOWN", src, "attribute " + cfg.quote(q) + " not present in Tempo",
               Suggestions(cfg, a.name, corpus), Context("", q, "", expr))
  }

  function AttributeValueUnknown(cfg: Config, src: Source, expr: string, m: TraceQL.Matcher,
      corpus: seq<string>): Finding {
    var q := TraceQL.Qualified(m.attribute);
    NewFinding("E802_TRACE_ATTRIBUTE_VALUE_UNKNOWN", src,
               "value " + cfg.quote(m.value) + " not observed for attribute " + cfg.quote(q),
               Suggestions(cfg, m.value, corpus), Context("", q, m.value, expr))
  }

  // ---------- PromQL ----------

  predicate UnknownMetric(w: World, m: string) {
    m !in ListOf(w, MetricNames) && !AllowsMetric(w.cfg, m)
  }

  function MetricReports(w: World, src: Source, expr: string, refs: seq<string>): seq<Finding> {
    if refs == [] then []
    else
      var m := refs[|refs| - 1];
      MetricReports(w, src, expr, refs[..|refs| - 1])
      + if UnknownMetric(w, m) then [MetricUnknown(w.cfg, src, expr, m, ListOf(w, MetricNames))] else []
  }

  /** A selector is looked at only when it names a known metric and a label. */
  predicate Considered(w: World, sel: Selector) {
    sel.metric != "" && sel.labelName != "" && sel.metric in ListOf(w, MetricNames)
  }

  /** Its value is looked at only for a known label, an equality, and a value. */
  predicate ValueConsidered(w: World, sel: Selector) {
    sel.labelName in ListOf(w, MetricLabels(sel.metric)) && sel.op == "=" && sel.value != ""
  }

  function LabelReport(w: World, src: Source, expr: string, sel: Selector): seq<Finding> {
    var known := ListOf(w, MetricLabels(sel.metric));
    if sel.labelName !in known && !AllowsLabel(w.cfg, sel.metric, sel.labelName) then
      [LabelUnknown(w.cfg, src, expr, sel, known)]
    else []
  }

  function ValueReport(w: World, src: Source, expr: string, sel: Selector): seq<Finding> {
    var known := ListOf(w, MetricValues(sel.metric, sel.labelName));
    if sel.value !in known && !AllowsLabelValue(w.cfg, sel.metric, sel.labelName, sel.value) then
      [ValueUnknown(w.cfg, src, expr, sel, known)]
    else []
  }

  function SelectorRun(w: World, src: Source, expr: string, sel: Selector): Run {
    if !Considered(w, sel) then NOTHING
    else
      Then(Asking(w, MetricLabels(sel.metric)),
           if ValueConsidered(w, sel) then
             Then(Asking(w, MetricValues(sel.metric, sel.labelName)), Reports(ValueReport(w, src, expr, sel)))
           else Reports(LabelReport(w, src, expr, sel)))
  }

  function SelectorRuns(w: World, src: Source, expr: string, sels: seq<Selector>): (rs: seq<Run>)
    ensures |rs| == |sels| && forall i | 0 <= i < |sels| :: rs[i] == SelectorRun(w, src, expr, sels[i])
  {
    seq(|sels|, i requires 0 <= i < |sels| => SelectorRun(w, src, expr, sels[i]))
  }

  function PromRun(w: World, res: PromResult, src: Source): Run {
    if !w.cfg.prom then NOTHING
    else if w.cfg.promSource == "" then Run(Some(SourceNotSet(PROMQL)), [], [])
    else
      Then(Asking(w, MetricNames),
           Then(Reports(MetricReports(w, src, res.expr, res.metricRefs)),
                RunAll(SelectorRuns(w, src, res.expr, res.selectors))))
  }

  // ---------- LogQL ----------

  function StreamLabelReport(w: World, src: Source, expr: string, sel: LabelMatcher): seq<Finding> {
    if AllowsLabel(w.cfg, "", sel.labelName) then []
    else [StreamLabelUnknown(w.cfg, src, expr, sel, ListOf(w, StreamLabels))]
  }

  function StreamValueReport(w: World, src: Source, expr: string, sel: LabelMatcher): seq<Finding> {
    var known := ListOf(w, StreamValues(sel.labelName));
    if sel.value !in known && !AllowsLabelValue(w.cfg, "", sel.labelName, sel.value) then
      [StreamValueUnknown(w.cfg, src, expr, sel, known)]
    else []
  }

  function StreamRun(w: World, src: Source, expr: string, sel: LabelMatcher): Run {
    if sel.labelName == "" then NOTHING
    else if sel.labelName !in ListOf(w, StreamLabels) then Reports(StreamLabelReport(w, src, expr, sel))
    else if sel.op != "=" || sel.value == "" then NOTHING
    else Then(Asking(w, StreamValues(sel.labelName)), Reports(StreamValueReport(w, src, expr, sel)))
  }

  function StreamRuns(w: World, src: Source, expr: string, sels: seq<LabelMatcher>): (rs: seq<Run>)
    ensures |rs| == |sels| && forall i | 0 <= i < |sels| :: rs[i] == StreamRun(w, src, expr, sels[i])
  {
    seq(|sels|, i requires 0 <= i < |sels| => StreamRun(w, src, expr, sels[i]))
  }

  function LogRun(w: World, res: LogResult, src: Source): Run {
    if !w.cfg.loki then NOTHING
    else if w.cfg.lokiSource == "" then Run(Some(SourceNotSet(LOGQL)), [], [])
    else Then(Asking(w, StreamLabels), RunAll(StreamRuns(w, src, res.expr, res.streamSelectors)))
  }

  // ---------- TraceQL ----------

  function TraceScopes(scope: string): seq<string> {
    if scope == "" then ["resource", "span"] else [scope]
  }

  function NamesRequest(): string -> Request { (s: string) => TraceNames(s) }

  function ValuesRequest(name: string): string -> Request { (s: string) => TraceValues(s, name) }

  function AskingAll(w: World, scopes: seq<string>, req: string -> Request): Run {
    RunAll(seq(|scopes|, i requires 0 <= i < |scopes| => Asking(w, req(scopes[i]))))
  }

  function Merged(w: World, scopes: seq<string>, req: string -> Request): seq<string> {
    if scopes == [] then [] else Merged(w, scopes[..|scopes| - 1], req) + ListOf(w, req(scopes[|scopes| - 1]))
  }

  /** The names Tempo holds in a scope, or in both candidate scopes when unscoped. */
  function TraceNameList(w: World, scope: string): seq<string> {
    SortedUnique(Merged(w, TraceScopes(scope), NamesRequest()))
  }

  function TraceValueList(w: World, scope: string, name: string): seq<string> {
    SortedUnique(Merged(w, TraceScopes(scope), ValuesRequest(name)))
  }

  predicate SeenBefore(attrs: seq<TraceQL.Attribute>, q: string) {
    exists i | 0 <= i < |attrs| :: TraceQL.Qualified(attrs[i]) == q
  }

  function AttributeReport(w: World, src: Source, expr: string, a: TraceQL.Attribute): seq<Finding> {
    var names := TraceNameList(w, a.scope);
    if a.name !in names && !AllowsLabel(w.cfg, "", TraceQL.Qualified(a)) then
      [AttributeUnknown(w.cfg, src, expr, a, names)]
    else []
  }

  /** Only the first attribute of each qualified name is looked up. */
  function AttributeRun(w: World, src: Source, expr: string, before: seq<TraceQL.Attribute>,
      a: TraceQL.Attribute): Run {
    if SeenBefore(before, TraceQL.Qualified(a)) then NOTHING
    else Then(AskingAll(w, TraceScopes(a.scope), NamesRequest()), Reports(AttributeReport(w, src, expr, a)))
  }

  function AttributeRuns(w: World, src: Source, expr: string, attrs: seq<TraceQL.Attribute>): (rs: seq<Run>)
    ensures |rs| == |attrs| && forall i | 0 <= i < |attrs| :: rs[i] == AttributeRun(w, src, expr, attrs[..i], attrs[i])
  {
    seq(|attrs|, i requires 0 <= i < |attrs| => AttributeRun(w, src, expr, attrs[..i], attrs[i]))
  }

  /** The first attribute with that qualified name is not in the catalog. */
  predicate UnknownAttribute(w: World, attrs: seq<TraceQL.Attribute>, q: string) {
    exists i | 0 <= i < |attrs| :: FirstUnknown(w, attrs, i, q)
  }

  predicate FirstUnknown(w: World, attrs: seq<TraceQL.Attribute>, i: int, q: string)
    requires 0 <= i < |attrs|
  {
    TraceQL.Qualified(attrs[i]) == q && !SeenBefore(attrs[..i], q) && attrs[i].name !in TraceNameList(w, attrs[i].scope)
  }

  predicate MatcherConsidered(w: World, attrs: seq<TraceQL.Attribute>, m: TraceQL.Matcher) {
    !UnknownAttribute(w, attrs, TraceQL.Qualified(m.attribute)) && m.value != "" && !Contains(m.value, SENTINEL)
  }

  function MatcherReport(w: World, src: Source, expr: string, m: TraceQL.Matcher): seq<Finding> {
    var values := TraceValueList(w, m.attribute.scope, m.attribute.name);
    if m.value !in values && !AllowsLabelValue(w.cfg, "", TraceQL.Qualified(m.attribute), m.value) then
      [AttributeValueUnknown(w.cfg, src, expr, m, values)]
    else []
  }

  function MatcherRun(w: World, src: Source, expr: string, attrs: seq<TraceQL.Attribute>, m: TraceQL.Matcher): Run {
    if !MatcherConsidered(w, attrs, m) then NOTHING
    else Then(AskingAll(w, TraceScopes(m.attribute.scope), ValuesRequest(m.attribute.name)),
              Reports(MatcherReport(w, src, expr, m)))
  }

  function MatcherRuns(w: World, src: Source, expr: string, attrs: seq<TraceQL.Attribute>,
      ms: seq<TraceQL.Matcher>): (rs: seq<Run>)
    ensures |rs| == |ms| && forall i | 0 <= i < |ms| :: rs[i] == MatcherRun(w, src, expr, attrs, ms[i])
  {
    seq(|ms|, i requires 0 <= i < |ms| => MatcherRun(w, src, expr, attrs, ms[i]))
  }

  function TraceRun(w: World, res: TraceResult, src: Source): Run {
    if !w.cfg.tempo then NOTHING
    else if w.cfg.tempoSource == "" then Run(Some(SourceNotSet(TRACEQL)), [], [])
    else Then(RunAll(AttributeRuns(w, src, res.expr, res.attributes)),
              RunAll(MatcherRuns(w, src, res.expr, res.attributes, res.matchers)))
  }

  // ---------- runs one after the other ----------

  /** b after an a without error. */
  function Joined(a: Run, b: Run): Run { Run(b.err, a.findings + b.findings, a.asks + b.asks) }

  lemma {:induction false} RunAllStops(rs: seq<Run>, k: nat)
    requires k <= |rs| && RunAll(rs[..k]).err.Some?
    ensures RunAll(rs) == RunAll(rs[..k])
    decreases |rs|
  {
    if k < |rs| {
      assert rs[..|rs| - 1][..k] == rs[..k];
      RunAllStops(rs[..|rs| - 1], k);
    } else {
      assert rs[..k] == rs;
    }
  }

  /** One more run, after runs without error: it ends the sequence if it errs. */
  lemma {:induction false} RunAllNext(rs: seq<Run>, i: nat, asks: seq<Request>)
    requires i < |rs| && RunAll(rs[..i]).err.None?
    ensures RunAll(rs[..i + 1]) == Joined(RunAll(rs[..i]), rs[i])
    ensures asks + RunAll(rs[..i]).asks + rs[i].asks == asks + RunAll(rs[..i + 1]).asks
    ensures rs[i].err.Some? ==> RunAll(rs) == RunAll(rs[..i + 1])
  {
    assert rs[..i + 1][..i] == rs[..i];
    if rs[i].err.Some? { RunAllStops(rs, i + 1); }
  }

  lemma {:induction false} NothingReported(rs: seq<Run>)
    requires forall i | 0 <= i < |rs| :: rs[i].findings == []
    ensures RunAll(rs).findings == []
    decreases |rs|
  {
    if rs != [] { NothingReported(rs[..|rs| - 1]); }
  }

  /** Asking reports nothing by itself. */
  lemma {:induction false} AskingReportsNothing(w: World, scopes: seq<string>, req: string -> Request)
    ensures AskingAll(w, scopes, req).findings == []
  {
    NothingReported(seq(|scopes|, i requires 0 <= i < |scopes| => Asking(w, req(scopes[i]))));
  }
}
