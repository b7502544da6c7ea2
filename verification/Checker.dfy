/** pkg/catalog/checker.go: the checker, looking lists up through the cache. */
module Checker {
  import opened Common
  import opened Order
  import opened Lists
  import opened Entries
  import opened Store
  import opened Stores
  import opened Findings
  import opened Cache
  import opened Checks

  // ---------- findings up to suggestions ----------

  function Erase(f: Finding): Finding { f.(suggestions := []) }

  /** The upstream list that a finding's suggestions are chosen from, where it is one
      list; those of a trace finding come from merged lists. */
  function ListBehind(f: Finding): Option<Request> {
    match f.code
    case "E101_METRIC_UNKNOWN" => Some(MetricNames)
    case "E102_LABEL_UNKNOWN" => Some(MetricLabels(f.context.metric))
    case "E103_LABEL_VALUE_UNKNOWN" => Some(MetricValues(f.context.metric, f.context.labelName))
    case "E201_STREAM_LABEL_UNKNOWN" => Some(StreamLabels)
    case "E202_STREAM_VALUE_UNKNOWN" => Some(StreamValues(f.context.labelName))
    case _ => None
  }

  predicate Repeats(w: World, r: Request) { w.upstream(r).Ok? && !NoDuplicates(Items(w.upstream(r).list)) }

  /** The same finding; suggestions may differ only if the one list they are chosen
      from repeats itself upstream, because a cached list may have lost the repetitions. */
  predicate Alike(w: World, got: Finding, want: Finding) {
    && Erase(got) == Erase(want)
    && (ListBehind(want).None? || !Repeats(w, ListBehind(want).value) ==> got == want)
  }

  ghost predicate Like(w: World, got: seq<Finding>, want: seq<Finding>) {
    |got| == |want| && forall i | 0 <= i < |got| :: Alike(w, got[i], want[i])
  }

  ghost predicate NoDuplicatesUpstream(w: World) { forall r :: !Repeats(w, r) }

  /** Where upstream repeats nothing at all, nothing is left open. */
  lemma {:induction false} LikeExact(w: World, got: seq<Finding>, want: seq<Finding>)
    requires Like(w, got, want) && NoDuplicatesUpstream(w)
    ensures got == want
  {
    assert forall i | 0 <= i < |got| :: Alike(w, got[i], want[i]);
  }

  lemma {:induction false} LikeConcat(w: World, a: seq<Finding>, b: seq<Finding>, c: seq<Finding>, d: seq<Finding>)
    requires Like(w, a, b) && Like(w, c, d)
    ensures Like(w, a + c, b + d)
  {
  }

  lemma {:induction false} LikeOne(w: World, got: Finding, want: Finding)
    requires Alike(w, got, want)
    ensures Like(w, [got], [want])
  {
  }

  lemma {:induction false} LessErased(a: Finding, b: Finding, a': Finding, b': Finding)
    requires Erase(a) == Erase(a') && Erase(b) == Erase(b')
    ensures FindingLess(a, b) == FindingLess(a', b')
  {
    assert a.source == Erase(a).source && a.code == Erase(a).code && a.message == Erase(a).message;
    assert b.source == Erase(b).source && b.code == Erase(b).code && b.message == Erase(b).message;
  }

  lemma {:induction false} LikeCons(w: World, x: Finding, y: Finding, s: seq<Finding>, t: seq<Finding>)
    requires Alike(w, x, y) && Like(w, s, t)
    ensures Like(w, [x] + s, [y] + t)
  {
    LikeOne(w, x, y);
    LikeConcat(w, [x], [y], s, t);
  }

  lemma {:induction false} LikeTail(w: World, s: seq<Finding>, t: seq<Finding>)
    requires Like(w, s, t) && s != []
    ensures t != [] && Alike(w, s[0], t[0]) && Like(w, s[1..], t[1..])
  {
    var s1, t1 := s[1..], t[1..];
    forall i | 0 <= i < |s1| ensures Alike(w, s1[i], t1[i]) { assert s1[i] == s[i + 1] && t1[i] == t[i + 1]; }
  }

  lemma {:induction false} InsertLike(w: World, x: Finding, y: Finding, s: seq<Finding>, t: seq<Finding>)
    requires Alike(w, x, y) && Like(w, s, t)
    ensures Like(w, Insert(FindingLess, x, s), Insert(FindingLess, y, t))
  {
    if s == [] {
      LikeCons(w, x, y, s, t);
    } else {
      LikeTail(w, s, t);
      LessErased(s[0], x, t[0], y);
      if FindingLess(s[0], x) {
        InsertLike(w, x, y, s[1..], t[1..]);
        LikeCons(w, s[0], t[0], Insert(FindingLess, x, s[1..]), Insert(FindingLess, y, t[1..]));
      } else {
        LikeCons(w, x, y, s, t);
      }
    }
  }

  /** Sorting looks at no suggestion. */
  lemma {:induction false} LikeSorted(w: World, got: seq<Finding>, want: seq<Finding>)
    requires Like(w, got, want)
    ensures Like(w, SortedFindings(got), SortedFindings(want))
  {
    if got != [] {
      LikeTail(w, got, want);
      LikeSorted(w, got[1..], want[1..]);
      InsertLike(w, got[0], want[0], StableSort(FindingLess, got[1..]), StableSort(FindingLess, want[1..]));
    }
  }

  /** The elements of the list a request asks for; the list itself, sorted, unless
      upstream repeats an element of it. */
  ghost predicate Knows(w: World, r: Request, names: seq<string>) {
    (forall x :: x in names <==> x in ListOf(w, r)) && (!Repeats(w, r) ==> names == ListOf(w, r))
  }

  /** A check answers with its run's error, or with its findings, sorted. */
  ghost predicate Answers(w: World, run: Run, answer: Outcome<seq<Finding>>) {
    match answer
    case Error(e) => run.err == Some(e)
    case Value(fs) => run.err == None && Like(w, fs, SortedFindings(run.findings))
  }

  /** The same, with every suggestion as it should be. */
  ghost predicate AnswersExactly(run: Run, answer: Outcome<seq<Finding>>) {
    match answer
    case Error(e) => run.err == Some(e)
    case Value(fs) => run.err == None && fs == SortedFindings(run.findings)
  }

  lemma {:induction false} TruthfulKnows(env: Env, r: Request, l: List)
    requires Truthful(env, r, Value(l))
    ensures Asking(env.world, r).err == None && Knows(env.world, r, Items(l))
  {
    SortAgrees(env.world.upstream(r).list);
  }

  lemma {:induction false} MetricsNext(env: Env, src: Source, expr: string, refs: seq<string>, i: nat)
    requires i < |refs|
    ensures MetricReports(env.world, src, expr, refs[..i + 1]) == MetricReports(env.world, src, expr, refs[..i]) +
      if UnknownMetric(env.world, refs[i]) then
        [MetricUnknown(env.world.cfg, src, expr, refs[i], ListOf(env.world, MetricNames))]
      else []
  {
    assert refs[..i + 1][..i] == refs[..i];
  }

  // ---------- the checker ----------

  /** Checker.Store: either kind of store. */
  datatype StoreRef = Memory(m: MemoryStore) | Disk(f: FSStore) {
    ghost function Obj(): object { match this case Memory(m) => m case Disk(f) => f }
  }

  /** No file of one of the checker's keys sits in a directory that is probed before its own.
      Files may be damaged, or not the checker's. */
  ghost predicate Unshadowed(cfg: Config, files: Files) { forall r :: !ShadowedKey(files, LanguageOf(r), Key(cfg, r)) }

  lemma {:induction false} PutUnshadowed(cfg: Config, files: Files, e: Entry, r: Request)
    requires Unshadowed(cfg, files) && e.language == LanguageOf(r) && KeyOf(e) == Key(cfg, r)
    ensures Unshadowed(cfg, PutFile(files, e))
  {
    forall q ensures !ShadowedKey(PutFile(files, e), LanguageOf(q), Key(cfg, q)) {
      assert !ShadowedKey(files, LanguageOf(q), Key(cfg, q));
      forall l | EntryPath(l, Key(cfg, q)) == EntryPath(e.language, KeyOf(e)) ensures l == LanguageOf(q) {
        EntryPathInjective(l, Key(cfg, q), e.language, KeyOf(e));
        SameKeySameQuery(cfg, q, r);
      }
    }
  }

  /** So it is where every entry file is in its place. */
  lemma {:induction false} ValidUnshadowed(cfg: Config, files: Files)
    requires FilesValid(files)
    ensures Unshadowed(cfg, files)
  {
    forall r ensures !ShadowedKey(files, LanguageOf(r), Key(cfg, r)) {
      forall l | ValidLanguage(l) && EntryPath(l, Key(cfg, r)) in files ensures l == LanguageOf(r) {
        NotElsewhere(cfg, files, r, l);
      }
    }
  }

  lemma {:induction false} NotElsewhere(cfg: Config, files: Files, r: Request, language: string)
    requires FilesValid(files) && EntryPath(language, Key(cfg, r)) in files && ValidLanguage(language)
    ensures language == LanguageOf(r)
  {
    ReadProper(files, language, Key(cfg, r));
    var e := files[EntryPath(language, Key(cfg, r))].entry;
    KeyDetermines(e.language, e.source, e.query, LanguageOf(r), SourceOf(cfg, r), Query(r));
  }

  lemma {:induction false} NoWriteError(env: Env, s: CState, r: Request)
    requires RealClock(env) && SourceOf(env.world.cfg, r) != ""
    ensures Lookup(env, s, r).0.Error? ==> Lookup(env, s, r).0.error.UpstreamError?
  {
    if env.world.upstream(r).Ok? { NewEntryValid(env, r, env.clock(s.ticks), env.world.upstream(r).list); }
  }

  datatype Snap = Snap(valid: bool, state: CState, fetched: seq<Request>)

  /** A valid checker that has made the lookups asks since state s0 and fetches f0. */
  ghost function Effect(env: Env, s0: CState, f0: seq<Request>, asks: seq<Request>): Snap {
    Snap(true, After(env, s0, asks), f0 + Fetches(env, s0, asks))
  }

  lemma {:induction false} EffectNext(env: Env, s0: CState, f0: seq<Request>, asks: seq<Request>, r: Request)
    ensures var t := After(env, s0, asks);
      Effect(env, s0, f0, asks + [r]) ==
      Snap(true, Lookup(env, t, r).1, f0 + Fetches(env, s0, asks) + if Misses(env, t, r) then [r] else [])
  {
    AfterNext(env, s0, asks, r);
    FetchesNext(env, s0, asks, r);
  }

  /** The run of a selector that ends at its metric's labels. */
  lemma {:induction false} EndsAtLabels(env: Env, src: Source, expr: string, sel: Selector)
    requires Considered(env.world, sel) && Asking(env.world, MetricLabels(sel.metric)).err.None?
    requires !ValueConsidered(env.world, sel)
    ensures SelectorRun(env.world, src, expr, sel) ==
      Run(None, LabelReport(env.world, src, expr, sel), [MetricLabels(sel.metric)])
  {
    var fs := LabelReport(env.world, src, expr, sel);
    assert [] + fs == fs && [MetricLabels(sel.metric)] + [] == [MetricLabels(sel.metric)];
  }

  lemma {:induction false} LabelUnknownAlike(w: World, src: Source, expr: string, sel: Selector, labels: seq<string>)
    requires Knows(w, MetricLabels(sel.metric), labels)
    ensures Alike(w, LabelUnknown(w.cfg, src, expr, sel, labels),
                  LabelUnknown(w.cfg, src, expr, sel, ListOf(w, MetricLabels(sel.metric))))
  {
  }

  /** A known metric whose labels lack the selector's. */
  lemma {:induction false} LabelMissing(env: Env, src: Source, expr: string, sel: Selector, labels: seq<string>)
    requires Considered(env.world, sel) && Asking(env.world, MetricLabels(sel.metric)).err.None?
    requires Knows(env.world, MetricLabels(sel.metric), labels) && sel.labelName !in labels
    ensures var run := SelectorRun(env.world, src, expr, sel);
      run.err.None? && run.asks == [MetricLabels(sel.metric)] &&
      Like(env.world, if AllowsLabel(env.world.cfg, sel.metric, sel.labelName) then []
                      else [LabelUnknown(env.world.cfg, src, expr, sel, labels)],
           run.findings)
  {
    EndsAtLabels(env, src, expr, sel);
    LabelUnknownAlike(env.world, src, expr, sel, labels);
  }

  /** A known label whose value is not looked at. */
  lemma {:induction false} LabelSuffices(env: Env, src: Source, expr: string, sel: Selector, labels: seq<string>)
    requires Considered(env.world, sel) && Asking(env.world, MetricLabels(sel.metric)).err.None?
    requires Knows(env.world, MetricLabels(sel.metric), labels) && sel.labelName in labels
    requires sel.op != "=" || sel.value == ""
    ensures SelectorRun(env.world, src, expr, sel) == Run(None, [], [MetricLabels(sel.metric)])
  {
    EndsAtLabels(env, src, expr, sel);
  }

  lemma {:induction false} ValueLike(env: Env, src: Source, expr: string, sel: Selector, values: seq<string>)
    requires Knows(env.world, MetricValues(sel.metric, sel.labelName), values)
    ensures Like(env.world,
                 if sel.value in values || AllowsLabelValue(env.world.cfg, sel.metric, sel.labelName, sel.value) then []
                      else [ValueUnknown(env.world.cfg, src, expr, sel, values)],
                 ValueReport(env.world, src, expr, sel))
  {
  }

  /** The run of a selector whose metric's labels cannot be had. */
  lemma {:induction false} LabelsFail(env: Env, src: Source, expr: string, sel: Selector)
    requires Considered(env.world, sel) && Asking(env.world, MetricLabels(sel.metric)).err.Some?
    ensures SelectorRun(env.world, src, expr, sel) ==
      Run(Asking(env.world, MetricLabels(sel.metric)).err, [], [MetricLabels(sel.metric)])
  {
  }

  /** The run of a selector whose value is looked at. */
  lemma {:induction false} SelectorReachesValue(env: Env, src: Source, expr: string, sel: Selector, labels: seq<string>)
    requires Considered(env.world, sel) && Asking(env.world, MetricLabels(sel.metric)).err.None?
    requires Knows(env.world, MetricLabels(sel.metric), labels) && sel.labelName in labels
    requires sel.op == "=" && sel.value != ""
    ensures var run, values := SelectorRun(env.world, src, expr, sel), MetricValues(sel.metric, sel.labelName);
      run.err == Asking(env.world, values).err && run.asks == [MetricLabels(sel.metric)] + [values]
      && (run.err.None? ==> run.findings == ValueReport(env.world, src, expr, sel))
  {
    assert ValueConsidered(env.world, sel);
  }

  lemma {:induction false} MetricLike(env: Env, src: Source, expr: string, m: string, names: seq<string>)
    requires Knows(env.world, MetricNames, names)
    ensures UnknownMetric(env.world, m) <==> m !in names && !AllowsMetric(env.world.cfg, m)
    ensures Like(env.world, [MetricUnknown(env.world.cfg, src, expr, m, names)],
                 [MetricUnknown(env.world.cfg, src, expr, m, ListOf(env.world, MetricNames))])
  {
  }

  /** What comes of a PromQL run once the metric names are known. */
  function PromRest(w: World, res: PromResult, src: Source): Run {
    var rest := RunAll(SelectorRuns(w, src, res.expr, res.selectors));
    Run(rest.err, MetricReports(w, src, res.expr, res.metricRefs) + rest.findings, [MetricNames] + rest.asks)
  }

  lemma {:induction false} PromNamesFail(w: World, res: PromResult, src: Source)
    requires w.cfg.prom && w.cfg.promSource != "" && Asking(w, MetricNames).err.Some?
    ensures PromRun(w, res, src) == Run(Asking(w, MetricNames).err, [], [MetricNames])
  {
  }

  lemma {:induction false} ThenReports(fs: seq<Finding>, rest: Run)
    ensures Then(Reports(fs), rest) == Run(rest.err, fs + rest.findings, rest.asks)
  {
    assert [] + rest.asks == rest.asks;
  }

  lemma {:induction false} ThenAsking(w: World, r: Request, rest: Run)
    requires Asking(w, r).err.None?
    ensures Then(Asking(w, r), rest) == Run(rest.err, rest.findings, [r] + rest.asks)
  {
    assert [] + rest.findings == rest.findings;
  }

  lemma {:induction false} PromNamesKnown(w: World, res: PromResult, src: Source)
    requires w.cfg.prom && w.cfg.promSource != "" && Asking(w, MetricNames).err.None?
    ensures PromRun(w, res, src) == PromRest(w, res, src)
  {
    var base := MetricReports(w, src, res.expr, res.metricRefs);
    var rest := RunAll(SelectorRuns(w, src, res.expr, res.selectors));
    ThenReports(base, rest);
    ThenAsking(w, MetricNames, Then(Reports(base), rest));
  }

  lemma {:induction false} StreamLike(env: Env, src: Source, expr: string, sel: LabelMatcher, labels: seq<string>)
    requires Knows(env.world, StreamLabels, labels) && sel.labelName != "" && sel.labelName !in labels
    ensures Like(env.world, if AllowsLabel(env.world.cfg, "", sel.labelName) then []
                 else [StreamLabelUnknown(env.world.cfg, src, expr, sel, labels)],
                 StreamRun(env.world, src, expr, sel).findings)
    ensures StreamRun(env.world, src, expr, sel).err.None? && StreamRun(env.world, src, expr, sel).asks == []
  {
  }

  lemma {:induction false} StreamValueLike(env: Env, src: Source, expr: string, sel: LabelMatcher, values: seq<string>)
    requires Knows(env.world, StreamValues(sel.labelName), values)
    ensures Like(env.world,
                 if sel.value in values || AllowsLabelValue(env.world.cfg, "", sel.labelName, sel.value) then []
                      else [StreamValueUnknown(env.world.cfg, src, expr, sel, values)],
                 StreamValueReport(env.world, src, expr, sel))
  {
  }

  lemma {:induction false} StreamReachesValue(env: Env, src: Source, expr: string, sel: LabelMatcher)
    requires sel.labelName != "" && sel.labelName in ListOf(env.world, StreamLabels) && sel.op == "=" && sel.value != ""
    ensures var run, values := StreamRun(env.world, src, expr, sel), StreamValues(sel.labelName);
      run.err == Asking(env.world, values).err && run.asks == [values]
      && (run.err.None? ==> run.findings == StreamValueReport(env.world, src, expr, sel))
  {
  }

  lemma {:induction false} LogRunParts(env: Env, res: LogResult, src: Source)
    requires env.world.cfg.loki && env.world.cfg.lokiSource != ""
    ensures var run, labels, rest := LogRun(env.world, res, src), Asking(env.world, StreamLabels),
                                     RunAll(StreamRuns(env.world, src, res.expr, res.streamSelectors));
      if labels.err.Some? then run.err == labels.err && run.asks == [StreamLabels]
      else run == Run(rest.err, rest.findings, [StreamLabels] + rest.asks)
  {
    var rest := RunAll(StreamRuns(env.world, src, res.expr, res.streamSelectors));
    assert [] + rest.findings == rest.findings;
  }

  // ---------- merged trace lists ----------

  lemma {:induction false} MergedNext(env: Env, scopes: seq<string>, i: nat, req: string -> Request)
    requires i < |scopes|
    ensures Merged(env.world, scopes[..i + 1], req) ==
      Merged(env.world, scopes[..i], req) + ListOf(env.world, req(scopes[i]))
  {
    assert scopes[..i + 1][..i] == scopes[..i];
  }

  ghost predicate SameElements(s: seq<string>, t: seq<string>) { forall x :: x in s <==> x in t }

  lemma {:induction false} AttributeCases(env: Env, src: Source, expr: string, before: seq<TraceQL.Attribute>,
      a: TraceQL.Attribute)
    requires !SeenBefore(before, TraceQL.Qualified(a))
    ensures var run := AttributeRun(env.world, src, expr, before, a);
      var names := AskingAll(env.world, TraceScopes(a.scope), NamesRequest());
      run.err == names.err && run.asks == names.asks
      && (run.err.None? ==> run.findings == names.findings + AttributeReport(env.world, src, expr, a))
  {
    assert AskingAll(env.world, TraceScopes(a.scope), NamesRequest()).asks + [] ==
        AskingAll(env.world, TraceScopes(a.scope), NamesRequest()).asks;
  }

  lemma {:induction false} MatcherCases(env: Env, src: Source, expr: string, attrs: seq<TraceQL.Attribute>,
      m: TraceQL.Matcher)
    requires MatcherConsidered(env.world, attrs, m)
    ensures var run := MatcherRun(env.world, src, expr, attrs, m);
      var values := AskingAll(env.world, TraceScopes(m.attribute.scope), ValuesRequest(m.attribute.name));
      run.err == values.err && run.asks == values.asks
      && (run.err.None? ==> run.findings == values.findings + MatcherReport(env.world, src, expr, m))
  {
    var values := AskingAll(env.world, TraceScopes(m.attribute.scope), ValuesRequest(m.attribute.name));
    assert values.asks + [] == values.asks;
  }

  ghost predicate UnknownUpTo(env: Env, attrs: seq<TraceQL.Attribute>, n: nat, q: string)
    requires n <= |attrs|
  {
    exists i :: 0 <= i < n && FirstUnknown(env.world, attrs, i, q)
  }

  /** The qualified names met so far, and those whose first attribute is unknown. */
  ghost predicate Tracked(env: Env, attrs: seq<TraceQL.Attribute>, n: nat, seen: set<string>, unknown: set<string>)
    requires n <= |attrs|
  {
    && (forall q :: q in seen <==> SeenBefore(attrs[..n], q))
    && (forall q :: q in unknown <==> UnknownUpTo(env, attrs, n, q))
  }

  lemma {:induction false} SeenNext(attrs: seq<TraceQL.Attribute>, n: nat, p: string)
    requires n < |attrs|
    ensures SeenBefore(attrs[..n + 1], p) <==> SeenBefore(attrs[..n], p) || p == TraceQL.Qualified(attrs[n])
  {
    var before, upTo := attrs[..n], attrs[..n + 1];
    assert upTo[n] == attrs[n] && forall i | 0 <= i < n :: upTo[i] == before[i];
  }

  lemma {:induction false} UnknownNext(env: Env, attrs: seq<TraceQL.Attribute>, n: nat, p: string)
    requires n < |attrs|
    ensures UnknownUpTo(env, attrs, n + 1, p) <==> UnknownUpTo(env, attrs, n, p) || FirstUnknown(env.world, attrs, n, p)
  {
    if UnknownUpTo(env, attrs, n, p) {
      var i :| 0 <= i < n && FirstUnknown(env.world, attrs, i, p);
      assert 0 <= i < n + 1;
    }
  }

  lemma {:induction false} FirstUnknownIs(env: Env, attrs: seq<TraceQL.Attribute>, n: nat, p: string)
    requires n < |attrs|
    ensures FirstUnknown(env.world, attrs, n, p) <==>
      p == TraceQL.Qualified(attrs[n]) && !SeenBefore(attrs[..n], p) && IsUnknown(env, attrs[n])
  {
  }

  predicate IsUnknown(env: Env, a: TraceQL.Attribute) { a.name !in TraceNameList(env.world, a.scope) }

  lemma {:induction false} TrackedNext(env: Env, attrs: seq<TraceQL.Attribute>, n: nat, seen: set<string>,
      unknown: set<string>, seen': set<string>, unknown': set<string>)
    requires n < |attrs| && Tracked(env, attrs, n, seen, unknown)
    requires var q := TraceQL.Qualified(attrs[n]);
      seen' == seen + {q} && unknown' == unknown + if q !in seen && IsUnknown(env, attrs[n]) then {q} else {}
    ensures Tracked(env, attrs, n + 1, seen', unknown')
  {
    forall p
      ensures p in seen' <==> SeenBefore(attrs[..n + 1], p)
      ensures p in unknown' <==> UnknownUpTo(env, attrs, n + 1, p)
    {
      assert p in seen <==> SeenBefore(attrs[..n], p);
      assert p in unknown <==> UnknownUpTo(env, attrs, n, p);
      SeenNext(attrs, n, p);
      UnknownNext(env, attrs, n, p);
      FirstUnknownIs(env, attrs, n, p);
    }
  }

  lemma {:induction false} TrackedAll(env: Env, attrs: seq<TraceQL.Attribute>, seen: set<string>, unknown: set<string>)
    requires Tracked(env, attrs, |attrs|, seen, unknown)
    ensures forall q :: q in unknown <==> UnknownAttribute(env.world, attrs, q)
  {
    forall q ensures UnknownUpTo(env, attrs, |attrs|, q) <==> UnknownAttribute(env.world, attrs, q) {
    }
  }

  /** An attribute met before. */
  lemma {:induction false} TrackedAgain(env: Env, attrs: seq<TraceQL.Attribute>, n: nat, seen: set<string>,
      unknown: set<string>)
    requires n < |attrs| && Tracked(env, attrs, n, seen, unknown) && TraceQL.Qualified(attrs[n]) in seen
    ensures Tracked(env, attrs, n + 1, seen, unknown)
  {
    assert seen + {TraceQL.Qualified(attrs[n])} == seen && unknown + {} == unknown;
    TrackedNext(env, attrs, n, seen, unknown, seen, unknown);
  }

  /** One met for the first time. */
  lemma {:induction false} TrackedFirst(env: Env, attrs: seq<TraceQL.Attribute>, n: nat, seen: set<string>,
      unknown: set<string>, unknown': set<string>)
    requires n < |attrs| && Tracked(env, attrs, n, seen, unknown) && TraceQL.Qualified(attrs[n]) !in seen
    requires unknown' == if IsUnknown(env, attrs[n]) then unknown + {TraceQL.Qualified(attrs[n])} else unknown
    ensures Tracked(env, attrs, n + 1, seen + {TraceQL.Qualified(attrs[n])}, unknown')
  {
    assert unknown + {} == unknown;
    TrackedNext(env, attrs, n, seen, unknown, seen + {TraceQL.Qualified(attrs[n])}, unknown');
  }

  lemma {:induction false} TraceRunParts(env: Env, res: TraceResult, src: Source)
    requires env.world.cfg.tempo && env.world.cfg.tempoSource != ""
    ensures var run, attrs, ms := TraceRun(env.world, res, src),
                                  RunAll(AttributeRuns(env.world, src, res.expr, res.attributes)),
                                  RunAll(MatcherRuns(env.world, src, res.expr, res.attributes, res.matchers));
      if attrs.err.Some? then run.err == attrs.err && run.asks == attrs.asks else run == Joined(attrs, ms)
  {
  }

  class Checker {
    const env: Env
    const store: StoreRef
    /** Whether the n-th lookup, if it goes upstream, is cut short there because the
        context has been cancelled. */
    const cuts: nat -> bool
    var ticks: nat
    /** The requests sent upstream so far. */
    ghost var fetched: seq<Request>

    constructor (env: Env, store: StoreRef, cuts: nat -> bool)
      requires env.onDisk == store.Disk?
      ensures this.env == env && this.store == store && this.cuts == cuts && ticks == 0 && fetched == []
    {
      this.env, this.store, this.cuts := env, store, cuts;
      ticks, fetched := 0, [];
    }

    ghost function View(): map<string, Entry>
      reads store.Obj()
    {
      match store case Memory(m) => m.entries case Disk(f) => Store.View(f.files)
    }

    ghost function State(): CState
      reads this, store.Obj()
    {
      CState(View(), ticks)
    }

    ghost predicate Usable()
      reads this, store.Obj()
    {
      env.onDisk == store.Disk? && (store.Disk? ==> Unshadowed(env.world.cfg, store.f.files))
    }

    ghost predicate Valid()
      reads this, store.Obj()
    {
      Usable() && Faithful(env, View())
    }

    ghost predicate NeverCut() { forall n :: !cuts(n) }

    /** The error is that of a cancelled context, and leaves the store faithful. */
    ghost predicate Cut(err: Option<CatalogError>)
      reads this, store.Obj()
    {
      err == Some(Interrupted) && !NeverCut() && Valid()
    }

    ghost predicate CutShort<T>(answer: Outcome<T>)
      reads this, store.Obj()
    {
      answer.Error? && Cut(Some(answer.error))
    }

    ghost function Snapshot(): Snap
      reads this, store.Obj()
    {
      Snap(Valid(), State(), fetched)
    }

    /** Everything since s0 and f0 is the effect of the lookups asks. */
    ghost predicate Since(s0: CState, f0: seq<Request>, asks: seq<Request>)
      reads this, store.Obj()
    {
      Snapshot() == Effect(env, s0, f0, asks)
    }

    method StoreGet(key: string) returns (got: Got)
      requires Usable()
      ensures got.Found? <==> key in View()
      ensures got.Found? ==> got.entry == View()[key]
    {
      match store {
        case Memory(m) => got := m.Get(key);
        case Disk(f) =>
          ViewIsFound(f.files, key);
          got := f.Get(key);
      }
    }

    method StorePut(e: Entry, ghost r: Request) returns (err: Option<Invalid>)
      requires Usable() && e.schemaVersion == SCHEMA_VERSION
      requires e.language == LanguageOf(r) && KeyOf(e) == Key(env.world.cfg, r)
      modifies store.Obj()
      ensures Usable()
      ensures err == Validate(e)
      ensures View() == if err.None? then old(View())[KeyOf(e) := Kept(env, e)] else old(View())
    {
      match store {
        case Memory(m) => err := m.Put(e);
        case Disk(f) =>
          assert !Shadowed(f.files, e);
          if Validate(e).None? {
            UnshadowedPutView(f.files, e);
            PutUnshadowed(env.world.cfg, f.files, e, r);
          }
          err := f.Put(e);
      }
    }

    /** What the cache answers at a time. */
    method Look(r: Request, now: int) returns (got: List)
      requires Usable()
      ensures got == Cached(env, View(), r, now)
    {
      var e := StoreGet(KeyFor(LanguageOf(r), SourceOf(env.world.cfg, r), Query(r)));
      if e.Found? {
        if !Expired(e.entry, now) && e.entry.result.Some? {
          return Read(e.entry.result.value, SlotOf(r));
        }
      }
      return Absent;
    }

    /** Stores what upstream answered. */
    method Keep(r: Request, now: int, list: List) returns (err: Option<Invalid>)
      requires Valid() && env.world.upstream(r) == Ok(list)
      modifies store.Obj()
      ensures Valid()
      ensures err == Validate(NewEntry(env, r, now, list))
      ensures View() == if err.None? then old(View())[Key(env.world.cfg, r) := Kept(env, NewEntry(env, r, now, list))]
                        else old(View())
    {
      KeepFaithful(env, View(), r, now, list);
      var entry := Entry(SCHEMA_VERSION, Query(r), LanguageOf(r), SourceOf(env.world.cfg, r), now,
                         TtlSeconds(Ttl(env.world.cfg)), Some(Write(SlotOf(r), SortList(list))), "");
      assert entry == NewEntry(env, r, now, list);
      err := StorePut(entry, r);
    }

    /** The cache-then-fetch path every typed list goes through. */
    method CachedList(r: Request) returns (answer: Outcome<List>)
      requires Valid()
      modifies this, store.Obj()
      ensures Valid()
      ensures fetched == old(fetched) + if Misses(env, old(State()), r) then [r] else []
      ensures if answer == Error(Interrupted) then Cut(Some(Interrupted)) && Misses(env, old(State()), r)
              else (answer, State()) == Lookup(env, old(State()), r) && Truthful(env, r, answer)
    {
      LookupTransparent(env, State(), r);
      var now := env.clock(ticks);
      ticks := ticks + 1;
      var got := Look(r, now);
      if got.Present? {
        return Value(got);
      }
      answer := GoUpstream(r, now);
    }

    /** The part of it that goes upstream. */
    method GoUpstream(r: Request, now: int) returns (answer: Outcome<List>)
      requires Valid() && ticks > 0
      modifies this`fetched, store.Obj()
      ensures Valid() && fetched == old(fetched) + [r]
      ensures if answer == Error(Interrupted) then !NeverCut() else (answer, View()) == Fetch(env, old(View()), r, now)
    {
      fetched := fetched + [r];
      if cuts(ticks - 1) {
        return Error(Interrupted);
      }
      match env.world.upstream(r) {
        case Failed(msg) =>
          return Error(UpstreamError(msg));
        case Ok(list) =>
          var err := Keep(r, now, list);
          if err.Some? {
            return Error(CacheWrite(err.value));
          }
          return Value(SortList(list));
      }
    }

    /** The typed accessors: one list, looked up through the cache. */
    method ListFor(r: Request, ghost s0: CState, ghost f0: seq<Request>, ghost asks: seq<Request>)
        returns (names: seq<string>, err: Option<CatalogError>)
      requires RealClock(env) && SourceOf(env.world.cfg, r) != "" && Since(s0, f0, asks)
      modifies this, store.Obj()
      ensures Cut(err) || (err == Asking(env.world, r).err && Since(s0, f0, asks + [r]))
      ensures err.None? ==> Knows(env.world, r, names)
    {
      NoWriteError(env, State(), r);
      EffectNext(env, s0, f0, asks, r);
      var answer := CachedList(r);
      match answer {
        case Error(e) =>
          return [], Some(e);
        case Value(l) =>
          TruthfulKnows(env, r, l);
          return Items(l), None;
      }
    }

    /** One turn of CheckPromQL's second loop, from the label's values on. */
    method CheckSelectorValue(src: Source, expr: string, sel: Selector,
                              ghost s0: CState, ghost f0: seq<Request>, ghost asks: seq<Request>)
        returns (out: seq<Finding>, err: Option<CatalogError>)
      requires RealClock(env) && env.world.cfg.promSource != "" && Since(s0, f0, asks)
      modifies this, store.Obj()
      ensures Cut(err) || (err == Asking(env.world, MetricValues(sel.metric, sel.labelName)).err
                           && Since(s0, f0, asks + [MetricValues(sel.metric, sel.labelName)]))
      ensures err.None? ==> Like(env.world, out, ValueReport(env.world, src, expr, sel))
    {
      out := [];
      var values;
      values, err := ListFor(MetricValues(sel.metric, sel.labelName), s0, f0, asks);
      if err.Some? {
        return;
      }
      ValueLike(env, src, expr, sel, values);
      if sel.value in values {
        return;
      }
      if AllowsLabelValue(env.world.cfg, sel.metric, sel.labelName, sel.value) {
        return;
      }
      out := [ValueUnknown(env.world.cfg, src, expr, sel, values)];
    }

    /** The same turn once the metric's labels are known. */
    method CheckSelectorLabel(src: Source, expr: string, sel: Selector, labels: seq<string>,
                              ghost s0: CState, ghost f0: seq<Request>, ghost asks: seq<Request>)
        returns (out: seq<Finding>, err: Option<CatalogError>)
      requires RealClock(env) && env.world.cfg.promSource != "" && Considered(env.world, sel)
      requires Since(s0, f0, asks + [MetricLabels(sel.metric)])
      requires Asking(env.world, MetricLabels(sel.metric)).err.None?
      requires Knows(env.world, MetricLabels(sel.metric), labels)
      modifies this, store.Obj()
      ensures Cut(err) || (var run := SelectorRun(env.world, src, expr, sel);
        err == run.err && (err.None? ==> Like(env.world, out, run.findings)) && Since(s0, f0, asks + run.asks))
    {
      out, err := [], None;
      if sel.labelName !in labels {
        LabelMissing(env, src, expr, sel, labels);
        if !AllowsLabel(env.world.cfg, sel.metric, sel.labelName) {
          out := [LabelUnknown(env.world.cfg, src, expr, sel, labels)];
        }
        return;
      }
      if sel.op != "=" || sel.value == "" {
        LabelSuffices(env, src, expr, sel, labels);
        return;
      }
      SelectorReachesValue(env, src, expr, sel, labels);
      out, err := CheckSelectorValue(src, expr, sel, s0, f0, asks + [MetricLabels(sel.metric)]);
      assert asks + [MetricLabels(sel.metric)] + [MetricValues(sel.metric, sel.labelName)] ==
             asks + ([MetricLabels(sel.metric)] + [MetricValues(sel.metric, sel.labelName)]);
    }

    /** One turn of CheckPromQL's second loop. */
    method CheckSelector(src: Source, expr: string, sel: Selector, knownMetric: seq<string>,
                         ghost s0: CState, ghost f0: seq<Request>, ghost asks: seq<Request>)
        returns (out: seq<Finding>, err: Option<CatalogError>)
      requires RealClock(env) && env.world.cfg.promSource != "" && Since(s0, f0, asks)
      requires Knows(env.world, MetricNames, knownMetric)
      modifies this, store.Obj()
      ensures Cut(err) || (var run := SelectorRun(env.world, src, expr, sel);
        err == run.err && (err.None? ==> Like(env.world, out, run.findings)) && Since(s0, f0, asks + run.asks))
    {
      if sel.metric == "" || sel.labelName == "" || sel.metric !in knownMetric {
        assert asks + [] == asks;
        return [], None;
      }
      var labels;
      labels, err := ListFor(MetricLabels(sel.metric), s0, f0, asks);
      if err.Some? {
        if err != Some(Interrupted) { LabelsFail(env, src, expr, sel); }
        return [], err;
      }
      out, err := CheckSelectorLabel(src, expr, sel, labels, s0, f0, asks);
    }

    /** CheckPromQL's first loop. */
    method CheckMetrics(src: Source, expr: string, refs: seq<string>, metricNames: seq<string>)
        returns (out: seq<Finding>)
      requires Knows(env.world, MetricNames, metricNames)
      ensures Like(env.world, out, MetricReports(env.world, src, expr, refs))
    {
      out := [];
      for i := 0 to |refs|
        invariant Like(env.world, out, MetricReports(env.world, src, expr, refs[..i]))
      {
        var m := refs[i];
        MetricsNext(env, src, expr, refs, i);
        MetricLike(env, src, expr, m, metricNames);
        if m in metricNames {
          continue;
        }
        if AllowsMetric(env.world.cfg, m) {
          continue;
        }
        LikeConcat(env.world, out, MetricReports(env.world, src, expr, refs[..i]),
                   [MetricUnknown(env.world.cfg, src, expr, m, metricNames)],
                   [MetricUnknown(env.world.cfg, src, expr, m, ListOf(env.world, MetricNames))]);
        out := out + [MetricUnknown(env.world.cfg, src, expr, m, metricNames)];
      }
      assert refs[..|refs|] == refs;
    }

    /** CheckPromQL's second loop. */
    method CheckSelectors(src: Source, expr: string, sels: seq<Selector>, knownMetric: seq<string>,
                          ghost s0: CState, ghost f0: seq<Request>, ghost asks: seq<Request>)
        returns (out: seq<Finding>, err: Option<CatalogError>)
      requires RealClock(env) && env.world.cfg.promSource != "" && Since(s0, f0, asks)
      requires Knows(env.world, MetricNames, knownMetric)
      modifies this, store.Obj()
      ensures Cut(err) || (var run := RunAll(SelectorRuns(env.world, src, expr, sels));
        err == run.err && (err.None? ==> Like(env.world, out, run.findings)) && Since(s0, f0, asks + run.asks))
    {
      out, err := [], None;
      ghost var rs := SelectorRuns(env.world, src, expr, sels);
      assert asks + [] == asks;
      for i := 0 to |sels|
        invariant RunAll(rs[..i]).err.None? && err.None?
        invariant Like(env.world, out, RunAll(rs[..i]).findings)
        invariant Since(s0, f0, asks + RunAll(rs[..i]).asks)
      {
        RunAllNext(rs, i, asks);
        var more;
        more, err := CheckSelector(src, expr, sels[i], knownMetric, s0, f0, asks + RunAll(rs[..i]).asks);
        if err.Some? {
          return;
        }
        LikeConcat(env.world, out, RunAll(rs[..i]).findings, more, rs[i].findings);
        out := out + more;
      }
      assert rs[..|sels|] == rs;
    }

    method CheckPromQL(res: PromResult, src: Source) returns (answer: Outcome<seq<Finding>>)
      requires Valid() && RealClock(env)
      modifies this, store.Obj()
      ensures CutShort(answer) || (Answers(env.world, PromRun(env.world, res, src), answer)
                                   && Since(old(State()), old(fetched), PromRun(env.world, res, src).asks))
    {
      if !env.world.cfg.prom {
        return Value([]);
      }
      if env.world.cfg.promSource == "" {
        return Error(SourceNotSet(PROMQL));
      }
      answer := CheckWithNames(res, src);
    }

    /** CheckPromQL from the metric names on. */
    method CheckWithNames(res: PromResult, src: Source) returns (answer: Outcome<seq<Finding>>)
      requires Valid() && RealClock(env) && env.world.cfg.prom && env.world.cfg.promSource != ""
      modifies this, store.Obj()
      ensures CutShort(answer) || (Answers(env.world, PromRun(env.world, res, src), answer)
                                   && Since(old(State()), old(fetched), PromRun(env.world, res, src).asks))
    {
      ghost var s0, f0 := State(), fetched;
      var metricNames, err := ListFor(MetricNames, s0, f0, []);
      assert [] + [MetricNames] == [MetricNames];
      if err.Some? {
        if err != Some(Interrupted) { PromNamesFail(env.world, res, src); }
        return Error(err.value);
      }
      PromNamesKnown(env.world, res, src);
      var out;
      out, err := CheckReferences(res, src, metricNames, s0, f0);
      if err.Some? {
        return Error(err.value);
      }
      LikeSorted(env.world, out, PromRest(env.world, res, src).findings);
      out := SortSlice(out);
      return Value(out);
    }

    /** Both of CheckPromQL's loops. */
    method CheckReferences(res: PromResult, src: Source, metricNames: seq<string>, ghost s0: CState,
        ghost f0: seq<Request>)
        returns (out: seq<Finding>, err: Option<CatalogError>)
      requires RealClock(env) && env.world.cfg.promSource != "" && Since(s0, f0, [MetricNames])
      requires Knows(env.world, MetricNames, metricNames)
      modifies this, store.Obj()
      ensures Cut(err) || (var run := PromRest(env.world, res, src);
        err == run.err && (err.None? ==> Like(env.world, out, run.findings)) && Since(s0, f0, run.asks))
    {
      out := CheckMetrics(src, res.expr, res.metricRefs, metricNames);
      var more;
      more, err := CheckSelectors(src, res.expr, res.selectors, metricNames, s0, f0, [MetricNames]);
      if err.Some? {
        return;
      }
      LikeConcat(env.world, out, MetricReports(env.world, src, res.expr, res.metricRefs),
                 more, RunAll(SelectorRuns(env.world, src, res.expr, res.selectors)).findings);
      out := out + more;
    }

    // ---------- LogQL ----------

    /** One turn of CheckLogQL's loop. */
    method CheckStream(src: Source, expr: string, sel: LabelMatcher, labels: seq<string>,
                       ghost s0: CState, ghost f0: seq<Request>, ghost asks: seq<Request>)
        returns (out: seq<Finding>, err: Option<CatalogError>)
      requires RealClock(env) && env.world.cfg.lokiSource != "" && Since(s0, f0, asks)
      requires Knows(env.world, StreamLabels, labels)
      modifies this, store.Obj()
      ensures Cut(err) || (var run := StreamRun(env.world, src, expr, sel);
        err == run.err && (err.None? ==> Like(env.world, out, run.findings)) && Since(s0, f0, asks + run.asks))
    {
      out, err := [], None;
      assert asks + [] == asks;
      if sel.labelName == "" {
        return;
      }
      if sel.labelName !in labels {
        StreamLike(env, src, expr, sel, labels);
        if !AllowsLabel(env.world.cfg, "", sel.labelName) {
          out := [StreamLabelUnknown(env.world.cfg, src, expr, sel, labels)];
        }
        return;
      }
      if sel.op != "=" || sel.value == "" {
        return;
      }
      StreamReachesValue(env, src, expr, sel);
      var values;
      values, err := ListFor(StreamValues(sel.labelName), s0, f0, asks);
      if err.Some? {
        return;
      }
      StreamValueLike(env, src, expr, sel, values);
      if sel.value !in values && !AllowsLabelValue(env.world.cfg, "", sel.labelName, sel.value) {
        out := [StreamValueUnknown(env.world.cfg, src, expr, sel, values)];
      }
    }

    method CheckStreams(src: Source, expr: string, sels: seq<LabelMatcher>, labels: seq<string>,
                        ghost s0: CState, ghost f0: seq<Request>, ghost asks: seq<Request>)
        returns (out: seq<Finding>, err: Option<CatalogError>)
      requires RealClock(env) && env.world.cfg.lokiSource != "" && Since(s0, f0, asks)
      requires Knows(env.world, StreamLabels, labels)
      modifies this, store.Obj()
      ensures Cut(err) || (var run := RunAll(StreamRuns(env.world, src, expr, sels));
        err == run.err && (err.None? ==> Like(env.world, out, run.findings)) && Since(s0, f0, asks + run.asks))
    {
      out, err := [], None;
      ghost var rs := StreamRuns(env.world, src, expr, sels);
      assert asks + [] == asks;
      for i := 0 to |sels|
        invariant RunAll(rs[..i]).err.None? && err.None?
        invariant Like(env.world, out, RunAll(rs[..i]).findings)
        invariant Since(s0, f0, asks + RunAll(rs[..i]).asks)
      {
        RunAllNext(rs, i, asks);
        var more;
        more, err := CheckStream(src, expr, sels[i], labels, s0, f0, asks + RunAll(rs[..i]).asks);
        if err.Some? {
          return;
        }
        LikeConcat(env.world, out, RunAll(rs[..i]).findings, more, rs[i].findings);
        out := out + more;
      }
      assert rs[..|sels|] == rs;
    }

    method CheckLogQL(res: LogResult, src: Source) returns (answer: Outcome<seq<Finding>>)
      requires Valid() && RealClock(env)
      modifies this, store.Obj()
      ensures CutShort(answer) || (Answers(env.world, LogRun(env.world, res, src), answer)
                                   && Since(old(State()), old(fetched), LogRun(env.world, res, src).asks))
    {
      ghost var s0, f0 := State(), fetched;
      if !env.world.cfg.loki {
        return Value([]);
      }
      if env.world.cfg.lokiSource == "" {
        return Error(SourceNotSet(LOGQL));
      }
      LogRunParts(env, res, src);
      var labels, err := ListFor(StreamLabels, s0, f0, []);
      assert [] + [StreamLabels] == [StreamLabels];
      if err.Some? {
        return Error(err.value);
      }
      var out;
      out, err := CheckStreams(src, res.expr, res.streamSelectors, labels, s0, f0, [StreamLabels]);
      if err.Some? {
        return Error(err.value);
      }
      LikeSorted(env.world, out, RunAll(StreamRuns(env.world, src, res.expr, res.streamSelectors)).findings);
      out := SortSlice(out);
      return Value(out);
    }

    // ---------- TraceQL ----------

    /** traceAttributeNames and traceAttributeValues: the lists of all candidate
        scopes, merged, sorted and without duplicates. */
    method MergedList(scopes: seq<string>, req: string -> Request,
                      ghost s0: CState, ghost f0: seq<Request>, ghost asks: seq<Request>)
        returns (names: seq<string>, err: Option<CatalogError>)
      requires RealClock(env) && Since(s0, f0, asks)
      requires forall s :: SourceOf(env.world.cfg, req(s)) != ""
      modifies this, store.Obj()
      ensures Cut(err) || (var run := AskingAll(env.world, scopes, req);
        err == run.err && run.findings == [] && Since(s0, f0, asks + run.asks))
      ensures err.None? ==> names == SortedUnique(Merged(env.world, scopes, req))
    {
      var merged: seq<string> := [];
      ghost var rs := seq(|scopes|, i requires 0 <= i < |scopes| => Asking(env.world, req(scopes[i])));
      NothingReported(rs);
      assert asks + [] == asks;
      for i := 0 to |scopes|
        invariant RunAll(rs[..i]).err.None?
        invariant SameElements(merged, Merged(env.world, scopes[..i], req))
        invariant Since(s0, f0, asks + RunAll(rs[..i]).asks)
      {
        RunAllNext(rs, i, asks);
        MergedNext(env, scopes, i, req);
        var more;
        more, err := ListFor(req(scopes[i]), s0, f0, asks + RunAll(rs[..i]).asks);
        if err.Some? {
          return [], err;
        }
        merged := merged + more;
      }
      assert rs[..|scopes|] == rs && scopes[..|scopes|] == scopes;
      SortedUniqueCanonical(merged, Merged(env.world, scopes, req));
      names := ComputeSortedUnique(merged);
      err := None;
    }

    /** The first attribute of its name. */
    method CheckAttribute(src: Source, expr: string, a: TraceQL.Attribute, ghost before: seq<TraceQL.Attribute>,
                          ghost s0: CState, ghost f0: seq<Request>, ghost asks: seq<Request>)
        returns (out: seq<Finding>, isKnown: bool, err: Option<CatalogError>)
      requires RealClock(env) && env.world.cfg.tempoSource != "" && Since(s0, f0, asks)
      requires !SeenBefore(before, TraceQL.Qualified(a))
      modifies this, store.Obj()
      ensures Cut(err) || (var run := AttributeRun(env.world, src, expr, before, a);
        err == run.err && (err.None? ==> out == run.findings) && Since(s0, f0, asks + run.asks))
      ensures err.None? ==> isKnown == (a.name in TraceNameList(env.world, a.scope))
    {
      out, isKnown := [], false;
      AttributeCases(env, src, expr, before, a);
      var names;
      names, err := MergedList(TraceScopes(a.scope), NamesRequest(), s0, f0, asks);
      if err.Some? {
        return;
      }
      isKnown := a.name in names;
      if !isKnown && !AllowsLabel(env.world.cfg, "", TraceQL.Qualified(a)) {
        out := [AttributeUnknown(env.world.cfg, src, expr, a, names)];
      }
    }

    /** One turn of CheckTraceQL's first loop. */
    method CheckNextAttribute(src: Source, expr: string, ghost attrs: seq<TraceQL.Attribute>, ghost i: nat,
        a: TraceQL.Attribute, seen: set<string>, unknown: set<string>,
        ghost s0: CState, ghost f0: seq<Request>, ghost asks: seq<Request>)
        returns (out: seq<Finding>, seen': set<string>, unknown': set<string>, err: Option<CatalogError>)
      requires RealClock(env) && env.world.cfg.tempoSource != "" && Since(s0, f0, asks)
      requires i < |attrs| && a == attrs[i] && Tracked(env, attrs, i, seen, unknown)
      modifies this, store.Obj()
      ensures Cut(err) || (var run := AttributeRun(env.world, src, expr, attrs[..i], a);
        err == run.err && (err.None? ==> out == run.findings) && Since(s0, f0, asks + run.asks))
      ensures err.None? ==> Tracked(env, attrs, i + 1, seen', unknown')
    {
      out, seen', unknown', err := [], seen, unknown, None;
      if TraceQL.Qualified(a) in seen {
        TrackedAgain(env, attrs, i, seen, unknown);
        assert asks + [] == asks;
        return;
      }
      seen' := seen + {TraceQL.Qualified(a)};
      var isKnown;
      out, isKnown, err := CheckAttribute(src, expr, a, attrs[..i], s0, f0, asks);
      if err.Some? {
        return;
      }
      if !isKnown {
        unknown' := unknown + {TraceQL.Qualified(a)};
      }
      TrackedFirst(env, attrs, i, seen, unknown, unknown');
    }

    method CheckAttributes(src: Source, expr: string, attrs: seq<TraceQL.Attribute>,
                           ghost s0: CState, ghost f0: seq<Request>)
        returns (out: seq<Finding>, unknown: set<string>, err: Option<CatalogError>)
      requires RealClock(env) && env.world.cfg.tempoSource != "" && Since(s0, f0, [])
      modifies this, store.Obj()
      ensures Cut(err) || (var run := RunAll(AttributeRuns(env.world, src, expr, attrs));
        err == run.err && (err.None? ==> out == run.findings) && Since(s0, f0, run.asks))
      ensures err.None? ==> forall q :: q in unknown <==> UnknownAttribute(env.world, attrs, q)
    {
      out, err, unknown := [], None, {};
      var seen: set<string> := {};
      ghost var rs := AttributeRuns(env.world, src, expr, attrs);
      for i := 0 to |attrs|
        invariant RunAll(rs[..i]).err.None? && err.None?
        invariant out == RunAll(rs[..i]).findings
        invariant Since(s0, f0, RunAll(rs[..i]).asks)
        invariant Tracked(env, attrs, i, seen, unknown)
      {
        RunAllNext(rs, i, []);
        var more;
        more, seen, unknown, err := CheckNextAttribute(src, expr, attrs, i, attrs[i], seen, unknown,
                                                       s0, f0, RunAll(rs[..i]).asks);
        if err.Some? {
          return;
        }
        out := out + more;
      }
      assert rs[..|attrs|] == rs;
      TrackedAll(env, attrs, seen, unknown);
    }

    /** One turn of CheckTraceQL's second loop. */
    method CheckMatcher(src: Source, expr: string, ghost attrs: seq<TraceQL.Attribute>, m: TraceQL.Matcher,
        unknown: set<string>, ghost s0: CState, ghost f0: seq<Request>, ghost asks: seq<Request>)
        returns (out: seq<Finding>, err: Option<CatalogError>)
      requires RealClock(env) && env.world.cfg.tempoSource != "" && Since(s0, f0, asks)
      requires forall q :: q in unknown <==> UnknownAttribute(env.world, attrs, q)
      modifies this, store.Obj()
      ensures Cut(err) || (var run := MatcherRun(env.world, src, expr, attrs, m);
        err == run.err && (err.None? ==> out == run.findings) && Since(s0, f0, asks + run.asks))
    {
      out, err := [], None;
      var q := TraceQL.Qualified(m.attribute);
      if q in unknown || m.value == "" || Contains(m.value, SENTINEL) {
        assert asks + [] == asks;
        return;
      }
      MatcherCases(env, src, expr, attrs, m);
      var values;
      values, err := MergedList(TraceScopes(m.attribute.scope), ValuesRequest(m.attribute.name), s0, f0, asks);
      if err.Some? {
        return;
      }
      if m.value !in values && !AllowsLabelValue(env.world.cfg, "", q, m.value) {
        out := [AttributeValueUnknown(env.world.cfg, src, expr, m, values)];
      }
    }

    method CheckMatchers(src: Source, expr: string, ghost attrs: seq<TraceQL.Attribute>, ms: seq<TraceQL.Matcher>,
        unknown: set<string>, ghost s0: CState, ghost f0: seq<Request>, ghost asks: seq<Request>)
        returns (out: seq<Finding>, err: Option<CatalogError>)
      requires RealClock(env) && env.world.cfg.tempoSource != "" && Since(s0, f0, asks)
      requires forall q :: q in unknown <==> UnknownAttribute(env.world, attrs, q)
      modifies this, store.Obj()
      ensures Cut(err) || (var run := RunAll(MatcherRuns(env.world, src, expr, attrs, ms));
        err == run.err && (err.None? ==> out == run.findings) && Since(s0, f0, asks + run.asks))
    {
      out, err := [], None;
      ghost var rs := MatcherRuns(env.world, src, expr, attrs, ms);
      assert asks + [] == asks;
      for i := 0 to |ms|
        invariant RunAll(rs[..i]).err.None? && err.None?
        invariant out == RunAll(rs[..i]).findings
        invariant Since(s0, f0, asks + RunAll(rs[..i]).asks)
      {
        RunAllNext(rs, i, asks);
        var more;
        more, err := CheckMatcher(src, expr, attrs, ms[i], unknown, s0, f0, asks + RunAll(rs[..i]).asks);
        if err.Some? {
          return;
        }
        out := out + more;
      }
      assert rs[..|ms|] == rs;
    }

    method CheckTraceQL(res: TraceResult, src: Source) returns (answer: Outcome<seq<Finding>>)
      requires Valid() && RealClock(env)
      modifies this, store.Obj()
      ensures CutShort(answer) || (AnswersExactly(TraceRun(env.world, res, src), answer)
                                   && Since(old(State()), old(fetched), TraceRun(env.world, res, src).asks))
    {
      ghost var s0, f0 := State(), fetched;
      if !env.world.cfg.tempo {
        return Value([]);
      }
      if env.world.cfg.tempoSource == "" {
        return Error(SourceNotSet(TRACEQL));
      }
      TraceRunParts(env, res, src);
      var out, unknown, err := CheckAttributes(src, res.expr, res.attributes, s0, f0);
      if err.Some? {
        return Error(err.value);
      }
      var more;
      more, err := CheckMatchers(src, res.expr, res.attributes, res.matchers, unknown, s0, f0,
                                 RunAll(AttributeRuns(env.world, src, res.expr, res.attributes)).asks);
      if err.Some? {
        return Error(err.value);
      }
      out := SortSlice(out + more);
      return Value(out);
    }
  }
}
