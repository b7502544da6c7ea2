/** pkg/catalog/prewarm.go, plan: the deduplicated, ordered set of lists a corpus
    needs, and what it leaves out. */
module Plan {
  import opened Order
  import opened Lists
  import opened Cache
  import opened Checks

  datatype Inputs = Inputs(promql: seq<PromResult>, logql: seq<LogResult>, traceql: seq<TraceResult>)

  // ---------- what is planned ----------

  predicate Labelled(s: Selector) { s.metric != "" && s.labelName != "" }
  predicate Valued(s: Selector) { Labelled(s) && s.op == "=" && s.value != "" }
  predicate StreamLabelled(s: LabelMatcher) { s.labelName != "" }
  predicate StreamValued(s: LabelMatcher) { s.labelName != "" && s.op == "=" && s.value != "" }
  predicate TraceValued(m: TraceQL.Matcher) { m.value != "" && !Contains(m.value, SENTINEL) }

  ghost predicate HasSelector(ps: seq<PromResult>, s: Selector) { exists i :: 0 <= i < |ps| && s in ps[i].selectors }
  ghost predicate HasRef(ps: seq<PromResult>, m: string) { exists i :: 0 <= i < |ps| && m in ps[i].metricRefs }
  ghost predicate HasStream(ls: seq<LogResult>, s: LabelMatcher) {
    exists i :: 0 <= i < |ls| && s in ls[i].streamSelectors
  }
  ghost predicate HasAttribute(ts: seq<TraceResult>, a: TraceQL.Attribute) {
    exists i :: 0 <= i < |ts| && a in ts[i].attributes
  }
  ghost predicate HasMatcher(ts: seq<TraceResult>, m: TraceQL.Matcher) {
    exists i :: 0 <= i < |ts| && m in ts[i].matchers
  }

  ghost predicate NamesMetric(ps: seq<PromResult>) {
    (exists m :: HasRef(ps, m)) || (exists s :: HasSelector(ps, s) && Labelled(s))
  }

  /** A scope an attribute may be found in: its own, or, without one, resource and span. */
  ghost predicate Candidate(scope: string, sc: string) {
    if scope == "" then sc == "resource" || sc == "span" else sc == scope
  }

  lemma {:induction false} CandidatesAre(scope: string)
    ensures forall sc :: sc in TraceScopes(scope) <==> Candidate(scope, sc)
  {
    if scope == "" { assert TraceScopes(scope)[0] == "resource" && TraceScopes(scope)[1] == "span"; }
  }

  /** The lists some task of the plan fetches. */
  ghost predicate Planned(cfg: Config, x: Inputs, r: Request) {
    match r
    case MetricNames => cfg.prom && NamesMetric(x.promql)
    case MetricLabels(m) => cfg.prom && exists s :: HasSelector(x.promql, s) && Labelled(s) && s.metric == m
    case MetricValues(m, l) =>
      cfg.prom && exists s :: HasSelector(x.promql, s) && Valued(s) && s.metric == m && s.labelName == l
    case StreamLabels => cfg.loki && exists s :: HasStream(x.logql, s) && StreamLabelled(s)
    case StreamValues(l) => cfg.loki && exists s :: HasStream(x.logql, s) && StreamValued(s) && s.labelName == l
    case TraceNames(sc) => cfg.tempo && exists a :: HasAttribute(x.traceql, a) && Candidate(a.scope, sc)
    case TraceValues(sc, n) =>
      cfg.tempo && exists m ::
        HasMatcher(x.traceql, m) && TraceValued(m) && Candidate(m.attribute.scope, sc) && n == m.attribute.name
  }

  // ---------- task order ----------

  function Rank(r: Request): nat {
    match r
    case MetricNames => 0
    case MetricLabels(_) => 1
    case MetricValues(_, _) => 2
    case StreamLabels => 3
    case StreamValues(_) => 4
    case TraceNames(_) => 5
    case TraceValues(_, _) => 6
  }

  function First(r: Request): string {
    match r
    case MetricLabels(m) => m
    case MetricValues(m, _) => m
    case StreamValues(l) => l
    case TraceNames(s) => s
    case TraceValues(s, _) => s
    case _ => ""
  }

  function Second(r: Request): string {
    match r
    case MetricValues(_, l) => l
    case TraceValues(_, n) => n
    case _ => ""
  }

  /** By kind, then by the names in it. */
  predicate TaskLess(x: Request, y: Request) {
    Rank(x) < Rank(y) ||
    (Rank(x) == Rank(y) && (Less(First(x), First(y)) || (First(x) == First(y) && Less(Second(x), Second(y)))))
  }

  /** The documented order of tasks: the metric names, the labels of metrics, their values, the
      stream labels, their values, the names in a scope, their values; and by name among themselves. */
  lemma {:induction false} TaskOrder(a: string, b: string, c: string, d: string)
    ensures TaskLess(MetricNames, MetricLabels(a)) && TaskLess(MetricLabels(a), MetricValues(b, c))
      && TaskLess(MetricValues(b, c), StreamLabels) && TaskLess(StreamLabels, StreamValues(a))
      && TaskLess(StreamValues(a), TraceNames(b)) && TaskLess(TraceNames(b), TraceValues(c, d))
    ensures Less(a, b) ==>
      && TaskLess(MetricLabels(a), MetricLabels(b)) && TaskLess(StreamValues(a), StreamValues(b))
      && TaskLess(TraceNames(a), TraceNames(b))
      && TaskLess(MetricValues(a, c), MetricValues(b, d)) && TaskLess(TraceValues(a, c), TraceValues(b, d))
      && TaskLess(MetricValues(c, a), MetricValues(c, b)) && TaskLess(TraceValues(c, a), TraceValues(c, b))
  {
  }

  ghost predicate InOrder(tasks: seq<Request>) { forall i, j | 0 <= i < j < |tasks| :: TaskLess(tasks[i], tasks[j]) }

  ghost predicate AllBefore(s: seq<Request>, t: seq<Request>) { forall x, y | x in s && y in t :: TaskLess(x, y) }

  lemma {:induction false} InOrderConcat(s: seq<Request>, t: seq<Request>)
    requires InOrder(s) && InOrder(t) && AllBefore(s, t)
    ensures InOrder(s + t)
  {
    var w := s + t;
    forall i, j | 0 <= i < j < |w| ensures TaskLess(w[i], w[j]) {
      if i < |s| && j >= |s| { assert w[i] in s && w[j] in t; }
    }
  }

  // ---------- mapping sorted names to tasks ----------

  ghost predicate GrowsWithName(task: string -> Request) { forall a, b :: Less(a, b) ==> TaskLess(task(a), task(b)) }

  ghost predicate AreTasks(tasks: seq<Request>, names: seq<string>, task: string -> Request) {
    forall r :: r in tasks <==> exists a :: a in names && r == task(a)
  }

  /** One task for each name, in the order of the names. */
  method TasksFor(names: seq<string>, task: string -> Request) returns (tasks: seq<Request>)
    requires StrictlySorted(Less, names) && GrowsWithName(task)
    ensures InOrder(tasks) && AreTasks(tasks, names, task)
  {
    tasks := [];
    for i := 0 to |names|
      invariant |tasks| == i && forall k | 0 <= k < i :: tasks[k] == task(names[k])
    {
      tasks := tasks + [task(names[i])];
    }
  }

  type Nested<V> = map<string, map<string, V>>

  predicate HasPair<V>(m: Nested<V>, a: string, b: string) { a in m && b in m[a] }

  /** r is a task of one of the first i outer names. */
  ghost predicate TaskOf<V>(m: Nested<V>, outer: seq<string>, i: nat, task: (string, string) -> Request, r: Request)
    requires i <= |outer|
  {
    exists k, b :: 0 <= k < i && HasPair(m, outer[k], b) && r == task(outer[k], b)
  }

  lemma {:induction false} TaskOfNext<V>(m: Nested<V>, outer: seq<string>, i: nat, task: (string, string) -> Request,
      r: Request)
    requires i < |outer|
    ensures TaskOf(m, outer, i + 1, task, r) <==>
            TaskOf(m, outer, i, task, r) || exists b :: HasPair(m, outer[i], b) && r == task(outer[i], b)
  {
    if exists b :: HasPair(m, outer[i], b) && r == task(outer[i], b) {
      var b :| HasPair(m, outer[i], b) && r == task(outer[i], b);
      assert 0 <= i < i + 1;
    }
  }

  ghost predicate Grows(task: (string, string) -> Request) {
    forall a, b, c, d :: Less(a, c) || (a == c && Less(b, d)) ==> TaskLess(task(a, b), task(c, d))
  }

  lemma {:induction false} NextBlock<V>(m: Nested<V>, outer: seq<string>, i: nat, task: (string, string) -> Request,
                                     tasks: seq<Request>, more: seq<Request>)
    requires i < |outer| && StrictlySorted(Less, outer) && Grows(task) && InOrder(tasks) && InOrder(more)
    requires forall r :: r in tasks <==> TaskOf(m, outer, i, task, r)
    requires forall r :: r in more <==> exists b :: HasPair(m, outer[i], b) && r == task(outer[i], b)
    ensures InOrder(tasks + more)
    ensures forall r :: r in tasks + more <==> TaskOf(m, outer, i + 1, task, r)
  {
    forall x, y | x in tasks && y in more ensures TaskLess(x, y) {
      var k, b :| 0 <= k < i && HasPair(m, outer[k], b) && x == task(outer[k], b);
      var d :| HasPair(m, outer[i], d) && y == task(outer[i], d);
      assert Less(outer[k], outer[i]);
    }
    InOrderConcat(tasks, more);
    forall r ensures r in tasks + more <==> TaskOf(m, outer, i + 1, task, r) { TaskOfNext(m, outer, i, task, r); }
  }

  ghost predicate ArePairTasks<V>(tasks: seq<Request>, m: Nested<V>, task: (string, string) -> Request) {
    forall r :: r in tasks <==> exists a, b :: HasPair(m, a, b) && r == task(a, b)
  }

  /** One task for each pair in a two-level map, in the order of both levels. */
  method NestedTasks<V>(m: Nested<V>, task: (string, string) -> Request) returns (tasks: seq<Request>)
    requires Grows(task)
    ensures InOrder(tasks) && ArePairTasks(tasks, m, task)
  {
    tasks := [];
    var outer := ComputeSortedKeys(m.Keys);
    for i := 0 to |outer|
      invariant InOrder(tasks) && forall r :: r in tasks <==> TaskOf(m, outer, i, task, r)
    {
      var a := outer[i];
      var inner := ComputeSortedKeys(m[a].Keys);
      var more := TasksFor(inner, b => task(a, b));
      NextBlock(m, outer, i, task, tasks, more);
      tasks := tasks + more;
    }
    forall r | exists a, b :: HasPair(m, a, b) && r == task(a, b) ensures TaskOf(m, outer, |outer|, task, r) {
      var a, b :| HasPair(m, a, b) && r == task(a, b);
      assert a in outer;
    }
  }

  // ---------- blocks of the plan ----------

  /** tasks is the part of the plan with ranks from lo up to hi. */
  ghost predicate Block(cfg: Config, x: Inputs, tasks: seq<Request>, lo: int, hi: int) {
    InOrder(tasks) && forall r :: r in tasks <==> Planned(cfg, x, r) && lo <= Rank(r) < hi
  }

  lemma {:induction false} JoinBlocks(cfg: Config, x: Inputs, s: seq<Request>, t: seq<Request>, lo: int, mid: int,
      hi: int)
    requires Block(cfg, x, s, lo, mid) && Block(cfg, x, t, mid, hi) && lo <= mid <= hi
    ensures Block(cfg, x, s + t, lo, hi)
  {
    assert AllBefore(s, t);
    InOrderConcat(s, t);
  }

  function LabelsTask(): string -> Request { (m: string) => MetricLabels(m) }
  function StreamTask(): string -> Request { (l: string) => StreamValues(l) }
  function ValuesTask(): (string, string) -> Request { (m: string, l: string) => MetricValues(m, l) }
  function TraceTask(): (string, string) -> Request { (sc: string, n: string) => TraceValues(sc, n) }

  ghost predicate NamesArePlanned(cfg: Config, x: Inputs, names: set<string>, task: string -> Request) {
    forall a :: a in names <==> Planned(cfg, x, task(a))
  }

  ghost predicate PairsArePlanned<V>(cfg: Config, x: Inputs, m: Nested<V>, task: (string, string) -> Request) {
    forall a, b :: HasPair(m, a, b) <==> Planned(cfg, x, task(a, b))
  }

  /** task makes the tasks of one rank, one for each name. */
  ghost predicate NameKind(task: string -> Request, rank: nat) {
    GrowsWithName(task) && (forall a :: First(task(a)) == a) && forall r :: Rank(r) == rank <==> r == task(First(r))
  }

  /** task makes the tasks of one rank, one for each pair of names. */
  ghost predicate PairKind(task: (string, string) -> Request, rank: nat) {
    && Grows(task) && (forall a, b :: First(task(a, b)) == a && Second(task(a, b)) == b)
    && forall r :: Rank(r) == rank <==> r == task(First(r), Second(r))
  }

  /** Such a block, from the keys of a map. */
  method NamedTasks(cfg: Config, x: Inputs, keys: set<string>, task: string -> Request, ghost rank: nat)
      returns (tasks: seq<Request>)
    requires NameKind(task, rank) && NamesArePlanned(cfg, x, keys, task)
    ensures Block(cfg, x, tasks, rank, rank + 1)
  {
    var names := ComputeSortedKeys(keys);
    tasks := TasksFor(names, task);
    assert (set a | a in names) == keys;
    NamedBlock(cfg, x, names, task, tasks, rank);
  }

  lemma {:induction false} NameKinds()
    ensures NameKind(LabelsTask(), 1) && NameKind(StreamTask(), 4) && NameKind(NamesRequest(), 5)
  {
  }

  lemma {:induction false} PairKinds()
    ensures PairKind(ValuesTask(), 2) && PairKind(TraceTask(), 6)
  {
  }

  /** The block of a kind of task with one name in it. */
  lemma {:induction false} NamedBlock(cfg: Config, x: Inputs, names: seq<string>, task: string -> Request,
      tasks: seq<Request>, rank: nat)
    requires NameKind(task, rank)
    requires NamesArePlanned(cfg, x, (set a | a in names), task)
    requires InOrder(tasks) && AreTasks(tasks, names, task)
    ensures Block(cfg, x, tasks, rank, rank + 1)
  {
    forall r ensures r in tasks <==> Planned(cfg, x, r) && Rank(r) == rank {
      if r in tasks {
        var a :| a in names && r == task(a);
      }
      assert Rank(r) == rank ==> r == task(First(r));
    }
  }

  /** The block of a kind of task with two names in it. */
  lemma {:induction false} PairBlock<V>(cfg: Config, x: Inputs, m: Nested<V>, task: (string, string) -> Request,
      tasks: seq<Request>, rank: nat)
    requires PairKind(task, rank)
    requires PairsArePlanned(cfg, x, m, task)
    requires InOrder(tasks) && ArePairTasks(tasks, m, task)
    ensures Block(cfg, x, tasks, rank, rank + 1)
  {
    forall r ensures r in tasks <==> Planned(cfg, x, r) && Rank(r) == rank {
      if r in tasks {
        var a, b :| HasPair(m, a, b) && r == task(a, b);
      }
      assert Rank(r) == rank ==> r == task(First(r), Second(r));
    }
  }

  /** The block of a global list. */
  lemma {:induction false} GlobalBlock(cfg: Config, x: Inputs, g: Request, tasks: seq<Request>, rank: nat)
    requires (rank == 0 && g == MetricNames) || (rank == 3 && g == StreamLabels)
    requires tasks == if Planned(cfg, x, g) then [g] else []
    ensures Block(cfg, x, tasks, rank, rank + 1)
  {
  }

  // ---------- collecting ----------

  /** The three maps, for the selectors and metric references met so far. */
  ghost predicate PromCollected(refs: set<string>, sels: set<Selector>, metrics: set<string>,
                                labelsByMetric: map<string, set<string>>, values: Nested<set<string>>) {
    && (forall m :: m in metrics <==> m in refs || exists s :: s in sels && Labelled(s) && s.metric == m)
    && (forall m :: m in labelsByMetric <==> exists s :: s in sels && Labelled(s) && s.metric == m)
    && (forall m, l ::
          HasPair(values, m, l) <==> exists s :: s in sels && Valued(s) && s.metric == m && s.labelName == l)
  }

  /** The value maps after one more matcher. */
  function WithValue(values: Nested<set<string>>, a: string, b: string, v: string): Nested<set<string>> {
    var inner := if a in values then values[a] else map[];
    values[a := inner[b := (if b in inner then inner[b] else {}) + {v}]]
  }

  lemma {:induction false} WithValuePairs(values: Nested<set<string>>, a: string, b: string, v: string)
    ensures forall x, y :: HasPair(WithValue(values, a, b, v), x, y) <==> HasPair(values, x, y) || (x == a && y == b)
  {
  }

  method AddSelector(s: Selector, metrics0: set<string>, labels0: map<string, set<string>>,
      values0: Nested<set<string>>,
                     ghost refs: set<string>, ghost sels: set<Selector>)
      returns (metrics: set<string>, labelsByMetric: map<string, set<string>>, values: Nested<set<string>>)
    requires PromCollected(refs, sels, metrics0, labels0, values0)
    ensures PromCollected(refs, sels + {s}, metrics, labelsByMetric, values)
  {
    metrics, labelsByMetric, values := metrics0, labels0, values0;
    if s.metric == "" || s.labelName == "" {
      return;
    }
    metrics := metrics + {s.metric};
    labelsByMetric := labelsByMetric[s.metric := (if s.metric in labelsByMetric then labelsByMetric[s.metric] else {})
        + {s.labelName}];
    if s.op == "=" && s.value != "" {
      WithValuePairs(values, s.metric, s.labelName, s.value);
      values := WithValue(values, s.metric, s.labelName, s.value);
    }
  }

  method CollectProm(ps: seq<PromResult>)
      returns (metrics: set<string>, labelsByMetric: map<string, set<string>>, values: Nested<set<string>>,
               ghost refs: set<string>, ghost sels: set<Selector>)
    ensures PromCollected(refs, sels, metrics, labelsByMetric, values)
    ensures (forall m :: m in refs <==> HasRef(ps, m)) && (forall s :: s in sels <==> HasSelector(ps, s))
  {
    metrics, labelsByMetric, values, refs, sels := {}, map[], map[], {}, {};
    for i := 0 to |ps|
      invariant PromCollected(refs, sels, metrics, labelsByMetric, values)
      invariant (forall m :: m in refs <==> exists k :: 0 <= k < i && m in ps[k].metricRefs)
      invariant (forall s :: s in sels <==> exists k :: 0 <= k < i && s in ps[k].selectors)
    {
      var r := ps[i];
      ghost var refs0, sels0 := refs, sels;
      for j := 0 to |r.metricRefs|
        invariant PromCollected(refs, sels, metrics, labelsByMetric, values)
        invariant forall m :: m in refs <==> m in refs0 || m in r.metricRefs[..j]
      {
        metrics := metrics + {r.metricRefs[j]};
        refs := refs + {r.metricRefs[j]};
      }
      for j := 0 to |r.selectors|
        invariant PromCollected(refs, sels, metrics, labelsByMetric, values)
        invariant forall s :: s in sels <==> s in sels0 || s in r.selectors[..j]
      {
        metrics, labelsByMetric, values := AddSelector(r.selectors[j], metrics, labelsByMetric, values, refs, sels);
        sels := sels + {r.selectors[j]};
      }
    }
  }

  lemma {:induction false} PromPlanned(cfg: Config, x: Inputs, refs: set<string>, sels: set<Selector>,
      metrics: set<string>,
                                       labelsByMetric: map<string, set<string>>, values: Nested<set<string>>)
    requires cfg.prom && PromCollected(refs, sels, metrics, labelsByMetric, values)
    requires (forall m :: m in refs <==> HasRef(x.promql, m)) && (forall s :: s in sels <==> HasSelector(x.promql, s))
    ensures Planned(cfg, x, MetricNames) <==> |metrics| > 0 || |labelsByMetric| > 0
    ensures forall m :: Planned(cfg, x, MetricLabels(m)) <==> m in labelsByMetric
    ensures forall m, l :: Planned(cfg, x, MetricValues(m, l)) <==> HasPair(values, m, l)
  {
    if |metrics| > 0 {
      var m :| m in metrics;
      assert NamesMetric(x.promql);
    }
    if |labelsByMetric| > 0 {
      var m :| m in labelsByMetric;
      assert NamesMetric(x.promql);
    }
    if NamesMetric(x.promql) {
      if m :| HasRef(x.promql, m) {
        assert m in metrics;
      } else {
        var s :| HasSelector(x.promql, s) && Labelled(s);
        assert s.metric in metrics;
      }
    }
  }

  method PlanProm(cfg: Config, x: Inputs) returns (tasks: seq<Request>)
    requires cfg.prom
    ensures Block(cfg, x, tasks, 0, 3)
  {
    tasks := [];
    var metrics, labelsByMetric, values, refs, sels := CollectProm(x.promql);
    PromPlanned(cfg, x, refs, sels, metrics, labelsByMetric, values);
    if |metrics| > 0 || |labelsByMetric| > 0 {
      tasks := [MetricNames];
    }
    GlobalBlock(cfg, x, MetricNames, tasks, 0);
    var labelTasks := PromLabelTasks(cfg, x, labelsByMetric);
    JoinBlocks(cfg, x, tasks, labelTasks, 0, 1, 2);
    var valueTasks := PromValueTasks(cfg, x, values);
    JoinBlocks(cfg, x, tasks + labelTasks, valueTasks, 0, 2, 3);
    tasks := tasks + labelTasks + valueTasks;
  }

  method PromLabelTasks(cfg: Config, x: Inputs, labelsByMetric: map<string, set<string>>) returns (tasks: seq<Request>)
    requires NamesArePlanned(cfg, x, labelsByMetric.Keys, LabelsTask())
    ensures Block(cfg, x, tasks, 1, 2)
  {
    NameKinds();
    tasks := NamedTasks(cfg, x, labelsByMetric.Keys, LabelsTask(), 1);
  }

  method PromValueTasks(cfg: Config, x: Inputs, values: Nested<set<string>>) returns (tasks: seq<Request>)
    requires PairsArePlanned(cfg, x, values, ValuesTask())
    ensures Block(cfg, x, tasks, 2, 3)
  {
    PairKinds();
    tasks := NestedTasks(values, ValuesTask());
    PairBlock(cfg, x, values, ValuesTask(), tasks, 2);
  }

  ghost predicate LogCollected(sels: set<LabelMatcher>, labels: set<string>, values: map<string, set<string>>) {
    && (forall l :: l in labels <==> exists s :: s in sels && StreamLabelled(s) && s.labelName == l)
    && (forall l :: l in values <==> exists s :: s in sels && StreamValued(s) && s.labelName == l)
  }

  method AddStream(s: LabelMatcher, labels0: set<string>, values0: map<string, set<string>>,
      ghost sels: set<LabelMatcher>)
      returns (labels: set<string>, values: map<string, set<string>>)
    requires LogCollected(sels, labels0, values0)
    ensures LogCollected(sels + {s}, labels, values)
  {
    labels, values := labels0, values0;
    if s.labelName == "" {
      return;
    }
    labels := labels + {s.labelName};
    if s.op == "=" && s.value != "" {
      values := values[s.labelName := (if s.labelName in values then values[s.labelName] else {}) + {s.value}];
    }
  }

  method CollectLog(ls: seq<LogResult>)
      returns (labels: set<string>, values: map<string, set<string>>, ghost sels: set<LabelMatcher>)
    ensures LogCollected(sels, labels, values) && forall s :: s in sels <==> HasStream(ls, s)
  {
    labels, values, sels := {}, map[], {};
    for i := 0 to |ls|
      invariant LogCollected(sels, labels, values)
      invariant forall s :: s in sels <==> exists k :: 0 <= k < i && s in ls[k].streamSelectors
    {
      var r := ls[i];
      ghost var sels0 := sels;
      for j := 0 to |r.streamSelectors|
        invariant LogCollected(sels, labels, values)
        invariant forall s :: s in sels <==> s in sels0 || s in r.streamSelectors[..j]
      {
        labels, values := AddStream(r.streamSelectors[j], labels, values, sels);
        sels := sels + {r.streamSelectors[j]};
      }
    }
  }

  method PlanLog(cfg: Config, x: Inputs) returns (tasks: seq<Request>)
    requires cfg.loki
    ensures Block(cfg, x, tasks, 3, 5)
  {
    tasks := [];
    var labels, values, sels := CollectLog(x.logql);
    LogPlanned(cfg, x, sels, labels, values);
    if |labels| > 0 {
      tasks := [StreamLabels];
    }
    GlobalBlock(cfg, x, StreamLabels, tasks, 3);
    var valueTasks := StreamValueTasks(cfg, x, values);
    JoinBlocks(cfg, x, tasks, valueTasks, 3, 4, 5);
    tasks := tasks + valueTasks;
  }

  method StreamValueTasks(cfg: Config, x: Inputs, values: map<string, set<string>>) returns (tasks: seq<Request>)
    requires NamesArePlanned(cfg, x, values.Keys, StreamTask())
    ensures Block(cfg, x, tasks, 4, 5)
  {
    NameKinds();
    tasks := NamedTasks(cfg, x, values.Keys, StreamTask(), 4);
  }

  lemma {:induction false} LogPlanned(cfg: Config, x: Inputs, sels: set<LabelMatcher>, labels: set<string>,
      values: map<string, set<string>>)
    requires cfg.loki && LogCollected(sels, labels, values) && forall s :: s in sels <==> HasStream(x.logql, s)
    ensures Planned(cfg, x, StreamLabels) <==> |labels| > 0
    ensures forall l :: Planned(cfg, x, StreamValues(l)) <==> l in values
  {
    if |labels| > 0 {
      var l :| l in labels;
    }
    if Planned(cfg, x, StreamLabels) {
      var s :| HasStream(x.logql, s) && StreamLabelled(s);
      assert s.labelName in labels;
    }
  }

  ghost predicate ScopesCollected(attrs: set<TraceQL.Attribute>, scopes: map<string, ()>) {
    forall sc :: sc in scopes <==> exists a :: a in attrs && Candidate(a.scope, sc)
  }

  ghost predicate NamesCollected(ms: set<TraceQL.Matcher>, values: Nested<string>) {
    forall sc, n :: HasPair(values, sc, n) <==>
      exists m :: m in ms && TraceValued(m) && Candidate(m.attribute.scope, sc) && n == m.attribute.name
  }

  ghost predicate TraceCollected(attrs: set<TraceQL.Attribute>, ms: set<TraceQL.Matcher>, scopes: map<string, ()>,
      values: Nested<string>) {
    ScopesCollected(attrs, scopes) && NamesCollected(ms, values)
  }

  function WithName(values: Nested<string>, sc: string, n: string): Nested<string> {
    values[sc := (if sc in values then values[sc] else map[])[n := n]]
  }

  function WithScopes(scopes: map<string, ()>, more: seq<string>): map<string, ()> {
    if more == [] then scopes else WithScopes(scopes, more[..|more| - 1])[more[|more| - 1] := ()]
  }

  function WithNames(values: Nested<string>, more: seq<string>, n: string): Nested<string> {
    if more == [] then values else WithName(WithNames(values, more[..|more| - 1], n), more[|more| - 1], n)
  }

  lemma {:induction false} WithScopesHas(scopes: map<string, ()>, more: seq<string>)
    ensures forall sc :: sc in WithScopes(scopes, more) <==> sc in scopes || sc in more
  {
    if more != [] {
      WithScopesHas(scopes, more[..|more| - 1]);
      assert more == more[..|more| - 1] + [more[|more| - 1]];
    }
  }

  lemma {:induction false} WithNameHas(values: Nested<string>, sc: string, n: string)
    ensures forall a, b :: HasPair(WithName(values, sc, n), a, b) <==> HasPair(values, a, b) || (a == sc && b == n)
  {
  }

  lemma {:induction false} WithNamesHas(values: Nested<string>, more: seq<string>, n: string)
    ensures forall a, b :: HasPair(WithNames(values, more, n), a, b) <==> HasPair(values, a, b) || (a in more && b == n)
  {
    if more != [] {
      WithNamesHas(values, more[..|more| - 1], n);
      WithNameHas(WithNames(values, more[..|more| - 1], n), more[|more| - 1], n);
      assert more == more[..|more| - 1] + [more[|more| - 1]];
    }
  }

  method CollectTrace(ts: seq<TraceResult>)
      returns (scopes: map<string, ()>, values: Nested<string>, ghost attrs: set<TraceQL.Attribute>,
          ghost ms: set<TraceQL.Matcher>)
    ensures TraceCollected(attrs, ms, scopes, values)
    ensures (forall a :: a in attrs <==> HasAttribute(ts, a)) && (forall m :: m in ms <==> HasMatcher(ts, m))
  {
    scopes, values, attrs, ms := map[], map[], {}, {};
    for i := 0 to |ts|
      invariant TraceCollected(attrs, ms, scopes, values)
      invariant forall a :: a in attrs <==> exists k :: 0 <= k < i && a in ts[k].attributes
      invariant forall m :: m in ms <==> exists k :: 0 <= k < i && m in ts[k].matchers
    {
      scopes, attrs := CollectAttributes(ts[i].attributes, scopes, attrs, ms, values);
      values, ms := CollectMatchers(ts[i].matchers, values, attrs, ms, scopes);
    }
  }

  method CollectAttributes(more: seq<TraceQL.Attribute>, scopes0: map<string, ()>, ghost attrs0: set<TraceQL.Attribute>,
                           ghost ms: set<TraceQL.Matcher>, ghost values: Nested<string>)
      returns (scopes: map<string, ()>, ghost attrs: set<TraceQL.Attribute>)
    requires TraceCollected(attrs0, ms, scopes0, values)
    ensures TraceCollected(attrs, ms, scopes, values) && forall a :: a in attrs <==> a in attrs0 || a in more
  {
    scopes, attrs := scopes0, attrs0;
    for j := 0 to |more|
      invariant TraceCollected(attrs, ms, scopes, values) && forall a :: a in attrs <==> a in attrs0 || a in more[..j]
    {
      var a := more[j];
      var ss := TraceScopes(a.scope);
      ghost var before := scopes;
      for k := 0 to |ss|
        invariant scopes == WithScopes(before, ss[..k])
      {
        assert ss[..k + 1][..k] == ss[..k];
        scopes := scopes[ss[k] := ()];
      }
      assert ss[..|ss|] == ss;
      WithScopesHas(before, ss);
      CandidatesAre(a.scope);
      attrs := attrs + {a};
    }
  }

  method CollectMatchers(more: seq<TraceQL.Matcher>, values0: Nested<string>, ghost attrs: set<TraceQL.Attribute>,
                         ghost ms0: set<TraceQL.Matcher>, ghost scopes: map<string, ()>)
      returns (values: Nested<string>, ghost ms: set<TraceQL.Matcher>)
    requires TraceCollected(attrs, ms0, scopes, values0)
    ensures TraceCollected(attrs, ms, scopes, values) && forall m :: m in ms <==> m in ms0 || m in more
  {
    values, ms := values0, ms0;
    for j := 0 to |more|
      invariant TraceCollected(attrs, ms, scopes, values) && forall m :: m in ms <==> m in ms0 || m in more[..j]
    {
      var m := more[j];
      ghost var before, ms1 := values, ms;
      ms := ms + {m};
      if m.value == "" || Contains(m.value, SENTINEL) {
        continue;
      }
      var ss := TraceScopes(m.attribute.scope);
      for k := 0 to |ss|
        invariant values == WithNames(before, ss[..k], m.attribute.name)
      {
        assert ss[..k + 1][..k] == ss[..k];
        values := WithName(values, ss[k], m.attribute.name);
      }
      assert ss[..|ss|] == ss;
      WithNamesHas(before, ss, m.attribute.name);
      CandidatesAre(m.attribute.scope);
    }
  }

  lemma {:induction false} TracePlanned(cfg: Config, x: Inputs, attrs: set<TraceQL.Attribute>, ms: set<TraceQL.Matcher>,
                                        scopes: map<string, ()>, values: Nested<string>)
    requires cfg.tempo && TraceCollected(attrs, ms, scopes, values)
    requires (forall a :: a in attrs <==> HasAttribute(x.traceql, a))
    requires (forall m :: m in ms <==> HasMatcher(x.traceql, m))
    ensures NamesArePlanned(cfg, x, scopes.Keys, NamesRequest()) && PairsArePlanned(cfg, x, values, TraceTask())
  {
    forall sc ensures sc in scopes <==> Planned(cfg, x, TraceNames(sc)) {
      ScopePlanned(cfg, x, attrs, scopes, sc);
    }
    forall sc, n ensures HasPair(values, sc, n) <==> Planned(cfg, x, TraceValues(sc, n)) {
      NamePlanned(cfg, x, ms, values, sc, n);
    }
  }

  lemma {:induction false} ScopePlanned(cfg: Config, x: Inputs, attrs: set<TraceQL.Attribute>,
      scopes: map<string, ()>, sc: string)
    requires cfg.tempo && ScopesCollected(attrs, scopes) && forall a :: a in attrs <==> HasAttribute(x.traceql, a)
    ensures sc in scopes <==> Planned(cfg, x, TraceNames(sc))
  {
  }

  lemma {:induction false} NamePlanned(cfg: Config, x: Inputs, ms: set<TraceQL.Matcher>, values: Nested<string>,
      sc: string, n: string)
    requires cfg.tempo && NamesCollected(ms, values) && forall m :: m in ms <==> HasMatcher(x.traceql, m)
    ensures HasPair(values, sc, n) <==> Planned(cfg, x, TraceValues(sc, n))
  {
  }

  method PlanTrace(cfg: Config, x: Inputs) returns (tasks: seq<Request>)
    requires cfg.tempo
    ensures Block(cfg, x, tasks, 5, 7)
  {
    var scopes, values, attrs, ms := CollectTrace(x.traceql);
    TracePlanned(cfg, x, attrs, ms, scopes, values);
    tasks := TraceNameTasks(cfg, x, scopes);
    var valueTasks := TraceValueTasks(cfg, x, values);
    JoinBlocks(cfg, x, tasks, valueTasks, 5, 6, 7);
    tasks := tasks + valueTasks;
  }

  method TraceNameTasks(cfg: Config, x: Inputs, scopes: map<string, ()>) returns (tasks: seq<Request>)
    requires NamesArePlanned(cfg, x, scopes.Keys, NamesRequest())
    ensures Block(cfg, x, tasks, 5, 6)
  {
    NameKinds();
    tasks := NamedTasks(cfg, x, scopes.Keys, NamesRequest(), 5);
  }

  method TraceValueTasks(cfg: Config, x: Inputs, values: Nested<string>) returns (tasks: seq<Request>)
    requires PairsArePlanned(cfg, x, values, TraceTask())
    ensures Block(cfg, x, tasks, 6, 7)
  {
    PairKinds();
    tasks := NestedTasks(values, TraceTask());
    PairBlock(cfg, x, values, TraceTask(), tasks, 6);
  }

  /** The plan: exactly the planned lists, each once, in a fixed order. */
  method Plan(cfg: Config, x: Inputs) returns (tasks: seq<Request>)
    ensures InOrder(tasks)
    ensures forall r :: r in tasks <==> Planned(cfg, x, r)
  {
    tasks := [];
    if cfg.prom {
      tasks := PlanProm(cfg, x);
    }
    var log: seq<Request> := [];
    if cfg.loki {
      log := PlanLog(cfg, x);
    }
    JoinBlocks(cfg, x, tasks, log, 0, 3, 5);
    tasks := tasks + log;
    var trace: seq<Request> := [];
    if cfg.tempo {
      trace := PlanTrace(cfg, x);
    }
    JoinBlocks(cfg, x, tasks, trace, 0, 5, 7);
    tasks := tasks + trace;
  }

  lemma {:induction false} TaskLessIrreflexive(r: Request)
    ensures !TaskLess(r, r)
  {
    LessIrreflexive(First(r));
    LessIrreflexive(Second(r));
  }

  /** Each task once. */
  lemma {:induction false} PlanDistinct(tasks: seq<Request>, i: nat, j: nat)
    requires InOrder(tasks) && i < j < |tasks|
    ensures tasks[i] != tasks[j]
  {
    TaskLessIrreflexive(tasks[i]);
  }
}
