/** pkg/catalog/checker.go against pkg/catalog/prewarm.go: the plan predicts the
    lists the checks ask for. */
module Coverage {
  import opened Cache
  import opened Checks
  import opened Findings
  import opened Plan

  ghost predicate NamesStream(ls: seq<LogResult>) { exists s :: HasStream(ls, s) && StreamLabelled(s) }

  /** The lists the checks may ask for and the plan leaves out: a global list, for a
      corpus that names nothing in it. */
  ghost predicate LeftOut(x: Inputs, r: Request) {
    (r == MetricNames && !NamesMetric(x.promql)) || (r == StreamLabels && !NamesStream(x.logql))
  }

  ghost predicate Covered(cfg: Config, x: Inputs, r: Request) { Planned(cfg, x, r) || LeftOut(x, r) }

  /** A list asked for in a sequence of runs is asked for in one of them. */
  lemma {:induction false} AskedInOne(rs: seq<Run>, r: Request) returns (i: nat)
    requires r in RunAll(rs).asks
    ensures i < |rs| && r in rs[i].asks
    decreases |rs|
  {
    var before := rs[..|rs| - 1];
    if r in RunAll(before).asks {
      i := AskedInOne(before, r);
    } else {
      i := |rs| - 1;
    }
  }

  lemma {:induction false} SelectorAsks(env: Env, src: Source, expr: string, s: Selector, r: Request)
    requires r in SelectorRun(env.world, src, expr, s).asks
    ensures r == MetricLabels(s.metric) || (r == MetricValues(s.metric, s.labelName) && Valued(s))
    ensures Labelled(s)
  {
  }

  lemma {:induction false} StreamAsks(env: Env, src: Source, expr: string, s: LabelMatcher, r: Request)
    requires r in StreamRun(env.world, src, expr, s).asks
    ensures r == StreamValues(s.labelName) && StreamValued(s)
  {
  }

  lemma {:induction false} ScopeAsks(env: Env, scopes: seq<string>, req: string -> Request, r: Request)
      returns (sc: string)
    requires r in AskingAll(env.world, scopes, req).asks
    ensures sc in scopes && r == req(sc)
  {
    var i := AskedInOne(seq(|scopes|, i requires 0 <= i < |scopes| => Asking(env.world, req(scopes[i]))), r);
    sc := scopes[i];
  }

  lemma {:induction false} SelectorCovered(env: Env, x: Inputs, src: Source, expr: string, s: Selector, r: Request)
    requires HasSelector(x.promql, s) && env.world.cfg.prom && r in SelectorRun(env.world, src, expr, s).asks
    ensures Planned(env.world.cfg, x, r)
  {
    SelectorAsks(env, src, expr, s, r);
  }

  /** Whatever upstream answers, a PromQL check asks only for lists the plan of its
      corpus fetches, or for the global list when no metric is named. */
  lemma {:induction false} PromCovered(env: Env, x: Inputs, k: nat, src: Source, r: Request)
    requires k < |x.promql| && r in PromRun(env.world, x.promql[k], src).asks
    ensures Covered(env.world.cfg, x, r)
  {
    var res := x.promql[k];
    if r != MetricNames {
      var rs := SelectorRuns(env.world, src, res.expr, res.selectors);
      var i := AskedInOne(rs, r);
      SelectorCovered(env, x, src, res.expr, res.selectors[i], r);
    }
  }

  lemma {:induction false} LogCovered(env: Env, x: Inputs, k: nat, src: Source, r: Request)
    requires k < |x.logql| && r in LogRun(env.world, x.logql[k], src).asks
    ensures Covered(env.world.cfg, x, r)
  {
    var res := x.logql[k];
    if r != StreamLabels {
      var rs := StreamRuns(env.world, src, res.expr, res.streamSelectors);
      var i := AskedInOne(rs, r);
      var s := res.streamSelectors[i];
      assert HasStream(x.logql, s);
      StreamAsks(env, src, res.expr, s, r);
    }
  }

  lemma {:induction false} AttributeCovered(env: Env, x: Inputs, k: nat, src: Source, i: nat, r: Request)
    requires env.world.cfg.tempo && k < |x.traceql| && i < |x.traceql[k].attributes|
    requires var res := x.traceql[k];
      r in AttributeRun(env.world, src, res.expr, res.attributes[..i], res.attributes[i]).asks
    ensures Planned(env.world.cfg, x, r)
  {
    var a := x.traceql[k].attributes[i];
    assert HasAttribute(x.traceql, a);
    CandidatesAre(a.scope);
    var sc := ScopeAsks(env, TraceScopes(a.scope), NamesRequest(), r);
  }

  lemma {:induction false} MatcherCovered(env: Env, x: Inputs, k: nat, src: Source, i: nat, r: Request)
    requires env.world.cfg.tempo && k < |x.traceql| && i < |x.traceql[k].matchers|
    requires r in MatcherRun(env.world, src, x.traceql[k].expr, x.traceql[k].attributes, x.traceql[k].matchers[i]).asks
    ensures Planned(env.world.cfg, x, r)
  {
    var m := x.traceql[k].matchers[i];
    assert HasMatcher(x.traceql, m);
    CandidatesAre(m.attribute.scope);
    var sc := ScopeAsks(env, TraceScopes(m.attribute.scope), ValuesRequest(m.attribute.name), r);
  }

  lemma {:induction false} TraceCovered(env: Env, x: Inputs, k: nat, src: Source, r: Request)
    requires k < |x.traceql| && r in TraceRun(env.world, x.traceql[k], src).asks
    ensures Planned(env.world.cfg, x, r)
  {
    var res := x.traceql[k];
    var attrs := AttributeRuns(env.world, src, res.expr, res.attributes);
    if r in RunAll(attrs).asks {
      var i := AskedInOne(attrs, r);
      AttributeCovered(env, x, k, src, i, r);
    } else {
      var i := AskedInOne(MatcherRuns(env.world, src, res.expr, res.attributes, res.matchers), r);
      MatcherCovered(env, x, k, src, i, r);
    }
  }

  ghost predicate PromAllPlanned(env: Env, x: Inputs, src: Source) {
    forall k, r | 0 <= k < |x.promql| && r in PromRun(env.world, x.promql[k], src).asks :: Planned(env.world.cfg, x, r)
  }

  ghost predicate LogAllPlanned(env: Env, x: Inputs, src: Source) {
    forall k, r | 0 <= k < |x.logql| && r in LogRun(env.world, x.logql[k], src).asks :: Planned(env.world.cfg, x, r)
  }

  /** Exactly when the plan fetches every list the PromQL checks ask for. */
  lemma {:induction false} PromPlanCompleteIff(env: Env, x: Inputs, src: Source)
    ensures PromAllPlanned(env, x, src) <==>
            x.promql == [] || !env.world.cfg.prom || env.world.cfg.promSource == "" || NamesMetric(x.promql)
  {
    if x.promql != [] && env.world.cfg.prom && env.world.cfg.promSource != "" {
      assert MetricNames in PromRun(env.world, x.promql[0], src).asks;
      assert Planned(env.world.cfg, x, MetricNames) <==> NamesMetric(x.promql);
      if NamesMetric(x.promql) {
        forall k, r | 0 <= k < |x.promql| && r in PromRun(env.world, x.promql[k], src).asks
          ensures Planned(env.world.cfg, x, r)
        {
          PromCovered(env, x, k, src, r);
          assert !LeftOut(x, r) || r == StreamLabels;
          if r == StreamLabels { NoStreamAsks(env, x.promql[k], src); }
        }
      }
    }
  }

  lemma {:induction false} NoStreamAsks(env: Env, res: PromResult, src: Source)
    ensures StreamLabels !in PromRun(env.world, res, src).asks
  {
    if StreamLabels in PromRun(env.world, res, src).asks {
      var i := AskedInOne(SelectorRuns(env.world, src, res.expr, res.selectors), StreamLabels);
      SelectorAsks(env, src, res.expr, res.selectors[i], StreamLabels);
    }
  }

  lemma {:induction false} NoMetricAsks(env: Env, res: LogResult, src: Source)
    ensures MetricNames !in LogRun(env.world, res, src).asks
  {
    if MetricNames in LogRun(env.world, res, src).asks {
      var i := AskedInOne(StreamRuns(env.world, src, res.expr, res.streamSelectors), MetricNames);
      StreamAsks(env, src, res.expr, res.streamSelectors[i], MetricNames);
    }
  }

  lemma {:induction false} LogPlanCompleteIff(env: Env, x: Inputs, src: Source)
    ensures LogAllPlanned(env, x, src) <==>
            x.logql == [] || !env.world.cfg.loki || env.world.cfg.lokiSource == "" || NamesStream(x.logql)
  {
    if x.logql != [] && env.world.cfg.loki && env.world.cfg.lokiSource != "" {
      assert StreamLabels in LogRun(env.world, x.logql[0], src).asks;
      assert Planned(env.world.cfg, x, StreamLabels) <==> NamesStream(x.logql);
      if NamesStream(x.logql) {
        forall k, r | 0 <= k < |x.logql| && r in LogRun(env.world, x.logql[k], src).asks
          ensures Planned(env.world.cfg, x, r)
        {
          LogCovered(env, x, k, src, r);
          if r == MetricNames { NoMetricAsks(env, x.logql[k], src); }
        }
      }
    }
  }

  /** The gap is real: a check of a query that names no metric asks for the metric
      names, and the plan of that corpus is empty. */
  lemma {:induction false} GlobalListLeftOut(env: Env, src: Source)
    requires env.world.cfg.prom && env.world.cfg.promSource != ""
    ensures var x := Inputs([PromResult("1", [], [])], [], []);
      MetricNames in PromRun(env.world, x.promql[0], src).asks && forall r :: !Planned(env.world.cfg, x, r)
  {
  }
}
