/** internal/runner/runner.go, runCatalog: prewarm, when asked to, then check every
    collected expression. */
module Runner {
  import opened Common
  import opened Order
  import opened Entries
  import opened Findings
  import opened Collect
  import opened Cache
  import opened Checks
  import Checker
  import opened Plan
  import opened Coverage
  import opened PrewarmSteps
  import opened PrewarmEnd
  import opened PrewarmOutcome
  import opened PrewarmWarm
  import Prewarm

  datatype RunError = PrewarmFailed(errs: seq<CatalogError>) | CheckFailed(err: CatalogError)
  datatype Answer = Reported(findings: seq<Finding>) | Stopped(error: RunError)

  // ---------- what a run reports ----------

  function InOrderOf(run: Run): Run { run.(findings := SortedFindings(run.findings)) }

  function PromRuns(w: World, es: seq<Tagged<PromResult>>): (rs: seq<Run>)
    ensures |rs| == |es| && forall i | 0 <= i < |es| :: rs[i] == InOrderOf(PromRun(w, es[i].res, es[i].source))
  {
    seq(|es|, i requires 0 <= i < |es| => InOrderOf(PromRun(w, es[i].res, es[i].source)))
  }

  function LogRuns(w: World, es: seq<Tagged<LogResult>>): (rs: seq<Run>)
    ensures |rs| == |es| && forall i | 0 <= i < |es| :: rs[i] == InOrderOf(LogRun(w, es[i].res, es[i].source))
  {
    seq(|es|, i requires 0 <= i < |es| => InOrderOf(LogRun(w, es[i].res, es[i].source)))
  }

  function TraceRuns(w: World, es: seq<Tagged<TraceResult>>): (rs: seq<Run>)
    ensures |rs| == |es| && forall i | 0 <= i < |es| :: rs[i] == InOrderOf(TraceRun(w, es[i].res, es[i].source))
  {
    seq(|es|, i requires 0 <= i < |es| => InOrderOf(TraceRun(w, es[i].res, es[i].source)))
  }

  function FirstTwo(w: World, x: Corpus): Run { Then(RunAll(PromRuns(w, x.prom)), RunAll(LogRuns(w, x.log))) }

  /** The checks of a corpus, up to the first error. */
  function CorpusRun(w: World, x: Corpus): Run {
    Then(FirstTwo(w, x), RunAll(TraceRuns(w, x.trace)))
  }

  function Results<T>(es: seq<Tagged<T>>): (rs: seq<T>)
    ensures |rs| == |es| && forall i | 0 <= i < |es| :: rs[i] == es[i].res
  {
    seq(|es|, i requires 0 <= i < |es| => es[i].res)
  }

  function InputsOf(x: Corpus): Inputs { Inputs(Results(x.prom), Results(x.log), Results(x.trace)) }

  ghost predicate Answers(w: World, run: Run, answer: Answer) {
    match answer
    case Reported(fs) => run.err.None? && Checker.Like(w, fs, run.findings)
    case Stopped(CheckFailed(e)) => run.err == Some(e)
    case Stopped(PrewarmFailed(_)) => false
  }

  // ---------- what a run asks for ----------

  lemma {:induction false} CorpusCovered(env: Env, x: Corpus, r: Request)
    requires r in CorpusRun(env.world, x).asks
    ensures Covered(env.world.cfg, InputsOf(x), r)
  {
    if r in RunAll(PromRuns(env.world, x.prom)).asks {
      var i := AskedInOne(PromRuns(env.world, x.prom), r);
      PromCovered(env, InputsOf(x), i, x.prom[i].source, r);
    } else if r in RunAll(LogRuns(env.world, x.log)).asks {
      var i := AskedInOne(LogRuns(env.world, x.log), r);
      LogCovered(env, InputsOf(x), i, x.log[i].source, r);
    } else {
      var i := AskedInOne(TraceRuns(env.world, x.trace), r);
      TraceCovered(env, InputsOf(x), i, x.trace[i].source, r);
    }
  }

  /** The checks made since s0 and f0 one after the other. */
  lemma {:induction false} EffectConcat(env: Env, s0: CState, f0: seq<Request>, a: seq<Request>, b: seq<Request>)
    ensures Checker.Effect(env, Cache.After(env, s0, a), f0 + Fetches(env, s0, a), b) ==
      Checker.Effect(env, s0, f0, a + b)
  {
    AfterConcat(env, s0, a, b);
    FetchesConcat(env, s0, a, b);
    Regroup(f0, Fetches(env, s0, a), Fetches(env, Cache.After(env, s0, a), b));
  }

  // ---------- the checks ----------

  /** The first loop over the checks. */
  method CheckProm(c: Checker.Checker, es: seq<Tagged<PromResult>>, ghost s0: CState, ghost f0: seq<Request>,
      ghost asks: seq<Request>)
      returns (out: seq<Finding>, err: Option<CatalogError>)
    requires RealClock(c.env) && c.Since(s0, f0, asks)
    modifies c, c.store.Obj()
    ensures c.Cut(err) || (var run := RunAll(PromRuns(c.env.world, es));
      err == run.err && (err.None? ==> Checker.Like(c.env.world, out, run.findings))
      && c.Since(s0, f0, asks + run.asks))
  {
    out, err := [], None;
    ghost var env, rs := c.env, PromRuns(c.env.world, es);
    assert asks + [] == asks;
    for i := 0 to |es|
      invariant RunAll(rs[..i]).err.None? && err.None?
      invariant Checker.Like(env.world, out, RunAll(rs[..i]).findings)
      invariant c.Since(s0, f0, asks + RunAll(rs[..i]).asks)
    {
      RunAllNext(rs, i, asks);
      EffectConcat(env, s0, f0, asks + RunAll(rs[..i]).asks, rs[i].asks);
      var answer := c.CheckPromQL(es[i].res, es[i].source);
      if answer.Error? {
        err := Some(answer.error);
        return;
      }
      Checker.LikeConcat(env.world, out, RunAll(rs[..i]).findings, answer.value, rs[i].findings);
      out := out + answer.value;
    }
    assert rs[..|es|] == rs;
  }

  /** The second. */
  method CheckLog(c: Checker.Checker, es: seq<Tagged<LogResult>>, ghost s0: CState, ghost f0: seq<Request>,
      ghost asks: seq<Request>)
      returns (out: seq<Finding>, err: Option<CatalogError>)
    requires RealClock(c.env) && c.Since(s0, f0, asks)
    modifies c, c.store.Obj()
    ensures c.Cut(err) || (var run := RunAll(LogRuns(c.env.world, es));
      err == run.err && (err.None? ==> Checker.Like(c.env.world, out, run.findings))
      && c.Since(s0, f0, asks + run.asks))
  {
    out, err := [], None;
    ghost var env, rs := c.env, LogRuns(c.env.world, es);
    assert asks + [] == asks;
    for i := 0 to |es|
      invariant RunAll(rs[..i]).err.None? && err.None?
      invariant Checker.Like(env.world, out, RunAll(rs[..i]).findings)
      invariant c.Since(s0, f0, asks + RunAll(rs[..i]).asks)
    {
      RunAllNext(rs, i, asks);
      EffectConcat(env, s0, f0, asks + RunAll(rs[..i]).asks, rs[i].asks);
      var answer := c.CheckLogQL(es[i].res, es[i].source);
      if answer.Error? {
        err := Some(answer.error);
        return;
      }
      Checker.LikeConcat(env.world, out, RunAll(rs[..i]).findings, answer.value, rs[i].findings);
      out := out + answer.value;
    }
    assert rs[..|es|] == rs;
  }

  /** The third. */
  method CheckTrace(c: Checker.Checker, es: seq<Tagged<TraceResult>>, ghost s0: CState, ghost f0: seq<Request>,
      ghost asks: seq<Request>)
      returns (out: seq<Finding>, err: Option<CatalogError>)
    requires RealClock(c.env) && c.Since(s0, f0, asks)
    modifies c, c.store.Obj()
    ensures c.Cut(err) || (var run := RunAll(TraceRuns(c.env.world, es));
      err == run.err && (err.None? ==> Checker.Like(c.env.world, out, run.findings))
      && c.Since(s0, f0, asks + run.asks))
  {
    out, err := [], None;
    ghost var env, rs := c.env, TraceRuns(c.env.world, es);
    assert asks + [] == asks;
    for i := 0 to |es|
      invariant RunAll(rs[..i]).err.None? && err.None?
      invariant Checker.Like(env.world, out, RunAll(rs[..i]).findings)
      invariant c.Since(s0, f0, asks + RunAll(rs[..i]).asks)
    {
      RunAllNext(rs, i, asks);
      EffectConcat(env, s0, f0, asks + RunAll(rs[..i]).asks, rs[i].asks);
      var answer := c.CheckTraceQL(es[i].res, es[i].source);
      if answer.Error? {
        err := Some(answer.error);
        return;
      }
      Checker.LikeConcat(env.world, out, RunAll(rs[..i]).findings, answer.value, rs[i].findings);
      out := out + answer.value;
    }
    assert rs[..|es|] == rs;
  }

  method CheckFirstTwo(c: Checker.Checker, x: Corpus, ghost s0: CState, ghost f0: seq<Request>)
      returns (out: seq<Finding>, err: Option<CatalogError>)
    requires RealClock(c.env) && c.Since(s0, f0, [])
    modifies c, c.store.Obj()
    ensures c.Cut(err) || (var run := FirstTwo(c.env.world, x);
      err == run.err && (err.None? ==> Checker.Like(c.env.world, out, run.findings)) && c.Since(s0, f0, run.asks))
  {
    ghost var p, l := RunAll(PromRuns(c.env.world, x.prom)), RunAll(LogRuns(c.env.world, x.log));
    assert [] + p.asks == p.asks;
    out, err := CheckProm(c, x.prom, s0, f0, []);
    if err.Some? {
      return;
    }
    var more;
    more, err := CheckLog(c, x.log, s0, f0, p.asks);
    if err.Some? {
      return;
    }
    Checker.LikeConcat(c.env.world, out, p.findings, more, l.findings);
    out := out + more;
  }

  /** The context was cancelled, and an upstream call of the checks cut short by that. */
  ghost predicate CutOff(c: Checker.Checker, answer: Answer)
    reads c, c.store.Obj()
  {
    answer.Stopped? && answer.error.CheckFailed? && c.Cut(Some(answer.error.err))
  }

  method CheckAll(c: Checker.Checker, x: Corpus) returns (answer: Answer)
    requires c.Valid() && RealClock(c.env)
    modifies c, c.store.Obj()
    ensures CutOff(c, answer) || (Answers(c.env.world, CorpusRun(c.env.world, x), answer)
                                  && c.Since(old(c.State()), old(c.fetched), CorpusRun(c.env.world, x).asks))
  {
    ghost var s0, f0, first := c.State(), c.fetched, FirstTwo(c.env.world, x);
    var out, err := CheckFirstTwo(c, x, s0, f0);
    if err.Some? {
      return Stopped(CheckFailed(err.value));
    }
    var more;
    more, err := CheckTrace(c, x.trace, s0, f0, first.asks);
    if err.Some? {
      return Stopped(CheckFailed(err.value));
    }
    Checker.LikeConcat(c.env.world, out, first.findings, more, RunAll(TraceRuns(c.env.world, x.trace)).findings);
    return Reported(out + more);
  }

  // ---------- runs without error ----------

  ghost predicate AllAnswered(w: World) { forall r :: w.upstream(r).Ok? }

  /** No list fails, no source is missing, and no list repeats itself. */
  ghost predicate Clean(w: World) { AllAnswered(w) && SourcesSet(w.cfg) && Checker.NoDuplicatesUpstream(w) }

  lemma {:induction false} RunAllFine(rs: seq<Run>)
    requires forall i | 0 <= i < |rs| :: rs[i].err.None?
    ensures RunAll(rs).err.None?
    decreases |rs|
  {
    if rs != [] { RunAllFine(rs[..|rs| - 1]); }
  }

  lemma {:induction false} AskingFine(w: World, scopes: seq<string>, req: string -> Request)
    requires AllAnswered(w)
    ensures AskingAll(w, scopes, req).err.None?
  {
    RunAllFine(seq(|scopes|, i requires 0 <= i < |scopes| => Asking(w, req(scopes[i]))));
  }

  lemma {:induction false} PromFine(w: World, res: PromResult, src: Source)
    requires AllAnswered(w) && SourcesSet(w.cfg)
    ensures PromRun(w, res, src).err.None?
  {
    RunAllFine(SelectorRuns(w, src, res.expr, res.selectors));
  }

  lemma {:induction false} LogFine(w: World, res: LogResult, src: Source)
    requires AllAnswered(w) && SourcesSet(w.cfg)
    ensures LogRun(w, res, src).err.None?
  {
    RunAllFine(StreamRuns(w, src, res.expr, res.streamSelectors));
  }

  lemma {:induction false} TraceFine(w: World, res: TraceResult, src: Source)
    requires AllAnswered(w) && SourcesSet(w.cfg)
    ensures TraceRun(w, res, src).err.None?
  {
    var attrs, ms := AttributeRuns(w, src, res.expr, res.attributes),
        MatcherRuns(w, src, res.expr, res.attributes, res.matchers);
    forall i | 0 <= i < |attrs| ensures attrs[i].err.None? {
      AskingFine(w, TraceScopes(res.attributes[i].scope), NamesRequest());
    }
    forall i | 0 <= i < |ms| ensures ms[i].err.None? {
      AskingFine(w, TraceScopes(res.matchers[i].attribute.scope), ValuesRequest(res.matchers[i].attribute.name));
    }
    RunAllFine(attrs);
    RunAllFine(ms);
  }

  lemma {:induction false} CorpusFine(w: World, x: Corpus)
    requires AllAnswered(w) && SourcesSet(w.cfg)
    ensures CorpusRun(w, x).err.None?
  {
    forall i | 0 <= i < |x.prom|
        ensures PromRuns(w, x.prom)[i].err.None? { PromFine(w, x.prom[i].res, x.prom[i].source); }
    forall i | 0 <= i < |x.log| ensures LogRuns(w, x.log)[i].err.None? { LogFine(w, x.log[i].res, x.log[i].source); }
    forall i | 0 <= i < |x.trace|
        ensures TraceRuns(w, x.trace)[i].err.None? { TraceFine(w, x.trace[i].res, x.trace[i].source); }
    RunAllFine(PromRuns(w, x.prom));
    RunAllFine(LogRuns(w, x.log));
    RunAllFine(TraceRuns(w, x.trace));
  }

  // ---------- with and without prewarming ----------

  ghost predicate NeverCancelled(cancels: nat -> bool) { forall n :: !cancels(n) }

  /** What a prewarm that came to its end under some schedule did. */
  ghost predicate Prewarmed(j: Job, x: Inputs, s0: CState, fetched: seq<Request>, t: PState) {
    PlanOf(j, x) && exists schedule ::
      Ends(j, Start(j, s0, fetched), schedule) && t == Reached(j, Start(j, s0, fetched), schedule)
  }

  lemma {:induction false} PrewarmFine(j: Job, x: Inputs, s0: CState, fetched: seq<Request>, t: PState)
    requires Faithful(j.env, s0.view) && RealClock(j.env) && AllAnswered(j.env.world) && SourcesSet(j.env.world.cfg)
    requires Prewarmed(j, x, s0, fetched, t)
    ensures t.errs == []
  {
    var schedule :| Ends(j, Start(j, s0, fetched), schedule) && t == Reached(j, Start(j, s0, fetched), schedule);
    forall r | r in j.tasks ensures Obtainable(j.env, r) { assert Planned(j.env.world.cfg, x, r); }
    StartGenuine(j, s0, fetched);
    NoError(j, Start(j, s0, fetched), schedule);
  }

  /** A prewarm that nobody cancels fails if some planned list is hopeless, and only if some
      is at risk; where the schedule cannot matter, exactly then. */
  lemma {:induction false} PrewarmFailsIff(j: Job, x: Inputs, s0: CState, fetched: seq<Request>, t: PState)
    requires Faithful(j.env, s0.view) && RealClock(j.env) && Prewarmed(j, x, s0, fetched, t)
    ensures (SomeHopeless(j, s0) ==> t.errs != []) && (t.errs != [] ==> SomeAtRisk(j, s0))
    ensures Foreseen(j, s0) ==> (t.errs != [] <==> SomeHopeless(j, s0))
  {
    var schedule :| Ends(j, Start(j, s0, fetched), schedule) && t == Reached(j, Start(j, s0, fetched), schedule);
    FailsBetween(j, s0, fetched, schedule);
    if Foreseen(j, s0) { FailsIff(j, s0, fetched, schedule); }
  }

  /** The reading of the clock up to which a prewarm and the checks after it go on. */
  function LastReading(j: Job, s0: CState, x: Corpus): nat { s0.ticks + |j.tasks| + |CorpusRun(j.env.world, x).asks| }

  /** After a calm prewarm the lookups of the checks fetch nothing but the global
      lists that the plan leaves out. */
  lemma {:induction false} PrewarmSpares(j: Job, x: Corpus, s0: CState, fetched: seq<Request>, t: PState)
    requires Faithful(j.env, s0.view) && RealClock(j.env) && Calm(j, s0, LastReading(j, s0, x))
    requires Prewarmed(j, InputsOf(x), s0, fetched, t)
    ensures t.errs == []
    ensures forall q | q in Fetches(j.env, CState(t.view, t.ticks), CorpusRun(j.env.world, x).asks) ::
      LeftOut(InputsOf(x), q)
  {
    var asks := CorpusRun(j.env.world, x).asks;
    var schedule :| Ends(j, Start(j, s0, fetched), schedule) && t == Reached(j, Start(j, s0, fetched), schedule);
    forall q | q in asks ensures Covered(j.env.world.cfg, InputsOf(x), q) { CorpusCovered(j.env, x, q); }
    PrewarmedChecksFetchNothing(j, InputsOf(x), s0, fetched, schedule, asks);
  }

  /** Prewarming changes no finding: without upstream errors, repetitions and
      cancellation the answer is the one the corpus and upstream determine, with it
      or without it, whatever the store, the clock and the schedule. */
  lemma {:induction false} AnswerDetermined(w: World, x: Corpus, answer: Answer)
    requires Clean(w) && Answers(w, CorpusRun(w, x), answer)
    ensures answer == Reported(CorpusRun(w, x).findings)
  {
    CorpusFine(w, x);
    if answer.Reported? { Checker.LikeExact(w, answer.findings, CorpusRun(w, x).findings); }
  }

  method PrewarmPhase(c: Checker.Checker, x: Corpus, parallelism: int, cancels: nat -> bool)
      returns (errs: seq<CatalogError>, ghost j: Job, ghost t: PState)
    requires c.Valid()
    modifies c, c.store.Obj()
    ensures errs == t.errs && Prewarm.Mirrors(c, t) && PlanOf(j, InputsOf(x))
    ensures j == PrewarmJob(c.env, j.tasks, parallelism)
    ensures NeverCancelled(cancels) ==> Prewarmed(j, InputsOf(x), old(c.State()), old(c.fetched), t)
  {
    ghost var s0, fetched := c.State(), c.fetched;
    var tasks;
    ghost var schedule;
    errs, tasks, schedule := Prewarm.Prewarm(c, InputsOf(x), parallelism, cancels);
    j := PrewarmJob(c.env, tasks, parallelism);
    t := Reached(j, Start(j, s0, fetched), schedule);
    if NeverCancelled(cancels) {
      assert Ends(j, Start(j, s0, fetched), schedule);
    }
  }

  function PrewarmJob(env: Env, tasks: seq<Request>, parallelism: int): Job {
    Job(env, tasks, Prewarm.Slots(parallelism))
  }

  predicate FailedPrewarm(answer: Answer) { answer.Stopped? && answer.error.PrewarmFailed? }

  /** What a prewarm of job j that nobody cancels, begun in s0, makes of a run: whether it
      fails, and which lists the checks, begun in mid, still fetch. */
  ghost predicate PrewarmTells(j: Job, x: Corpus, s0: CState, mid: CState, failed: bool) {
    && (SomeHopeless(j, s0) ==> failed) && (failed ==> SomeAtRisk(j, s0))
    && (Foreseen(j, s0) ==> (failed <==> SomeHopeless(j, s0)))
    && (Calm(j, s0, LastReading(j, s0, x)) ==>
      !failed && forall q | q in Fetches(j.env, mid, CorpusRun(j.env.world, x).asks) :: LeftOut(InputsOf(x), q))
  }

  lemma {:induction false} PrewarmTold(j: Job, x: Corpus, s0: CState, fetched: seq<Request>, t: PState)
    requires Faithful(j.env, s0.view) && RealClock(j.env) && Prewarmed(j, InputsOf(x), s0, fetched, t)
    ensures PrewarmTells(j, x, s0, CState(t.view, t.ticks), t.errs != [])
  {
    PrewarmFailsIff(j, InputsOf(x), s0, fetched, t);
    if Calm(j, s0, LastReading(j, s0, x)) { PrewarmSpares(j, x, s0, fetched, t); }
  }

  /** Prewarm, when asked to, and check; the checks run from state mid on, after the
      fetches spent; j is the job of the prewarm. */
  method RunCorpus(c: Checker.Checker, x: Corpus, prewarm: bool, parallelism: int, cancels: nat -> bool)
      returns (answer: Answer, ghost j: Job, ghost mid: CState, ghost spent: seq<Request>)
    requires c.Valid() && RealClock(c.env)
    modifies c, c.store.Obj()
    ensures FailedPrewarm(answer) ==> prewarm
    ensures FailedPrewarm(answer) || CutOff(c, answer)
      || (Answers(c.env.world, CorpusRun(c.env.world, x), answer)
          && c.Since(mid, spent, CorpusRun(c.env.world, x).asks))
    ensures !prewarm ==> mid == old(c.State()) && spent == old(c.fetched)
    ensures Clean(c.env.world) && NeverCancelled(cancels) && c.NeverCut() ==>
      answer == Reported(CorpusRun(c.env.world, x).findings)
    ensures prewarm ==> PlanOf(j, InputsOf(x)) && j == PrewarmJob(c.env, j.tasks, parallelism)
    ensures prewarm && NeverCancelled(cancels) ==> PrewarmTells(j, x, old(c.State()), mid, FailedPrewarm(answer))
  {
    j, mid, spent := PrewarmJob(c.env, [], parallelism), c.State(), c.fetched;
    if prewarm {
      ghost var s0, fetched := mid, spent;
      var errs;
      ghost var t;
      errs, j, t := PrewarmPhase(c, x, parallelism, cancels);
      mid, spent := CState(t.view, t.ticks), t.fetched;
      if NeverCancelled(cancels) {
        PrewarmTold(j, x, s0, fetched, t);
        if Clean(c.env.world) { PrewarmFine(j, InputsOf(x), s0, fetched, t); }
      }
      if errs != [] {
        return Stopped(PrewarmFailed(errs)), j, mid, spent;
      }
    }
    answer := CheckAll(c, x);
    if Clean(c.env.world) && c.NeverCut() {
      AnswerDetermined(c.env.world, x, answer);
    }
  }

  /** Two checkers with one configuration and one upstream, but stores, clocks and
      schedules of their own, one prewarmed and one not, report the same findings. */
  method PrewarmedAndNot(a: Checker.Checker, b: Checker.Checker, x: Corpus, parallelism: int, cancels: nat -> bool)
      returns (plain: Answer, prewarmed: Answer)
    requires a != b && a.store.Obj() != b.store.Obj() && a.Valid() && b.Valid() && RealClock(a.env) && RealClock(b.env)
    requires a.env.world == b.env.world && Clean(a.env.world)
    requires NeverCancelled(cancels) && a.NeverCut() && b.NeverCut()
    modifies a, a.store.Obj(), b, b.store.Obj()
    ensures plain == prewarmed == Reported(CorpusRun(a.env.world, x).findings)
  {
    ghost var j, mid, spent;
    plain, j, mid, spent := RunCorpus(a, x, false, parallelism, cancels);
    prewarmed, j, mid, spent := RunCorpus(b, x, true, parallelism, cancels);
  }

  method RunCatalog(c: Checker.Checker, prom: seq<RuleFile<PromResult>>, log: seq<RuleFile<LogResult>>,
      dashboards: seq<Dashboard>, prewarm: bool, parallelism: int, cancels: nat -> bool)
      returns (answer: Answer, ghost j: Job, ghost mid: CState)
    requires c.Valid() && RealClock(c.env)
    modifies c, c.store.Obj()
    ensures FailedPrewarm(answer) ==> prewarm
    ensures FailedPrewarm(answer) || CutOff(c, answer)
      || Answers(c.env.world, CorpusRun(c.env.world, CorpusOf(prom, log, dashboards)), answer)
    ensures Clean(c.env.world) && NeverCancelled(cancels) && c.NeverCut() ==>
      answer == Reported(CorpusRun(c.env.world, CorpusOf(prom, log, dashboards)).findings)
    ensures prewarm ==>
      PlanOf(j, InputsOf(CorpusOf(prom, log, dashboards))) && j == PrewarmJob(c.env, j.tasks, parallelism)
    ensures prewarm && NeverCancelled(cancels) ==>
      PrewarmTells(j, CorpusOf(prom, log, dashboards), old(c.State()), mid, FailedPrewarm(answer))
  {
    var x := Collect.Collect(prom, log, dashboards);
    ghost var spent;
    answer, j, mid, spent := RunCorpus(c, x, prewarm, parallelism, cancels);
  }

  function OneSelector(sel: Selector, src: Source): Corpus { Corpus([Tagged(PromResult("", [], [sel]), src)], [], []) }

  /** Prewarming can fail a run the checks alone would finish: the plan fetches the
      labels of a metric that the checks, finding the metric unknown, never ask for. */
  lemma {:induction false} PrewarmAloneFails(j: Job, sel: Selector, src: Source, s0: CState, fetched: seq<Request>,
      t: PState)
    requires j.env.world.cfg.prom && j.env.world.cfg.promSource != "" && RealClock(j.env) && Labelled(sel)
    requires j.env.world.upstream(MetricNames) == Ok(Present([]))
    requires j.env.world.upstream(MetricLabels(sel.metric)).Failed?
    requires Faithful(j.env, s0.view) && !Readable(j.env, s0.view, MetricLabels(sel.metric))
    requires Prewarmed(j, InputsOf(OneSelector(sel, src)), s0, fetched, t)
    ensures CorpusRun(j.env.world, OneSelector(sel, src)).err.None? && t.errs != []
  {
    var x := InputsOf(OneSelector(sel, src));
    UnknownMetricFine(j.env.world, sel, src);
    assert x == Inputs([PromResult("", [], [sel])], [], []);
    OnePlanned(j.env.world.cfg, x, sel);
    NeverFound(j, s0, MetricLabels(sel.metric));
    PrewarmFailsIff(j, x, s0, fetched, t);
  }

  lemma {:induction false} NeverFound(j: Job, s0: CState, r: Request)
    requires r in j.tasks && !Obtainable(j.env, r) && !Readable(j.env, s0.view, r)
    ensures SomeHopeless(j, s0)
  {
    var i :| 0 <= i < |j.tasks| && j.tasks[i] == r;
    assert Hopeless(j, s0, i);
  }

  lemma {:induction false} OnePlanned(cfg: Config, x: Inputs, sel: Selector)
    requires x == Inputs([PromResult("", [], [sel])], [], []) && cfg.prom && Labelled(sel)
    ensures Planned(cfg, x, MetricLabels(sel.metric))
  {
    assert sel in x.promql[0].selectors;
  }

  lemma {:induction false} UnknownMetricFine(w: World, sel: Selector, src: Source)
    requires w.cfg.prom && w.cfg.promSource != "" && w.upstream(MetricNames) == Ok(Present([]))
    ensures CorpusRun(w, OneSelector(sel, src)).err.None?
  {
    SortStringsUnique([], []);
    assert ListOf(w, MetricNames) == [];
    RunAllFine(SelectorRuns(w, src, "", [sel]));
    RunAllFine(PromRuns(w, OneSelector(sel, src).prom));
    RunAllFine(LogRuns(w, []));
    RunAllFine(TraceRuns(w, []));
  }
}
