/** internal/runner/runner.go, runCatalog: what a run reports, from the files, the configuration
    and what upstream holds. */
module RunReports {
  import opened Common
  import opened Order
  import opened Findings
  import opened Places
  import opened Collect
  import opened Cache
  import opened Checks
  import opened CheckExact
  import opened Runner

  // ---------- one check after another ----------

  function FindingsOf(): Run -> seq<Finding> { (r: Run) => r.findings }

  lemma {:induction false} RunAllFindings(rs: seq<Run>)
    requires RunAll(rs).err.None?
    ensures RunAll(rs).findings == Flat(rs, FindingsOf()) && forall i | 0 <= i < |rs| :: rs[i].err.None?
    decreases |rs|
  {
    if rs != [] {
      RunAllFindings(Front(rs));
      assert forall i | 0 <= i < |rs| - 1 :: rs[i] == Front(rs)[i];
    }
  }

  /** The first run that fails gives the error. */
  ghost predicate FirstError(rs: seq<Run>, e: CatalogError) {
    exists i :: 0 <= i < |rs| && rs[i].err == Some(e) && forall k | 0 <= k < i :: rs[k].err.None?
  }

  lemma {:induction false} RunAllError(rs: seq<Run>)
    requires RunAll(rs).err.Some?
    ensures FirstError(rs, RunAll(rs).err.value)
    decreases |rs|
  {
    var front, n := Front(rs), |rs| - 1;
    if RunAll(front).err.Some? {
      RunAllError(front);
      var i :| 0 <= i < n && front[i].err == RunAll(front).err && forall k | 0 <= k < i :: front[k].err.None?;
      assert rs[i] == front[i] && forall k | 0 <= k < i :: rs[k] == front[k];
    } else {
      RunAllFindings(front);
      assert forall k | 0 <= k < n :: rs[k] == front[k];
      assert rs[n].err == RunAll(rs).err;
    }
  }

  lemma {:induction false} FlatMapped<A, B, C>(s: seq<A>, f: A -> seq<B>, t: seq<C>, g: C -> seq<B>)
    requires |s| == |t| && forall i | 0 <= i < |s| :: f(s[i]) == g(t[i])
    ensures Flat(s, f) == Flat(t, g)
  {
    if s != [] {
      assert forall i | 0 <= i < |s| - 1 :: Front(s)[i] == s[i] && Front(t)[i] == t[i];
      FlatMapped(Front(s), f, Front(t), g);
    }
  }

  // ---------- what the checks of a corpus report ----------

  function PromFindings(w: World): Tagged<PromResult> -> seq<Finding> {
    (e: Tagged<PromResult>) => SortedFindings(PromRun(w, e.res, e.source).findings)
  }

  function LogFindings(w: World): Tagged<LogResult> -> seq<Finding> {
    (e: Tagged<LogResult>) => SortedFindings(LogRun(w, e.res, e.source).findings)
  }

  function TraceFindings(w: World): Tagged<TraceResult> -> seq<Finding> {
    (e: Tagged<TraceResult>) => SortedFindings(TraceRun(w, e.res, e.source).findings)
  }

  /** Every expression is checked, PromQL, then LogQL, then TraceQL, and what each check
      reports, sorted, is reported. */
  lemma {:induction false} CorpusReports(w: World, x: Corpus)
    requires CorpusRun(w, x).err.None?
    ensures CorpusRun(w, x).findings ==
      Flat(x.prom, PromFindings(w)) + Flat(x.log, LogFindings(w)) + Flat(x.trace, TraceFindings(w))
    ensures forall e | e in x.prom :: PromRun(w, e.res, e.source).err.None?
    ensures forall e | e in x.log :: LogRun(w, e.res, e.source).err.None?
    ensures forall e | e in x.trace :: TraceRun(w, e.res, e.source).err.None?
  {
    var ps, ls, ts := PromRuns(w, x.prom), LogRuns(w, x.log), TraceRuns(w, x.trace);
    RunAllFindings(ps);
    RunAllFindings(ls);
    RunAllFindings(ts);
    FlatMapped(ps, FindingsOf(), x.prom, PromFindings(w));
    FlatMapped(ls, FindingsOf(), x.log, LogFindings(w));
    FlatMapped(ts, FindingsOf(), x.trace, TraceFindings(w));
  }

  ghost predicate AllFine(rs: seq<Run>) { forall i | 0 <= i < |rs| :: rs[i].err.None? }

  /** Or the first check that fails ends the run, with its error. */
  lemma {:induction false} CorpusStops(w: World, x: Corpus, e: CatalogError)
    requires CorpusRun(w, x).err == Some(e)
    ensures var ps, ls, ts := PromRuns(w, x.prom), LogRuns(w, x.log), TraceRuns(w, x.trace);
      || FirstError(ps, e)
      || (AllFine(ps) && FirstError(ls, e))
      || (AllFine(ps) && AllFine(ls) && FirstError(ts, e))
  {
    var ps, ls, ts := PromRuns(w, x.prom), LogRuns(w, x.log), TraceRuns(w, x.trace);
    if RunAll(ps).err.Some? {
      RunAllError(ps);
    } else {
      RunAllFindings(ps);
      if RunAll(ls).err.Some? {
        RunAllError(ls);
      } else {
        RunAllFindings(ls);
        RunAllError(ts);
      }
    }
  }

  // ---------- from the files ----------

  ghost predicate PromFaulty(w: World, e: Tagged<PromResult>, f: Finding) {
    || (exists m :: m in e.res.metricRefs && MetricFault(w, e.source, e.res.expr, m) == Some(f))
    || (exists s :: s in e.res.selectors && SelectorFault(w, e.source, e.res.expr, s) == Some(f))
  }

  ghost predicate LogFaulty(w: World, e: Tagged<LogResult>, f: Finding) {
    exists s :: s in e.res.streamSelectors && StreamFault(w, e.source, e.res.expr, s) == Some(f)
  }

  ghost predicate TraceFaulty(w: World, e: Tagged<TraceResult>, f: Finding) {
    || (exists i :: 0 <= i < |e.res.attributes|
          && AttributeFault(w, e.source, e.res.expr, e.res.attributes, i) == Some(f))
    || (exists m :: m in e.res.matchers && MatcherFault(w, e.source, e.res.expr, e.res.attributes, m) == Some(f))
  }

  lemma {:induction false} InSorted(fs: seq<Finding>, f: Finding)
    ensures f in SortedFindings(fs) <==> f in fs
  {
    FindingWeak();
    StableSortSorts(FindingLess, fs);
    assert f in multiset(SortedFindings(fs)) <==> f in multiset(fs);
  }

  lemma {:induction false} PromFaults(w: World, e: Tagged<PromResult>, f: Finding)
    requires PromRun(w, e.res, e.source).err.None?
    ensures f in PromFindings(w)(e) <==> w.cfg.prom && PromFaulty(w, e, f)
  {
    InSorted(PromRun(w, e.res, e.source).findings, f);
    if w.cfg.prom { PromReported(w, e.res, e.source, f); }
  }

  lemma {:induction false} LogFaults(w: World, e: Tagged<LogResult>, f: Finding)
    requires LogRun(w, e.res, e.source).err.None?
    ensures f in LogFindings(w)(e) <==> w.cfg.loki && LogFaulty(w, e, f)
  {
    InSorted(LogRun(w, e.res, e.source).findings, f);
    if w.cfg.loki { LogReported(w, e.res, e.source, f); }
  }

  lemma {:induction false} TraceFaults(w: World, e: Tagged<TraceResult>, f: Finding)
    requires TraceRun(w, e.res, e.source).err.None?
    ensures f in TraceFindings(w)(e) <==> w.cfg.tempo && TraceFaulty(w, e, f)
  {
    InSorted(TraceRun(w, e.res, e.source).findings, f);
    if w.cfg.tempo { TraceReported(w, e.res, e.source, f); }
  }

  lemma {:induction false} InDocument<T(!new)>(list: seq<T>, at: (Place, T) -> bool, x: T)
    requires InDocumentOrder(list, at)
    ensures x in list <==> exists p :: at(p, x)
  {
    var marks: seq<Mark<T>> :| Unmarked(marks) == list && Enumerates(marks, at);
    if x in list {
      var i :| 0 <= i < |marks| && marks[i].item == x;
      assert Mark(marks[i].place, x) in marks;
    }
    if p :| at(p, x) {
      var i :| 0 <= i < |marks| && marks[i] == Mark(p, x);
      assert list[i] == x;
    }
  }

  /** What is found in some element of a document is found in something that stands in it. */
  lemma {:induction false} FoundInDocument<T(!new)>(list: seq<T>, at: (Place, T) -> bool, found: T -> seq<Finding>,
      f: Finding, faulty: T -> bool)
    requires InDocumentOrder(list, at) && forall x | x in list :: f in found(x) <==> faulty(x)
    ensures f in Flat(list, found) <==> exists p, x :: at(p, x) && faulty(x)
  {
    InFlat(list, found, f);
    if x :| x in list && f in found(x) {
      InDocument(list, at, x);
    }
    if p, x :| at(p, x) && faulty(x) {
      InDocument(list, at, x);
    }
  }

  /** The whole of it: without error, a finding is reported exactly if some expression, of a
      rule without error or of a dashboard, has that fault. */
  lemma {:induction false} ReportedExactly(w: World, prom: seq<RuleFile<PromResult>>, log: seq<RuleFile<LogResult>>,
      dashboards: seq<Dashboard>, f: Finding)
    requires CorpusRun(w, CorpusOf(prom, log, dashboards)).err.None?
    ensures f in CorpusRun(w, CorpusOf(prom, log, dashboards)).findings <==>
      || (w.cfg.prom && exists p, e :: PromAt(prom, dashboards, p, e) && PromFaulty(w, e, f))
      || (w.cfg.loki && exists p, e :: LogAt(log, dashboards, p, e) && LogFaulty(w, e, f))
      || (w.cfg.tempo && exists p, e :: TraceItemAt(dashboards, p, e) && TraceFaulty(w, e, f))
  {
    var x := CorpusOf(prom, log, dashboards);
    CorpusReports(w, x);
    forall e | e in x.prom { PromFaults(w, e, f); }
    forall e | e in x.log { LogFaults(w, e, f); }
    forall e | e in x.trace { TraceFaults(w, e, f); }
    PromPart(w, prom, log, dashboards, f);
    LogPart(w, prom, log, dashboards, f);
    TracePart(w, prom, log, dashboards, f);
  }

  ghost predicate PromFound(w: World, es: seq<Tagged<PromResult>>, f: Finding) {
    forall e | e in es :: f in PromFindings(w)(e) <==> w.cfg.prom && PromFaulty(w, e, f)
  }

  lemma {:induction false} PromPart(w: World, prom: seq<RuleFile<PromResult>>, log: seq<RuleFile<LogResult>>,
      dashboards: seq<Dashboard>, f: Finding)
    requires PromFound(w, CorpusOf(prom, log, dashboards).prom, f)
    ensures f in Flat(CorpusOf(prom, log, dashboards).prom, PromFindings(w)) <==>
      w.cfg.prom && exists p, e :: PromAt(prom, dashboards, p, e) && PromFaulty(w, e, f)
  {
    var at, faulty := (p, e) => PromAt(prom, dashboards, p, e), e => w.cfg.prom && PromFaulty(w, e, f);
    PromCollected(prom, log, dashboards);
    FoundInDocument(CorpusOf(prom, log, dashboards).prom, at, PromFindings(w), f, faulty);
    if w.cfg.prom {
      if p, e :| PromAt(prom, dashboards, p, e) && PromFaulty(w, e, f) { assert at(p, e) && faulty(e); }
      if p, e :| at(p, e) && faulty(e) { assert PromAt(prom, dashboards, p, e) && PromFaulty(w, e, f); }
    }
  }

  ghost predicate LogFound(w: World, es: seq<Tagged<LogResult>>, f: Finding) {
    forall e | e in es :: f in LogFindings(w)(e) <==> w.cfg.loki && LogFaulty(w, e, f)
  }

  lemma {:induction false} LogPart(w: World, prom: seq<RuleFile<PromResult>>, log: seq<RuleFile<LogResult>>,
      dashboards: seq<Dashboard>, f: Finding)
    requires LogFound(w, CorpusOf(prom, log, dashboards).log, f)
    ensures f in Flat(CorpusOf(prom, log, dashboards).log, LogFindings(w)) <==>
      w.cfg.loki && exists p, e :: LogAt(log, dashboards, p, e) && LogFaulty(w, e, f)
  {
    var at, faulty := (p, e) => LogAt(log, dashboards, p, e), e => w.cfg.loki && LogFaulty(w, e, f);
    LogCollected(prom, log, dashboards);
    FoundInDocument(CorpusOf(prom, log, dashboards).log, at, LogFindings(w), f, faulty);
    if w.cfg.loki {
      if p, e :| LogAt(log, dashboards, p, e) && LogFaulty(w, e, f) { assert at(p, e) && faulty(e); }
      if p, e :| at(p, e) && faulty(e) { assert LogAt(log, dashboards, p, e) && LogFaulty(w, e, f); }
    }
  }

  ghost predicate TraceFound(w: World, es: seq<Tagged<TraceResult>>, f: Finding) {
    forall e | e in es :: f in TraceFindings(w)(e) <==> w.cfg.tempo && TraceFaulty(w, e, f)
  }

  lemma {:induction false} TracePart(w: World, prom: seq<RuleFile<PromResult>>, log: seq<RuleFile<LogResult>>,
      dashboards: seq<Dashboard>, f: Finding)
    requires TraceFound(w, CorpusOf(prom, log, dashboards).trace, f)
    ensures f in Flat(CorpusOf(prom, log, dashboards).trace, TraceFindings(w)) <==>
      w.cfg.tempo && exists p, e :: TraceItemAt(dashboards, p, e) && TraceFaulty(w, e, f)
  {
    var at, faulty := (p, e) => TraceItemAt(dashboards, p, e), e => w.cfg.tempo && TraceFaulty(w, e, f);
    TraceCollected(prom, log, dashboards);
    FoundInDocument(CorpusOf(prom, log, dashboards).trace, at, TraceFindings(w), f, faulty);
    if w.cfg.tempo {
      if p, e :| TraceItemAt(dashboards, p, e) && TraceFaulty(w, e, f) { assert at(p, e) && faulty(e); }
      if p, e :| at(p, e) && faulty(e) { assert TraceItemAt(dashboards, p, e) && TraceFaulty(w, e, f); }
    }
  }
}
