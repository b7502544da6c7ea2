/** pkg/catalog/prewarm.go: what a complete prewarm spares the checks. */
module PrewarmWarm {
  import opened Entries
  import opened Cache
  import opened Plan
  import opened Coverage
  import opened PrewarmSteps
  import opened PrewarmTurns
  import opened PrewarmFates
  import opened PrewarmOutcome

  // ---------- warm lists ----------

  /** Between the readings from and until, nothing fetched at one of them expires by another. */
  ghost predicate WithinTtl(env: Env, from: nat, until: nat) {
    var ttl := TtlSeconds(Ttl(env.world.cfg));
    forall m: nat, n: nat | from <= m < until && from <= n < until ::
      ttl > 0 ==> env.clock(n) - env.clock(m) <= Lifetime(ttl)
  }

  /** For a clock that never goes back, that is a matter of the first and the last of them. */
  lemma {:induction false} WithinTtlIff(env: Env, from: nat, until: nat)
    requires from < until && forall m: nat, n: nat :: m <= n ==> env.clock(m) <= env.clock(n)
    ensures var ttl := TtlSeconds(Ttl(env.world.cfg));
      WithinTtl(env, from, until) <==> (ttl > 0 ==> env.clock(until - 1) - env.clock(from) <= Lifetime(ttl))
  {
    var ttl := TtlSeconds(Ttl(env.world.cfg));
    if ttl > 0 && env.clock(until - 1) - env.clock(from) <= Lifetime(ttl) {
      forall m: nat, n: nat | from <= m < until && from <= n < until
        ensures env.clock(n) - env.clock(m) <= Lifetime(ttl)
      {
        assert env.clock(n) <= env.clock(until - 1) && env.clock(from) <= env.clock(m);
      }
    }
  }

  /** The cache answers the request at each of those readings. */
  ghost predicate Warm(env: Env, view: map<string, Entry>, r: Request, from: nat, until: nat) {
    forall n: nat | from <= n < until :: Cached(env, view, r, env.clock(n)).Present?
  }

  /** Up to reading until nothing fetched expires; no planned request collides with another
      that upstream answers; and each planned list is in the store all the time, or is found
      in no turn of its task and is there to be had and kept. */
  ghost predicate Calm(j: Job, s0: CState, until: nat) {
    && WithinTtl(j.env, s0.ticks, until)
    && forall i | 0 <= i < |j.tasks| ::
         Own(j, i) && (Warm(j.env, s0.view, j.tasks[i], s0.ticks, until) || Missing(j, s0, i))
  }

  ghost predicate Missing(j: Job, s0: CState, i: nat)
    requires i < |j.tasks|
  {
    !MayFind(j, s0, i) && Retained(j.env, j.tasks[i]) && SourceOf(j.env.world.cfg, j.tasks[i]) != ""
  }

  lemma {:induction false} WarmFrame(env: Env, a: map<string, Entry>, b: map<string, Entry>, r: Request, from: nat,
      until: nat)
    requires Warm(env, a, r, from, until) && SameAt(a, b, Key(env.world.cfg, r))
    ensures Warm(env, b, r, from, until)
  {
    forall n: nat | from <= n < until ensures Cached(env, b, r, env.clock(n)).Present? {
      CachedSame(env, a, b, r, env.clock(n));
    }
  }

  lemma {:induction false} NotMissed(j: Job, s0: CState, i: nat, until: nat)
    requires i < |j.tasks| && Warm(j.env, s0.view, j.tasks[i], s0.ticks, until) && until >= s0.ticks + |j.tasks|
    ensures !MayMiss(j, s0, i)
  {
    forall n: nat | TurnOf(j, i, n) ensures FindsAt(j, s0, i, n) {
      assert Cached(j.env, s0.view, j.tasks[i], j.env.clock(s0.ticks + n)).Present?;
    }
  }

  lemma {:induction false} StoredIsWarm(j: Job, s0: CState, view: map<string, Entry>, i: nat, until: nat)
    requires i < |j.tasks| && StoredIn(j, s0, view, i) && Retained(j.env, j.tasks[i])
    requires until >= s0.ticks + |j.tasks| && WithinTtl(j.env, s0.ticks, until)
    ensures Warm(j.env, view, j.tasks[i], s0.ticks, until)
  {
    var m: nat :| TurnOf(j, i, m) && view[KeyAt(j, i)] == Fresh(j.env, j.tasks[i], ReadingAt(j, s0, m));
    RetainedReads(j.env, j.tasks[i], ReadingAt(j, s0, m));
    forall n: nat | s0.ticks <= n < until ensures !Expired(view[KeyAt(j, i)], j.env.clock(n)) {
      assert s0.ticks <= s0.ticks + m < until;
    }
  }

  /** What is warm or missing before a calm prewarm is warm after it. */
  lemma {:induction false} TaskWarm(j: Job, s0: CState, view: map<string, Entry>, i: nat, until: nat)
    requires EndsAs(j, s0, view) && Calm(j, s0, until) && until >= s0.ticks + |j.tasks| && i < |j.tasks|
    ensures Warm(j.env, view, j.tasks[i], s0.ticks, until)
  {
    assert Own(j, i) && Decided(j, s0, view, i);
    if Missing(j, s0, i) {
      StoredIsWarm(j, s0, view, i, until);
    } else {
      NotMissed(j, s0, i, until);
      WarmFrame(j.env, s0.view, view, j.tasks[i], s0.ticks, until);
    }
  }

  // ---------- the lookups that follow ----------

  ghost predicate AllWarm(env: Env, tasks: seq<Request>, view: map<string, Entry>, from: nat, until: nat) {
    forall r | r in tasks :: Warm(env, view, r, from, until)
  }

  predicate Global(r: Request) { r.MetricNames? || r.StreamLabels? }

  lemma {:induction false} GlobalKey(cfg: Config, q: Request, r: Request)
    requires Global(q) && r != q
    ensures Key(cfg, r) != Key(cfg, q)
  {
    KeysCollide(cfg, r, q);
  }

  /** A lookup of a warm list goes nowhere; of a global list, to a key of its own. */
  lemma {:induction false} LookupKeepsWarm(env: Env, tasks: seq<Request>, s: CState, q: Request, from: nat, until: nat)
    requires AllWarm(env, tasks, s.view, from, until) && from <= s.ticks < until && (q in tasks || Global(q))
    ensures AllWarm(env, tasks, Lookup(env, s, q).1.view, from, until)
    ensures q in tasks ==> !Misses(env, s, q)
  {
    if q in tasks {
      assert Warm(env, s.view, q, from, until);
    } else {
      var view := Lookup(env, s, q).1.view;
      forall r | r in tasks ensures Warm(env, view, r, from, until) {
        GlobalKey(env.world.cfg, q, r);
        LookupView(env, s, q, Key(env.world.cfg, r));
        WarmFrame(env, s.view, view, r, from, until);
      }
    }
  }

  lemma {:induction false} WarmFetches(env: Env, tasks: seq<Request>, s: CState, asks: seq<Request>, from: nat,
      until: nat)
    requires AllWarm(env, tasks, s.view, from, until) && from <= s.ticks && s.ticks + |asks| <= until
    requires forall q | q in asks :: q in tasks || Global(q)
    ensures AllWarm(env, tasks, After(env, s, asks).view, from, until) && After(env, s, asks).ticks == s.ticks + |asks|
    ensures forall q | q in Fetches(env, s, asks) :: q in asks && q !in tasks
    decreases |asks|
  {
    if asks != [] {
      var before, q := asks[..|asks| - 1], asks[|asks| - 1];
      assert asks == before + [q];
      WarmFetches(env, tasks, s, before, from, until);
      LookupKeepsWarm(env, tasks, After(env, s, before), q, from, until);
    }
  }

  lemma {:induction false} SomeMember(rs: seq<Request>) returns (r: Request)
    requires rs != []
    ensures r in rs
  {
    r := rs[0];
  }

  /** The tasks of a prewarm are the plan of its inputs. */
  ghost predicate PlanOf(j: Job, x: Inputs) {
    InOrder(j.tasks) && forall r :: r in j.tasks <==> Planned(j.env.world.cfg, x, r)
  }

  /** A prewarm that stays calm until the lookups of the checks are made returns nil, and the
      lookups fetch nothing but the global lists the plan leaves out. */
  lemma {:induction false} PrewarmedChecksFetchNothing(
      j: Job, x: Inputs, s0: CState, fetched: seq<Request>, schedule: seq<Action>, asks: seq<Request>)
    requires PlanOf(j, x) && Faithful(j.env, s0.view) && RealClock(j.env) && Ends(j, Start(j, s0, fetched), schedule)
    requires Calm(j, s0, s0.ticks + |j.tasks| + |asks|)
    requires forall q | q in asks :: Covered(j.env.world.cfg, x, q)
    ensures var t := Reached(j, Start(j, s0, fetched), schedule);
      var fetches := Fetches(j.env, CState(t.view, t.ticks), asks);
      && t.errs == [] && (forall q | q in fetches :: LeftOut(x, q))
      && (NamesMetric(x.promql) && NamesStream(x.logql) ==> fetches == [])
  {
    var t, until := Reached(j, Start(j, s0, fetched), schedule), s0.ticks + |j.tasks| + |asks|;
    EveryScheduleEndsAs(j, s0, fetched, schedule);
    CalmIsNil(j, s0, fetched, schedule, until);
    forall r | r in j.tasks ensures Warm(j.env, t.view, r, s0.ticks, until) {
      var i :| 0 <= i < |j.tasks| && j.tasks[i] == r;
      TaskWarm(j, s0, t.view, i, until);
    }
    forall q | q in asks ensures q in j.tasks || Global(q) { assert Covered(j.env.world.cfg, x, q); }
    WarmFetches(j.env, j.tasks, CState(t.view, t.ticks), asks, s0.ticks, until);
    FetchesLeftOut(j, x, asks, Fetches(j.env, CState(t.view, t.ticks), asks));
  }

  lemma {:induction false} FetchesLeftOut(j: Job, x: Inputs, asks: seq<Request>, fetches: seq<Request>)
    requires PlanOf(j, x) && (forall q | q in asks :: Covered(j.env.world.cfg, x, q))
    requires forall q | q in fetches :: q in asks && q !in j.tasks
    ensures forall q | q in fetches :: LeftOut(x, q)
    ensures NamesMetric(x.promql) && NamesStream(x.logql) ==> fetches == []
  {
    forall q | q in fetches ensures LeftOut(x, q) { assert Covered(j.env.world.cfg, x, q); }
    if NamesMetric(x.promql) && NamesStream(x.logql) && fetches != [] {
      var q := SomeMember(fetches);
    }
  }

  lemma {:induction false} CalmIsNil(j: Job, s0: CState, fetched: seq<Request>, schedule: seq<Action>, until: nat)
    requires Faithful(j.env, s0.view) && RealClock(j.env) && Ends(j, Start(j, s0, fetched), schedule)
    requires Calm(j, s0, until) && until >= s0.ticks + |j.tasks|
    ensures Reached(j, Start(j, s0, fetched), schedule).errs == []
  {
    FailsBetween(j, s0, fetched, schedule);
    forall i | 0 <= i < |j.tasks| ensures !AtRisk(j, s0, i) {
      if !Missing(j, s0, i) { NotMissed(j, s0, i, until); }
    }
  }
}
