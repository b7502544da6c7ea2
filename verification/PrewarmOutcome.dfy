/** pkg/catalog/prewarm.go, Prewarm: what an uncancelled run has done when it is over. */
module PrewarmOutcome {
  import opened Entries
  import opened Cache
  import opened PrewarmSteps
  import opened PrewarmTurns
  import opened PrewarmEnd
  import opened PrewarmFates

  /** An uncancelled schedule that runs to its end. */
  ghost predicate Ends(j: Job, s: PState, schedule: seq<Action>)
    requires |s.phases| == |j.tasks|
  {
    Cancel !in schedule && Finished(Reached(j, s, schedule))
  }

  // ---------- the store ----------

  ghost predicate NoTaskStores(j: Job, key: string) {
    forall i | 0 <= i < |j.tasks| && Obtainable(j.env, j.tasks[i]) :: KeyAt(j, i) != key
  }

  /** Under the key of task i is what was there, and it could be found, or what the task
      fetched, and it could be missed; or what was there, for a list upstream refuses. */
  ghost predicate Decided(j: Job, s0: CState, view: map<string, Entry>, i: nat)
    requires i < |j.tasks|
  {
    || (SameAt(s0.view, view, KeyAt(j, i)) && (Obtainable(j.env, j.tasks[i]) ==> MayFind(j, s0, i)))
    || (StoredIn(j, s0, view, i) && MayMiss(j, s0, i))
  }

  ghost predicate EndsAs(j: Job, s0: CState, view: map<string, Entry>) {
    && (forall key :: NoTaskStores(j, key) ==> SameAt(s0.view, view, key))
    && (forall i | 0 <= i < |j.tasks| && Own(j, i) :: Decided(j, s0, view, i))
  }

  lemma {:induction false} AllRead(ps: seq<Phase>)
    requires forall i | 0 <= i < |ps| :: ps[i].Over?
    ensures Total(OneIfRead(), ps) == |ps|
  {
    if ps != [] { AllRead(ps[..|ps| - 1]); }
  }

  lemma {:induction false} FinishedOver(j: Job, s0: CState, t: PState)
    requires Runs(j, s0, t) && Finished(t)
    ensures forall i | 0 <= i < |j.tasks| :: t.phases[i].Over? && Ended(j, s0, t.view, i, t.phases[i].ok)
    ensures t.ticks == s0.ticks + |j.tasks|
  {
    TotalZero(OneIfBusy(), t.phases);
    forall i | 0 <= i < |j.tasks| ensures t.phases[i].Over? && Ended(j, s0, t.view, i, t.phases[i].ok) {
      assert OneIfBusy()(t.phases[i]) == 0 && TaskAt(j, s0, t.view, i, t.phases[i]);
    }
    AllRead(t.phases);
  }

  lemma {:induction false} FinishedEndsAs(j: Job, s0: CState, t: PState)
    requires Runs(j, s0, t) && Finished(t)
    ensures EndsAs(j, s0, t.view)
  {
    FinishedOver(j, s0, t);
    forall key | NoTaskStores(j, key) ensures SameAt(s0.view, t.view, key) {
      assert SameAt(s0.view, t.view, key) || StoredBySome(j, s0, t.view, t.phases, key);
    }
    forall i | 0 <= i < |j.tasks| && Own(j, i) ensures Decided(j, s0, t.view, i) {
      assert Ended(j, s0, t.view, i, t.phases[i].ok);
    }
  }

  /** Whatever the schedule and the store it begins with, an uncancelled prewarm reads the
      clock once per task, leaves alone every key that no task stores under, and decides
      every key that is one task's own. */
  lemma {:induction false} EveryScheduleEndsAs(j: Job, s0: CState, fetched: seq<Request>, schedule: seq<Action>)
    requires Faithful(j.env, s0.view) && RealClock(j.env) && Ends(j, Start(j, s0, fetched), schedule)
    ensures var t := Reached(j, Start(j, s0, fetched), schedule);
      EndsAs(j, s0, t.view) && t.ticks == s0.ticks + |j.tasks|
  {
    StartRuns(j, s0, fetched);
    RunsAlways(j, s0, Start(j, s0, fetched), schedule);
    FinishedOver(j, s0, Reached(j, Start(j, s0, fetched), schedule));
    FinishedEndsAs(j, s0, Reached(j, Start(j, s0, fetched), schedule));
  }

  // ---------- the error ----------

  /** Upstream refuses the list, and the store has it in no turn of the task. */
  ghost predicate Hopeless(j: Job, s0: CState, i: nat)
    requires i < |j.tasks|
  {
    !Obtainable(j.env, j.tasks[i]) && !MayFind(j, s0, i)
  }

  /** Upstream refuses the list, and in some turn the store does not have it, or another
      task may take its place there. */
  ghost predicate AtRisk(j: Job, s0: CState, i: nat)
    requires i < |j.tasks|
  {
    !Obtainable(j.env, j.tasks[i]) && (Own(j, i) ==> MayMiss(j, s0, i))
  }

  ghost predicate SomeHopeless(j: Job, s0: CState) { exists i :: 0 <= i < |j.tasks| && Hopeless(j, s0, i) }

  ghost predicate SomeAtRisk(j: Job, s0: CState) { exists i :: 0 <= i < |j.tasks| && AtRisk(j, s0, i) }

  /** A prewarm that nobody cancels fails, under every schedule, if some planned list is
      hopeless, and only if some is at risk. */
  lemma {:induction false} FailsBetween(j: Job, s0: CState, fetched: seq<Request>, schedule: seq<Action>)
    requires Faithful(j.env, s0.view) && RealClock(j.env) && Ends(j, Start(j, s0, fetched), schedule)
    ensures var errs := Reached(j, Start(j, s0, fetched), schedule).errs;
      (SomeHopeless(j, s0) ==> errs != []) && (errs != [] ==> SomeAtRisk(j, s0))
  {
    var s := Start(j, s0, fetched);
    var t := Reached(j, s, schedule);
    StartRuns(j, s0, fetched);
    RunsAlways(j, s0, s, schedule);
    FinishedOver(j, s0, t);
    NilMeansCompleted(j, s, schedule);
    if SomeHopeless(j, s0) {
      var i :| 0 <= i < |j.tasks| && Hopeless(j, s0, i);
      assert Ended(j, s0, t.view, i, t.phases[i].ok);
      assert t.phases[i] != Over(true);
    }
    if t.errs != [] {
      var i :| 0 <= i < |t.phases| && t.phases[i] != Over(true);
      assert Ended(j, s0, t.view, i, t.phases[i].ok);
      assert AtRisk(j, s0, i);
    }
  }

  /** Every list that upstream refuses has a key of its own, and is found in every turn of
      its task or in none. */
  ghost predicate Foreseen(j: Job, s0: CState) {
    forall i | 0 <= i < |j.tasks| && !Obtainable(j.env, j.tasks[i]) ::
      Own(j, i) && !(MayFind(j, s0, i) && MayMiss(j, s0, i))
  }

  /** If so, the schedule does not matter to the error. */
  lemma {:induction false} FailsIff(j: Job, s0: CState, fetched: seq<Request>, schedule: seq<Action>)
    requires Faithful(j.env, s0.view) && RealClock(j.env) && Ends(j, Start(j, s0, fetched), schedule) && Foreseen(j, s0)
    ensures Reached(j, Start(j, s0, fetched), schedule).errs != [] <==> SomeHopeless(j, s0)
  {
    FailsBetween(j, s0, fetched, schedule);
    if SomeAtRisk(j, s0) {
      var i :| 0 <= i < |j.tasks| && AtRisk(j, s0, i);
      assert Hopeless(j, s0, i);
    }
  }

  // ---------- the same as one lookup after the other ----------

  function Timeless(e: Entry): Entry { e.(fetchedAt := 0) }

  ghost predicate SameButTimes(a: map<string, Entry>, b: map<string, Entry>) {
    a.Keys == b.Keys && forall key | key in a :: Timeless(a[key]) == Timeless(b[key])
  }

  /** Whether task i finds its list or fetches it, what is in the store then is the same, up
      to the time of the fetch. */
  ghost predicate Indifferent(j: Job, s0: CState, i: nat)
    requires i < |j.tasks|
  {
    Obtainable(j.env, j.tasks[i]) && MayFind(j, s0, i) && MayMiss(j, s0, i) ==>
      KeyAt(j, i) in s0.view && Timeless(s0.view[KeyAt(j, i)]) == Timeless(Fresh(j.env, j.tasks[i], 0))
  }

  ghost predicate AllIndifferent(j: Job, s0: CState) { forall i | 0 <= i < |j.tasks| :: Indifferent(j, s0, i) }

  /** No two tasks store under one key. */
  ghost predicate Uncontested(j: Job) { forall i | 0 <= i < |j.tasks| && Obtainable(j.env, j.tasks[i]) :: Own(j, i) }

  lemma {:induction false} StoredTimeless(j: Job, s0: CState, view: map<string, Entry>, i: nat)
    requires i < |j.tasks| && StoredIn(j, s0, view, i)
    ensures Timeless(view[KeyAt(j, i)]) == Timeless(Fresh(j.env, j.tasks[i], 0))
  {
  }

  lemma {:induction false} DecidedSame(j: Job, s0: CState, a: map<string, Entry>, b: map<string, Entry>, i: nat)
    requires i < |j.tasks| && Obtainable(j.env, j.tasks[i]) && Indifferent(j, s0, i)
    requires Decided(j, s0, a, i) && Decided(j, s0, b, i)
    ensures var key := KeyAt(j, i); (key in a <==> key in b) && (key in a ==> Timeless(a[key]) == Timeless(b[key]))
  {
    if StoredIn(j, s0, a, i) { StoredTimeless(j, s0, a, i); }
    if StoredIn(j, s0, b, i) { StoredTimeless(j, s0, b, i); }
  }

  lemma {:induction false} EndsAsSame(j: Job, s0: CState, a: map<string, Entry>, b: map<string, Entry>)
    requires EndsAs(j, s0, a) && EndsAs(j, s0, b) && Uncontested(j) && AllIndifferent(j, s0)
    ensures SameButTimes(a, b)
  {
    forall key ensures (key in a <==> key in b) && (key in a ==> Timeless(a[key]) == Timeless(b[key])) {
      if NoTaskStores(j, key) {
        assert SameAt(s0.view, a, key) && SameAt(s0.view, b, key);
      } else {
        var i :| 0 <= i < |j.tasks| && Obtainable(j.env, j.tasks[i]) && KeyAt(j, i) == key;
        DecidedSame(j, s0, a, b, i);
      }
    }
  }

  /** The store after the first k of the lookups. */
  ghost predicate DecidedUpTo(j: Job, s0: CState, view: map<string, Entry>, k: nat)
    requires k <= |j.tasks|
  {
    && (forall key :: NoTaskStores(j, key) ==> SameAt(s0.view, view, key))
    && (forall i | 0 <= i < k && Own(j, i) :: Decided(j, s0, view, i))
    && (forall i | k <= i < |j.tasks| && Own(j, i) :: SameAt(s0.view, view, KeyAt(j, i)))
  }

  lemma {:induction false} LookupView(env: Env, s: CState, r: Request, key: string)
    requires Obtainable(env, r) ==> key != Key(env.world.cfg, r)
    ensures SameAt(s.view, Lookup(env, s, r).1.view, key)
  {
    if env.world.upstream(r).Ok? { NewEntryValid(env, r, env.clock(s.ticks), env.world.upstream(r).list); }
  }

  lemma {:induction false} LookupDecides(j: Job, s0: CState, s: CState, k: nat)
    requires k < |j.tasks| && RealClock(j.env) && j.slots > 0 && s.ticks == s0.ticks + k
    requires SameAt(s0.view, s.view, KeyAt(j, k))
    ensures Decided(j, s0, Lookup(j.env, s, j.tasks[k]).1.view, k)
  {
    var r, now := j.tasks[k], j.env.clock(s.ticks);
    assert TurnOf(j, k, k) && now == ReadingAt(j, s0, k);
    FoundOrMissed(j, s0, k, now);
    CachedSame(j.env, s0.view, s.view, r, now);
    if j.env.world.upstream(r).Ok? { NewEntryValid(j.env, r, now, j.env.world.upstream(r).list); }
  }

  lemma {:induction false} DecidedFrame(j: Job, s0: CState, a: map<string, Entry>, b: map<string, Entry>, i: nat)
    requires i < |j.tasks| && Decided(j, s0, a, i) && SameAt(a, b, KeyAt(j, i))
    ensures Decided(j, s0, b, i)
  {
  }

  lemma {:induction false} LookupUpTo(j: Job, s0: CState, s: CState, k: nat)
    requires k < |j.tasks| && DecidedUpTo(j, s0, s.view, k) && RealClock(j.env) && j.slots > 0
    requires s.ticks == s0.ticks + k
    ensures DecidedUpTo(j, s0, Lookup(j.env, s, j.tasks[k]).1.view, k + 1)
  {
    var view := Lookup(j.env, s, j.tasks[k]).1.view;
    forall key | NoTaskStores(j, key) ensures SameAt(s0.view, view, key) {
      LookupView(j.env, s, j.tasks[k], key);
      assert SameAt(s0.view, s.view, key);
    }
    forall i | 0 <= i < |j.tasks| && i != k && Own(j, i) ensures SameAt(s.view, view, KeyAt(j, i)) {
      LookupView(j.env, s, j.tasks[k], KeyAt(j, i));
    }
    if Own(j, k) { LookupDecides(j, s0, s, k); }
    forall i | 0 <= i < k && Own(j, i) ensures Decided(j, s0, view, i) { DecidedFrame(j, s0, s.view, view, i); }
  }

  lemma {:induction false} SequentialUpTo(j: Job, s0: CState, k: nat)
    requires k <= |j.tasks| && RealClock(j.env) && j.slots > 0
    ensures var s := After(j.env, s0, j.tasks[..k]); DecidedUpTo(j, s0, s.view, k) && s.ticks == s0.ticks + k
  {
    if k > 0 {
      SequentialUpTo(j, s0, k - 1);
      AfterPrefix(j.env, s0, j.tasks, k - 1);
      LookupUpTo(j, s0, After(j.env, s0, j.tasks[..k - 1]), k - 1);
    }
  }

  /** The concurrent prewarm refines the sequential one: whatever the schedule, it leaves
      the store that looking the lists up one by one would, up to the times of the fetches. */
  lemma {:induction false} PrewarmIsSequential(j: Job, s0: CState, fetched: seq<Request>, schedule: seq<Action>)
    requires Faithful(j.env, s0.view) && RealClock(j.env) && j.slots > 0 && Ends(j, Start(j, s0, fetched), schedule)
    requires Uncontested(j) && AllIndifferent(j, s0)
    ensures SameButTimes(Reached(j, Start(j, s0, fetched), schedule).view, After(j.env, s0, j.tasks).view)
  {
    EveryScheduleEndsAs(j, s0, fetched, schedule);
    SequentialUpTo(j, s0, |j.tasks|);
    assert j.tasks[..|j.tasks|] == j.tasks;
    EndsAsSame(j, s0, Reached(j, Start(j, s0, fetched), schedule).view, After(j.env, s0, j.tasks).view);
  }
}
