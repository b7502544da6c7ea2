/** pkg/catalog/prewarm.go, Prewarm: what every schedule keeps. */
module PrewarmEnd {
  import opened Cache
  import opened PrewarmSteps

  // ---------- under every schedule, cancelled or not ----------

  ghost predicate Reading(env: Env, now: int) { exists n: nat :: now == env.clock(n) }

  /** A task of request r carries, in phase p, what it was told. */
  ghost predicate Carries(env: Env, r: Request, p: Phase) {
    match p
    case Clocked(now) => Reading(env, now)
    case Missed(now) => Reading(env, now)
    case Arrived(now, list) => Reading(env, now) && env.world.upstream(r) == Ok(list)
    case _ => true
  }

  ghost predicate Genuine(j: Job, s: PState) {
    |s.phases| == |j.tasks| && Faithful(j.env, s.view)
        && forall i | 0 <= i < |j.tasks| :: Carries(j.env, j.tasks[i], s.phases[i])
  }

  lemma {:induction false} StepCarries(j: Job, s: PState, i: nat)
    requires Genuine(j, s) && i < |j.tasks| && Busy(s.phases[i])
    ensures Carries(j.env, j.tasks[i], DoStep(j, s, i).phases[i])
  {
    assert Carries(j.env, j.tasks[i], s.phases[i]);
  }

  lemma {:induction false} StepFaithful(j: Job, s: PState, i: nat)
    requires Genuine(j, s) && i < |j.tasks| && Busy(s.phases[i])
    ensures Faithful(j.env, DoStep(j, s, i).view)
  {
    if s.phases[i].Arrived? {
      var r, now, list := j.tasks[i], s.phases[i].now, s.phases[i].list;
      assert Carries(j.env, r, s.phases[i]);
      KeepFaithful(j.env, s.view, r, now, list);
    }
  }

  lemma {:induction false} GenuineKept(j: Job, s: PState, a: Action)
    requires Genuine(j, s)
    ensures Genuine(j, Do(j, s, a))
  {
    if Enabled(j, s, a) {
      match a
      case Cancel =>
      case Spawn =>
      case Step(i) =>
        StepCarries(j, s, i);
        StepFaithful(j, s, i);
        StepPhase(j, s, i);
      case Interrupt(i) =>
    }
  }

  /** Prewarming never makes the store unfaithful: whatever the schedule, with or
      without colliding keys, what a check then finds in it agrees with upstream. */
  lemma {:induction false} PrewarmStaysFaithful(j: Job, s: PState, schedule: seq<Action>)
    requires Genuine(j, s)
    ensures Genuine(j, Reached(j, s, schedule))
    decreases |schedule|
  {
    if schedule != [] {
      PrewarmStaysFaithful(j, s, schedule[..|schedule| - 1]);
      GenuineKept(j, Reached(j, s, schedule[..|schedule| - 1]), schedule[|schedule| - 1]);
    }
  }

  lemma {:induction false} StartGenuine(j: Job, s0: CState, fetched: seq<Request>)
    requires Faithful(j.env, s0.view)
    ensures var s := Start(j, s0, fetched); Genuine(j, s) && Orderly(j, s)
  {
    StartOrderly(j, s0, fetched);
  }

  // ---------- without upstream errors ----------

  /** A fetch of r succeeds. */
  predicate Obtainable(env: Env, r: Request) { env.world.upstream(r).Ok? && SourceOf(env.world.cfg, r) != "" }

  ghost predicate Answered(env: Env, tasks: seq<Request>) { forall r | r in tasks :: Obtainable(env, r) }

  lemma {:induction false} NoErrorStep(j: Job, s: PState, a: Action)
    requires Genuine(j, s) && RealClock(j.env) && Answered(j.env, j.tasks) && s.errs == [] && !s.cancelled
    requires a != Cancel
    ensures Do(j, s, a).errs == [] && !Do(j, s, a).cancelled
  {
    if Enabled(j, s, a) && a.Step? {
      var i := a.i;
      var r := j.tasks[i];
      assert Obtainable(j.env, r);
      if s.phases[i].Arrived? {
        assert Carries(j.env, r, s.phases[i]);
        NewEntryValid(j.env, r, s.phases[i].now, s.phases[i].list);
      }
    }
  }

  /** No error comes of upstream lists that all arrive, as long as nobody cancels. */
  lemma {:induction false} NoError(j: Job, s: PState, schedule: seq<Action>)
    requires Genuine(j, s) && RealClock(j.env) && Answered(j.env, j.tasks) && s.errs == [] && !s.cancelled
        && Cancel !in schedule
    ensures Reached(j, s, schedule).errs == [] && !Reached(j, s, schedule).cancelled
    decreases |schedule|
  {
    if schedule != [] {
      var before := schedule[..|schedule| - 1];
      NoError(j, s, before);
      PrewarmStaysFaithful(j, s, before);
      NoErrorStep(j, Reached(j, s, before), schedule[|schedule| - 1]);
    }
  }
}
