/** pkg/catalog/prewarm.go, Prewarm: a task with nothing between its steps is one
    lookup, so with one slot a prewarm is the planned lookups, one by one. */
module PrewarmOneSlot {
  import opened Cache
  import opened PrewarmSteps

  function Shown(s: PState): CState { CState(s.view, s.ticks) }

  /** A task of r is in phase p, and nothing but its steps happened since before. */
  ghost predicate Midway(env: Env, before: CState, r: Request, p: Phase, now: CState) {
    var read := before.(ticks := before.ticks + 1);
    match p
    case Pending => false
    case Started => now == before
    case Entered => now == before
    case Clocked(t) => t == env.clock(before.ticks) && now == read
    case Missed(t) => t == env.clock(before.ticks) && now == read && Misses(env, before, r)
    case Arrived(t, list) =>
      t == env.clock(before.ticks) && now == read && Misses(env, before, r) && env.world.upstream(r) == Ok(list)
    case Leaving(_) => now == Lookup(env, before, r).1
    case Over(_) => now == Lookup(env, before, r).1
  }

  lemma {:induction false} MidwayStep(j: Job, before: CState, s: PState, i: nat)
    requires |s.phases| == |j.tasks| && i < |j.tasks| && Busy(s.phases[i]) && !s.cancelled
    requires Midway(j.env, before, j.tasks[i], s.phases[i], Shown(s))
    ensures Midway(j.env, before, j.tasks[i], DoStep(j, s, i).phases[i], Shown(DoStep(j, s, i)))
  {
  }

  // ---------- one task alone ----------

  function Alone(i: nat, n: nat): seq<Action> { if n == 0 then [] else Alone(i, n - 1) + [Step(i)] }

  lemma {:induction false} ReachedNext(j: Job, s: PState, schedule: seq<Action>, a: Action)
    requires |s.phases| == |j.tasks|
    ensures Reached(j, s, schedule + [a]) == Do(j, Reached(j, s, schedule), a)
  {
    assert (schedule + [a])[..|schedule|] == schedule;
  }

  /** s after some steps of task i, and of no other, begun at s0. */
  ghost predicate OnlyStepped(j: Job, s0: PState, s: PState, i: nat)
    requires |s0.phases| == |j.tasks| && i < |j.tasks|
  {
    && |s.phases| == |j.tasks| && s.phases == s0.phases[i := s.phases[i]] && !s.cancelled
    && s.main == s0.main && s.next == s0.next
    && Midway(j.env, Shown(s0), j.tasks[i], s.phases[i], Shown(s))
  }

  lemma {:induction false} OneStepOf(j: Job, s0: PState, s: PState, i: nat)
    requires |s0.phases| == |j.tasks| && i < |j.tasks| && OnlyStepped(j, s0, s, i) && Busy(s.phases[i])
    ensures var t := Do(j, s, Step(i)); OnlyStepped(j, s0, t, i) && Work()(t.phases[i]) < Work()(s.phases[i])
  {
    MidwayStep(j, Shown(s0), s, i);
    StepPhase(j, s, i);
    StepWorks(j, s, i);
  }

  /** What n steps of the task, some of them perhaps after its end, leave. */
  ghost predicate AfterSteps(j: Job, s0: PState, s: PState, i: nat, n: nat)
    requires |s0.phases| == |j.tasks| && i < |j.tasks|
  {
    OnlyStepped(j, s0, s, i) && (s.phases[i].Over? || Work()(s.phases[i]) + n <= 6)
  }

  lemma {:induction false} NoStepYet(j: Job, s: PState, i: nat)
    requires |s.phases| == |j.tasks| && i < |j.tasks| && s.phases[i] == Started && !s.cancelled
    ensures AfterSteps(j, s, s, i, 0)
  {
    assert s.phases == s.phases[i := s.phases[i]];
  }

  lemma {:induction false} OneMoreStep(j: Job, s0: PState, s: PState, t: PState, i: nat, n: nat)
    requires |s0.phases| == |j.tasks| && i < |j.tasks| && n > 0
    requires AfterSteps(j, s0, s, i, n - 1) && t == Do(j, s, Step(i))
    ensures AfterSteps(j, s0, t, i, n)
  {
    if Busy(s.phases[i]) { OneStepOf(j, s0, s, i); }
  }

  function Stepped(j: Job, s: PState, i: nat, n: nat): (t: PState)
    requires |s.phases| == |j.tasks|
    ensures |t.phases| == |j.tasks|
  {
    if n == 0 then s else Do(j, Stepped(j, s, i, n - 1), Step(i))
  }

  lemma {:induction false} SteppedIsReached(j: Job, s: PState, i: nat, n: nat)
    requires |s.phases| == |j.tasks|
    ensures Reached(j, s, Alone(i, n)) == Stepped(j, s, i, n)
  {
    if n > 0 {
      var before, t := Alone(i, n - 1), Stepped(j, s, i, n - 1);
      SteppedIsReached(j, s, i, n - 1);
      NextReached(j, s, before, Step(i), t);
      assert Alone(i, n) == before + [Step(i)];
    }
  }

  lemma {:induction false} NextReached(j: Job, s: PState, schedule: seq<Action>, a: Action, t: PState)
    requires |s.phases| == |j.tasks| && t == Reached(j, s, schedule)
    ensures Reached(j, s, schedule + [a]) == Do(j, t, a)
  {
    ReachedNext(j, s, schedule, a);
  }

  lemma {:induction false} StepsOf(j: Job, s0: PState, i: nat, n: nat)
    requires |s0.phases| == |j.tasks| && i < |j.tasks| && s0.phases[i] == Started && !s0.cancelled
    ensures AfterSteps(j, s0, Stepped(j, s0, i, n), i, n)
  {
    if n == 0 {
      NoStepYet(j, s0, i);
    } else {
      StepsOf(j, s0, i, n - 1);
      OneMoreStep(j, s0, Stepped(j, s0, i, n - 1), Stepped(j, s0, i, n), i, n);
    }
  }

  /** A task run from start to end with no other between does exactly one lookup. */
  lemma {:induction false} RunAlone(j: Job, s: PState, i: nat)
    requires |s.phases| == |j.tasks| && i < |j.tasks| && s.phases[i] == Started && !s.cancelled
    ensures var t := Reached(j, s, Alone(i, 6));
      t.phases[i].Over? && t.phases == s.phases[i := t.phases[i]] && Shown(t) == Lookup(j.env, Shown(s), j.tasks[i]).1
      && t.main == s.main && t.next == s.next && !t.cancelled
  {
    StepsOf(j, s, i, 6);
    SteppedIsReached(j, s, i, 6);
  }

  // ---------- one slot ----------

  /** Every task before the last one spawned is over, and that one is midway. */
  ghost predicate InTurn(j: Job, s0: CState, s: PState) {
    && Orderly(j, s) && !s.cancelled
    && (forall i | 0 <= i < s.next - 1 :: s.phases[i].Over?)
    && if s.next == 0 then Shown(s) == s0
       else Midway(j.env, After(j.env, s0, j.tasks[..s.next - 1]), j.tasks[s.next - 1], s.phases[s.next - 1], Shown(s))
  }

  lemma {:induction false} MidwayOver(env: Env, before: CState, r: Request, p: Phase, now: CState)
    requires Midway(env, before, r, p, now) && !Busy(p)
    ensures p.Over? && now == Lookup(env, before, r).1
  {
  }

  lemma {:induction false} NobodyBusy(s: PState, i: nat)
    requires InFlight(s) == 0 && i < |s.phases|
    ensures !Busy(s.phases[i])
  {
    TotalZero(OneIfBusy(), s.phases);
    assert OneIfBusy()(s.phases[i]) == 0;
  }

  lemma {:induction false} IdleInTurn(j: Job, s0: CState, s: PState)
    requires InTurn(j, s0, s) && InFlight(s) == 0
    ensures Shown(s) == After(j.env, s0, j.tasks[..s.next])
    ensures forall i | 0 <= i < s.next :: s.phases[i].Over?
  {
    if s.next > 0 {
      var n := s.next - 1;
      NobodyBusy(s, n);
      MidwayOver(j.env, After(j.env, s0, j.tasks[..n]), j.tasks[n], s.phases[n], Shown(s));
      AfterPrefix(j.env, s0, j.tasks, n);
    }
  }

  lemma {:induction false} InTurnIs(j: Job, s0: CState, s: PState, t: PState, i: nat, before: CState)
    requires InTurn(j, s0, s) && i < |j.tasks| && Busy(s.phases[i]) && t == DoStep(j, s, i) && i == s.next - 1
    requires before == After(j.env, s0, j.tasks[..i]) && Orderly(j, t) && t.next == s.next && !t.cancelled
    requires t.phases == s.phases[i := t.phases[i]]
    ensures InTurn(j, s0, t)
  {
    MidwayStep(j, before, s, i);
  }

  lemma {:induction false} InTurnStep(j: Job, s0: CState, s: PState, i: nat)
    requires InTurn(j, s0, s) && i < |j.tasks| && Busy(s.phases[i])
    ensures InTurn(j, s0, Do(j, s, Step(i)))
  {
    assert i == s.next - 1;
    OrderlyKept(j, s, Step(i));
    StepPhase(j, s, i);
    InTurnIs(j, s0, s, DoStep(j, s, i), i, After(j.env, s0, j.tasks[..i]));
  }

  lemma {:induction false} InTurnSpawn(j: Job, s0: CState, s: PState)
    requires InTurn(j, s0, s) && j.slots == 1 && Enabled(j, s, Spawn)
    ensures InTurn(j, s0, DoSpawn(j, s))
  {
    OrderlyKept(j, s, Spawn);
    if s.main.AtAcquire? {
      IdleInTurn(j, s0, s);
      InTurnStarts(j, s0, DoSpawn(j, s), s.next);
    }
  }

  /** Task n has just begun, and those before it are over. */
  lemma {:induction false} InTurnStarts(j: Job, s0: CState, t: PState, n: nat)
    requires n < |j.tasks| && Orderly(j, t) && !t.cancelled && t.next == n + 1 && t.phases[n] == Started
    requires Shown(t) == After(j.env, s0, j.tasks[..n]) && forall i | 0 <= i < n :: t.phases[i].Over?
    ensures InTurn(j, s0, t)
  {
  }

  lemma {:induction false} InTurnKept(j: Job, s0: CState, s: PState, a: Action)
    requires InTurn(j, s0, s) && j.slots == 1 && a != Cancel
    ensures InTurn(j, s0, Do(j, s, a))
  {
    if Enabled(j, s, a) {
      match a
      case Spawn => InTurnSpawn(j, s0, s);
      case Step(i) => InTurnStep(j, s0, s, i);
    }
  }

  lemma {:induction false} InTurnAlways(j: Job, s0: CState, s: PState, schedule: seq<Action>)
    requires InTurn(j, s0, s) && j.slots == 1 && Cancel !in schedule
    ensures InTurn(j, s0, Reached(j, s, schedule))
    decreases |schedule|
  {
    if schedule != [] {
      InTurnAlways(j, s0, s, schedule[..|schedule| - 1]);
      InTurnKept(j, s0, Reached(j, s, schedule[..|schedule| - 1]), schedule[|schedule| - 1]);
    }
  }

  /** With one slot every uncancelled schedule is the planned lookups in order: the
      same store, times and all, and the same readings of the clock, from any store,
      with keys that collide or not. */
  lemma {:induction false} OneSlotIsSequential(j: Job, s0: CState, fetched: seq<Request>, schedule: seq<Action>)
    requires j.slots == 1 && Cancel !in schedule
    requires Finished(Reached(j, Start(j, s0, fetched), schedule))
    ensures Shown(Reached(j, Start(j, s0, fetched), schedule)) == After(j.env, s0, j.tasks)
  {
    var s := Start(j, s0, fetched);
    StartOrderly(j, s0, fetched);
    InTurnAlways(j, s0, s, schedule);
    IdleInTurn(j, s0, Reached(j, s, schedule));
    assert j.tasks[..|j.tasks|] == j.tasks;
  }
}
