/** pkg/catalog/prewarm.go, Prewarm: schedules in which some tasks wait, so that one of
    them reads the clock in whichever of its turns one likes. */
module PrewarmSchedules {
  import opened Common
  import opened Cache
  import opened PrewarmSteps
  import opened PrewarmTurns
  import opened PrewarmFates
  import opened PrewarmOneSlot

  lemma {:induction false} ReachedConcat(j: Job, s: PState, a: seq<Action>, b: seq<Action>)
    requires |s.phases| == |j.tasks|
    ensures Reached(j, s, a + b) == Reached(j, Reached(j, s, a), b)
    decreases |b|
  {
    if b == [] {
      assert a + b == a;
    } else {
      ReachedConcat(j, s, a, b[..|b| - 1]);
      assert (a + b)[..|a + b| - 1] == a + b[..|b| - 1];
    }
  }

  lemma {:induction false} AloneOnlySteps(i: nat, n: nat)
    ensures Cancel !in Alone(i, n)
  {
    if n > 0 { AloneOnlySteps(i, n - 1); }
  }

  // ---------- tasks that wait ----------

  predicate Waits(k: nat, lo: nat, hi: nat) { lo <= k <= hi }

  ghost predicate HeldPhases(ps: seq<Phase>, next: nat, lo: nat, hi: nat) {
    next <= |ps| && forall k | 0 <= k < |ps| ::
      if k >= next then ps[k].Pending? else if Waits(k, lo, hi) then ps[k].Started? else ps[k].Over?
  }

  /** Of the tasks spawned, lo to hi have not begun, and all others are over. */
  ghost predicate Held(j: Job, s0: CState, s: PState, lo: nat, hi: nat) {
    Runs(j, s0, s) && s.main.AtCheck? && HeldPhases(s.phases, s.next, lo, hi)
  }

  /** How many of the first next tasks wait. */
  function Waiting(next: nat, lo: nat, hi: nat): nat
    requires lo <= hi
  {
    if next <= lo then 0 else if next <= hi then next - lo else hi + 1 - lo
  }

  lemma {:induction false} CountHeld(ps: seq<Phase>, next: nat, lo: nat, hi: nat)
    requires HeldPhases(ps, next, lo, hi) && lo <= hi
    ensures Total(OneIfBusy(), ps) == Waiting(next, lo, hi)
    ensures Total(OneIfRead(), ps) == next - Waiting(next, lo, hi)
  {
    if ps != [] {
      var m := |ps| - 1;
      var front, before := ps[..m], if next < m then next else m;
      assert forall k | 0 <= k < m :: front[k] == ps[k];
      CountHeld(front, before, lo, hi);
    }
  }

  /** The spawning loop passes its test and gets a token. */
  lemma {:induction false} SpawnNext(j: Job, s: PState)
    requires |s.phases| == |j.tasks| && s.main.AtCheck? && !s.cancelled && s.next < |j.tasks| && s.taken < j.slots
    ensures Reached(j, s, [Spawn] + [Spawn]) == At(s, s.next, Started).(next := s.next + 1, taken := s.taken + 1)
  {
    ReachedNext(j, s, [], Spawn);
    ReachedNext(j, s, [Spawn], Spawn);
    assert [] + [Spawn] == [Spawn];
    assert Do(j, s, Spawn) == s.(main := AtAcquire);
  }

  /** One more task spawned, and, unless it waits, run to its end. */
  function Round(next: nat, lo: nat, hi: nat): seq<Action> {
    [Spawn] + [Spawn] + if Waits(next, lo, hi) then [] else Alone(next, 6)
  }

  lemma {:induction false} RoundReaches(j: Job, s: PState, lo: nat, hi: nat)
    requires |s.phases| == |j.tasks| && s.main.AtCheck? && !s.cancelled && s.next < |j.tasks| && s.taken < j.slots
    ensures var t := Reached(j, s, Round(s.next, lo, hi));
      t.phases == s.phases[s.next := t.phases[s.next]] && t.main == s.main && t.next == s.next + 1
      && if Waits(s.next, lo, hi) then t.phases[s.next].Started? else t.phases[s.next].Over?
  {
    SpawnNext(j, s);
    var two := Reached(j, s, [Spawn] + [Spawn]);
    if Waits(s.next, lo, hi) {
      assert Round(s.next, lo, hi) == [Spawn] + [Spawn];
    } else {
      ReachedConcat(j, s, [Spawn] + [Spawn], Alone(s.next, 6));
      RunAlone(j, two, s.next);
    }
  }

  lemma {:induction false} RoundHolds(j: Job, s0: CState, s: PState, lo: nat, hi: nat)
    requires Held(j, s0, s, lo, hi) && lo <= hi && s.next < |j.tasks| && Waiting(s.next, lo, hi) < j.slots
    requires RealClock(j.env)
    ensures var t := Reached(j, s, Round(s.next, lo, hi)); Held(j, s0, t, lo, hi) && t.next == s.next + 1
    ensures Cancel !in Round(s.next, lo, hi)
  {
    CountHeld(s.phases, s.next, lo, hi);
    RoundReaches(j, s, lo, hi);
    AloneOnlySteps(s.next, 6);
    RunsAlways(j, s0, s, Round(s.next, lo, hi));
  }

  lemma {:induction false} HoldUntil(j: Job, s0: CState, s: PState, lo: nat, hi: nat, goal: nat)
      returns (schedule: seq<Action>)
    requires Held(j, s0, s, lo, hi) && lo <= hi && s.next <= goal <= |j.tasks| && RealClock(j.env)
    requires forall next: nat | next < goal :: Waiting(next, lo, hi) < j.slots
    ensures var t := Reached(j, s, schedule); Cancel !in schedule && Held(j, s0, t, lo, hi) && t.next == goal
    decreases goal - s.next
  {
    if s.next == goal {
      schedule := [];
    } else {
      RoundHolds(j, s0, s, lo, hi);
      var rest := HoldUntil(j, s0, Reached(j, s, Round(s.next, lo, hi)), lo, hi, goal);
      schedule := Round(s.next, lo, hi) + rest;
      ReachedConcat(j, s, Round(s.next, lo, hi), rest);
    }
  }

  // ---------- a task in its turn ----------

  lemma {:induction false} EnoughSlots(j: Job, i: nat, n: nat, next: nat)
    requires TurnOf(j, i, n) && j.slots >= 2 && next <= Max(n, i)
    ensures Waiting(next, Min(n, i), i) < j.slots
  {
  }

  /** Every turn of a task comes in some schedule: with two slots or more the run can be
      where task i is about to read the clock and n others have. */
  lemma {:induction false} TurnComes(j: Job, s0: CState, fetched: seq<Request>, i: nat, n: nat)
      returns (schedule: seq<Action>)
    requires TurnOf(j, i, n) && i < |j.tasks| && j.slots >= 2 && Faithful(j.env, s0.view) && RealClock(j.env)
    ensures var s := Reached(j, Start(j, s0, fetched), schedule);
      Cancel !in schedule && Held(j, s0, s, Min(n, i), i) && s.next == Max(n, i) + 1 && s.ticks == s0.ticks + n
  {
    StartRuns(j, s0, fetched);
    forall next: nat | next < Max(n, i) + 1 ensures Waiting(next, Min(n, i), i) < j.slots {
      EnoughSlots(j, i, n, next);
    }
    schedule := HoldUntil(j, s0, Start(j, s0, fetched), Min(n, i), i, Max(n, i) + 1);
    CountHeld(Reached(j, Start(j, s0, fetched), schedule).phases, Max(n, i) + 1, Min(n, i), i);
  }

  /** Every run can be brought to its end. */
  lemma {:induction false} Finishing(j: Job, s: PState) returns (schedule: seq<Action>)
    requires Orderly(j, s) && j.slots > 0
    ensures Cancel !in schedule && Finished(Reached(j, s, schedule))
    decreases Left(s)
  {
    if Finished(s) {
      schedule := [];
    } else {
      var a := SomethingMoves(j, s);
      LeftFalls(j, s, a);
      OrderlyKept(j, s, a);
      var rest := Finishing(j, Do(j, s, a));
      schedule := [a] + rest;
      ReachedNext(j, s, [], a);
      assert [] + [a] == [a];
      ReachedConcat(j, s, [a], rest);
    }
  }

  // ---------- what becomes of it ----------

  lemma {:induction false} OwnKeyStep(j: Job, s0: CState, s: PState, i: nat, a: Action)
    requires Runs(j, s0, s) && i < |j.tasks| && Own(j, i) && s.phases[i].Over? && a != Cancel
    ensures var t := Do(j, s, a); SameAt(s.view, t.view, KeyAt(j, i)) && |t.phases| == |j.tasks| && t.phases[i].Over?
  {
    if Enabled(j, s, a) && a.Step? {
      StepPhase(j, s, a.i);
      StepView(j, s, a.i, KeyAt(j, i));
    }
  }

  /** Once a task is over, its own key is left alone. */
  lemma {:induction false} OwnKeyStays(j: Job, s0: CState, s: PState, i: nat, schedule: seq<Action>)
    requires Runs(j, s0, s) && RealClock(j.env) && i < |j.tasks| && Own(j, i) && s.phases[i].Over?
    requires Cancel !in schedule
    ensures SameAt(s.view, Reached(j, s, schedule).view, KeyAt(j, i)) && Reached(j, s, schedule).phases[i].Over?
    decreases |schedule|
  {
    if schedule != [] {
      var before := schedule[..|schedule| - 1];
      OwnKeyStays(j, s0, s, i, before);
      RunsAlways(j, s0, s, before);
      OwnKeyStep(j, s0, Reached(j, s, before), i, schedule[|schedule| - 1]);
    }
  }
}
