/** pkg/catalog/prewarm.go, Prewarm, run against a checker's store. */
module Prewarm {
  import opened Common
  import opened Cache
  import Checker
  import opened Plan
  import opened PrewarmSteps
  import opened PrewarmEnd

  const DEFAULT_PARALLELISM: nat := 4

  function Slots(parallelism: int): (slots: nat)
    ensures if parallelism > 0 then slots == parallelism else slots == 4
  {
    if parallelism <= 0 then DEFAULT_PARALLELISM else parallelism
  }

  /** The checker and its store are where the run is. */
  ghost predicate Mirrors(c: Checker.Checker, s: PState)
    reads c, c.store.Obj()
  {
    c.Snapshot() == Checker.Snap(true, CState(s.view, s.ticks), s.fetched)
  }

  /** One step of a task, done to the store. */
  method PerformStep(c: Checker.Checker, j: Job, ghost s: PState, i: nat, phase: Phase, cancelled: bool)
      returns (p: Phase, err: Option<CatalogError>)
    requires j.env == c.env && Genuine(j, s) && i < |j.tasks| && Mirrors(c, s)
    requires phase == s.phases[i] && Busy(phase) && cancelled == s.cancelled
    modifies c, c.store.Obj()
    ensures Mirrors(c, DoStep(j, s, i))
    ensures p == DoStep(j, s, i).phases[i]
    ensures DoStep(j, s, i).errs == s.errs + if err.Some? then [err.value] else []
  {
    var r := j.tasks[i];
    err := None;
    match phase {
      case Started => p := if cancelled then Leaving(false) else Entered;
      case Entered =>
        p := Clocked(c.env.clock(c.ticks));
        c.ticks := c.ticks + 1;
      case Clocked(now) =>
        var got := c.Look(r, now);
        p := if got.Present? then Leaving(true) else Missed(now);
      case Missed(now) =>
        c.fetched := c.fetched + [r];
        match c.env.world.upstream(r) {
          case Failed(msg) => p, err := Leaving(false), Some(UpstreamError(msg));
          case Ok(list) => p := Arrived(now, list);
        }
      case Arrived(now, list) =>
        assert Carries(j.env, r, phase);
        var why := c.Keep(r, now, list);
        p := Leaving(why.None?);
        err := if why.Some? then Some(CacheWrite(why.value)) else None;
      case Leaving(ok) => p := Over(ok);
    }
  }

  // ---------- the schedule ----------

  /** What Prewarm itself keeps; the rest of a state is in the checker and its store. */
  datatype Locals = Locals(main: Main, next: nat, taken: int, phases: seq<Phase>, errs: seq<CatalogError>,
                           cancelled: bool)

  ghost function LocalsOf(s: PState): Locals { Locals(s.main, s.next, s.taken, s.phases, s.errs, s.cancelled) }

  function Choices(l: Locals, slots: nat): set<Action> {
    (if l.main.AtCheck? || (l.main.AtAcquire? && l.taken < slots) then {Spawn} else {})
    + (set i | 0 <= i < |l.phases| && Busy(l.phases[i]) :: Step(i))
    + (set i | 0 <= i < |l.phases| && l.phases[i].Missed? && l.cancelled :: Interrupt(i))
  }

  lemma {:induction false} ChoicesAreEnabled(j: Job, s: PState)
    requires Orderly(j, s) && j.slots > 0
    ensures forall a :: a in Choices(LocalsOf(s), j.slots) <==> Enabled(j, s, a) && a != Cancel
    ensures !Finished(s) ==> Choices(LocalsOf(s), j.slots) != {}
  {
    forall a ensures a in Choices(LocalsOf(s), j.slots) <==> Enabled(j, s, a) && a != Cancel {
    }
    if !Finished(s) {
      var a := SomethingMoves(j, s);
    }
  }

  method PerformSpawn(j: Job, ghost s: PState, l: Locals) returns (l': Locals)
    requires Orderly(j, s) && l == LocalsOf(s) && !l.main.AtWait?
    ensures l' == LocalsOf(DoSpawn(j, s))
  {
    if l.main.AtCheck? {
      if l.next >= |j.tasks| || l.cancelled {
        return l.(main := AtWait);
      }
      return l.(main := AtAcquire);
    }
    l' := l.(main := AtCheck, next := l.next + 1, taken := l.taken + 1, phases := l.phases[l.next := Started]);
  }

  method PerformAction(c: Checker.Checker, j: Job, ghost s: PState, l: Locals, a: Action) returns (l': Locals)
    requires j.env == c.env && Genuine(j, s) && Orderly(j, s) && Mirrors(c, s) && l == LocalsOf(s)
    requires Enabled(j, s, a) && a != Cancel
    modifies c, c.store.Obj()
    ensures Mirrors(c, Do(j, s, a)) && l' == LocalsOf(Do(j, s, a))
  {
    match a {
      case Spawn => l' := PerformSpawn(j, s, l);
      case Step(i) =>
        StepPhase(j, s, i);
        var p, err := PerformStep(c, j, s, i, l.phases[i], l.cancelled);
        l' := l.(phases := l.phases[i := p], errs := l.errs + if err.Some? then [err.value] else [],
                 taken := if l.phases[i].Leaving? then l.taken - 1 else l.taken);
      case Interrupt(i) =>
        c.fetched := c.fetched + [j.tasks[i]];
        l' := l.(phases := l.phases[i := Leaving(false)], errs := l.errs + [Interrupted]);
    }
  }

  lemma {:induction false} OneMore(j: Job, s0: PState, schedule: seq<Action>, a: Action)
    requires |s0.phases| == |j.tasks| && OnTrack(j, s0, schedule, Reached(j, s0, schedule))
    ensures OnTrack(j, s0, schedule + [a], Do(j, Reached(j, s0, schedule), a))
  {
    assert (schedule + [a])[..|schedule|] == schedule;
    GenuineKept(j, Reached(j, s0, schedule), a);
    OrderlyKept(j, Reached(j, s0, schedule), a);
  }

  /** A run of the goroutines under some schedule, until all are done; cancels says
      by which turn someone has cancelled the context. */
  method Prewarm(c: Checker.Checker, x: Inputs, parallelism: int, cancels: nat -> bool)
      returns (errs: seq<CatalogError>, tasks: seq<Request>, ghost schedule: seq<Action>)
    requires c.Valid()
    modifies c, c.store.Obj()
    ensures InOrder(tasks) && forall r :: r in tasks <==> Planned(c.env.world.cfg, x, r)
    ensures var j := Job(c.env, tasks, Slots(parallelism));
      var t := Reached(j, Start(j, old(c.State()), old(c.fetched)), schedule);
      Finished(t) && t.errs == errs && Mirrors(c, t)
    ensures (forall n :: !cancels(n)) ==> Cancel !in schedule
  {
    tasks := Plan.Plan(c.env.world.cfg, x);
    errs, schedule := RunTasks(c, Job(c.env, tasks, Slots(parallelism)), cancels);
  }

  method RunTasks(c: Checker.Checker, j: Job, cancels: nat -> bool)
      returns (errs: seq<CatalogError>, ghost schedule: seq<Action>)
    requires c.Valid() && j.env == c.env && j.slots > 0
    modifies c, c.store.Obj()
    ensures var t := Reached(j, Start(j, old(c.State()), old(c.fetched)), schedule);
      Finished(t) && t.errs == errs && Mirrors(c, t)
    ensures (forall n :: !cancels(n)) ==> Cancel !in schedule
  {
    var l := Locals(AtCheck, 0, 0, seq(|j.tasks|, _ => Pending), [], false);
    ghost var s0 := Start(j, c.State(), c.fetched);
    ghost var s := s0;
    StartGenuine(j, c.State(), c.fetched);
    schedule := [];
    var turn := 0;
    while !(l.main.AtWait? && Total(OneIfBusy(), l.phases) == 0)
      invariant OnTrack(j, s0, schedule, s) && Mirrors(c, s) && l == LocalsOf(s)
      invariant (forall n :: !cancels(n)) ==> Cancel !in schedule
      decreases !l.cancelled, Left(s)
    {
      ghost var a;
      l, a := Turn(c, j, s, l, cancels(turn));
      OneMore(j, s0, schedule, a);
      schedule := schedule + [a];
      s := Do(j, s, a);
      turn := turn + 1;
    }
    errs := l.errs;
  }

  ghost predicate OnTrack(j: Job, s0: PState, schedule: seq<Action>, s: PState) {
    |s0.phases| == |j.tasks| && s == Reached(j, s0, schedule) && Genuine(j, s) && Orderly(j, s)
  }

  method Turn(c: Checker.Checker, j: Job, ghost s: PState, l: Locals, cancels: bool)
      returns (l': Locals, ghost a: Action)
    requires j.env == c.env && j.slots > 0 && Genuine(j, s) && Orderly(j, s) && Mirrors(c, s) && l == LocalsOf(s)
    requires !Finished(s)
    modifies c, c.store.Obj()
    ensures Enabled(j, s, a) && Mirrors(c, Do(j, s, a)) && l' == LocalsOf(Do(j, s, a))
    ensures if a == Cancel then cancels && l'.cancelled && !l.cancelled
            else l'.cancelled == l.cancelled && Left(Do(j, s, a)) < Left(s)
  {
    if !l.cancelled && cancels {
      return l.(cancelled := true), Cancel;
    }
    ChoicesAreEnabled(j, s);
    var next :| next in Choices(l, j.slots);
    a := next;
    LeftFalls(j, s, a);
    CancelledKept(j, s, a);
    l' := PerformAction(c, j, s, l, next);
  }

  lemma {:induction false} CancelledKept(j: Job, s: PState, a: Action)
    requires Orderly(j, s) && a != Cancel
    ensures Do(j, s, a).cancelled == s.cancelled
  {
    if Enabled(j, s, a) && a.Step? { StepPhase(j, s, a.i); }
  }
}
