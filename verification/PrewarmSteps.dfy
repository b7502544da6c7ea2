/** pkg/catalog/prewarm.go, Prewarm: tasks run by goroutines of their own, as many
    at a time as the semaphore has slots, one atomic step at a time. */
module PrewarmSteps {
  import opened Common
  import opened Entries
  import opened Cache

  /** Where a task is. It holds a slot from Started up to and including Leaving. */
  datatype Phase =
    | Pending
    | Started
    | Entered
    | Clocked(now: int)
    | Missed(now: int)
    | Arrived(now: int, list: List)
    | Leaving(ok: bool)
    | Over(ok: bool)

  /** Where the spawning loop is: at its test of the context, at the semaphore, or
      at the wait group. */
  datatype Main = AtCheck | AtAcquire | AtWait

  /** The store, the clock readings and the fetches so far; the spawning loop, the tokens in
      the semaphore, and the tasks; the errors, and whether the context is cancelled. */
  datatype PState = PState(view: map<string, Entry>, ticks: nat, fetched: seq<Request>, main: Main, next: nat,
                           taken: int, phases: seq<Phase>, errs: seq<CatalogError>, cancelled: bool)

  datatype Job = Job(env: Env, tasks: seq<Request>, slots: nat)

  /** Someone cancels the context; the spawning loop takes a step; task i takes a
      step; task i's upstream call is cut short by the cancelled context. */
  datatype Action = Cancel | Spawn | Step(i: nat) | Interrupt(i: nat)

  function Start(j: Job, s0: CState, fetched: seq<Request>): PState {
    PState(s0.view, s0.ticks, fetched, AtCheck, 0, 0, seq(|j.tasks|, _ => Pending), [], false)
  }

  predicate Busy(p: Phase) { !p.Pending? && !p.Over? }

  function OneIfBusy(): Phase -> nat { (p: Phase) => if Busy(p) then 1 else 0 }

  function Total(w: Phase -> nat, ps: seq<Phase>): nat {
    if ps == [] then 0 else Total(w, ps[..|ps| - 1]) + w(ps[|ps| - 1])
  }

  function InFlight(s: PState): nat { Total(OneIfBusy(), s.phases) }

  predicate Enabled(j: Job, s: PState, a: Action) {
    match a
    case Cancel => !s.cancelled
    case Spawn => s.main.AtCheck? || (s.main.AtAcquire? && s.taken < j.slots)
    case Step(i) => i < |s.phases| && Busy(s.phases[i])
    case Interrupt(i) => i < |s.phases| && s.phases[i].Missed? && s.cancelled
  }

  function At(s: PState, i: nat, p: Phase): PState
    requires i < |s.phases|
  {
    s.(phases := s.phases[i := p])
  }

  function DoSpawn(j: Job, s: PState): PState
    requires |s.phases| == |j.tasks|
  {
    if s.main.AtCheck? then s.(main := if s.next >= |j.tasks| || s.cancelled then AtWait else AtAcquire)
    else if s.next < |j.tasks| then At(s, s.next, Started).(main := AtCheck, next := s.next + 1, taken := s.taken + 1)
    else s
  }

  /** The next step of a task: its test of the context, then cachedList. */
  function DoStep(j: Job, s: PState, i: nat): PState
    requires |s.phases| == |j.tasks| && i < |j.tasks| && Busy(s.phases[i])
  {
    var r := j.tasks[i];
    match s.phases[i]
    case Started => At(s, i, if s.cancelled then Leaving(false) else Entered)
    case Entered => At(s, i, Clocked(j.env.clock(s.ticks))).(ticks := s.ticks + 1)
    case Clocked(now) => At(s, i, if Cached(j.env, s.view, r, now).Present? then Leaving(true) else Missed(now))
    case Missed(now) =>
      (match j.env.world.upstream(r)
       case Failed(msg) => At(s, i, Leaving(false)).(errs := s.errs + [UpstreamError(msg)], fetched := s.fetched + [r])
       case Ok(list) => At(s, i, Arrived(now, list)).(fetched := s.fetched + [r]))
    case Arrived(now, list) =>
      var e := NewEntry(j.env, r, now, list);
      (match Validate(e)
       case Some(why) => At(s, i, Leaving(false)).(errs := s.errs + [CacheWrite(why)])
       case None => At(s, i, Leaving(true)).(view := s.view[Key(j.env.world.cfg, r) := Kept(j.env, e)]))
    case Leaving(ok) => At(s, i, Over(ok)).(taken := s.taken - 1)
  }

  /** One action; one that is not enabled does nothing. */
  function Do(j: Job, s: PState, a: Action): PState
    requires |s.phases| == |j.tasks|
  {
    if !Enabled(j, s, a) then s
    else
      match a
      case Cancel => s.(cancelled := true)
      case Spawn => DoSpawn(j, s)
      case Step(i) => DoStep(j, s, i)
      case Interrupt(i) =>
        At(s, i, Leaving(false)).(errs := s.errs + [Interrupted], fetched := s.fetched + [j.tasks[i]])
  }

  /** The state after a schedule: any sequence of actions. */
  function Reached(j: Job, s: PState, schedule: seq<Action>): (t: PState)
    requires |s.phases| == |j.tasks|
    ensures |t.phases| == |j.tasks|
    decreases |schedule|
  {
    if schedule == [] then s
    else Do(j, Reached(j, s, schedule[..|schedule| - 1]), schedule[|schedule| - 1])
  }

  predicate Finished(s: PState) { s.main.AtWait? && InFlight(s) == 0 }

  // ---------- sums over phases ----------

  lemma {:induction false} TotalUpdate(w: Phase -> nat, ps: seq<Phase>, i: nat, p: Phase)
    requires i < |ps|
    ensures Total(w, ps[i := p]) + w(ps[i]) == Total(w, ps) + w(p)
  {
    var n := |ps| - 1;
    if i == n {
      assert ps[i := p][..n] == ps[..n];
    } else {
      TotalUpdate(w, ps[..n], i, p);
      assert ps[i := p][..n] == ps[..n][i := p];
    }
  }

  lemma {:induction false} TotalZero(w: Phase -> nat, ps: seq<Phase>)
    ensures Total(w, ps) == 0 <==> forall i | 0 <= i < |ps| :: w(ps[i]) == 0
  {
    if ps != [] {
      TotalZero(w, ps[..|ps| - 1]);
      if Total(w, ps) == 0 {
        forall i | 0 <= i < |ps| ensures w(ps[i]) == 0 { if i < |ps| - 1 { assert ps[i] == ps[..|ps| - 1][i]; } }
      }
    }
  }

  // ---------- the bound ----------

  /** Tasks start in order; the loop waits only at its end or when cancelled; and the
      semaphore holds one token for each task in flight, of as many as there are slots. */
  ghost predicate Orderly(j: Job, s: PState) {
    && |s.phases| == |j.tasks| && s.next <= |j.tasks|
    && (forall i | 0 <= i < |s.phases| :: s.phases[i].Pending? <==> i >= s.next)
    && (s.main.AtAcquire? ==> s.next < |j.tasks|)
    && (s.main.AtWait? ==> s.next == |j.tasks| || s.cancelled)
    && s.taken == InFlight(s) && s.taken <= j.slots
  }

  lemma {:induction false} StartOrderly(j: Job, s0: CState, fetched: seq<Request>)
    ensures Orderly(j, Start(j, s0, fetched))
  {
    TotalZero(OneIfBusy(), Start(j, s0, fetched).phases);
  }

  lemma {:induction false} StepPhase(j: Job, s: PState, i: nat)
    requires |s.phases| == |j.tasks| && i < |j.tasks| && Busy(s.phases[i])
    ensures var t := DoStep(j, s, i);
      t.phases == s.phases[i := t.phases[i]] && !t.phases[i].Pending? && !t.phases[i].Started?
      && t.main == s.main && t.next == s.next && t.cancelled == s.cancelled
      && t.taken == s.taken + OneIfBusy()(t.phases[i]) - OneIfBusy()(s.phases[i])
  {
  }

  lemma {:induction false} StepWorks(j: Job, s: PState, i: nat)
    requires |s.phases| == |j.tasks| && i < |j.tasks| && Busy(s.phases[i])
    ensures Work()(DoStep(j, s, i).phases[i]) < Work()(s.phases[i])
  {
    match s.phases[i]
    case Started =>
    case Entered =>
    case Clocked(_) =>
    case Missed(_) =>
    case Arrived(_, _) => assert DoStep(j, s, i).phases[i].Leaving?;
    case Leaving(_) =>
  }

  lemma {:induction false} SpawnOrderly(j: Job, s: PState)
    requires Orderly(j, s) && Enabled(j, s, Spawn)
    ensures Orderly(j, DoSpawn(j, s))
  {
    if s.main.AtAcquire? { TotalUpdate(OneIfBusy(), s.phases, s.next, Started); }
  }

  lemma {:induction false} StepOrderly(j: Job, s: PState, i: nat)
    requires Orderly(j, s) && i < |j.tasks| && Busy(s.phases[i])
    ensures Orderly(j, DoStep(j, s, i))
  {
    StepPhase(j, s, i);
    TotalUpdate(OneIfBusy(), s.phases, i, DoStep(j, s, i).phases[i]);
  }

  lemma {:induction false} OrderlyKept(j: Job, s: PState, a: Action)
    requires Orderly(j, s)
    ensures Orderly(j, Do(j, s, a))
  {
    if Enabled(j, s, a) {
      match a
      case Cancel =>
      case Spawn => SpawnOrderly(j, s);
      case Step(i) => StepOrderly(j, s, i);
      case Interrupt(i) => TotalUpdate(OneIfBusy(), s.phases, i, Leaving(false));
    }
  }

  /** Whatever the schedule, at no point are more tasks in flight than slots. */
  lemma {:induction false} NeverMoreThanSlots(j: Job, s: PState, schedule: seq<Action>)
    requires Orderly(j, s)
    ensures Orderly(j, Reached(j, s, schedule)) && InFlight(Reached(j, s, schedule)) <= j.slots
    decreases |schedule|
  {
    if schedule != [] {
      NeverMoreThanSlots(j, s, schedule[..|schedule| - 1]);
      OrderlyKept(j, Reached(j, s, schedule[..|schedule| - 1]), schedule[|schedule| - 1]);
    }
  }

  // ---------- progress ----------

  /** Steps a task still has to take, and one more before it is spawned. */
  function Work(): Phase -> nat {
    (p: Phase) => match p
      case Pending => 8
      case Started => 6
      case Entered => 5
      case Clocked(_) => 4
      case Missed(_) => 3
      case Arrived(_, _) => 2
      case Leaving(_) => 1
      case Over(_) => 0
  }

  function Left(s: PState): nat {
    Total(Work(), s.phases) + match s.main case AtCheck => 2 case AtAcquire => 1 case AtWait => 0
  }

  /** Every enabled action but a cancellation brings the end nearer. */
  lemma {:induction false} LeftFalls(j: Job, s: PState, a: Action)
    requires Orderly(j, s) && Enabled(j, s, a) && a != Cancel
    ensures Left(Do(j, s, a)) < Left(s)
  {
    match a
    case Spawn => if s.main.AtAcquire? { TotalUpdate(Work(), s.phases, s.next, Started); }
    case Step(i) =>
      StepPhase(j, s, i);
      StepWorks(j, s, i);
      TotalUpdate(Work(), s.phases, i, DoStep(j, s, i).phases[i]);
    case Interrupt(i) => TotalUpdate(Work(), s.phases, i, Leaving(false));
  }

  /** How many actions of a schedule did something, cancellations apart. */
  function Moves(j: Job, s: PState, schedule: seq<Action>): nat
    requires |s.phases| == |j.tasks|
    decreases |schedule|
  {
    if schedule == [] then 0
    else
      var before, a := schedule[..|schedule| - 1], schedule[|schedule| - 1];
      Moves(j, s, before) + if a != Cancel && Enabled(j, Reached(j, s, before), a) then 1 else 0
  }

  /** No schedule goes on for ever. */
  lemma {:induction false} MovesBounded(j: Job, s: PState, schedule: seq<Action>)
    requires Orderly(j, s)
    ensures Moves(j, s, schedule) + Left(Reached(j, s, schedule)) <= Left(s)
    decreases |schedule|
  {
    if schedule != [] {
      var before, a := schedule[..|schedule| - 1], schedule[|schedule| - 1];
      NeverMoreThanSlots(j, s, before);
      MovesBounded(j, s, before);
      var t := Reached(j, s, before);
      if a != Cancel && Enabled(j, t, a) { LeftFalls(j, t, a); }
    }
  }

  /** No deadlock: until it is finished, something can move. */
  lemma {:induction false} SomethingMoves(j: Job, s: PState) returns (a: Action)
    requires Orderly(j, s) && j.slots > 0 && !Finished(s)
    ensures a != Cancel && Enabled(j, s, a)
  {
    if s.main.AtCheck? || (s.main.AtAcquire? && s.taken < j.slots) {
      a := Spawn;
    } else {
      TotalZero(OneIfBusy(), s.phases);
      var i :| 0 <= i < |s.phases| && OneIfBusy()(s.phases[i]) != 0;
      a := Step(i);
    }
  }

  // ---------- what a nil error means ----------

  ghost predicate SomeFailed(s: PState) {
    exists i :: 0 <= i < |s.phases| && (s.phases[i] == Leaving(false) || s.phases[i] == Over(false))
  }

  ghost predicate ErrorsTell(s: PState) { !s.cancelled ==> (s.errs != [] <==> SomeFailed(s)) }

  lemma {:induction false} FailedAfter(s: PState, t: PState, i: nat)
    requires i < |s.phases| == |t.phases| && t.phases == s.phases[i := t.phases[i]]
    requires s.phases[i] != Leaving(false) && s.phases[i] != Over(false)
    ensures SomeFailed(t) <==> SomeFailed(s) || t.phases[i] == Leaving(false) || t.phases[i] == Over(false)
  {
    if SomeFailed(s) {
      var k :| 0 <= k < |s.phases| && (s.phases[k] == Leaving(false) || s.phases[k] == Over(false));
      assert t.phases[k] == s.phases[k];
    }
    if SomeFailed(t) {
      var k :| 0 <= k < |t.phases| && (t.phases[k] == Leaving(false) || t.phases[k] == Over(false));
      assert k != i ==> s.phases[k] == t.phases[k];
    }
    if t.phases[i] == Leaving(false) || t.phases[i] == Over(false) { assert SomeFailed(t); }
  }

  lemma {:induction false} ErrorsTellStep(j: Job, s: PState, i: nat)
    requires |s.phases| == |j.tasks| && i < |j.tasks| && Busy(s.phases[i]) && ErrorsTell(s)
    ensures ErrorsTell(DoStep(j, s, i))
  {
    var t := DoStep(j, s, i);
    StepPhase(j, s, i);
    if s.phases[i] == Leaving(false) {
      assert SomeFailed(s);
      assert t.phases[i] == Over(false) && SomeFailed(t);
    } else {
      FailedAfter(s, t, i);
    }
  }

  lemma {:induction false} ErrorsTellKept(j: Job, s: PState, a: Action)
    requires Orderly(j, s) && ErrorsTell(s)
    ensures ErrorsTell(Do(j, s, a))
  {
    if Enabled(j, s, a) {
      match a
      case Cancel =>
      case Spawn => if s.main.AtAcquire? { FailedAfter(s, DoSpawn(j, s), s.next); }
      case Step(i) => ErrorsTellStep(j, s, i);
      case Interrupt(i) =>
    }
  }

  lemma {:induction false} ErrorsTellAlways(j: Job, s: PState, schedule: seq<Action>)
    requires Orderly(j, s) && ErrorsTell(s)
    ensures ErrorsTell(Reached(j, s, schedule))
    decreases |schedule|
  {
    if schedule != [] {
      var before := schedule[..|schedule| - 1];
      NeverMoreThanSlots(j, s, before);
      ErrorsTellAlways(j, s, before);
      ErrorsTellKept(j, Reached(j, s, before), schedule[|schedule| - 1]);
    }
  }

  ghost predicate AllCompleted(s: PState) { forall i | 0 <= i < |s.phases| :: s.phases[i] == Over(true) }

  /** When nobody cancels, Prewarm returns nil if and only if every planned task
      completed. */
  lemma {:induction false} NilMeansCompleted(j: Job, s: PState, schedule: seq<Action>)
    requires Orderly(j, s) && s.errs == [] && !SomeFailed(s)
    requires var t := Reached(j, s, schedule); Finished(t) && !t.cancelled
    ensures Reached(j, s, schedule).errs == [] <==> AllCompleted(Reached(j, s, schedule))
  {
    var t := Reached(j, s, schedule);
    NeverMoreThanSlots(j, s, schedule);
    ErrorsTellAlways(j, s, schedule);
    TotalZero(OneIfBusy(), t.phases);
    forall i | 0 <= i < |t.phases| ensures t.phases[i].Over? { assert OneIfBusy()(t.phases[i]) == 0; }
    if t.errs == [] {
      forall i | 0 <= i < |t.phases| ensures t.phases[i] == Over(true) { assert !SomeFailed(t); }
    }
  }

  /** Cancelling breaks that: cancelled at once, Prewarm returns nil having done nothing. */
  lemma {:induction false} CancelledNil(j: Job, s0: CState, fetched: seq<Request>)
    requires j.tasks != []
    ensures var t := Reached(j, Start(j, s0, fetched), [Cancel, Spawn]);
      Finished(t) && t.errs == [] && !AllCompleted(t)
  {
    var s := Start(j, s0, fetched);
    var schedule := [Cancel, Spawn];
    assert schedule[..1] == [Cancel] && [Cancel][..0] == [];
    assert Reached(j, s, [Cancel]) == s.(cancelled := true);
    TotalZero(OneIfBusy(), s.phases);
    assert Reached(j, s, schedule).phases[0] == Pending;
  }

  // ---------- what cancelling stops ----------

  /** Past its test of the context, and not done with its lookup. */
  predicate Looking(p: Phase) { p.Entered? || p.Clocked? || p.Missed? || p.Arrived? }

  /** Since s, in which the context was cancelled: no task that had not passed its test looks
      anything up or completes, no more than the one waiting for a slot is started, and what was
      fetched since was fetched for tasks past theirs. */
  ghost predicate Stopping(j: Job, s: PState, t: PState) {
    && |s.phases| == |t.phases| == |j.tasks| && t.cancelled
    && t.next + (if t.main.AtAcquire? then 1 else 0) <= s.next + (if s.main.AtAcquire? then 1 else 0)
    && (forall i | 0 <= i < |j.tasks| && !Looking(s.phases[i]) ::
          !Looking(t.phases[i]) && (s.phases[i].Pending? || s.phases[i].Started? ==>
            t.phases[i] != Leaving(true) && t.phases[i] != Over(true)))
    && s.fetched <= t.fetched
    && forall k | |s.fetched| <= k < |t.fetched| ::
         exists i :: 0 <= i < |j.tasks| && Looking(s.phases[i]) && t.fetched[k] == j.tasks[i]
  }

  lemma {:induction false} StoppingKept(j: Job, s: PState, t: PState, a: Action)
    requires Stopping(j, s, t) && Orderly(j, t)
    ensures Stopping(j, s, Do(j, t, a))
  {
    var u := Do(j, t, a);
    if Enabled(j, t, a) && (a.Step? || a.Interrupt?) {
      var i := a.i;
      if a.Step? { StepPhase(j, t, i); }
      assert Looking(u.phases[i]) ==> Looking(t.phases[i]);
      assert u.fetched == t.fetched || (u.fetched == t.fetched + [j.tasks[i]] && Looking(s.phases[i]));
    }
  }

  /** Under every schedule after a cancellation. */
  lemma {:induction false} CancelStops(j: Job, s: PState, schedule: seq<Action>)
    requires Orderly(j, s) && s.cancelled
    ensures Stopping(j, s, Reached(j, s, schedule))
    decreases |schedule|
  {
    if schedule != [] {
      var before := schedule[..|schedule| - 1];
      CancelStops(j, s, before);
      NeverMoreThanSlots(j, s, before);
      StoppingKept(j, s, Reached(j, s, before), schedule[|schedule| - 1]);
    }
  }

  // ---------- every failure is told ----------

  /** The error that an action meets: a call cut short, a refusal, or an entry that cannot be
      written. */
  function ErrorMet(j: Job, s: PState, a: Action): Option<CatalogError>
    requires |s.phases| == |j.tasks|
  {
    if !Enabled(j, s, a) then None
    else
      match a
      case Interrupt(i) => Some(Interrupted)
      case Step(i) =>
        (match s.phases[i]
         case Missed(_) =>
           (match j.env.world.upstream(j.tasks[i]) case Failed(msg) => Some(UpstreamError(msg)) case Ok(_) => None)
         case Arrived(now, list) =>
           (match Validate(NewEntry(j.env, j.tasks[i], now, list))
            case Some(why) => Some(CacheWrite(why))
            case None => None)
         case _ => None)
      case _ => None
  }

  lemma {:induction false} ErrorsGrow(j: Job, s: PState, a: Action)
    requires |s.phases| == |j.tasks|
    ensures Do(j, s, a).errs == s.errs + match ErrorMet(j, s, a) case Some(e) => [e] case None => []
  {
  }

  /** Prewarm's error holds the error of every failing step of the run, in the order of the steps,
      and nothing else; so also one of a call that a cancelled context cut short. */
  lemma {:induction false} ErrorsExactly(j: Job, s: PState, schedule: seq<Action>)
    requires |s.phases| == |j.tasks|
    ensures Reached(j, s, schedule).errs == s.errs + ErrorsMet(j, s, schedule)
    decreases |schedule|
  {
    if schedule != [] {
      var before, a := schedule[..|schedule| - 1], schedule[|schedule| - 1];
      ErrorsExactly(j, s, before);
      ErrorsGrow(j, Reached(j, s, before), a);
    }
  }

  function ErrorsMet(j: Job, s: PState, schedule: seq<Action>): seq<CatalogError>
    requires |s.phases| == |j.tasks|
    decreases |schedule|
  {
    if schedule == [] then []
    else
      var before, a := schedule[..|schedule| - 1], schedule[|schedule| - 1];
      ErrorsMet(j, s, before) + match ErrorMet(j, Reached(j, s, before), a) case Some(e) => [e] case None => []
  }
}
