/** pkg/catalog/prewarm.go, Prewarm: which reading of the clock a task can make. */
module PrewarmTurns {
  import opened Cache
  import opened PrewarmSteps

  predicate HasRead(p: Phase) { !p.Pending? && !p.Started? && !p.Entered? }

  function OneIfRead(): Phase -> nat { (p: Phase) => if HasRead(p) then 1 else 0 }

  /** Reading n, counted from the start of the run, can be that of task i: of the tasks
      before it at most slots - 1 can still be waiting to read. */
  predicate TurnOf(j: Job, i: nat, n: int) { 0 <= n < |j.tasks| && i - n < j.slots }

  function ReadingAt(j: Job, s0: CState, n: nat): int { j.env.clock(s0.ticks + n) }

  ghost predicate Reads(j: Job, s0: CState, i: nat, now: int) {
    exists n: nat :: TurnOf(j, i, n) && now == ReadingAt(j, s0, n)
  }

  ghost predicate InTime(j: Job, s0: CState, i: nat, p: Phase) {
    match p
    case Clocked(now) => Reads(j, s0, i, now)
    case Missed(now) => Reads(j, s0, i, now)
    case Arrived(now, _) => Reads(j, s0, i, now)
    case _ => true
  }

  /** The clock is read once per task, each time in its turn. */
  ghost predicate Timely(j: Job, s0: CState, s: PState) {
    && |s.phases| == |j.tasks| && s.ticks == s0.ticks + Total(OneIfRead(), s.phases)
    && forall i | 0 <= i < |j.tasks| :: InTime(j, s0, i, s.phases[i])
  }

  // ---------- counting readings ----------

  lemma {:induction false} NotAllRead(ps: seq<Phase>, i: nat)
    requires i < |ps| && !HasRead(ps[i])
    ensures Total(OneIfRead(), ps) < |ps|
  {
    TotalUpdate(OneIfRead(), ps, i, Over(true));
    AtMostOneEach(ps[i := Over(true)]);
  }

  lemma {:induction false} AtMostOneEach(ps: seq<Phase>)
    ensures Total(OneIfRead(), ps) <= |ps|
  {
    if ps != [] { AtMostOneEach(ps[..|ps| - 1]); }
  }

  /** A task that was spawned has read the clock or holds a slot. */
  lemma {:induction false} ReadOrBusy(ps: seq<Phase>, next: nat)
    requires next <= |ps| && forall k | 0 <= k < next :: !ps[k].Pending?
    ensures Total(OneIfRead(), ps) + Total(OneIfBusy(), ps) >= next
  {
    if ps != [] {
      var front := ps[..|ps| - 1];
      assert forall k | 0 <= k < |front| :: front[k] == ps[k];
      ReadOrBusy(front, if next < |ps| then next else |ps| - 1);
    }
  }

  lemma {:induction false} InItsTurn(j: Job, s: PState, i: nat)
    requires Orderly(j, s) && i < |j.tasks| && s.phases[i].Entered?
    ensures TurnOf(j, i, Total(OneIfRead(), s.phases))
  {
    NotAllRead(s.phases, i);
    ReadOrBusy(s.phases, s.next);
  }

  // ---------- every run is timely ----------

  lemma {:induction false} StartTimely(j: Job, s0: CState, fetched: seq<Request>)
    ensures Timely(j, s0, Start(j, s0, fetched))
  {
    TotalZero(OneIfRead(), Start(j, s0, fetched).phases);
  }

  lemma {:induction false} StepReads(j: Job, s: PState, i: nat)
    requires |s.phases| == |j.tasks| && i < |j.tasks| && Busy(s.phases[i]) && !s.cancelled
    ensures var t := DoStep(j, s, i);
      t.ticks == s.ticks + OneIfRead()(t.phases[i]) - OneIfRead()(s.phases[i])
  {
  }

  lemma {:induction false} StepInTime(j: Job, s0: CState, s: PState, i: nat)
    requires Timely(j, s0, s) && Orderly(j, s) && i < |j.tasks| && Busy(s.phases[i]) && !s.cancelled
    ensures InTime(j, s0, i, DoStep(j, s, i).phases[i])
  {
    assert InTime(j, s0, i, s.phases[i]);
    if s.phases[i].Entered? {
      InItsTurn(j, s, i);
      assert j.env.clock(s.ticks) == ReadingAt(j, s0, Total(OneIfRead(), s.phases));
    }
  }

  lemma {:induction false} TimelySpawn(j: Job, s0: CState, s: PState)
    requires Timely(j, s0, s) && Orderly(j, s) && !s.main.AtWait?
    ensures Timely(j, s0, DoSpawn(j, s))
  {
    if s.main.AtAcquire? { TotalUpdate(OneIfRead(), s.phases, s.next, Started); }
  }

  lemma {:induction false} TimelyKept(j: Job, s0: CState, s: PState, a: Action)
    requires Timely(j, s0, s) && Orderly(j, s) && !s.cancelled && a != Cancel
    ensures Timely(j, s0, Do(j, s, a))
  {
    if Enabled(j, s, a) {
      match a
      case Spawn => TimelySpawn(j, s0, s);
      case Step(i) =>
        var t := DoStep(j, s, i);
        StepPhase(j, s, i);
        TotalUpdate(OneIfRead(), s.phases, i, t.phases[i]);
        StepReads(j, s, i);
        StepInTime(j, s0, s, i);
    }
  }
}
