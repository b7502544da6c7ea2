/** pkg/catalog/prewarm.go, Prewarm: what becomes of each planned list, whatever the
    schedule, from whatever store, with keys that collide or not. */
module PrewarmFates {
  import opened Entries
  import opened Cache
  import opened PrewarmSteps
  import opened PrewarmTurns
  import opened PrewarmEnd

  function KeyAt(j: Job, i: nat): string
    requires i < |j.tasks|
  {
    Key(j.env.world.cfg, j.tasks[i])
  }

  ghost predicate SameAt(a: map<string, Entry>, b: map<string, Entry>, key: string) {
    (key in a <==> key in b) && (key in a ==> a[key] == b[key])
  }

  predicate Past(p: Phase) { p.Leaving? || p.Over? }

  function Sent(env: Env, r: Request): List {
    match env.world.upstream(r) case Ok(list) => list case Failed(_) => Absent
  }

  /** What a fetch of r at time now leaves in the store. */
  function Fresh(env: Env, r: Request, now: int): Entry { Kept(env, NewEntry(env, r, now, Sent(env, r))) }

  // ---------- the store it began with ----------

  /** At reading n the store the run began with answers task i. */
  predicate FindsAt(j: Job, s0: CState, i: nat, n: nat)
    requires i < |j.tasks|
  {
    Cached(j.env, s0.view, j.tasks[i], ReadingAt(j, s0, n)).Present?
  }

  /** In some turn of task i it does. */
  ghost predicate MayFind(j: Job, s0: CState, i: nat)
    requires i < |j.tasks|
  {
    exists n: nat :: TurnOf(j, i, n) && FindsAt(j, s0, i, n)
  }

  /** In some turn of task i it does not. */
  ghost predicate MayMiss(j: Job, s0: CState, i: nat)
    requires i < |j.tasks|
  {
    exists n: nat :: TurnOf(j, i, n) && !FindsAt(j, s0, i, n)
  }

  lemma {:induction false} FoundOrMissed(j: Job, s0: CState, i: nat, now: int)
    requires i < |j.tasks| && Reads(j, s0, i, now)
    ensures if Cached(j.env, s0.view, j.tasks[i], now).Present? then MayFind(j, s0, i) else MayMiss(j, s0, i)
  {
    var n: nat :| TurnOf(j, i, n) && now == ReadingAt(j, s0, n);
    assert FindsAt(j, s0, i, n) == Cached(j.env, s0.view, j.tasks[i], now).Present?;
  }

  // ---------- one task ----------

  /** What task i stored is under its key. */
  ghost predicate StoredIn(j: Job, s0: CState, view: map<string, Entry>, i: nat)
    requires i < |j.tasks|
  {
    Obtainable(j.env, j.tasks[i]) && KeyAt(j, i) in view &&
    exists n: nat :: TurnOf(j, i, n) && view[KeyAt(j, i)] == Fresh(j.env, j.tasks[i], ReadingAt(j, s0, n))
  }

  /** No other task stores under the key of task i. */
  predicate Own(j: Job, i: nat)
    requires i < |j.tasks|
  {
    forall k | 0 <= k < |j.tasks| && k != i && Obtainable(j.env, j.tasks[k]) :: KeyAt(j, k) != KeyAt(j, i)
  }

  /** How a task that ended with ok left things: one that upstream answers completes; another
      only if it found its list, which was there from the start. If its key is its own, what
      is there is what was there, and it found it, or what it fetched after missing it. */
  ghost predicate Ended(j: Job, s0: CState, view: map<string, Entry>, i: nat, ok: bool)
    requires i < |j.tasks|
  {
    && (ok ==> Obtainable(j.env, j.tasks[i]) || MayFind(j, s0, i))
    && (!ok ==> !Obtainable(j.env, j.tasks[i]))
    && (Own(j, i) ==>
      if ok then
        || (SameAt(s0.view, view, KeyAt(j, i)) && MayFind(j, s0, i))
        || (StoredIn(j, s0, view, i) && MayMiss(j, s0, i))
      else SameAt(s0.view, view, KeyAt(j, i)) && MayMiss(j, s0, i))
  }

  ghost predicate TaskAt(j: Job, s0: CState, view: map<string, Entry>, i: nat, p: Phase)
    requires i < |j.tasks|
  {
    match p
    case Missed(now) => Own(j, i) ==> !Cached(j.env, s0.view, j.tasks[i], now).Present?
    case Arrived(now, _) => Own(j, i) ==> !Cached(j.env, s0.view, j.tasks[i], now).Present?
    case Leaving(ok) => Ended(j, s0, view, i, ok)
    case Over(ok) => Ended(j, s0, view, i, ok)
    case _ => true
  }

  // ---------- all of them ----------

  ghost predicate StoredBySome(j: Job, s0: CState, view: map<string, Entry>, phases: seq<Phase>, key: string)
    requires |phases| == |j.tasks|
  {
    exists t :: 0 <= t < |j.tasks| && Past(phases[t]) && KeyAt(j, t) == key && StoredIn(j, s0, view, t)
  }

  /** Under every key there is what there was, or what a task past its store put there. */
  ghost predicate Accounted(j: Job, s0: CState, view: map<string, Entry>, phases: seq<Phase>)
    requires |phases| == |j.tasks|
  {
    forall key :: SameAt(s0.view, view, key) || StoredBySome(j, s0, view, phases, key)
  }

  ghost predicate Told(j: Job, s0: CState, s: PState) {
    && Timely(j, s0, s) && Accounted(j, s0, s.view, s.phases)
    && forall i | 0 <= i < |j.tasks| :: TaskAt(j, s0, s.view, i, s.phases[i])
  }

  /** An uncancelled run begun in s0 may be in s. */
  ghost predicate Runs(j: Job, s0: CState, s: PState) {
    Told(j, s0, s) && Genuine(j, s) && Orderly(j, s) && !s.cancelled
  }

  lemma {:induction false} OwnUntouched(j: Job, s0: CState, view: map<string, Entry>, phases: seq<Phase>, i: nat)
    requires |phases| == |j.tasks| && Accounted(j, s0, view, phases) && i < |j.tasks| && Own(j, i) && !Past(phases[i])
    ensures SameAt(s0.view, view, KeyAt(j, i))
  {
    assert SameAt(s0.view, view, KeyAt(j, i)) || StoredBySome(j, s0, view, phases, KeyAt(j, i));
  }

  lemma {:induction false} FreshReads(env: Env, r: Request, now: int, slot: Slot)
    requires slot != SlotOf(r)
    ensures Fresh(env, r, now).result.Some? && Read(Fresh(env, r, now).result.value, slot) == Absent
  {
    WriteRead(SlotOf(r), SortList(Sent(env, r)), slot);
    OnDiskRead(Write(SlotOf(r), SortList(Sent(env, r))), slot);
  }

  lemma {:induction false} OtherSlot(cfg: Config, r: Request, q: Request)
    requires Key(cfg, r) == Key(cfg, q) && r != q
    ensures SlotOf(r) != SlotOf(q)
  {
    if SlotOf(r) == SlotOf(q) { KeyAndSlot(cfg, r, q); }
  }

  /** A list that was not there is not to be found in what another task stored. */
  lemma {:induction false} NotAnothers(j: Job, s0: CState, view: map<string, Entry>, t: nat, r: Request, now: int)
    requires t < |j.tasks| && StoredIn(j, s0, view, t) && KeyAt(j, t) == Key(j.env.world.cfg, r) && r != j.tasks[t]
    ensures !Cached(j.env, view, r, now).Present?
  {
    OtherSlot(j.env.world.cfg, r, j.tasks[t]);
    var n: nat :| TurnOf(j, t, n) && view[KeyAt(j, t)] == Fresh(j.env, j.tasks[t], ReadingAt(j, s0, n));
    FreshReads(j.env, j.tasks[t], ReadingAt(j, s0, n), SlotOf(r));
  }

  lemma {:induction false} CachedSame(env: Env, a: map<string, Entry>, b: map<string, Entry>, r: Request, now: int)
    requires SameAt(a, b, Key(env.world.cfg, r))
    ensures Cached(env, a, r, now) == Cached(env, b, r, now)
  {
  }

  /** A list upstream refuses, if found, was there from the start. */
  lemma {:induction false} RefusedFound(j: Job, s0: CState, view: map<string, Entry>, phases: seq<Phase>, i: nat,
      now: int)
    requires |phases| == |j.tasks| && Accounted(j, s0, view, phases) && i < |j.tasks| && !Obtainable(j.env, j.tasks[i])
    requires Cached(j.env, view, j.tasks[i], now).Present?
    ensures Cached(j.env, s0.view, j.tasks[i], now).Present?
  {
    if SameAt(s0.view, view, KeyAt(j, i)) {
      CachedSame(j.env, s0.view, view, j.tasks[i], now);
    } else {
      var t :| 0 <= t < |j.tasks| && Past(phases[t]) && KeyAt(j, t) == KeyAt(j, i) && StoredIn(j, s0, view, t);
      NotAnothers(j, s0, view, t, j.tasks[i], now);
    }
  }

  // ---------- steps ----------

  lemma {:induction false} LookEnds(j: Job, s0: CState, s: PState, i: nat, now: int)
    requires Told(j, s0, s) && i < |j.tasks| && s.phases[i] == Clocked(now)
    ensures TaskAt(j, s0, s.view, i, DoStep(j, s, i).phases[i])
  {
    assert InTime(j, s0, i, s.phases[i]);
    FoundOrMissed(j, s0, i, now);
    if Own(j, i) {
      OwnUntouched(j, s0, s.view, s.phases, i);
      CachedSame(j.env, s0.view, s.view, j.tasks[i], now);
    }
    if Cached(j.env, s.view, j.tasks[i], now).Present? && !Obtainable(j.env, j.tasks[i]) {
      RefusedFound(j, s0, s.view, s.phases, i, now);
    }
  }

  lemma {:induction false} RefusalEnds(j: Job, s0: CState, s: PState, i: nat, now: int)
    requires Told(j, s0, s) && i < |j.tasks| && s.phases[i] == Missed(now)
    ensures TaskAt(j, s0, s.view, i, DoStep(j, s, i).phases[i])
  {
    assert InTime(j, s0, i, s.phases[i]) && TaskAt(j, s0, s.view, i, s.phases[i]);
    FoundOrMissed(j, s0, i, now);
    if Own(j, i) { OwnUntouched(j, s0, s.view, s.phases, i); }
  }

  lemma {:induction false} StoreEnds(j: Job, s0: CState, s: PState, i: nat, now: int, list: List)
    requires Told(j, s0, s) && Genuine(j, s) && RealClock(j.env) && i < |j.tasks| && s.phases[i] == Arrived(now, list)
    ensures TaskAt(j, s0, DoStep(j, s, i).view, i, DoStep(j, s, i).phases[i])
    ensures if Obtainable(j.env, j.tasks[i]) then StoredIn(j, s0, DoStep(j, s, i).view, i)
            else DoStep(j, s, i).view == s.view
  {
    assert InTime(j, s0, i, s.phases[i]) && TaskAt(j, s0, s.view, i, s.phases[i]);
    assert Carries(j.env, j.tasks[i], s.phases[i]);
    FoundOrMissed(j, s0, i, now);
    NewEntryValid(j.env, j.tasks[i], now, list);
    if Own(j, i) { OwnUntouched(j, s0, s.view, s.phases, i); }
    var n: nat :| TurnOf(j, i, n) && now == ReadingAt(j, s0, n);
    assert Obtainable(j.env, j.tasks[i]) ==>
      DoStep(j, s, i).view[KeyAt(j, i)] == Fresh(j.env, j.tasks[i], ReadingAt(j, s0, n));
  }

  lemma {:induction false} OwnStep(j: Job, s0: CState, s: PState, i: nat)
    requires Told(j, s0, s) && Genuine(j, s) && RealClock(j.env) && !s.cancelled && i < |j.tasks| && Busy(s.phases[i])
    ensures TaskAt(j, s0, DoStep(j, s, i).view, i, DoStep(j, s, i).phases[i])
  {
    assert TaskAt(j, s0, s.view, i, s.phases[i]);
    match s.phases[i]
    case Clocked(now) => LookEnds(j, s0, s, i, now);
    case Missed(now) => RefusalEnds(j, s0, s, i, now);
    case Arrived(now, list) => StoreEnds(j, s0, s, i, now, list);
    case _ =>
  }

  // ---------- the other tasks ----------

  lemma {:induction false} StepView(j: Job, s: PState, i: nat, key: string)
    requires Genuine(j, s) && i < |j.tasks| && Busy(s.phases[i])
    requires Obtainable(j.env, j.tasks[i]) ==> key != KeyAt(j, i)
    ensures SameAt(s.view, DoStep(j, s, i).view, key)
  {
    assert Carries(j.env, j.tasks[i], s.phases[i]);
    if s.phases[i].Arrived? { NewEntryValid(j.env, j.tasks[i], s.phases[i].now, s.phases[i].list); }
  }

  lemma {:induction false} EndedFrame(j: Job, s0: CState, a: map<string, Entry>, b: map<string, Entry>, i: nat,
      ok: bool)
    requires i < |j.tasks| && Ended(j, s0, a, i, ok) && (Own(j, i) ==> SameAt(a, b, KeyAt(j, i)))
    ensures Ended(j, s0, b, i, ok)
  {
  }

  lemma {:induction false} OtherStep(j: Job, s0: CState, s: PState, i: nat, k: nat)
    requires Told(j, s0, s) && Genuine(j, s) && i < |j.tasks| && Busy(s.phases[i]) && k < |j.tasks| && k != i
    ensures TaskAt(j, s0, DoStep(j, s, i).view, k, s.phases[k])
  {
    assert TaskAt(j, s0, s.view, k, s.phases[k]);
    if Own(j, k) { StepView(j, s, i, KeyAt(j, k)); }
    match s.phases[k]
    case Leaving(ok) => EndedFrame(j, s0, s.view, DoStep(j, s, i).view, k, ok);
    case Over(ok) => EndedFrame(j, s0, s.view, DoStep(j, s, i).view, k, ok);
    case _ =>
  }

  lemma {:induction false} StillStored(j: Job, s0: CState, a: map<string, Entry>, b: map<string, Entry>, ps: seq<Phase>,
      qs: seq<Phase>, key: string)
    requires |ps| == |qs| == |j.tasks| && forall k | 0 <= k < |ps| :: Past(ps[k]) ==> Past(qs[k])
    requires SameAt(a, b, key) && (SameAt(s0.view, a, key) || StoredBySome(j, s0, a, ps, key))
    ensures SameAt(s0.view, b, key) || StoredBySome(j, s0, b, qs, key)
  {
    if !SameAt(s0.view, a, key) {
      var t :| 0 <= t < |j.tasks| && Past(ps[t]) && KeyAt(j, t) == key && StoredIn(j, s0, a, t);
      assert StoredIn(j, s0, b, t);
    }
  }

  lemma {:induction false} PastStays(j: Job, s: PState, i: nat)
    requires |s.phases| == |j.tasks| && i < |j.tasks| && Busy(s.phases[i])
    ensures forall k | 0 <= k < |j.tasks| :: Past(s.phases[k]) ==> Past(DoStep(j, s, i).phases[k])
  {
    StepPhase(j, s, i);
  }

  lemma {:induction false} StepAccounted(j: Job, s0: CState, s: PState, i: nat)
    requires Told(j, s0, s) && Genuine(j, s) && RealClock(j.env) && i < |j.tasks| && Busy(s.phases[i])
    ensures var t := DoStep(j, s, i); |t.phases| == |j.tasks| && Accounted(j, s0, t.view, t.phases)
  {
    var t := DoStep(j, s, i);
    PastStays(j, s, i);
    StepPhase(j, s, i);
    forall key ensures SameAt(s0.view, t.view, key) || StoredBySome(j, s0, t.view, t.phases, key) {
      if s.phases[i].Arrived? && Obtainable(j.env, j.tasks[i]) && key == KeyAt(j, i) {
        StoreEnds(j, s0, s, i, s.phases[i].now, s.phases[i].list);
        assert Past(t.phases[i]);
      } else {
        QuietKey(j, s, i, key);
        StillStored(j, s0, s.view, t.view, s.phases, t.phases, key);
      }
    }
  }

  lemma {:induction false} QuietKey(j: Job, s: PState, i: nat, key: string)
    requires Genuine(j, s) && i < |j.tasks| && Busy(s.phases[i])
    requires !(s.phases[i].Arrived? && Obtainable(j.env, j.tasks[i]) && key == KeyAt(j, i))
    ensures SameAt(s.view, DoStep(j, s, i).view, key)
  {
    if s.phases[i].Arrived? { StepView(j, s, i, key); }
  }

  lemma {:induction false} StepTold(j: Job, s0: CState, s: PState, i: nat)
    requires Runs(j, s0, s) && RealClock(j.env) && i < |j.tasks| && Busy(s.phases[i])
    ensures Told(j, s0, DoStep(j, s, i))
  {
    var t := DoStep(j, s, i);
    StepPhase(j, s, i);
    TimelyKept(j, s0, s, Step(i));
    StepAccounted(j, s0, s, i);
    forall k | 0 <= k < |j.tasks| ensures TaskAt(j, s0, t.view, k, t.phases[k]) {
      if k == i { OwnStep(j, s0, s, i); } else { OtherStep(j, s0, s, i, k); }
    }
  }

  lemma {:induction false} SpawnTold(j: Job, s0: CState, s: PState)
    requires Runs(j, s0, s) && !s.main.AtWait?
    ensures Told(j, s0, DoSpawn(j, s))
  {
    var t := DoSpawn(j, s);
    TimelySpawn(j, s0, s);
    forall k | 0 <= k < |j.tasks|
      ensures TaskAt(j, s0, t.view, k, t.phases[k]) && (Past(s.phases[k]) ==> Past(t.phases[k]))
    {
      assert TaskAt(j, s0, s.view, k, s.phases[k]);
    }
    forall key ensures SameAt(s0.view, t.view, key) || StoredBySome(j, s0, t.view, t.phases, key) {
      StillStored(j, s0, s.view, t.view, s.phases, t.phases, key);
    }
  }

  lemma {:induction false} RunsOn(j: Job, s0: CState, s: PState, a: Action)
    requires Runs(j, s0, s) && RealClock(j.env) && a != Cancel
    ensures Runs(j, s0, Do(j, s, a))
  {
    GenuineKept(j, s, a);
    OrderlyKept(j, s, a);
    if Enabled(j, s, a) {
      match a
      case Spawn => SpawnTold(j, s0, s);
      case Step(i) =>
        StepPhase(j, s, i);
        StepTold(j, s0, s, i);
    }
  }

  /** So wherever an uncancelled schedule leads, the run can be there. */
  lemma {:induction false} RunsAlways(j: Job, s0: CState, s: PState, schedule: seq<Action>)
    requires Runs(j, s0, s) && RealClock(j.env) && Cancel !in schedule
    ensures Runs(j, s0, Reached(j, s, schedule))
    decreases |schedule|
  {
    if schedule != [] {
      RunsAlways(j, s0, s, schedule[..|schedule| - 1]);
      RunsOn(j, s0, Reached(j, s, schedule[..|schedule| - 1]), schedule[|schedule| - 1]);
    }
  }

  lemma {:induction false} StartRuns(j: Job, s0: CState, fetched: seq<Request>)
    requires Faithful(j.env, s0.view)
    ensures Runs(j, s0, Start(j, s0, fetched))
  {
    StartTimely(j, s0, fetched);
    StartGenuine(j, s0, fetched);
  }
}
