/** pkg/catalog/prewarm.go, Prewarm: exactly when every schedule leaves the same store,
    from any store, keys that collide and entries that expire meanwhile included. */
module PrewarmCollide {
  import opened Common
  import opened Entries
  import opened Cache
  import opened Plan
  import opened PrewarmSteps
  import opened PrewarmTurns
  import opened PrewarmEnd
  import opened PrewarmFates
  import opened PrewarmOutcome
  import opened PrewarmOneSlot
  import opened PrewarmSchedules

  ghost predicate OneOutcome(j: Job, s: PState)
    requires |s.phases| == |j.tasks|
  {
    forall a, b | Ends(j, s, a) && Ends(j, s, b) :: SameButTimes(Reached(j, s, a).view, Reached(j, s, b).view)
  }

  // ---------- an entry that expires meanwhile ----------

  /** A task whose key is its own, run alone in turn n. */
  lemma {:induction false} AloneInTurn(j: Job, s0: CState, s: PState, i: nat, n: nat)
    requires Runs(j, s0, s) && RealClock(j.env) && i < |j.tasks| && s.phases[i].Started? && s.ticks == s0.ticks + n
    requires Own(j, i) && Obtainable(j.env, j.tasks[i])
    ensures var t := Reached(j, s, Alone(i, 6));
      Runs(j, s0, t) && t.phases[i].Over? && DecidedAt(j, s0, t.view, i, n)
  {
    RunAlone(j, s, i);
    AloneOnlySteps(i, 6);
    RunsAlways(j, s0, s, Alone(i, 6));
    OwnUntouched(j, s0, s.view, s.phases, i);
    LookupLeaves(j.env, Shown(s), j.tasks[i]);
    LeftInTurn(j, s0, Shown(s), i, n, Lookup(j.env, Shown(s), j.tasks[i]).1.view);
  }

  lemma {:induction false} LeftInTurn(j: Job, s0: CState, s: CState, i: nat, n: nat, view: map<string, Entry>)
    requires i < |j.tasks| && s.ticks == s0.ticks + n && SameAt(s0.view, s.view, KeyAt(j, i))
    requires view == if !Misses(j.env, s, j.tasks[i]) then s.view
                     else s.view[KeyAt(j, i) := Fresh(j.env, j.tasks[i], j.env.clock(s.ticks))]
    ensures DecidedAt(j, s0, view, i, n)
  {
    MissesInTurn(j, s0, s, i, n);
    if FindsAt(j, s0, i, n) {
      assert view == s.view;
    } else {
      assert j.env.clock(s.ticks) == ReadingAt(j, s0, n);
    }
  }

  lemma {:induction false} LookupLeaves(env: Env, s: CState, r: Request)
    requires Obtainable(env, r) && RealClock(env)
    ensures Lookup(env, s, r).1.view ==
      if Misses(env, s, r) then s.view[Key(env.world.cfg, r) := Fresh(env, r, env.clock(s.ticks))] else s.view
  {
    if Misses(env, s, r) { LookupStores(env, s, r); }
  }

  lemma {:induction false} MissesInTurn(j: Job, s0: CState, s: CState, i: nat, n: nat)
    requires i < |j.tasks| && s.ticks == s0.ticks + n && SameAt(s0.view, s.view, KeyAt(j, i))
    ensures Misses(j.env, s, j.tasks[i]) <==> !FindsAt(j, s0, i, n)
  {
    CachedSame(j.env, s0.view, s.view, j.tasks[i], ReadingAt(j, s0, n));
  }

  lemma {:induction false} LookupStores(env: Env, s: CState, r: Request)
    requires Misses(env, s, r) && Obtainable(env, r) && RealClock(env)
    ensures Lookup(env, s, r).1.view == s.view[Key(env.world.cfg, r) := Fresh(env, r, env.clock(s.ticks))]
  {
    LookupFresh(env, s, r);
  }

  /** What is under the key of task i is what was there if that answers at reading n, and
      what a fetch then leaves if not. */
  ghost predicate DecidedAt(j: Job, s0: CState, view: map<string, Entry>, i: nat, n: nat)
    requires i < |j.tasks|
  {
    var key := KeyAt(j, i);
    if FindsAt(j, s0, i, n) then SameAt(s0.view, view, key)
    else key in view && view[key] == Fresh(j.env, j.tasks[i], ReadingAt(j, s0, n))
  }

  /** Any turn of a task whose key is its own may decide what is under that key. */
  lemma {:induction false} TurnDecides(j: Job, s0: CState, fetched: seq<Request>, i: nat, n: nat)
      returns (schedule: seq<Action>)
    requires TurnOf(j, i, n) && i < |j.tasks| && j.slots >= 2 && Faithful(j.env, s0.view) && RealClock(j.env)
    requires Own(j, i) && Obtainable(j.env, j.tasks[i])
    ensures Ends(j, Start(j, s0, fetched), schedule)
    ensures DecidedAt(j, s0, Reached(j, Start(j, s0, fetched), schedule).view, i, n)
  {
    var start := Start(j, s0, fetched);
    var first := TurnComes(j, s0, fetched, i, n);
    var s := Reached(j, start, first);
    AloneInTurn(j, s0, s, i, n);
    var t := Reached(j, s, Alone(i, 6));
    var rest := Finishing(j, t);
    OwnKeyStays(j, s0, t, i, rest);
    AloneOnlySteps(i, 6);
    schedule := first + (Alone(i, 6) + rest);
    ReachedConcat(j, s, Alone(i, 6), rest);
    ReachedConcat(j, start, first, Alone(i, 6) + rest);
  }

  lemma {:induction false} DecidedApart(j: Job, s0: CState, a: map<string, Entry>, b: map<string, Entry>, i: nat,
      n: nat, m: nat)
    requires i < |j.tasks| && TurnOf(j, i, n) && TurnOf(j, i, m) && FindsAt(j, s0, i, n) && !FindsAt(j, s0, i, m)
    requires !Indifferent(j, s0, i) && DecidedAt(j, s0, a, i, n) && DecidedAt(j, s0, b, i, m)
    ensures !SameButTimes(a, b)
  {
    var key, r := KeyAt(j, i), j.tasks[i];
    assert Timeless(Fresh(j.env, r, ReadingAt(j, s0, m))) == Timeless(Fresh(j.env, r, 0));
    assert key in a && Timeless(a[key]) != Timeless(b[key]);
  }

  /** With two slots or more, an entry of a task's own that may be found or missed, and
      differs from what a fetch leaves, makes two schedules leave different stores. */
  lemma {:induction false} ExpirySchedulesDiffer(j: Job, s0: CState, fetched: seq<Request>, i: nat)
    requires Faithful(j.env, s0.view) && RealClock(j.env) && j.slots >= 2 && i < |j.tasks|
    requires Own(j, i) && !Indifferent(j, s0, i)
    ensures !OneOutcome(j, Start(j, s0, fetched))
  {
    var n: nat :| TurnOf(j, i, n) && FindsAt(j, s0, i, n);
    var m: nat :| TurnOf(j, i, m) && !FindsAt(j, s0, i, m);
    var a := TurnDecides(j, s0, fetched, i, n);
    var b := TurnDecides(j, s0, fetched, i, m);
    var s := Start(j, s0, fetched);
    DecidedApart(j, s0, Reached(j, s, a).view, Reached(j, s, b).view, i, n, m);
    assert Ends(j, s, a) && Ends(j, s, b);
  }

  /** An input: a file store written under a TTL of one second, a clock that reads two
      seconds later each time, and two slots. The first task keeps the old entry if it reads
      first, and replaces it if it reads second. */
  lemma {:induction false} ExpiryChangesStore(cfg: Config)
    requires cfg.promSource != "" && Ttl(cfg) >= 2 * SECOND
    ensures var j := ExpiryJob(cfg);
      Faithful(j.env, ExpiryStore(cfg).view) && RealClock(j.env) && Uncontested(j)
      && !OneOutcome(j, Start(j, ExpiryStore(cfg), []))
  {
    ExpiryFaithful(cfg);
    ExpiryOwn(cfg);
    ExpiryTurns(cfg);
    ExpirySchedulesDiffer(ExpiryJob(cfg), ExpiryStore(cfg), [], 0);
  }

  lemma {:induction false} ExpiryFaithful(cfg: Config)
    ensures Faithful(ExpiryJob(cfg).env, ExpiryStore(cfg).view)
  {
    var env, e := ExpiryJob(cfg).env, ExpiryStore(cfg).view[Key(cfg, MetricNames)];
    NewEntryHolds(env, MetricNames, 1, Present([]));
    assert Holds(env, e, MetricNames);
    assert KeptForSome(env, Key(cfg, MetricNames), e);
  }

  lemma {:induction false} ExpiryOwn(cfg: Config)
    requires cfg.promSource != ""
    ensures Uncontested(ExpiryJob(cfg)) && Own(ExpiryJob(cfg), 0)
  {
    KeysCollide(cfg, MetricNames, MetricLabels("up"));
  }

  lemma {:induction false} ExpiryTurns(cfg: Config)
    requires cfg.promSource != "" && Ttl(cfg) >= 2 * SECOND
    ensures !Indifferent(ExpiryJob(cfg), ExpiryStore(cfg), 0)
  {
    var j, s0 := ExpiryJob(cfg), ExpiryStore(cfg);
    ExpiryFinds(cfg, 0);
    ExpiryFinds(cfg, 1);
    assert TurnOf(j, 0, 0) && TurnOf(j, 0, 1);
    assert Timeless(Fresh(j.env, MetricNames, 0)).ttlSeconds >= 2;
  }

  lemma {:induction false} ExpiryFinds(cfg: Config, n: nat)
    ensures FindsAt(ExpiryJob(cfg), ExpiryStore(cfg), 0, n) <==> n == 0
  {
    var j, s0 := ExpiryJob(cfg), ExpiryStore(cfg);
    assert ReadingAt(j, s0, n) == 1 + n * 2 * SECOND;
    WriteRead(MetricNamesSlot, SortList(Present([])), MetricNamesSlot);
    assert Lifetime(1) == SECOND;
  }

  function ExpiryJob(cfg: Config): Job {
    Job(Env(World(cfg, (r: Request) => Ok(Present([]))), (n: nat) => 1 + n * 2 * SECOND, false),
        [MetricNames, MetricLabels("up")], 2)
  }

  function ExpiryStore(cfg: Config): CState {
    var e := NewEntry(ExpiryJob(cfg).env, MetricNames, 1, Present([]));
    CState(map[Key(cfg, MetricNames) := e.(ttlSeconds := 1)], 0)
  }

  // ---------- keys that collide ----------

  ghost predicate EachOnce(tasks: seq<Request>) { forall i, k | 0 <= i < k < |tasks| :: tasks[i] != tasks[k] }

  lemma {:induction false} OnceOnly(tasks: seq<Request>, i: nat, k: nat)
    requires EachOnce(tasks) && i < |tasks| && k < |tasks| && i != k
    ensures tasks[i] != tasks[k]
  {
    assert i < k || k < i;
  }

  /** Where a task that upstream answers is past, the store has no list for a rival of its
      key that is not: the task found its own list there, or stored it. */
  ghost predicate RivalsGone(j: Job, s: PState)
    requires |s.phases| == |j.tasks|
  {
    forall m, q | 0 <= m < |j.tasks| && 0 <= q < |j.tasks| && m != q :: RivalGone(j, s, m, q)
  }

  ghost predicate RivalGone(j: Job, s: PState, m: nat, q: nat)
    requires |s.phases| == |j.tasks| && m < |j.tasks| && q < |j.tasks|
  {
    !Past(s.phases[m]) && Past(s.phases[q]) && Obtainable(j.env, j.tasks[q]) && KeyAt(j, m) == KeyAt(j, q) ==>
      !Readable(j.env, s.view, j.tasks[m])
  }

  /** An entry holds the list of one request alone. */
  lemma {:induction false} OneReadable(env: Env, view: map<string, Entry>, r: Request, q: Request)
    requires Faithful(env, view) && Key(env.world.cfg, r) == Key(env.world.cfg, q) && Readable(env, view, r) && r != q
    ensures !Readable(env, view, q)
  {
    var key := Key(env.world.cfg, r);
    OtherSlot(env.world.cfg, r, q);
    var p :| Key(env.world.cfg, p) == key && Holds(env, view[key], p);
    assert Read(view[key].result.value, SlotOf(r)).Present?;
  }

  lemma {:induction false} FreshNotReadable(env: Env, view: map<string, Entry>, r: Request, q: Request, now: int)
    requires Key(env.world.cfg, r) == Key(env.world.cfg, q) && r != q
    requires Key(env.world.cfg, r) in view && view[Key(env.world.cfg, r)] == Fresh(env, r, now)
    ensures !Readable(env, view, q)
  {
    OtherSlot(env.world.cfg, r, q);
    FreshReads(env, r, now, SlotOf(q));
  }

  /** The task that takes the step is q, the one past. */
  lemma {:induction false} RivalOfStepper(j: Job, s: PState, m: nat, i: nat)
    requires Genuine(j, s) && RealClock(j.env) && !s.cancelled && EachOnce(j.tasks)
    requires m < |j.tasks| && i < |j.tasks| && m != i && Busy(s.phases[i]) && RivalGone(j, s, m, i)
    ensures |DoStep(j, s, i).phases| == |j.tasks| && RivalGone(j, DoStep(j, s, i), m, i)
  {
    StepPhase(j, s, i);
    OnceOnly(j.tasks, m, i);
    if Obtainable(j.env, j.tasks[i]) && KeyAt(j, m) == KeyAt(j, i) {
      match s.phases[i]
      case Clocked(now) =>
        if Cached(j.env, s.view, j.tasks[i], now).Present? { OneReadable(j.env, s.view, j.tasks[i], j.tasks[m]); }
      case Arrived(now, list) =>
        assert Carries(j.env, j.tasks[i], s.phases[i]);
        NewEntryValid(j.env, j.tasks[i], now, list);
        FreshNotReadable(j.env, DoStep(j, s, i).view, j.tasks[i], j.tasks[m], now);
      case _ =>
    }
  }

  /** It is neither m nor q. */
  lemma {:induction false} RivalOfOther(j: Job, s: PState, m: nat, q: nat, i: nat)
    requires Genuine(j, s) && RealClock(j.env) && EachOnce(j.tasks) && m < |j.tasks| && q < |j.tasks| && m != q
    requires i < |j.tasks| && i != m && i != q && Busy(s.phases[i]) && RivalGone(j, s, m, q)
    ensures |DoStep(j, s, i).phases| == |j.tasks| && RivalGone(j, DoStep(j, s, i), m, q)
  {
    var t := DoStep(j, s, i);
    StepPhase(j, s, i);
    OnceOnly(j.tasks, m, i);
    if KeyAt(j, m) == KeyAt(j, i) && Obtainable(j.env, j.tasks[i]) && s.phases[i].Arrived? {
      assert Carries(j.env, j.tasks[i], s.phases[i]);
      NewEntryValid(j.env, j.tasks[i], s.phases[i].now, s.phases[i].list);
      FreshNotReadable(j.env, t.view, j.tasks[i], j.tasks[m], s.phases[i].now);
    } else {
      QuietKey(j, s, i, KeyAt(j, m));
    }
  }

  /** It is m, which is not past, before or after. */
  lemma {:induction false} RivalItself(j: Job, s: PState, m: nat, q: nat)
    requires |s.phases| == |j.tasks| && m < |j.tasks| && q < |j.tasks| && m != q && Busy(s.phases[m])
    requires RivalGone(j, s, m, q)
    ensures |DoStep(j, s, m).phases| == |j.tasks| && RivalGone(j, DoStep(j, s, m), m, q)
  {
    StepPhase(j, s, m);
    NotYetPast(j, s, m);
  }

  lemma {:induction false} NotYetPast(j: Job, s: PState, m: nat)
    requires |s.phases| == |j.tasks| && m < |j.tasks| && Busy(s.phases[m])
    ensures Past(DoStep(j, s, m).phases[m]) || DoStep(j, s, m).view == s.view
    ensures Past(s.phases[m]) ==> Past(DoStep(j, s, m).phases[m])
  {
  }

  lemma {:induction false} RivalsStep(j: Job, s: PState, i: nat)
    requires Genuine(j, s) && RealClock(j.env) && !s.cancelled && EachOnce(j.tasks) && RivalsGone(j, s)
    requires i < |j.tasks| && Busy(s.phases[i])
    ensures |DoStep(j, s, i).phases| == |j.tasks| && RivalsGone(j, DoStep(j, s, i))
  {
    StepPhase(j, s, i);
    forall m, q | 0 <= m < |j.tasks| && 0 <= q < |j.tasks| && m != q ensures RivalGone(j, DoStep(j, s, i), m, q) {
      assert RivalGone(j, s, m, q);
      if i == m {
        RivalItself(j, s, m, q);
      } else if i == q {
        RivalOfStepper(j, s, m, i);
      } else {
        RivalOfOther(j, s, m, q, i);
      }
    }
  }

  lemma {:induction false} RivalsKept(j: Job, s: PState, a: Action)
    requires Genuine(j, s) && Orderly(j, s) && RealClock(j.env) && !s.cancelled && EachOnce(j.tasks) && RivalsGone(j, s)
    requires a != Cancel
    ensures RivalsGone(j, Do(j, s, a))
  {
    if Enabled(j, s, a) {
      match a
      case Spawn =>
        var t := DoSpawn(j, s);
        forall m, q | 0 <= m < |j.tasks| && 0 <= q < |j.tasks| && m != q ensures RivalGone(j, t, m, q) {
          assert RivalGone(j, s, m, q);
        }
      case Step(i) => RivalsStep(j, s, i);
    }
  }

  lemma {:induction false} RivalsAlways(j: Job, s0: CState, s: PState, schedule: seq<Action>)
    requires Runs(j, s0, s) && RealClock(j.env) && EachOnce(j.tasks) && RivalsGone(j, s) && Cancel !in schedule
    ensures RivalsGone(j, Reached(j, s, schedule))
    decreases |schedule|
  {
    if schedule != [] {
      RivalsAlways(j, s0, s, schedule[..|schedule| - 1]);
      RunsAlways(j, s0, s, schedule[..|schedule| - 1]);
      RivalsKept(j, Reached(j, s, schedule[..|schedule| - 1]), schedule[|schedule| - 1]);
    }
  }

  lemma {:induction false} RivalsFromStart(j: Job, s0: CState, fetched: seq<Request>, schedule: seq<Action>)
    requires Faithful(j.env, s0.view) && RealClock(j.env) && EachOnce(j.tasks) && Cancel !in schedule
    ensures RivalsGone(j, Reached(j, Start(j, s0, fetched), schedule))
  {
    StartRuns(j, s0, fetched);
    RivalsAlways(j, s0, Start(j, s0, fetched), schedule);
  }

  // ---------- the last of them to write wins ----------

  lemma {:induction false} AllOver(s: PState)
    requires s.main.AtWait? && forall i | 0 <= i < |s.phases| :: s.phases[i].Over?
    ensures Finished(s)
  {
    TotalZero(OneIfBusy(), s.phases);
  }

  /** The loop goes to wait, and m, the one task left, is run. */
  lemma {:induction false} RunLast(j: Job, s0: CState, s: PState, m: nat)
    requires Held(j, s0, s, m, m) && s.next == |j.tasks| && m < |j.tasks| && RealClock(j.env)
    requires Obtainable(j.env, j.tasks[m]) && !Readable(j.env, s.view, j.tasks[m])
    ensures var t, key := Reached(j, s, [Spawn] + Alone(m, 6)), KeyAt(j, m);
      Finished(t) && key in t.view && t.view[key] == Fresh(j.env, j.tasks[m], j.env.clock(s.ticks))
  {
    var w := s.(main := AtWait);
    ReachedNext(j, s, [], Spawn);
    assert [] + [Spawn] == [Spawn];
    ReachedConcat(j, s, [Spawn], Alone(m, 6));
    RunAlone(j, w, m);
    LookupStores(j.env, Shown(s), j.tasks[m]);
    AllOver(Reached(j, w, Alone(m, 6)));
  }

  /** All tasks but m are over. */
  lemma {:induction false} AllButOne(j: Job, s0: CState, fetched: seq<Request>, m: nat) returns (schedule: seq<Action>)
    requires Faithful(j.env, s0.view) && RealClock(j.env) && j.slots >= 2 && m < |j.tasks|
    ensures Cancel !in schedule && Held(j, s0, Reached(j, Start(j, s0, fetched), schedule), m, m)
    ensures Reached(j, Start(j, s0, fetched), schedule).next == |j.tasks|
  {
    StartRuns(j, s0, fetched);
    schedule := HoldUntil(j, s0, Start(j, s0, fetched), m, m, |j.tasks|);
  }

  /** One of them was a rival, so the store has no list for m. */
  lemma {:induction false} RivalWasThere(j: Job, s0: CState, s: PState, m: nat, q: nat)
    requires Held(j, s0, s, m, m) && s.next == |j.tasks| && RivalsGone(j, s)
    requires m < |j.tasks| && q < |j.tasks| && m != q && KeyAt(j, m) == KeyAt(j, q) && Obtainable(j.env, j.tasks[q])
    ensures !Readable(j.env, s.view, j.tasks[m])
  {
    assert RivalGone(j, s, m, q);
  }

  /** A task with a rival that upstream answers, left to the end, has its list in the store. */
  lemma {:induction false} Postponed(j: Job, s0: CState, fetched: seq<Request>, m: nat, q: nat)
      returns (schedule: seq<Action>)
    requires Faithful(j.env, s0.view) && RealClock(j.env) && j.slots >= 2 && EachOnce(j.tasks)
    requires m < |j.tasks| && q < |j.tasks| && m != q && KeyAt(j, m) == KeyAt(j, q)
    requires Obtainable(j.env, j.tasks[m]) && Obtainable(j.env, j.tasks[q])
    ensures Ends(j, Start(j, s0, fetched), schedule)
    ensures var t, key := Reached(j, Start(j, s0, fetched), schedule), KeyAt(j, m);
      key in t.view && exists now :: t.view[key] == Fresh(j.env, j.tasks[m], now)
  {
    var start := Start(j, s0, fetched);
    var first := AllButOne(j, s0, fetched, m);
    RivalsFromStart(j, s0, fetched, first);
    RivalWasThere(j, s0, Reached(j, start, first), m, q);
    RunLast(j, s0, Reached(j, start, first), m);
    AloneOnlySteps(m, 6);
    schedule := first + ([Spawn] + Alone(m, 6));
    ReachedConcat(j, start, first, [Spawn] + Alone(m, 6));
  }

  /** What two requests with one key leave in the store is never the same. */
  lemma {:induction false} FreshApart(env: Env, r: Request, q: Request, now: int, later: int)
    requires r != q && Key(env.world.cfg, r) == Key(env.world.cfg, q)
    ensures Timeless(Fresh(env, r, now)) != Timeless(Fresh(env, q, later))
  {
    KeysCollide(env.world.cfg, r, q);
    OtherSlot(env.world.cfg, r, q);
    FreshNames(env, r, now);
    FreshNames(env, q, later);
    assert Timeless(Fresh(env, r, now)).result == Fresh(env, r, now).result;
    assert Timeless(Fresh(env, q, later)).result == Fresh(env, q, later).result;
  }

  lemma {:induction false} FreshNames(env: Env, r: Request, now: int)
    requires SlotOf(r).ValuesSlot?
    ensures Fresh(env, r, now).result.Some? && Fresh(env, r, now).result.value.labelValues.Keys == {SlotOf(r).k}
  {
  }

  /** With two slots or more, two colliding requests that upstream answers make two schedules
      leave different stores, whatever store the run begins with. */
  lemma {:induction false} CollidingSchedulesDiffer(j: Job, s0: CState, fetched: seq<Request>, i: nat, k: nat)
    requires Faithful(j.env, s0.view) && RealClock(j.env) && j.slots >= 2 && EachOnce(j.tasks)
    requires i < |j.tasks| && k < |j.tasks| && Collide(j.tasks[i], j.tasks[k]) && j.tasks[i] != j.tasks[k]
    requires Obtainable(j.env, j.tasks[i]) && Obtainable(j.env, j.tasks[k])
    ensures !OneOutcome(j, Start(j, s0, fetched))
  {
    var s, key := Start(j, s0, fetched), KeyAt(j, i);
    KeysCollide(j.env.world.cfg, j.tasks[i], j.tasks[k]);
    var a := Postponed(j, s0, fetched, i, k);
    var b := Postponed(j, s0, fetched, k, i);
    var now :| Reached(j, s, a).view[key] == Fresh(j.env, j.tasks[i], now);
    var later :| Reached(j, s, b).view[key] == Fresh(j.env, j.tasks[k], later);
    FreshApart(j.env, j.tasks[i], j.tasks[k], now, later);
    assert Ends(j, s, a) && Ends(j, s, b);
  }

  // ---------- exactly when the schedule does not matter ----------

  /** No two planned requests that upstream answers collide. */
  ghost predicate ObtainableApart(j: Job) {
    forall r, q | r in j.tasks && q in j.tasks && r != q && Obtainable(j.env, r) && Obtainable(j.env, q) ::
      !Collide(r, q)
  }

  /** Whether the key of a task is its own, in terms of the requests alone. */
  lemma {:induction false} OwnIff(j: Job, i: nat)
    requires EachOnce(j.tasks) && i < |j.tasks|
    ensures Own(j, i) <==>
      forall q | q in j.tasks && q != j.tasks[i] && Obtainable(j.env, q) :: !Collide(j.tasks[i], q)
  {
    if Own(j, i) {
      forall q | q in j.tasks && q != j.tasks[i] && Obtainable(j.env, q) ensures !Collide(j.tasks[i], q) {
        var k :| 0 <= k < |j.tasks| && j.tasks[k] == q;
        KeysCollide(j.env.world.cfg, j.tasks[i], q);
        assert KeyAt(j, k) != KeyAt(j, i);
      }
    } else {
      var k :| 0 <= k < |j.tasks| && k != i && Obtainable(j.env, j.tasks[k]) && KeyAt(j, k) == KeyAt(j, i);
      OnceOnly(j.tasks, i, k);
      KeysCollide(j.env.world.cfg, j.tasks[i], j.tasks[k]);
    }
  }

  lemma {:induction false} ApartUncontested(j: Job)
    requires EachOnce(j.tasks) && ObtainableApart(j)
    ensures Uncontested(j)
  {
    forall i | 0 <= i < |j.tasks| && Obtainable(j.env, j.tasks[i]) ensures Own(j, i) { OwnIff(j, i); }
  }

  /** In a plan whose names hold no colon every task has a key of its own. */
  lemma {:induction false} PlainPlanOwn(j: Job)
    requires InOrder(j.tasks) && forall r | r in j.tasks :: PlainName(r)
    ensures forall i | 0 <= i < |j.tasks| :: Own(j, i)
  {
    PlanOnce(j.tasks);
    forall i | 0 <= i < |j.tasks| ensures Own(j, i) {
      forall k | 0 <= k < |j.tasks| && k != i ensures KeyAt(j, k) != KeyAt(j, i) {
        OnceOnly(j.tasks, i, k);
        if KeyAt(j, k) == KeyAt(j, i) { PlainKeys(j.env.world.cfg, j.tasks[i], j.tasks[k]); }
      }
    }
  }

  lemma {:induction false} PlanOnce(tasks: seq<Request>)
    requires InOrder(tasks)
    ensures EachOnce(tasks)
  {
    forall i, k | 0 <= i < k < |tasks| ensures tasks[i] != tasks[k] { PlanDistinct(tasks, i, k); }
  }

  lemma {:induction false} OneSlotOneOutcome(j: Job, s0: CState, fetched: seq<Request>)
    requires j.slots == 1
    ensures OneOutcome(j, Start(j, s0, fetched))
  {
    var s := Start(j, s0, fetched);
    forall a, b | Ends(j, s, a) && Ends(j, s, b) ensures SameButTimes(Reached(j, s, a).view, Reached(j, s, b).view) {
      OneSlotIsSequential(j, s0, fetched, a);
      OneSlotIsSequential(j, s0, fetched, b);
    }
  }

  lemma {:induction false} IndifferentOneOutcome(j: Job, s0: CState, fetched: seq<Request>)
    requires Faithful(j.env, s0.view) && RealClock(j.env) && j.slots > 0 && Uncontested(j) && AllIndifferent(j, s0)
    ensures OneOutcome(j, Start(j, s0, fetched))
  {
    var s := Start(j, s0, fetched);
    forall a, b | Ends(j, s, a) && Ends(j, s, b) ensures SameButTimes(Reached(j, s, a).view, Reached(j, s, b).view) {
      EveryScheduleEndsAs(j, s0, fetched, a);
      EveryScheduleEndsAs(j, s0, fetched, b);
      EndsAsSame(j, s0, Reached(j, s, a).view, Reached(j, s, b).view);
    }
  }

  /** From any store, all uncancelled schedules of a plan leave the same store, up to the
      times of the fetches, if and only if there is one slot, or no two planned requests that
      upstream answers collide and it makes no difference to the store whether a task finds
      its list or fetches it, where it may do either. */
  lemma {:induction false} OneOutcomeIff(j: Job, s0: CState, fetched: seq<Request>)
    requires Faithful(j.env, s0.view) && RealClock(j.env) && j.slots > 0 && EachOnce(j.tasks)
    ensures OneOutcome(j, Start(j, s0, fetched)) <==> j.slots == 1 || (ObtainableApart(j) && AllIndifferent(j, s0))
  {
    if j.slots == 1 {
      OneSlotOneOutcome(j, s0, fetched);
    } else if !ObtainableApart(j) {
      var r, q :| r in j.tasks && q in j.tasks && r != q && Obtainable(j.env, r) && Obtainable(j.env, q)
          && Collide(r, q);
      var i :| 0 <= i < |j.tasks| && j.tasks[i] == r;
      var k :| 0 <= k < |j.tasks| && j.tasks[k] == q;
      CollidingSchedulesDiffer(j, s0, fetched, i, k);
    } else if AllIndifferent(j, s0) {
      ApartUncontested(j);
      IndifferentOneOutcome(j, s0, fetched);
    } else {
      ApartUncontested(j);
      var i :| 0 <= i < |j.tasks| && !Indifferent(j, s0, i);
      ExpirySchedulesDiffer(j, s0, fetched, i);
    }
  }

  /** A plan holds each request once, so the same holds of every plan. */
  lemma {:induction false} PlanOneOutcomeIff(j: Job, s0: CState, fetched: seq<Request>)
    requires Faithful(j.env, s0.view) && RealClock(j.env) && j.slots > 0 && InOrder(j.tasks)
    ensures OneOutcome(j, Start(j, s0, fetched)) <==> j.slots == 1 || (ObtainableApart(j) && AllIndifferent(j, s0))
  {
    PlanOnce(j.tasks);
    OneOutcomeIff(j, s0, fetched);
  }
}
