/** Properties of every run of the watcher's event loop. */
module WatcherSafety {
  import opened Common
  import opened Watcher

  // ---------- reading the log ----------

  /** The time of the last relevant event, if no debounce pass came after it. */
  function Pending(log: seq<Note>): Option<int> {
    if log == [] then None
    else match log[|log| - 1]
      case Consumed(at) => Some(at)
      case Passed(_, _, ByDebounce, _) => None
      case _ => Pending(Front(log))
  }

  /** How many passes at the end of the log failed in a row. */
  function Streak(log: seq<Note>): nat {
    if log == [] then 0
    else match log[|log| - 1]
      case Passed(_, _, _, failed) => if failed then Streak(Front(log)) + 1 else 0
      case _ => Streak(Front(log))
  }

  /** When the last pass ended. */
  function LastEnd(log: seq<Note>): int {
    if log == [] then 0
    else match log[|log| - 1]
      case Passed(_, end, _, _) => end
      case _ => LastEnd(Front(log))
  }

  function CountIf(log: seq<Note>, p: Note -> bool): nat {
    if log == [] then 0 else CountIf(Front(log), p) + if p(log[|log| - 1]) then 1 else 0
  }

  function IsPass(): Note -> bool { (n: Note) => n.Passed? }
  function IsSuccess(): Note -> bool { (n: Note) => n.Passed? && !n.failed }
  function IsResult(): Note -> bool { (n: Note) => n.ResultForPass? || n.ResultForFsError? }
  function IsReady(): Note -> bool { (n: Note) => n.ReadyCalled? }

  /** The notes one pass leaves. */
  predicate PassNotes(notes: seq<Note>, ready: bool) {
    && |notes| == (if ready then 3 else 2)
    && notes[0].Passed? && notes[1].ResultForPass? && (ready ==> notes[2].ReadyCalled?)
  }

  lemma {:induction false} Snoc(log: seq<Note>, n: Note)
    ensures Front(log + [n]) == log && (log + [n])[|log + [n]| - 1] == n
  {
  }

  lemma {:induction false} ReadPass(log: seq<Note>, notes: seq<Note>, ready: bool)
    requires PassNotes(notes, ready)
    ensures Pending(log + notes) == if notes[0].trigger == ByDebounce then None else Pending(log)
    ensures Streak(log + notes) == if notes[0].failed then Streak(log) + 1 else 0
    ensures LastEnd(log + notes) == notes[0].end
  {
    var l1 := log + [notes[0]];
    var l2 := l1 + [notes[1]];
    Snoc(log, notes[0]);
    Snoc(l1, notes[1]);
    assert Pending(l2) == Pending(l1) && Streak(l2) == Streak(l1) && LastEnd(l2) == LastEnd(l1);
    if ready {
      Snoc(l2, notes[2]);
      assert log + notes == l2 + [notes[2]];
    } else {
      assert log + notes == l2;
    }
  }

  lemma {:induction false} CountPass(log: seq<Note>, notes: seq<Note>, ready: bool, p: Note -> bool)
    requires PassNotes(notes, ready)
    ensures CountIf(log + notes, p) == CountIf(log, p) + (if p(notes[0]) then 1 else 0) + (if p(notes[1]) then 1 else 0)
                                       + (if ready && p(notes[2]) then 1 else 0)
  {
    var l1 := log + [notes[0]];
    var l2 := l1 + [notes[1]];
    CountOne(log, notes[0], p);
    CountOne(l1, notes[1], p);
    if ready {
      CountOne(l2, notes[2], p);
      assert log + notes == l2 + [notes[2]];
    } else {
      assert log + notes == l2;
    }
  }

  lemma {:induction false} CountOne(log: seq<Note>, n: Note, p: Note -> bool)
    ensures CountIf(log + [n], p) == CountIf(log, p) + if p(n) then 1 else 0
  {
    Snoc(log, n);
  }

  // ---------- the pieces a step is made of ----------

  function NotesOf(cfg: Config, s: State, trigger: Trigger, fails: bool, takes: nat): (notes: seq<Note>)
    ensures PassNotes(notes, !fails && cfg.hasOnReady && !s.readyDone)
    ensures notes[0] == Passed(s.now, s.now + takes, trigger, fails)
    ensures Pass(cfg, s, trigger, fails, takes).log == s.log + notes
  {
    [Passed(s.now, s.now + takes, trigger, fails), ResultForPass(fails)]
    + if !fails && cfg.hasOnReady && !s.readyDone then [ReadyCalled] else []
  }

  /** What a turn does, with the pass it starts named once. */
  datatype Did = Nothing | Ended | Noted(note: Note) | Began(trigger: Trigger)

  function Does(cfg: Config, s0: State, t: Turn): Did {
    if s0.exit != Running then Nothing
    else
      var s := Waited(s0, t.wait);
      match t.event
      case Cancelled => Ended
      case EventsClosed => Ended
      case ErrorsClosed => Ended
      case FsEvent(name, op) => if RelevantEvent(name, op) then Noted(Consumed(s.now)) else Nothing
      case FsError => Noted(ResultForFsError)
      case DebounceC => if s.debounce.Ready() then Began(ByDebounce) else Nothing
      case RefreshC => if cfg.catalogRefresh > 0 then Began(ByRefresh) else Nothing
      case RetryC => if s.retry.Ready() then Began(ByRetry) else Nothing
  }

  lemma {:induction false} StepDoes(cfg: Config, s0: State, t: Turn)
    ensures var s, s' := Waited(s0, t.wait), Step(cfg, s0, t);
      match Does(cfg, s0, t)
      case Nothing => s' == s0 || s' == s
      case Ended => s'.exit != Running && s' == s.(exit := s'.exit)
      case Noted(n) =>
        && s0.exit == Running
        && s' == s.(debounce := if n.Consumed? then NewTimer(s.now, cfg.debounce) else s.debounce, log := s.log + [n])
      case Began(trigger) =>
        && s0.exit == Running
        && (trigger == ByDebounce ==> s.debounce.Ready()) && (trigger == ByRetry ==> s.retry.Ready())
        && s' == Pass(cfg, if trigger == ByDebounce then s.(debounce := Nil) else s, trigger, t.passFails, t.passTakes)
  {
  }

  // ---------- debouncing ----------

  /** Every debounce pass starts at least Debounce after the last relevant event
      consumed before it, and only if there was one since the last such pass. */
  ghost predicate DebouncedSince(cfg: Config, log: seq<Note>) {
    forall i | 0 <= i < |log| && log[i].Passed? && log[i].trigger == ByDebounce ::
      Pending(log[..i]).Some? && log[i].start >= Pending(log[..i]).value + cfg.debounce
  }

  /** The debounce timer is armed exactly while a relevant event waits for its
      debounce pass, for Debounce after the last such event. */
  ghost predicate DebounceArmed(cfg: Config, s: State) {
    match Pending(s.log)
    case None => s.debounce == Nil
    case Some(at) =>
      s.debounce.Timer? && s.debounce.due == at + cfg.debounce && s.debounce.Armed() &&
      (s.debounce.slot ==> s.now >= s.debounce.due)
  }

  lemma {:induction false} DebounceStep(cfg: Config, s: State, t: Turn)
    requires DebounceArmed(cfg, s) && DebouncedSince(cfg, s.log)
    ensures DebounceArmed(cfg, Step(cfg, s, t)) && DebouncedSince(cfg, Step(cfg, s, t).log)
  {
    var w, s' := Waited(s, t.wait), Step(cfg, s, t);
    StepDoes(cfg, s, t);
    match Does(cfg, s, t) {
      case Nothing =>
      case Ended =>
      case Noted(n) =>
        Snoc(s.log, n);
        SameDebounced(cfg, s.log, [n]);
      case Began(trigger) => DebounceBegan(cfg, s, t, trigger);
    }
  }

  lemma {:induction false} DebounceBegan(cfg: Config, s: State, t: Turn, trigger: Trigger)
    requires DebounceArmed(cfg, s) && DebouncedSince(cfg, s.log) && Does(cfg, s, t) == Began(trigger)
    ensures DebounceArmed(cfg, Step(cfg, s, t)) && DebouncedSince(cfg, Step(cfg, s, t).log)
  {
    var w := Waited(s, t.wait);
    var w' := if trigger == ByDebounce then w.(debounce := Nil) else w;
    var notes := NotesOf(cfg, w', trigger, t.passFails, t.passTakes);
    StepDoes(cfg, s, t);
    ReadPass(s.log, notes, |notes| == 3);
    SameDebounced(cfg, s.log, notes);
  }

  lemma {:induction false} SameDebounced(cfg: Config, log: seq<Note>, more: seq<Note>)
    requires DebouncedSince(cfg, log) && more != []
    requires forall i | 1 <= i < |more| :: !more[i].Passed?
    requires more[0].Passed? && more[0].trigger == ByDebounce ==>
               Pending(log).Some? && more[0].start >= Pending(log).value + cfg.debounce
    ensures DebouncedSince(cfg, log + more)
  {
    var all := log + more;
    forall i | 0 <= i < |all| && all[i].Passed? && all[i].trigger == ByDebounce
      ensures Pending(all[..i]).Some? && all[i].start >= Pending(all[..i]).value + cfg.debounce
    {
      if i < |log| {
        assert all[..i] == log[..i];
      } else {
        assert i == |log| && all[..i] == log;
      }
    }
  }

  /** Debounce safety over every run, for every configuration. */
  lemma {:induction false} Debounced(cfg: Config, first: Turn, turns: seq<Turn>)
    ensures DebounceArmed(cfg, Runs(cfg, first, turns))
    ensures DebouncedSince(cfg, Runs(cfg, first, turns).log)
    decreases |turns|
  {
    if turns == [] {
      var notes := NotesOf(cfg, State(0, Nil, Nil, 0, false, [], Running), Startup, first.passFails, first.passTakes);
      ReadPass([], notes, |notes| == 3);
      SameDebounced(cfg, [], notes);
    } else {
      Debounced(cfg, first, turns[..|turns| - 1]);
      DebounceStep(cfg, Runs(cfg, first, turns[..|turns| - 1]), turns[|turns| - 1]);
    }
  }

  // ---------- retrying ----------

  /** The wait after k failures in a row. */
  function WaitAfter(cfg: Config, k: nat): int {
    if k == 0 then 0 else Backoff(cfg, WaitAfter(cfg, k - 1))
  }

  ghost predicate PositiveWaits(cfg: Config) { 0 < cfg.retryInitial <= cfg.retryMax <= MAX_INT64 }

  function Doubled(x: int, k: nat): int { if k == 0 then x else 2 * Doubled(x, k - 1) }

  lemma {:induction false} DoubledGrows(x: int, k: nat)
    requires x > 0
    ensures Doubled(x, k) >= x
  {
    if k > 0 { DoubledGrows(x, k - 1); }
  }

  /** After k >= 1 failures in a row the wait is RetryInitial * 2^(k-1) capped at
      RetryMax, or one more when that is RetryMax - 1 for an odd RetryMax. It
      stays within the configured range, so the int64 doubling never wraps, and
      it never falls during a streak. */
  lemma {:induction false} WaitIsCappedDoubling(cfg: Config, k: nat)
    requires PositiveWaits(cfg) && k >= 1
    ensures var exact := Min(Doubled(cfg.retryInitial, k - 1), cfg.retryMax);
      WaitAfter(cfg, k) == if k > 1 && cfg.retryMax % 2 == 1 && exact == cfg.retryMax - 1 then exact + 1 else exact
    ensures cfg.retryInitial <= WaitAfter(cfg, k) <= cfg.retryMax
    ensures WaitAfter(cfg, k) <= WaitAfter(cfg, k + 1)
  {
    if k > 1 {
      WaitIsCappedDoubling(cfg, k - 1);
      DoubledGrows(cfg.retryInitial, k - 2);
    }
    assert WaitAfter(cfg, k) == Backoff(cfg, WaitAfter(cfg, k - 1));
    assert WaitAfter(cfg, k + 1) == Backoff(cfg, WaitAfter(cfg, k));
  }

  /** A negative RetryInitial, which New lets through, doubles away from the cap for as
      long as int64 holds it; no retry is armed for such a wait. */
  lemma {:induction false} NegativeWaitDoubles(cfg: Config, k: nat)
    requires cfg.retryInitial < 0 && cfg.retryInitial <= cfg.retryMax && k >= 1
    requires Doubled(cfg.retryInitial, k - 1) >= MIN_INT64
    ensures WaitAfter(cfg, k) == Doubled(cfg.retryInitial, k - 1) <= cfg.retryInitial
  {
    if k > 1 {
      DoubledFalls(cfg.retryInitial, k - 2);
      NegativeWaitDoubles(cfg, k - 1);
    }
    assert WaitAfter(cfg, k) == Backoff(cfg, WaitAfter(cfg, k - 1));
  }

  lemma {:induction false} DoubledFalls(x: int, k: nat)
    requires x < 0
    ensures Doubled(x, k + 1) < Doubled(x, k) < 0
  {
    if k > 0 { DoubledFalls(x, k - 1); }
  }

  /** Every retry pass follows a failed pass, by at least the backoff wait. */
  ghost predicate RetriedAfter(cfg: Config, log: seq<Note>) {
    forall i | 0 <= i < |log| && log[i].Passed? && log[i].trigger == ByRetry ::
      Streak(log[..i]) > 0 && log[i].start >= LastEnd(log[..i]) + WaitAfter(cfg, Streak(log[..i]))
  }

  /** The wait is that of the failures since the last success; a retry is pending
      exactly if it is positive, for that long after the last pass ended. */
  ghost predicate RetryArmed(cfg: Config, s: State) {
    && s.retryWait == WaitAfter(cfg, Streak(s.log))
    && if s.retryWait <= 0 then s.retry == Nil
       else s.retry.Timer? && s.retry.due == LastEnd(s.log) + s.retryWait && s.retry.Armed() &&
            (s.retry.slot ==> s.now >= s.retry.due)
  }

  lemma {:induction false} SameRetried(cfg: Config, log: seq<Note>, more: seq<Note>)
    requires RetriedAfter(cfg, log) && more != []
    requires forall i | 1 <= i < |more| :: !more[i].Passed?
    requires more[0].Passed? && more[0].trigger == ByRetry ==>
               Streak(log) > 0 && more[0].start >= LastEnd(log) + WaitAfter(cfg, Streak(log))
    ensures RetriedAfter(cfg, log + more)
  {
    var all := log + more;
    forall i | 0 <= i < |all| && all[i].Passed? && all[i].trigger == ByRetry
      ensures Streak(all[..i]) > 0 && all[i].start >= LastEnd(all[..i]) + WaitAfter(cfg, Streak(all[..i]))
    {
      if i < |log| {
        assert all[..i] == log[..i];
      } else {
        assert i == |log| && all[..i] == log;
      }
    }
  }

  lemma {:induction false} PassArms(cfg: Config, w: State, trigger: Trigger, fails: bool, takes: nat)
    requires w.retryWait == WaitAfter(cfg, Streak(w.log))
    ensures RetryArmed(cfg, Pass(cfg, w, trigger, fails, takes))
  {
    var notes := NotesOf(cfg, w, trigger, fails, takes);
    ReadPass(w.log, notes, |notes| == 3);
    assert fails ==> WaitAfter(cfg, Streak(w.log) + 1) == Backoff(cfg, w.retryWait);
  }

  lemma {:induction false} PassRetried(cfg: Config, w: State, trigger: Trigger, fails: bool, takes: nat)
    requires RetriedAfter(cfg, w.log)
    requires trigger == ByRetry ==> Streak(w.log) > 0 && w.now >= LastEnd(w.log) + WaitAfter(cfg, Streak(w.log))
    ensures RetriedAfter(cfg, Pass(cfg, w, trigger, fails, takes).log)
  {
    SameRetried(cfg, w.log, NotesOf(cfg, w, trigger, fails, takes));
  }

  lemma {:induction false} RetryPass(cfg: Config, w: State, trigger: Trigger, fails: bool, takes: nat)
    requires w.retryWait == WaitAfter(cfg, Streak(w.log)) && RetriedAfter(cfg, w.log)
    requires trigger == ByRetry ==> Streak(w.log) > 0 && w.now >= LastEnd(w.log) + WaitAfter(cfg, Streak(w.log))
    ensures RetryArmed(cfg, Pass(cfg, w, trigger, fails, takes))
    ensures RetriedAfter(cfg, Pass(cfg, w, trigger, fails, takes).log)
  {
    PassArms(cfg, w, trigger, fails, takes);
    PassRetried(cfg, w, trigger, fails, takes);
  }

  lemma {:induction false} RetryBegan(cfg: Config, s: State, t: Turn, trigger: Trigger)
    requires RetryArmed(cfg, s) && RetriedAfter(cfg, s.log) && Does(cfg, s, t) == Began(trigger)
    ensures RetryArmed(cfg, Step(cfg, s, t)) && RetriedAfter(cfg, Step(cfg, s, t).log)
  {
    var w := Waited(s, t.wait);
    StepDoes(cfg, s, t);
    RetryPass(cfg, if trigger == ByDebounce then w.(debounce := Nil) else w, trigger, t.passFails, t.passTakes);
  }

  lemma {:induction false} RetryStep(cfg: Config, s: State, t: Turn)
    requires RetryArmed(cfg, s) && RetriedAfter(cfg, s.log)
    ensures RetryArmed(cfg, Step(cfg, s, t)) && RetriedAfter(cfg, Step(cfg, s, t).log)
  {
    var w := Waited(s, t.wait);
    StepDoes(cfg, s, t);
    match Does(cfg, s, t) {
      case Nothing =>
      case Ended =>
      case Noted(n) =>
        Snoc(s.log, n);
        SameRetried(cfg, s.log, [n]);
      case Began(trigger) => RetryBegan(cfg, s, t, trigger);
    }
  }

  /** Retry safety over every run, for every configuration. */
  lemma {:induction false} Retried(cfg: Config, first: Turn, turns: seq<Turn>)
    ensures RetryArmed(cfg, Runs(cfg, first, turns))
    ensures RetriedAfter(cfg, Runs(cfg, first, turns).log)
    decreases |turns|
  {
    if turns == [] {
      RetryPass(cfg, State(0, Nil, Nil, 0, false, [], Running), Startup, first.passFails, first.passTakes);
    } else {
      Retried(cfg, first, turns[..|turns| - 1]);
      RetryStep(cfg, Runs(cfg, first, turns[..|turns| - 1]), turns[|turns| - 1]);
    }
  }

  ghost predicate PendingIffFailed(s: State) { s.retry.Timer? <==> Streak(s.log) > 0 }

  /** With int64 durations: in every run the retry channel is armed exactly when
      the last pass failed, if and only if RetryInitial is not configured negative. */
  lemma {:induction false} RetryArmedIffFailed(cfg: Config)
    requires MIN_INT64 <= cfg.retryInitial <= MAX_INT64 && MIN_INT64 <= cfg.retryMax <= MAX_INT64
    ensures cfg.retryInitial >= 0 <==>
      forall first, turns :: PendingIffFailed(Runs(Defaulted(cfg), first, turns))
  {
    var c := Defaulted(cfg);
    if cfg.retryInitial >= 0 {
      forall first, turns ensures PendingIffFailed(Runs(c, first, turns)) {
        Retried(c, first, turns);
        var streak := Streak(Runs(c, first, turns).log);
        if streak > 0 { WaitIsCappedDoubling(c, streak); }
      }
    } else {
      var first := Turn(0, Cancelled, true, 0);
      var s := Runs(c, first, []);
      var notes := NotesOf(c, State(0, Nil, Nil, 0, false, [], Running), Startup, true, 0);
      ReadPass([], notes, false);
      assert [] + notes == s.log;
      var none: seq<Turn> := [];
      assert !PendingIffFailed(Runs(Defaulted(cfg), first, none));
    }
  }

  // ---------- callbacks ----------

  /** Each OnReady call comes straight after the first pass that succeeds. */
  ghost predicate ReadyAtFirstSuccess(log: seq<Note>) {
    forall i | 0 <= i < |log| && log[i].ReadyCalled? ::
      && i >= 2 && log[i - 2].Passed? && !log[i - 2].failed
      && CountIf(log[..i - 2], IsSuccess()) == 0
  }

  ghost predicate ReadyOnce(cfg: Config, s: State) {
    && CountIf(s.log, IsReady()) == (if cfg.hasOnReady && CountIf(s.log, IsSuccess()) > 0 then 1 else 0)
    && (s.readyDone <==> cfg.hasOnReady && CountIf(s.log, IsSuccess()) > 0)
    && ReadyAtFirstSuccess(s.log)
  }

  lemma {:induction false} ReadyPass(cfg: Config, w: State, trigger: Trigger, fails: bool, takes: nat)
    requires ReadyOnce(cfg, w)
    ensures ReadyOnce(cfg, Pass(cfg, w, trigger, fails, takes))
  {
    var notes := NotesOf(cfg, w, trigger, fails, takes);
    var ready := !fails && cfg.hasOnReady && !w.readyDone;
    CountPass(w.log, notes, ready, IsReady());
    CountPass(w.log, notes, ready, IsSuccess());
    SameReady(w.log, notes);
  }

  lemma {:induction false} SameReady(log: seq<Note>, more: seq<Note>)
    requires ReadyAtFirstSuccess(log)
    requires forall i | 0 <= i < |more| && more[i].ReadyCalled? ::
      i == 2 && more[0].Passed? && !more[0].failed && CountIf(log, IsSuccess()) == 0
    ensures ReadyAtFirstSuccess(log + more)
  {
    var all := log + more;
    forall i | 0 <= i < |all| && all[i].ReadyCalled?
      ensures i >= 2 && all[i - 2].Passed? && !all[i - 2].failed && CountIf(all[..i - 2], IsSuccess()) == 0
    {
      if i < |log| {
        assert all[..i - 2] == log[..i - 2];
      } else {
        assert more[i - |log|].ReadyCalled?;
        assert all[..i - 2] == log;
      }
    }
  }

  lemma {:induction false} ReadyStep(cfg: Config, s: State, t: Turn)
    requires ReadyOnce(cfg, s)
    ensures ReadyOnce(cfg, Step(cfg, s, t))
  {
    var w := Waited(s, t.wait);
    StepDoes(cfg, s, t);
    match Does(cfg, s, t) {
      case Nothing =>
      case Ended =>
      case Noted(n) =>
        CountOne(s.log, n, IsReady());
        CountOne(s.log, n, IsSuccess());
        SameReady(s.log, [n]);
      case Began(trigger) =>
        ReadyPass(cfg, if trigger == ByDebounce then w.(debounce := Nil) else w, trigger, t.passFails, t.passTakes);
    }
  }

  /** OnReady, when set, is called exactly once in a run with a successful pass,
      straight after the first one, and never otherwise. */
  lemma {:induction false} ReadyExactlyOnce(cfg: Config, first: Turn, turns: seq<Turn>)
    ensures ReadyOnce(cfg, Runs(cfg, first, turns))
    decreases |turns|
  {
    if turns == [] {
      ReadyPass(cfg, State(0, Nil, Nil, 0, false, [], Running), Startup, first.passFails, first.passTakes);
    } else {
      ReadyExactlyOnce(cfg, first, turns[..|turns| - 1]);
      ReadyStep(cfg, Runs(cfg, first, turns[..|turns| - 1]), turns[|turns| - 1]);
    }
  }

  /** fsnotify errors received before the loop ended. */
  function FsErrors(cfg: Config, first: Turn, turns: seq<Turn>): nat
    decreases |turns|
  {
    if turns == [] then 0
    else
      var before := turns[..|turns| - 1];
      FsErrors(cfg, first, before)
      + if turns[|turns| - 1].event == FsError && Runs(cfg, first, before).exit == Running then 1 else 0
  }

  /** OnResult is called once for every pass and once for every fsnotify error. */
  lemma {:induction false} ResultsCounted(cfg: Config, first: Turn, turns: seq<Turn>)
    ensures CountIf(Runs(cfg, first, turns).log, IsResult()) ==
            CountIf(Runs(cfg, first, turns).log, IsPass()) + FsErrors(cfg, first, turns)
    decreases |turns|
  {
    if turns == [] {
      var notes := NotesOf(cfg, State(0, Nil, Nil, 0, false, [], Running), Startup, first.passFails, first.passTakes);
      CountPass([], notes, |notes| == 3, IsResult());
      CountPass([], notes, |notes| == 3, IsPass());
      assert [] + notes == notes;
    } else {
      var before, t := turns[..|turns| - 1], turns[|turns| - 1];
      ResultsCounted(cfg, first, before);
      ResultsStep(cfg, Runs(cfg, first, before), t);
    }
  }

  lemma {:induction false} ResultsStep(cfg: Config, s: State, t: Turn)
    ensures CountIf(Step(cfg, s, t).log, IsResult()) - CountIf(Step(cfg, s, t).log, IsPass()) ==
            CountIf(s.log, IsResult()) - CountIf(s.log, IsPass())
            + if t.event == FsError && s.exit == Running then 1 else 0
  {
    var w := Waited(s, t.wait);
    StepDoes(cfg, s, t);
    match Does(cfg, s, t) {
      case Nothing =>
      case Ended =>
      case Noted(n) =>
        CountOne(s.log, n, IsResult());
        CountOne(s.log, n, IsPass());
      case Began(trigger) =>
        var notes := NotesOf(cfg, w, trigger, t.passFails, t.passTakes);
        CountPass(s.log, notes, |notes| == 3, IsResult());
        CountPass(s.log, notes, |notes| == 3, IsPass());
    }
  }
}
