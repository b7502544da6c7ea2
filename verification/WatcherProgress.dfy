/** What every turn of the watcher's loop does, read off the log of what has happened
    and the configuration alone: no timer, channel or counter is mentioned. */
module WatcherProgress {
  import opened Common
  import opened Paths
  import opened Watcher
  import opened WatcherSafety

  // ---------- relevant events ----------

  /** The letters after the last dot, in any case. */
  ghost predicate HasExtension(name: string, ext: string) {
    exists stem: string, letters: string :: name == stem + "." + letters && Lowered(letters, ext)
  }

  /** An event counts for a yaml, yml or json file, unless it is a change of mode and
      nothing else. */
  lemma {:induction false} RelevantExactly(name: string, op: nat)
    ensures RelevantEvent(name, op) <==>
      op != 16 && (HasExtension(name, "yaml") || HasExtension(name, "yml") || HasExtension(name, "json"))
  {
    assert ".yaml" == "." + "yaml" && ".yml" == "." + "yml" && ".json" == "." + "json";
    ExtensionIs(name, "yaml");
    ExtensionIs(name, "yml");
    ExtensionIs(name, "json");
  }

  lemma {:induction false} ExtensionIs(name: string, ext: string)
    requires '.' !in ext && '/' !in ext
    ensures ToLower(Ext(name)) == "." + ext <==> HasExtension(name, ext)
  {
    var x := Ext(name);
    LoweredIs(x, "." + ext);
    if ToLower(x) == "." + ext {
      ExtExactly(name, x);
      LoweredExtension(name, x, ext);
    }
    if HasExtension(name, ext) {
      var stem: string, letters: string :| name == stem + "." + letters && Lowered(letters, ext);
      PlainLetters(letters, ext);
      ExtOf(stem, letters);
      LoweredIs("." + letters, "." + ext);
    }
  }

  lemma {:induction false} LoweredExtension(name: string, x: string, ext: string)
    requires EndsIn(name, x) && Lowered(x, "." + ext)
    ensures HasExtension(name, ext)
  {
    var stem: string, letters: string :|
      name == stem + x && x == "." + letters && '.' !in letters && '/' !in letters;
    forall i | 0 <= i < |letters| ensures letters[i] == x[i + 1] && ext[i] == ("." + ext)[i + 1] {}
    assert Lowered(letters, ext);
    assert name == stem + "." + letters;
  }

  lemma {:induction false} PlainLetters(letters: string, ext: string)
    requires Lowered(letters, ext) && '.' !in ext && '/' !in ext
    ensures '.' !in letters && '/' !in letters && Lowered("." + letters, "." + ext)
  {
    assert forall i | 0 <= i < |letters| :: ext[i] in ext && letters[i] != '.' && letters[i] != '/';
  }

  // ---------- which pass a turn starts ----------

  /** The pass that a turn with this event, reached at time now, starts. */
  function Starts(cfg: Config, log: seq<Note>, event: Event, now: int): Option<Trigger> {
    match event
    case DebounceC =>
      if Pending(log).Some? && now >= Pending(log).value + cfg.debounce then Some(ByDebounce) else None
    case RefreshC => if cfg.catalogRefresh > 0 then Some(ByRefresh) else None
    case RetryC =>
      var wait := WaitAfter(cfg, Streak(log));
      if wait > 0 && now >= LastEnd(log) + wait then Some(ByRetry) else None
    case _ => None
  }

  /** What a pass leaves in the log: OnReady is called for the first success. */
  function PassAdds(cfg: Config, log: seq<Note>, trigger: Trigger, now: int, t: Turn): seq<Note> {
    [Passed(now, now + t.passTakes, trigger, t.passFails), ResultForPass(t.passFails)]
    + if cfg.hasOnReady && !t.passFails && CountIf(log, IsSuccess()) == 0 then [ReadyCalled] else []
  }

  function Adds(cfg: Config, log: seq<Note>, t: Turn, now: int): seq<Note> {
    match Starts(cfg, log, t.event, now)
    case Some(trigger) => PassAdds(cfg, log, trigger, now, t)
    case None =>
      match t.event
      case FsEvent(name, op) => if RelevantEvent(name, op) then [Consumed(now)] else []
      case FsError => [ResultForFsError]
      case _ => []
  }

  lemma {:induction false} DebounceReady(cfg: Config, s: State, wait: nat)
    requires DebounceArmed(cfg, s)
    ensures Waited(s, wait).debounce.Ready() <==> Starts(cfg, s.log, DebounceC, s.now + wait) == Some(ByDebounce)
  {
  }

  lemma {:induction false} RetryReady(cfg: Config, s: State, wait: nat)
    requires RetryArmed(cfg, s)
    ensures Waited(s, wait).retry.Ready() <==> Starts(cfg, s.log, RetryC, s.now + wait) == Some(ByRetry)
  {
  }

  lemma {:induction false} BeganAdds(cfg: Config, s: State, t: Turn, trigger: Trigger)
    requires ReadyOnce(cfg, s) && Does(cfg, s, t) == Began(trigger)
    ensures var s' := Step(cfg, s, t);
      s'.log == s.log + PassAdds(cfg, s.log, trigger, s.now + t.wait, t)
      && s'.now == s.now + t.wait + t.passTakes && s'.exit == Running
  {
    var w := Waited(s, t.wait);
    var w' := if trigger == ByDebounce then w.(debounce := Nil) else w;
    StepDoes(cfg, s, t);
    var notes := NotesOf(cfg, w', trigger, t.passFails, t.passTakes);
    assert notes == PassAdds(cfg, s.log, trigger, s.now + t.wait, t);
  }

  lemma {:induction false} BeginsAsScheduled(cfg: Config, s: State, t: Turn)
    requires s.exit == Running && DebounceArmed(cfg, s) && RetryArmed(cfg, s)
    ensures match Starts(cfg, s.log, t.event, s.now + t.wait)
      case Some(trigger) => Does(cfg, s, t) == Began(trigger)
      case None => !Does(cfg, s, t).Began?
  {
    DebounceReady(cfg, s, t.wait);
    RetryReady(cfg, s, t.wait);
  }

  /** What a turn from s to s' adds to the log, how long it takes, and whether it ends the loop. */
  ghost predicate AsScheduled(cfg: Config, s: State, t: Turn, s': State) {
    var now := s.now + t.wait;
    && s'.log == s.log + Adds(cfg, s.log, t, now)
    && s'.now == now + (if Starts(cfg, s.log, t.event, now).Some? then t.passTakes else 0)
    && s'.exit == match t.event
      case Cancelled => Stopped
      case EventsClosed => Broken
      case ErrorsClosed => Broken
      case _ => Running
  }

  lemma {:induction false} StepAsScheduled(cfg: Config, s: State, t: Turn)
    requires s.exit == Running && DebounceArmed(cfg, s) && RetryArmed(cfg, s) && ReadyOnce(cfg, s)
    ensures AsScheduled(cfg, s, t, Step(cfg, s, t))
  {
    BeginsAsScheduled(cfg, s, t);
    match Starts(cfg, s.log, t.event, s.now + t.wait)
    case Some(trigger) => BeganAdds(cfg, s, t, trigger);
    case None =>
  }

  lemma {:induction false} RunNext(cfg: Config, first: Turn, turns: seq<Turn>, t: Turn)
    ensures Runs(cfg, first, turns + [t]) == Step(cfg, Runs(cfg, first, turns), t)
  {
    assert (turns + [t])[..|turns|] == turns;
  }

  /** In the state after any run, a further turn does exactly what is read off the log:
      the loop with its timers is the schedule without them. */
  lemma {:induction false} EveryTurn(cfg: Config, first: Turn, turns: seq<Turn>, t: Turn)
    ensures var s, s' := Runs(cfg, first, turns), Runs(cfg, first, turns + [t]);
      if s.exit == Running then AsScheduled(cfg, s, t, s') else s' == s
  {
    RunNext(cfg, first, turns, t);
    Debounced(cfg, first, turns);
    Retried(cfg, first, turns);
    ReadyExactlyOnce(cfg, first, turns);
    if Runs(cfg, first, turns).exit == Running { StepAsScheduled(cfg, Runs(cfg, first, turns), t); }
  }

  /** A run begins with a pass. */
  lemma {:induction false} FirstPass(cfg: Config, first: Turn)
    ensures var s := Runs(cfg, first, []);
      s.exit == Running && s.now == first.passTakes && s.log == PassAdds(cfg, [], Startup, 0, first)
  {
  }

  // ---------- due passes run ----------

  /** The turn added this pass, and no other. */
  ghost predicate Ran(s: State, s': State, pass: Note) {
    && |s.log| < |s'.log| && s'.log[..|s.log|] == s.log && s'.log[|s.log|] == pass
    && forall i | |s.log| < i < |s'.log| :: !s'.log[i].Passed?
  }

  lemma {:induction false} StartedRuns(cfg: Config, s: State, t: Turn, s': State, trigger: Trigger)
    requires AsScheduled(cfg, s, t, s') && Starts(cfg, s.log, t.event, s.now + t.wait) == Some(trigger)
    ensures Ran(s, s', Passed(s.now + t.wait, s.now + t.wait + t.passTakes, trigger, t.passFails))
    ensures Pending(s'.log) == if trigger == ByDebounce then None else Pending(s.log)
  {
    var notes := PassAdds(cfg, s.log, trigger, s.now + t.wait, t);
    ReadPass(s.log, notes, |notes| == 3);
  }

  lemma {:induction false} NotStarted(cfg: Config, s: State, t: Turn, s': State)
    requires AsScheduled(cfg, s, t, s') && Starts(cfg, s.log, t.event, s.now + t.wait).None?
    ensures Pending(s'.log) ==
      if t.event.FsEvent? && RelevantEvent(t.event.name, t.event.op) then Some(s.now + t.wait) else Pending(s.log)
  {
    var more := Adds(cfg, s.log, t, s.now + t.wait);
    if more == [] { assert s.log + more == s.log; } else { Snoc(s.log, more[0]); }
  }

  /** A debounce turn that ends Debounce or more after the last relevant event waiting for
      its pass runs that pass. */
  lemma {:induction false} DebouncedPassRuns(cfg: Config, first: Turn, turns: seq<Turn>, t: Turn)
    requires Runs(cfg, first, turns).exit == Running && t.event == DebounceC
    requires var s := Runs(cfg, first, turns);
      Pending(s.log).Some? && s.now + t.wait >= Pending(s.log).value + cfg.debounce
    ensures var s, s' := Runs(cfg, first, turns), Runs(cfg, first, turns + [t]);
      Ran(s, s', Passed(s.now + t.wait, s.now + t.wait + t.passTakes, ByDebounce, t.passFails))
      && Pending(s'.log).None?
  {
    EveryTurn(cfg, first, turns, t);
    StartedRuns(cfg, Runs(cfg, first, turns), t, Runs(cfg, first, turns + [t]), ByDebounce);
  }

  /** A retry turn that ends the wait of the failures so far or more after the last pass
      runs the retry. */
  lemma {:induction false} RetryRuns(cfg: Config, first: Turn, turns: seq<Turn>, t: Turn)
    requires Runs(cfg, first, turns).exit == Running && t.event == RetryC
    requires var s := Runs(cfg, first, turns);
      var wait := WaitAfter(cfg, Streak(s.log));
      wait > 0 && s.now + t.wait >= LastEnd(s.log) + wait
    ensures var s, s' := Runs(cfg, first, turns), Runs(cfg, first, turns + [t]);
      Ran(s, s', Passed(s.now + t.wait, s.now + t.wait + t.passTakes, ByRetry, t.passFails))
  {
    EveryTurn(cfg, first, turns, t);
    StartedRuns(cfg, Runs(cfg, first, turns), t, Runs(cfg, first, turns + [t]), ByRetry);
  }

  /** So does every tick of a configured refresh. */
  lemma {:induction false} RefreshRuns(cfg: Config, first: Turn, turns: seq<Turn>, t: Turn)
    requires Runs(cfg, first, turns).exit == Running && t.event == RefreshC && cfg.catalogRefresh > 0
    ensures var s, s' := Runs(cfg, first, turns), Runs(cfg, first, turns + [t]);
      Ran(s, s', Passed(s.now + t.wait, s.now + t.wait + t.passTakes, ByRefresh, t.passFails))
  {
    EveryTurn(cfg, first, turns, t);
    StartedRuns(cfg, Runs(cfg, first, turns), t, Runs(cfg, first, turns + [t]), ByRefresh);
  }

  /** A relevant event waits from the turn that takes it, a later one takes its place, and
      nothing but the debounce pass that is due clears it. */
  lemma {:induction false} EventsWait(cfg: Config, first: Turn, turns: seq<Turn>, t: Turn)
    requires Runs(cfg, first, turns).exit == Running
    ensures var s, s' := Runs(cfg, first, turns), Runs(cfg, first, turns + [t]);
      Pending(s'.log) ==
        if t.event.FsEvent? && RelevantEvent(t.event.name, t.event.op) then Some(s.now + t.wait)
        else if t.event == DebounceC && Pending(s.log).Some? && s.now + t.wait >= Pending(s.log).value + cfg.debounce
        then None
        else Pending(s.log)
  {
    var s, s' := Runs(cfg, first, turns), Runs(cfg, first, turns + [t]);
    EveryTurn(cfg, first, turns, t);
    match Starts(cfg, s.log, t.event, s.now + t.wait)
    case Some(trigger) => StartedRuns(cfg, s, t, s', trigger);
    case None => NotStarted(cfg, s, t, s');
  }

  // ---------- the configuration ----------

  /** What New makes of a configuration: half a second, one second and one minute stand in
      for what is zero, the cap is at least the first wait, and the rest is kept. */
  lemma {:induction false} DefaultsFillIn(cfg: Config)
    ensures var d := Defaulted(cfg);
      && d.debounce == (if cfg.debounce != 0 then cfg.debounce else 500_000_000)
      && d.retryInitial == (if cfg.retryInitial != 0 then cfg.retryInitial else 1_000_000_000)
      && d.retryMax == Max(if cfg.retryMax != 0 then cfg.retryMax else 60_000_000_000, d.retryInitial)
      && d.catalogRefresh == cfg.catalogRefresh && d.hasOnReady == cfg.hasOnReady && Defaulted(d) == d
  {
  }
}
