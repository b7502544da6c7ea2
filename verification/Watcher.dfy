/** internal/watcher/watcher.go: the event loop as a state machine over the arms
    of its select, with one-slot timer channels and capped doubling backoff. */
module Watcher {
  import opened Common
  import opened Paths

  const MILLISECOND: int := 1_000_000

  /** Go's x / 2 truncates toward zero. */
  function Half(x: int): int { if x >= 0 then x / 2 else -((-x) / 2) }

  /** The durations of watcher.Config, in nanoseconds. */
  datatype Config = Config(debounce: int, catalogRefresh: int, retryInitial: int, retryMax: int, hasOnReady: bool)

  /** The defaulting in New. */
  function Defaulted(cfg: Config): Config {
    var debounce := if cfg.debounce == 0 then 500 * MILLISECOND else cfg.debounce;
    var initial := if cfg.retryInitial == 0 then SECOND else cfg.retryInitial;
    var max := if cfg.retryMax == 0 then 60 * SECOND else cfg.retryMax;
    var max := if max < initial then initial else max;
    cfg.(debounce := debounce, retryInitial := initial, retryMax := max)
  }

  // ---------- timers ----------

  /** A time.Timer with its one-slot channel; Nil when there is none. */
  datatype Timer = Nil | Timer(due: int, running: bool, slot: bool) {
    /** The runtime's side: a running timer that is due fills the slot. */
    function Expire(now: int): Timer {
      if Timer? && running && now >= due then this.(running := false, slot := true) else this
    }
    predicate Ready() { Timer? && slot }
    /** Either still running or fired, with the value waiting in the slot. */
    ghost predicate Armed() { Timer? ==> running != slot }
  }

  function NewTimer(now: int, d: int): Timer { Timer(now + d, true, false) }

  // ---------- events ----------

  const CHMOD: nat := 16

  datatype Event =
    | Cancelled
    | FsEvent(name: string, op: nat)
    | FsError
    | EventsClosed
    | ErrorsClosed
    | DebounceC
    | RefreshC
    | RetryC

  /** One turn of the loop: how long the select waits, which arm it would take,
      and, if that starts a pass, whether the pass fails and how long it takes. */
  datatype Turn = Turn(wait: nat, event: Event, passFails: bool, passTakes: nat)

  predicate RelevantEvent(name: string, op: nat) {
    op != CHMOD && ToLower(Ext(name)) in [".yaml", ".yml", ".json"]
  }

  // ---------- what an observer sees ----------

  datatype Trigger = Startup | ByDebounce | ByRefresh | ByRetry

  /** What has happened so far, in order: relevant events consumed, passes with
      their start and end, and calls of OnResult and OnReady. */
  datatype Note =
    | Consumed(at: int)
    | Passed(start: int, end: int, trigger: Trigger, failed: bool)
    | ResultForPass(failed: bool)
    | ResultForFsError
    | ReadyCalled

  datatype Exit = Running | Stopped | Broken

  datatype State = State(now: int, debounce: Timer, retry: Timer, retryWait: int, readyDone: bool,
                         log: seq<Note>, exit: Exit)

  // ---------- specification ----------

  /** The next wait after one more failure. */
  function Backoff(cfg: Config, retryWait: int): int {
    if retryWait == 0 then cfg.retryInitial
    else if retryWait >= Half(cfg.retryMax) then cfg.retryMax
    else Wrap64(retryWait * 2)
  }

  function Pass(cfg: Config, s: State, trigger: Trigger, fails: bool, takes: nat): State {
    var wait := if fails then Backoff(cfg, s.retryWait) else 0;
    var callsReady := !fails && cfg.hasOnReady && !s.readyDone;
    s.(now := s.now + takes,
       retryWait := wait,
       retry := if wait > 0 then NewTimer(s.now + takes, wait) else Nil,
       readyDone := s.readyDone || callsReady,
       log := s.log + [Passed(s.now, s.now + takes, trigger, fails), ResultForPass(fails)]
              + if callsReady then [ReadyCalled] else [])
  }

  function Initial(cfg: Config, fails: bool, takes: nat): State {
    Pass(cfg, State(0, Nil, Nil, 0, false, [], Running), Startup, fails, takes)
  }

  /** Time passes while the select waits, and due timers fire. */
  function Waited(s: State, wait: nat): State {
    var now := s.now + wait;
    s.(now := now, debounce := s.debounce.Expire(now), retry := s.retry.Expire(now))
  }

  /** The arm a select takes; one whose channel is nil or empty is not taken. */
  function Arm(cfg: Config, s: State, t: Turn): State {
    match t.event
    case Cancelled => s.(exit := Stopped)
    case EventsClosed => s.(exit := Broken)
    case ErrorsClosed => s.(exit := Broken)
    case FsEvent(name, op) =>
      if RelevantEvent(name, op) then
        s.(debounce := NewTimer(s.now, cfg.debounce), log := s.log + [Consumed(s.now)])
      else s
    case FsError => s.(log := s.log + [ResultForFsError])
    case DebounceC =>
      if s.debounce.Ready() then Pass(cfg, s.(debounce := Nil), ByDebounce, t.passFails, t.passTakes) else s
    case RefreshC =>
      if cfg.catalogRefresh > 0 then Pass(cfg, s, ByRefresh, t.passFails, t.passTakes) else s
    case RetryC =>
      if s.retry.Ready() then Pass(cfg, s, ByRetry, t.passFails, t.passTakes) else s
  }

  /** One turn of the loop. */
  function Step(cfg: Config, s0: State, t: Turn): State {
    if s0.exit != Running then s0 else Arm(cfg, Waited(s0, t.wait), t)
  }

  function Runs(cfg: Config, first: Turn, turns: seq<Turn>): State {
    if turns == [] then Initial(cfg, first.passFails, first.passTakes)
    else Step(cfg, Runs(cfg, first, turns[..|turns| - 1]), turns[|turns| - 1])
  }

  // ---------- the code ----------

  class Watcher {
    const cfg: Config
    var now: int
    var retryWait: int
    var readyFired: bool
    var log: seq<Note>

    constructor New(cfg: Config)
      ensures this.cfg == Defaulted(cfg)
      ensures now == 0 && retryWait == 0 && !readyFired && log == []
    {
      var c := cfg;
      if c.debounce == 0 {
        c := c.(debounce := 500 * MILLISECOND);
      }
      if c.retryInitial == 0 {
        c := c.(retryInitial := SECOND);
      }
      if c.retryMax == 0 {
        c := c.(retryMax := 60 * SECOND);
      }
      if c.retryMax < c.retryInitial {
        c := c.(retryMax := c.retryInitial);
      }
      this.cfg := c;
      now, retryWait, readyFired, log := 0, 0, false, [];
    }

    function Now(debounce: Timer, retry: Timer, exit: Exit): State
      reads this
    {
      State(now, debounce, retry, retryWait, readyFired, log, exit)
    }

    /** Runs one pass and returns how long to wait before retrying it. */
    method RunOnce(trigger: Trigger, fails: bool, takes: nat) returns (wait: int)
      modifies this
      ensures wait == retryWait
      ensures Now(Nil, if wait > 0 then NewTimer(now, wait) else Nil, Running) ==
              Pass(cfg, old(Now(Nil, Nil, Running)), trigger, fails, takes)
    {
      log := log + [Passed(now, now + takes, trigger, fails), ResultForPass(fails)];
      now := now + takes;
      if fails {
        if retryWait == 0 {
          retryWait := cfg.retryInitial;
        } else if retryWait >= Half(cfg.retryMax) {
          retryWait := cfg.retryMax;
        } else {
          retryWait := Wrap64(retryWait * 2);
        }
        return retryWait;
      }
      retryWait := 0;
      if cfg.hasOnReady && !readyFired {
        log := log + [ReadyCalled];
        readyFired := true;
      }
      return 0;
    }

    /** The pass closure: drops the pending retry and re-arms it after a failure. */
    method DoPass(retryTimer: Timer, trigger: Trigger, fails: bool, takes: nat) returns (retry: Timer)
      modifies this
      ensures forall d :: Now(d, retry, Running) == Pass(cfg, old(Now(d, retryTimer, Running)), trigger, fails, takes)
    {
      retry := retryTimer;
      if retry.Timer? {
        retry := Nil;
      }
      var wait := RunOnce(trigger, fails, takes);
      if wait > 0 {
        retry := NewTimer(now, wait);
      }
    }

    /** A relevant event: arms the debounce timer, or stops, drains and resets it. */
    method Touch(debounce: Timer) returns (timer: Timer)
      requires debounce.Armed()
      modifies this`log
      ensures log == old(log) + [Consumed(now)] && timer == NewTimer(now, cfg.debounce)
    {
      log := log + [Consumed(now)];
      timer := debounce;
      if timer.Nil? {
        timer := NewTimer(now, cfg.debounce);
      } else {
        var stopped := timer.running;
        timer := timer.(running := false);
        if !stopped {
          if timer.slot {
            timer := timer.(slot := false);
          }
        }
        timer := timer.(running := true, due := now + cfg.debounce);
      }
    }

    /** The arm the select takes. */
    method TakeArm(t: Turn, debounce: Timer, retry: Timer) returns (debounceTimer: Timer, retryTimer: Timer, exit: Exit)
      requires debounce.Armed()
      modifies this
      ensures debounceTimer.Armed()
      ensures Now(debounceTimer, retryTimer, exit) == Arm(cfg, old(Now(debounce, retry, Running)), t)
    {
      debounceTimer, retryTimer, exit := debounce, retry, Running;
      match t.event {
        case Cancelled =>
          exit := Stopped;
        case FsEvent(name, op) =>
          if RelevantEvent(name, op) {
            debounceTimer := Touch(debounceTimer);
          }
        case EventsClosed =>
          exit := Broken;
        case FsError =>
          log := log + [ResultForFsError];
        case ErrorsClosed =>
          exit := Broken;
        case DebounceC =>
          if debounceTimer.Ready() {
            debounceTimer := Nil;
            retryTimer := DoPass(retryTimer, ByDebounce, t.passFails, t.passTakes);
          }
        case RefreshC =>
          if cfg.catalogRefresh > 0 {
            retryTimer := DoPass(retryTimer, ByRefresh, t.passFails, t.passTakes);
          }
        case RetryC =>
          if retryTimer.Ready() {
            retryTimer := DoPass(retryTimer, ByRetry, t.passFails, t.passTakes);
          }
      }
    }

    /** One turn of the loop: wait, then the arm. */
    method Select(t: Turn, debounce: Timer, retry: Timer) returns (debounceTimer: Timer, retryTimer: Timer, exit: Exit)
      requires debounce.Armed()
      modifies this
      ensures debounceTimer.Armed()
      ensures Now(debounceTimer, retryTimer, exit) == Step(cfg, old(Now(debounce, retry, Running)), t)
    {
      now := now + t.wait;
      debounceTimer, retryTimer, exit := TakeArm(t, debounce.Expire(now), retry.Expire(now));
    }

    method Run(first: Turn, turns: seq<Turn>) returns (debounceTimer: Timer, retryTimer: Timer, exit: Exit)
      requires now == 0 && retryWait == 0 && !readyFired && log == []
      modifies this
      ensures Now(debounceTimer, retryTimer, exit) == Runs(cfg, first, turns)
    {
      debounceTimer, retryTimer, exit := Nil, Nil, Running;
      retryTimer := DoPass(retryTimer, Startup, first.passFails, first.passTakes);
      for k := 0 to |turns|
        invariant debounceTimer.Armed()
        invariant Now(debounceTimer, retryTimer, exit) == Runs(cfg, first, turns[..k])
      {
        assert turns[..k + 1][..k] == turns[..k];
        if exit != Running {
          continue;
        }
        debounceTimer, retryTimer, exit := Select(turns[k], debounceTimer, retryTimer);
      }
      assert turns[..|turns|] == turns;
    }
  }
}
