/** pkg/catalog/checker.go, cachedList: exactly when no list is served from the cache
    longer after its fetch than the configured TTL. */
module Freshness {
  import opened Common
  import opened Entries
  import opened Cache

  /** Every entry that holds a list for some request records an expiry of at most the TTL;
      entries written under another TTL may not. */
  ghost predicate StoredBounded(env: Env, view: map<string, Entry>) {
    forall r :: Readable(env, view, r) ==> Bounded(view[Key(env.world.cfg, r)], Ttl(env.world.cfg))
  }

  /** A fetch of r leaves a list for r in the store. */
  predicate Storable(env: Env, r: Request) { Retained(env, r) && SourceOf(env.world.cfg, r) != "" }

  ghost predicate NewBounded(env: Env) { Ttl(env.world.cfg) >= SECOND || forall r :: !Storable(env, r) }

  /** A list served for r in state s is no older than the TTL. */
  ghost predicate FreshNow(env: Env, s: CState, r: Request) {
    !Misses(env, s, r) ==> env.clock(s.ticks) - s.view[Key(env.world.cfg, r)].fetchedAt <= Ttl(env.world.cfg)
  }

  /** At no point of any sequence of lookups, whatever the clock reads, is an older list served. */
  ghost predicate NeverStale(env: Env, view: map<string, Entry>) {
    forall clock: nat -> int, asks: seq<Request>, r: Request :: FreshUnder(env.(clock := clock), view, asks, r)
  }

  ghost predicate FreshUnder(env: Env, view: map<string, Entry>, asks: seq<Request>, r: Request) {
    FreshNow(env, After(env, CState(view, 0), asks), r)
  }

  // ---------- how long a fetched list is served ----------

  /** A list just fetched, if the store can give it back, is served for the whole seconds of
      the configured TTL, which is an hour if none is, and no longer; for less than a second,
      for ever. */
  lemma {:induction false} ServedExactly(env: Env, s: CState, r: Request, n: nat)
    requires Misses(env, s, r) && Storable(env, r) && env.clock(s.ticks) != ZERO_TIME
    requires env.world.cfg.ttl <= MAX_INT64
    ensures var ttl := if env.world.cfg.ttl > 0 then env.world.cfg.ttl else 3_600_000_000_000;
      var t := Lookup(env, s, r).1.(ticks := n);
      Misses(env, t, r) <==>
        ttl >= 1_000_000_000 && env.clock(n) - env.clock(s.ticks) > ttl - ttl % 1_000_000_000
  {
    var fetched, list := env.clock(s.ticks), env.world.upstream(r).list;
    LookupFresh(env, s, r);
    RetainedReads(env, r, fetched);
    RecordedTtl(Ttl(env.world.cfg));
  }

  // ---------- the condition suffices ----------

  lemma {:induction false} NewReadable(env: Env, r: Request, now: int, q: Request)
    requires env.world.upstream(r).Ok? && SourceOf(env.world.cfg, r) != ""
    requires Key(env.world.cfg, q) == Key(env.world.cfg, r)
    ensures var e := Kept(env, NewEntry(env, r, now, env.world.upstream(r).list));
      e.result.Some? && (Read(e.result.value, SlotOf(q)).Present? ==> q == r && Storable(env, r))
  {
    var list := env.world.upstream(r).list;
    if SlotOf(q) == SlotOf(r) {
      KeyAndSlot(env.world.cfg, q, r);
      RetainedReads(env, r, now);
    } else {
      WriteRead(SlotOf(r), SortList(list), SlotOf(q));
      OnDiskRead(Write(SlotOf(r), SortList(list)), SlotOf(q));
    }
  }

  lemma {:induction false} StoreBounded(env: Env, view: map<string, Entry>, r: Request, now: int)
    requires StoredBounded(env, view) && NewBounded(env)
    requires env.world.upstream(r).Ok? && SourceOf(env.world.cfg, r) != ""
    ensures var e := Kept(env, NewEntry(env, r, now, env.world.upstream(r).list));
      StoredBounded(env, view[Key(env.world.cfg, r) := e])
  {
    var key, e := Key(env.world.cfg, r), Kept(env, NewEntry(env, r, now, env.world.upstream(r).list));
    forall q | Readable(env, view[key := e], q)
      ensures Bounded(view[key := e][Key(env.world.cfg, q)], Ttl(env.world.cfg))
    {
      if Key(env.world.cfg, q) == key {
        NewReadable(env, r, now, q);
        assert e.ttlSeconds == TtlSeconds(Ttl(env.world.cfg));
        RecordedTtl(Ttl(env.world.cfg));
      } else {
        assert Readable(env, view, q);
      }
    }
  }

  lemma {:induction false} LookupBounded(env: Env, s: CState, r: Request)
    requires StoredBounded(env, s.view) && NewBounded(env)
    ensures StoredBounded(env, Lookup(env, s, r).1.view)
  {
    if env.world.upstream(r).Ok? {
      NewEntryValid(env, r, env.clock(s.ticks), env.world.upstream(r).list);
      if SourceOf(env.world.cfg, r) != "" { StoreBounded(env, s.view, r, env.clock(s.ticks)); }
    }
  }

  lemma {:induction false} AfterBounded(env: Env, s: CState, asks: seq<Request>)
    requires StoredBounded(env, s.view) && NewBounded(env)
    ensures StoredBounded(env, After(env, s, asks).view)
    decreases |asks|
  {
    if asks != [] {
      AfterBounded(env, s, asks[..|asks| - 1]);
      LookupBounded(env, After(env, s, asks[..|asks| - 1]), asks[|asks| - 1]);
    }
  }

  lemma {:induction false} BoundedFresh(env: Env, s: CState, r: Request)
    requires StoredBounded(env, s.view)
    ensures FreshNow(env, s, r)
  {
    if !Misses(env, s, r) {
      assert Readable(env, s.view, r);
      EntryHonours(s.view[Key(env.world.cfg, r)], Ttl(env.world.cfg));
    }
  }

  /** For one clock. */
  lemma {:induction false} FreshWhenBounded(env: Env, view: map<string, Entry>, asks: seq<Request>, r: Request)
    requires StoredBounded(env, view) && NewBounded(env)
    ensures FreshUnder(env, view, asks, r)
  {
    AfterBounded(env, CState(view, 0), asks);
    BoundedFresh(env, After(env, CState(view, 0), asks), r);
  }

  // ---------- it is needed ----------

  /** An entry that records no expiry, or one beyond the TTL, is served past it. */
  lemma {:induction false} OldEntryStale(env: Env, view: map<string, Entry>, r: Request)
    requires Readable(env, view, r) && !Bounded(view[Key(env.world.cfg, r)], Ttl(env.world.cfg))
    ensures !NeverStale(env, view)
  {
    var e, ttl := view[Key(env.world.cfg, r)], Ttl(env.world.cfg);
    EntryHonours(e, ttl);
    var now :| !Expired(e, now) && now - e.fetchedAt > ttl;
    var clock: nat -> int := (n: nat) => now;
    assert After(env.(clock := clock), CState(view, 0), []) == CState(view, 0);
    assert !FreshUnder(env.(clock := clock), view, [], r);
  }

  /** A time at which the store's list for r, if any, is expired. */
  function TooLate(env: Env, view: map<string, Entry>, r: Request): int {
    var key := Key(env.world.cfg, r);
    var late := if key in view then view[key].fetchedAt + Lifetime(view[key].ttlSeconds) + 1 else 1;
    if late > 0 then late else 1
  }

  lemma {:induction false} MissesLate(env: Env, view: map<string, Entry>, r: Request)
    requires StoredBounded(env, view) && env.clock(0) == TooLate(env, view, r)
    ensures Misses(env, CState(view, 0), r) && env.clock(0) != ZERO_TIME
  {
    if Readable(env, view, r) { assert Bounded(view[Key(env.world.cfg, r)], Ttl(env.world.cfg)); }
  }

  /** Under a TTL below a second a fetched list is served for ever. */
  lemma {:induction false} NewEntryStale(env: Env, view: map<string, Entry>, r: Request)
    requires StoredBounded(env, view) && Ttl(env.world.cfg) < SECOND && Storable(env, r)
    requires env.clock(0) == TooLate(env, view, r) && env.clock(1) == env.clock(0) + Ttl(env.world.cfg) + 1
    ensures !FreshUnder(env, view, [r], r)
  {
    var s, list := CState(view, 0), env.world.upstream(r).list;
    MissesLate(env, view, r);
    LookupFresh(env, s, r);
    AfterOne(env, s, r);
    KeptIsStale(env, Lookup(env, s, r).1, r);
  }

  lemma {:induction false} AfterOne(env: Env, s: CState, r: Request)
    ensures After(env, s, [r]) == Lookup(env, s, r).1
  {
    assert [r][..0] == [];
    assert After(env, s, []) == s;
  }

  lemma {:induction false} KeptIsStale(env: Env, s: CState, r: Request)
    requires Ttl(env.world.cfg) < SECOND && Storable(env, r) && s.ticks == 1
    requires env.clock(1) == env.clock(0) + Ttl(env.world.cfg) + 1
    requires var key, list := Key(env.world.cfg, r), env.world.upstream(r).list;
      key in s.view && s.view[key] == Kept(env, NewEntry(env, r, env.clock(0), list))
    ensures !FreshNow(env, s, r)
  {
    RetainedReads(env, r, env.clock(0));
  }

  lemma {:induction false} OtherClock(a: Env, b: Env, view: map<string, Entry>)
    requires StoredBounded(a, view) && NewBounded(a) && a.world == b.world && a.onDisk == b.onDisk
    ensures StoredBounded(b, view) && NewBounded(b)
  {
    forall r ensures Readable(b, view, r) == Readable(a, view, r) && Storable(b, r) == Storable(a, r) {
    }
  }

  /** Exactly when no list is ever served past the TTL: the stored lists record expiries
      of at most the TTL, and it is a second or more, unless nothing can be stored. */
  lemma {:induction false} NeverStaleIff(env: Env, view: map<string, Entry>)
    ensures NeverStale(env, view) <==> StoredBounded(env, view) && NewBounded(env)
  {
    if !StoredBounded(env, view) {
      var r :| Readable(env, view, r) && !Bounded(view[Key(env.world.cfg, r)], Ttl(env.world.cfg));
      OldEntryStale(env, view, r);
    } else if !NewBounded(env) {
      var r :| Storable(env, r);
      var c0, c1 := TooLate(env, view, r), TooLate(env, view, r) + Ttl(env.world.cfg) + 1;
      var clock: nat -> int := (n: nat) => if n == 0 then c0 else c1;
      NewEntryStale(env.(clock := clock), view, r);
    } else {
      forall clock: nat -> int, asks: seq<Request>, r: Request ensures FreshUnder(env.(clock := clock), view, asks, r) {
        OtherClock(env, env.(clock := clock), view);
        FreshWhenBounded(env.(clock := clock), view, asks, r);
      }
    }
  }
}
