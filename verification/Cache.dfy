/** pkg/catalog/checker.go, cachedList: typed upstream lists behind a cache whose
    keys are formatted strings, and what a caller can rely on. */
module Cache {
  import opened Common
  import opened Order
  import opened Lists
  import opened Entries
  import opened Store
  import Allowlist

  // ---------- typed requests ----------

  /** The lists the checker asks upstream for. */
  datatype Request =
    | MetricNames
    | MetricLabels(metric: string)
    | MetricValues(metric: string, labelName: string)
    | StreamLabels
    | StreamValues(labelName: string)
    | TraceNames(scope: string)
    | TraceValues(scope: string, name: string)

  datatype Config = Config(
    prom: bool, promSource: string, loki: bool, lokiSource: string, tempo: bool, tempoSource: string,
    allow: Option<Allowlist.Allowlist>, ttl: int, maxSuggestions: int, suggestDist: int,
    quote: string -> string)   // strconv.Quote, as %q prints a string

  function LanguageOf(r: Request): string {
    match r
    case MetricNames => PROMQL
    case MetricLabels(_) => PROMQL
    case MetricValues(_, _) => PROMQL
    case StreamLabels => LOGQL
    case StreamValues(_) => LOGQL
    case TraceNames(_) => TRACEQL
    case TraceValues(_, _) => TRACEQL
  }

  function SourceOf(cfg: Config, r: Request): string {
    var l := LanguageOf(r);
    if l == PROMQL then cfg.promSource else if l == LOGQL then cfg.lokiSource else cfg.tempoSource
  }

  function Query(r: Request): string {
    match r
    case MetricNames => "__ratatoskr_global_metric_names__"
    case MetricLabels(metric) => "__ratatoskr_metric_labels__:" + metric
    case MetricValues(metric, l) => "__ratatoskr_metric_label_values__:" + (metric + ":" + l)
    case StreamLabels => "__ratatoskr_global_label_names__"
    case StreamValues(l) => "__ratatoskr_loki_label_values__:" + l
    case TraceNames(scope) => "__ratatoskr_trace_attribute_names__:" + scope
    case TraceValues(scope, name) => "__ratatoskr_trace_attribute_values__:" + (scope + ":" + name)
  }

  function Key(cfg: Config, r: Request): string { KeyFor(LanguageOf(r), SourceOf(cfg, r), Query(r)) }

  /** Where in a Result the list of a request is kept. */
  datatype Slot = MetricNamesSlot | LabelNamesSlot | ValuesSlot(k: string)

  function SlotOf(r: Request): Slot {
    match r
    case MetricNames => MetricNamesSlot
    case MetricLabels(_) => LabelNamesSlot
    case MetricValues(_, l) => ValuesSlot(l)
    case StreamLabels => LabelNamesSlot
    case StreamValues(l) => ValuesSlot(l)
    case TraceNames(_) => LabelNamesSlot
    case TraceValues(_, name) => ValuesSlot(name)
  }

  /** The get accessors. */
  function Read(r: Result, slot: Slot): List {
    match slot
    case MetricNamesSlot => r.metricNames
    case LabelNamesSlot => r.labelNames
    case ValuesSlot(k) => if k in r.labelValues then r.labelValues[k] else Absent
  }

  const EMPTY := Result(Absent, Absent, map[], 0)

  /** The set accessors, on a fresh Result. */
  function Write(slot: Slot, l: List): Result {
    match slot
    case MetricNamesSlot => EMPTY.(metricNames := l)
    case LabelNamesSlot => EMPTY.(labelNames := l)
    case ValuesSlot(k) => EMPTY.(labelValues := map[k := l])
  }

  // ---------- keys and slots tell requests apart ----------

  lemma {:induction false} SameKeySameQuery(cfg: Config, r: Request, q: Request)
    requires Key(cfg, r) == Key(cfg, q)
    ensures LanguageOf(r) == LanguageOf(q) && Query(r) == Query(q)
  {
    KeyDetermines(LanguageOf(r), SourceOf(cfg, r), Query(r), LanguageOf(q), SourceOf(cfg, q), Query(q));
  }

  lemma {:induction false} ValuesQuery(p: string, a: string, l: string, a': string)
    requires p + (a + ":" + l) == p + (a' + ":" + l)
    ensures a == a'
  {
    CancelPrefix(p, a + ":" + l, a' + ":" + l);
    assert a + ":" + l == a + (":" + l) && a' + ":" + l == a' + (":" + l);
    CancelSuffix(a, a', ":" + l);
  }

  /** Query strings collide, but a key and a slot together name one request. */
  lemma {:induction false} KeyAndSlot(cfg: Config, r: Request, q: Request)
    requires Key(cfg, r) == Key(cfg, q) && SlotOf(r) == SlotOf(q)
    ensures r == q
  {
    SameKeySameQuery(cfg, r, q);
    match r
    case MetricNames =>
    case MetricLabels(m) => CancelPrefix("__ratatoskr_metric_labels__:", m, q.metric);
    case MetricValues(m, l) => ValuesQuery("__ratatoskr_metric_label_values__:", m, l, q.metric);
    case StreamLabels =>
    case StreamValues(_) =>
    case TraceNames(s) => CancelPrefix("__ratatoskr_trace_attribute_names__:", s, q.scope);
    case TraceValues(s, n) => ValuesQuery("__ratatoskr_trace_attribute_values__:", s, n, q.scope);
  }

  predicate ColonFree(s: string) { ':' !in s }

  /** The part of a request that its query puts after the last colon. */
  predicate PlainName(r: Request) {
    match r
    case MetricValues(_, l) => ColonFree(l)
    case TraceValues(_, name) => ColonFree(name)
    case _ => true
  }

  /** What tells the query formats of one language apart, at a fixed position. */
  lemma {:induction false} QueryHeads(r: Request)
    ensures |Query(r)| > 24
    ensures LanguageOf(r) == PROMQL ==>
      (Query(r)[12] == 'g' <==> r.MetricNames?) &&
      (r.MetricLabels? ==> Query(r)[24] == 's') && (r.MetricValues? ==> Query(r)[24] == '_')
    ensures LanguageOf(r) == LOGQL ==> (Query(r)[12] == 'g' <==> r.StreamLabels?)
  {
  }

  lemma {:induction false} TraceHeads(r: Request)
    requires LanguageOf(r) == TRACEQL
    ensures |Query(r)| > 28
    ensures Query(r)[28] == (if r.TraceNames? then 'n' else 'v')
  {
  }

  /** l is k with a prefix up to a colon, which b has after a colon behind a. */
  ghost predicate Shifted(a: string, l: string, b: string, k: string) {
    exists x: string :: l == x + ":" + k && b == a + ":" + x
  }

  /** Two different requests whose queries read the same: a colon in a label and one
      in the other's metric, or in a name and in the other's scope, change places. */
  ghost predicate Collide(r: Request, q: Request) {
    match (r, q)
    case (MetricValues(a, l), MetricValues(b, k)) => Shifted(a, l, b, k) || Shifted(b, k, a, l)
    case (TraceValues(a, l), TraceValues(b, k)) => Shifted(a, l, b, k) || Shifted(b, k, a, l)
    case _ => false
  }

  lemma {:induction false} CutTwice(a: string, l: string, b: string, k: string)
    requires a + ":" + l == b + ":" + k && |a| <= |b|
    ensures (a == b && l == k) || Shifted(a, l, b, k)
  {
    var s := a + ":" + l;
    assert s[..|a|] == a && s[..|b|] == b && s[|a| + 1..] == l && s[|b| + 1..] == k;
    if |a| < |b| {
      var x := s[|a| + 1..|b|];
      assert b == a + ":" + x && l == x + ":" + k;
    }
  }

  lemma {:induction false} ShiftedReads(a: string, l: string, b: string, k: string)
    requires Shifted(a, l, b, k)
    ensures a + ":" + l == b + ":" + k
  {
    var x :| l == x + ":" + k && b == a + ":" + x;
    assert a + ":" + (x + ":" + k) == a + ":" + x + ":" + k;
  }

  lemma {:induction false} ValuesCollide(p: string, a: string, l: string, b: string, k: string)
    ensures p + (a + ":" + l) == p + (b + ":" + k) <==> (a == b && l == k) || Shifted(a, l, b, k) || Shifted(b, k, a, l)
  {
    if p + (a + ":" + l) == p + (b + ":" + k) {
      CancelPrefix(p, a + ":" + l, b + ":" + k);
      if |a| <= |b| { CutTwice(a, l, b, k); } else { CutTwice(b, k, a, l); }
    }
    if Shifted(a, l, b, k) { ShiftedReads(a, l, b, k); }
    if Shifted(b, k, a, l) { ShiftedReads(b, k, a, l); }
  }

  lemma {:induction false} SameKind(cfg: Config, r: Request, q: Request)
    requires Key(cfg, r) == Key(cfg, q)
    ensures r.MetricValues? <==> q.MetricValues?
    ensures r.TraceValues? <==> q.TraceValues?
  {
    SameKeySameQuery(cfg, r, q);
    QueryHeads(r);
    QueryHeads(q);
    if LanguageOf(r) == TRACEQL {
      TraceHeads(r);
      TraceHeads(q);
    }
  }

  lemma {:induction false} OtherKeys(cfg: Config, r: Request, q: Request)
    requires Key(cfg, r) == Key(cfg, q) && !r.MetricValues? && !r.TraceValues?
    ensures r == q
  {
    SameKeySameQuery(cfg, r, q);
    SameKind(cfg, r, q);
    QueryHeads(r);
    QueryHeads(q);
    if LanguageOf(r) == TRACEQL {
      TraceHeads(r);
      TraceHeads(q);
    }
    match r
    case StreamValues(l) => CancelPrefix("__ratatoskr_loki_label_values__:", l, q.labelName);
    case _ => KeyAndSlot(cfg, r, q);
  }

  /** Exactly which requests share a key. */
  lemma {:induction false} KeysCollide(cfg: Config, r: Request, q: Request)
    ensures Key(cfg, r) == Key(cfg, q) <==> r == q || Collide(r, q)
  {
    if r.MetricValues? && q.MetricValues? {
      ValuesCollide("__ratatoskr_metric_label_values__:", r.metric, r.labelName, q.metric, q.labelName);
      if Key(cfg, r) == Key(cfg, q) { SameKeySameQuery(cfg, r, q); }
    } else if r.TraceValues? && q.TraceValues? {
      ValuesCollide("__ratatoskr_trace_attribute_values__:", r.scope, r.name, q.scope, q.name);
      if Key(cfg, r) == Key(cfg, q) { SameKeySameQuery(cfg, r, q); }
    } else if Key(cfg, r) == Key(cfg, q) {
      SameKind(cfg, r, q);
      OtherKeys(cfg, r, q);
    }
  }

  /** With names that hold no colon, requests have keys of their own. */
  lemma {:induction false} PlainKeys(cfg: Config, r: Request, q: Request)
    requires Key(cfg, r) == Key(cfg, q) && PlainName(r) && PlainName(q)
    ensures r == q
  {
    KeysCollide(cfg, r, q);
    if Collide(r, q) { CollideHasColon(r, q); }
  }

  lemma {:induction false} ShiftedHasColon(a: string, l: string, b: string, k: string)
    requires Shifted(a, l, b, k)
    ensures !ColonFree(l)
  {
    var x :| l == x + ":" + k && b == a + ":" + x;
    assert l[|x|] == ':';
  }

  lemma {:induction false} CollideHasColon(r: Request, q: Request)
    requires Collide(r, q)
    ensures !PlainName(r) || !PlainName(q)
  {
    match (r, q)
    case (MetricValues(a, l), MetricValues(b, k)) =>
      if Shifted(a, l, b, k) { ShiftedHasColon(a, l, b, k); } else { ShiftedHasColon(b, k, a, l); }
    case (TraceValues(a, l), TraceValues(b, k)) =>
      if Shifted(a, l, b, k) { ShiftedHasColon(a, l, b, k); } else { ShiftedHasColon(b, k, a, l); }
  }

  /** Such requests exist, so the query format is not injective. */
  lemma {:induction false} CollidingKeys(cfg: Config)
    ensures Key(cfg, MetricValues("a:b", "c")) == Key(cfg, MetricValues("a", "b:c"))
  {
    assert "a:b" + ":" + "c" == "a:b:c" == "a" + ":" + "b:c";
  }

  // ---------- one lookup ----------

  const DEFAULT_TTL: int := 3600 * SECOND

  function Ttl(cfg: Config): (ttl: int)
    ensures ttl > 0
  {
    if cfg.ttl > 0 then cfg.ttl else DEFAULT_TTL
  }

  datatype Fetched = Ok(list: List) | Failed(msg: string)

  /** All that findings depend on: the configuration, and what upstream answers. */
  datatype World = World(cfg: Config, upstream: Request -> Fetched)

  /** What is fixed during a run: that, the successive readings of the clock, and
      whether the store is the file store. */
  datatype Env = Env(world: World, clock: nat -> int, onDisk: bool)

  /** What a reader of the store sees, and how often the clock was read. */
  datatype CState = CState(view: map<string, Entry>, ticks: nat)

  datatype CatalogError = UpstreamError(msg: string) | CacheWrite(reason: Invalid)
    | SourceNotSet(language: string) | Interrupted

  datatype Outcome<+T> = Value(value: T) | Error(error: CatalogError)

  function SortList(l: List): List { if l.Present? then Present(SortStrings(l.items)) else l }

  function NewEntry(env: Env, r: Request, now: int, list: List): Entry {
    Entry(SCHEMA_VERSION, Query(r), LanguageOf(r), SourceOf(env.world.cfg, r), now, TtlSeconds(Ttl(env.world.cfg)),
          Some(Write(SlotOf(r), SortList(list))), "")
  }

  /** The entry that a fetch of r at time now stores a list in. */
  ghost predicate EntryFor(cfg: Config, r: Request, now: int, list: List, e: Entry) {
    && e.schemaVersion == 1 && e.fetchedAt == now && e.error == ""
    && match r
       case MetricNames =>
         && e.language == "promql" && e.source == cfg.promSource && e.query == "__ratatoskr_global_metric_names__"
         && e.result == Some(Result(list, Absent, map[], 0))
       case MetricLabels(metric) =>
         && e.language == "promql" && e.source == cfg.promSource
         && e.query == "__ratatoskr_metric_labels__:" + metric
         && e.result == Some(Result(Absent, list, map[], 0))
       case MetricValues(metric, l) =>
         && e.language == "promql" && e.source == cfg.promSource
         && e.query == "__ratatoskr_metric_label_values__:" + (metric + ":" + l)
         && e.result == Some(Result(Absent, Absent, map[l := list], 0))
       case StreamLabels =>
         && e.language == "logql" && e.source == cfg.lokiSource && e.query == "__ratatoskr_global_label_names__"
         && e.result == Some(Result(Absent, list, map[], 0))
       case StreamValues(l) =>
         && e.language == "logql" && e.source == cfg.lokiSource && e.query == "__ratatoskr_loki_label_values__:" + l
         && e.result == Some(Result(Absent, Absent, map[l := list], 0))
       case TraceNames(scope) =>
         && e.language == "traceql" && e.source == cfg.tempoSource
         && e.query == "__ratatoskr_trace_attribute_names__:" + scope
         && e.result == Some(Result(Absent, list, map[], 0))
       case TraceValues(scope, name) =>
         && e.language == "traceql" && e.source == cfg.tempoSource
         && e.query == "__ratatoskr_trace_attribute_values__:" + (scope + ":" + name)
         && e.result == Some(Result(Absent, Absent, map[name := list], 0))
  }

  /** Under what key, from what source and in what place of the payload each kind of list is
      kept: the layout that a store on disk shares with other runs. */
  lemma {:induction false} NewEntryIs(env: Env, r: Request, now: int, list: List)
    ensures EntryFor(env.world.cfg, r, now, SortList(list), NewEntry(env, r, now, list))
    ensures var e := NewEntry(env, r, now, list);
      KeyOf(e) == Key(env.world.cfg, r) == Digest(e.language + "\n" + e.source + "\n" + e.query)
  {
  }

  /** An entry as the store gives it back. */
  function Kept(env: Env, e: Entry): Entry { if env.onDisk then Written(e) else e }

  /** The cached list, when the entry under the request's key is fresh and holds one. */
  function Cached(env: Env, view: map<string, Entry>, r: Request, now: int): List {
    var key := Key(env.world.cfg, r);
    if key in view && !Expired(view[key], now) && view[key].result.Some? then
      Read(view[key].result.value, SlotOf(r))
    else Absent
  }

  /** The store holds a list for r, expired or not. */
  predicate Readable(env: Env, view: map<string, Entry>, r: Request) {
    var key := Key(env.world.cfg, r);
    key in view && view[key].result.Some? && Read(view[key].result.value, SlotOf(r)).Present?
  }

  /** What a lookup that goes upstream answers, and what it makes of the store. */
  function Fetch(env: Env, view: map<string, Entry>, r: Request, now: int): (Outcome<List>, map<string, Entry>) {
    match env.world.upstream(r)
    case Failed(msg) => (Error(UpstreamError(msg)), view)
    case Ok(list) =>
      var e := NewEntry(env, r, now, list);
      match Validate(e)
      case Some(why) => (Error(CacheWrite(why)), view)
      case None => (Value(SortList(list)), view[Key(env.world.cfg, r) := Kept(env, e)])
  }

  function Lookup(env: Env, s: CState, r: Request): (Outcome<List>, CState) {
    var now := env.clock(s.ticks);
    var hit := Cached(env, s.view, r, now);
    if hit.Present? then (Value(hit), s.(ticks := s.ticks + 1))
    else
      var (answer, view) := Fetch(env, s.view, r, now);
      (answer, CState(view, s.ticks + 1))
  }

  /** The list that an entry's payload holds for a request: names in their own fields, values
      under their label or attribute. */
  function ListIn(result: Result, r: Request): List {
    match r
    case MetricNames => result.metricNames
    case MetricLabels(_) => result.labelNames
    case MetricValues(_, l) => if l in result.labelValues then result.labelValues[l] else Absent
    case StreamLabels => result.labelNames
    case StreamValues(l) => if l in result.labelValues then result.labelValues[l] else Absent
    case TraceNames(_) => result.labelNames
    case TraceValues(_, name) => if name in result.labelValues then result.labelValues[name] else Absent
  }

  /** Exactly when a lookup is answered from the store: the entry under the key records no
      expiry, or is not older than its int64 duration, and holds the list. */
  lemma {:induction false} HitExactly(env: Env, s: CState, r: Request)
    ensures var key, now := Key(env.world.cfg, r), env.clock(s.ticks);
      !Misses(env, s, r) <==>
        && key in s.view && s.view[key].result.Some? && ListIn(s.view[key].result.value, r).Present?
        && var e := s.view[key];
          e.ttlSeconds <= 0 || now - e.fetchedAt <= Wrap64(e.ttlSeconds * 1_000_000_000)
    ensures !Misses(env, s, r) ==>
      Lookup(env, s, r) ==
        (Value(ListIn(s.view[Key(env.world.cfg, r)].result.value, r)), s.(ticks := s.ticks + 1))
    ensures Misses(env, s, r) && env.world.upstream(r).Failed? ==>
      Lookup(env, s, r) == (Error(UpstreamError(env.world.upstream(r).msg)), s.(ticks := s.ticks + 1))
  {
  }

  /** The clock never reads the zero time. */
  ghost predicate RealClock(env: Env) { forall n: nat :: env.clock(n) != ZERO_TIME }

  /** An entry can be written exactly when the source is set, at a real time. */
  lemma {:induction false} NewEntryValid(env: Env, r: Request, now: int, list: List)
    ensures Validate(NewEntry(env, r, now, list)).None? <==> SourceOf(env.world.cfg, r) != "" && now != ZERO_TIME
  {
    assert |Query(r)| > 0 by { QueryHeads(r); }
  }

  // ---------- transparency ----------

  function Items(l: List): seq<string> { if l.Present? then l.items else [] }

  /** l lists what upstream answered, with or without its duplicates. */
  ghost predicate Shows(l: List, list: List) {
    l.Present? && list.Present? && (l.items == SortStrings(list.items) || l.items == SortedUnique(list.items))
  }

  /** e is what the store keeps for request q: a list in q's slot alone, if any. */
  ghost predicate Holds(env: Env, e: Entry, q: Request) {
    e.result.Some? ==> forall slot ::
      Read(e.result.value, slot).Present? ==>
        slot == SlotOf(q) && env.world.upstream(q).Ok? && Shows(Read(e.result.value, slot), env.world.upstream(q).list)
  }

  /** Each entry a request can meet was kept for some request with the same key. */
  ghost predicate Faithful(env: Env, view: map<string, Entry>) {
    forall r :: Key(env.world.cfg, r) in view ==> KeptForSome(env, Key(env.world.cfg, r), view[Key(env.world.cfg, r)])
  }

  ghost predicate KeptForSome(env: Env, key: string, e: Entry) {
    exists q :: Key(env.world.cfg, q) == key && Holds(env, e, q)
  }

  lemma {:induction false} NewEntryHolds(env: Env, r: Request, now: int, list: List)
    requires env.world.upstream(r) == Ok(list)
    ensures Holds(env, Kept(env, NewEntry(env, r, now, list)), r)
  {
    var l, e := SortList(list), NewEntry(env, r, now, list);
    if list.Present? {
      SortStringsUnique(list.items, SortStrings(list.items));
      assert SortedUnique(SortStrings(list.items)) == SortedUnique(list.items);
    }
    forall slot | Read(Kept(env, e).result.value, slot).Present?
      ensures slot == SlotOf(r) && Shows(Read(Kept(env, e).result.value, slot), list)
    {
      WriteRead(SlotOf(r), l, slot);
      if env.onDisk { OnDiskRead(Write(SlotOf(r), l), slot); }
    }
  }

  lemma {:induction false} WriteRead(slot: Slot, l: List, slot': Slot)
    ensures Read(Write(slot, l), slot') == if slot' == slot then l else Absent
  {
  }

  /** Writing to disk sorts and dedupes a list, and may turn an empty one into nil. */
  lemma {:induction false} OnDiskRead(r: Result, slot: Slot)
    ensures Read(OnDisk(r), slot) == NormaliseList(Read(r, slot)) ||
            (Read(OnDisk(r), slot) == Absent && NormaliseList(Read(r, slot)) == Present([]))
  {
  }

  /** An answer agrees with upstream: the same elements, and the very list, sorted,
      when upstream sends no duplicates. */
  ghost predicate Agrees(l: List, list: List) {
    && (forall x :: x in Items(l) <==> x in Items(list))
    && (NoDuplicates(Items(list)) ==> l == SortList(list))
  }

  lemma {:induction false} ShowsAgrees(l: List, list: List)
    requires Shows(l, list)
    ensures Agrees(l, list)
  {
    SortedUniqueIs(list.items);
    forall x ensures x in SortStrings(list.items) <==> x in list.items {
      assert x in multiset(SortStrings(list.items)) <==> x in multiset(list.items);
    }
    if NoDuplicates(list.items) { SortedUniqueNoDuplicates(list.items); }
  }

  lemma {:induction false} SortAgrees(list: List)
    ensures Agrees(SortList(list), list)
  {
    if list.Present? { ShowsAgrees(SortList(list), list); }
  }

  /** What a lookup answers, whatever the store had under the request's key: an
      error only if upstream fails or the entry cannot be written, never a list
      that disagrees with upstream, and never a list for a request upstream fails. */
  ghost predicate Truthful(env: Env, r: Request, answer: Outcome<List>) {
    match answer
    case Value(l) => env.world.upstream(r).Ok? && Agrees(l, env.world.upstream(r).list)
    case Error(UpstreamError(msg)) => env.world.upstream(r) == Failed(msg)
    case Error(e) => e.CacheWrite? && env.world.upstream(r).Ok?
  }

  lemma {:induction false} HitAgrees(env: Env, view: map<string, Entry>, r: Request, now: int)
    requires Faithful(env, view) && Cached(env, view, r, now).Present?
    ensures env.world.upstream(r).Ok? && Agrees(Cached(env, view, r, now), env.world.upstream(r).list)
  {
    var key := Key(env.world.cfg, r);
    var q :| Key(env.world.cfg, q) == key && Holds(env, view[key], q);
    var l := Read(view[key].result.value, SlotOf(r));
    assert SlotOf(r) == SlotOf(q);
    KeyAndSlot(env.world.cfg, r, q);
    ShowsAgrees(l, env.world.upstream(r).list);
  }

  /** Keeping what upstream answered keeps the store faithful. */
  lemma {:induction false} KeepFaithful(env: Env, view: map<string, Entry>, r: Request, now: int, list: List)
    requires Faithful(env, view) && env.world.upstream(r) == Ok(list)
    ensures Faithful(env, view[Key(env.world.cfg, r) := Kept(env, NewEntry(env, r, now, list))])
  {
    NewEntryHolds(env, r, now, list);
    assert KeptForSome(env, Key(env.world.cfg, r), Kept(env, NewEntry(env, r, now, list)));
  }

  /** Cache transparency of one lookup, and the invariant it keeps. */
  lemma {:induction false} LookupTransparent(env: Env, s: CState, r: Request)
    requires Faithful(env, s.view)
    ensures Truthful(env, r, Lookup(env, s, r).0)
    ensures Faithful(env, Lookup(env, s, r).1.view)
  {
    var now := env.clock(s.ticks);
    if Cached(env, s.view, r, now).Present? {
      HitAgrees(env, s.view, r, now);
    } else if env.world.upstream(r).Ok? {
      SortAgrees(env.world.upstream(r).list);
      KeepFaithful(env, s.view, r, now, env.world.upstream(r).list);
    }
  }

  // ---------- sequences of lookups ----------

  /** The state after a sequence of lookups, and the requests that went upstream. */
  function After(env: Env, s: CState, asks: seq<Request>): CState
    decreases |asks|
  {
    if asks == [] then s else Lookup(env, After(env, s, asks[..|asks| - 1]), asks[|asks| - 1]).1
  }

  predicate Misses(env: Env, s: CState, r: Request) { !Cached(env, s.view, r, env.clock(s.ticks)).Present? }

  function Fetches(env: Env, s: CState, asks: seq<Request>): seq<Request>
    decreases |asks|
  {
    if asks == [] then []
    else
      var before, r := asks[..|asks| - 1], asks[|asks| - 1];
      Fetches(env, s, before) + if Misses(env, After(env, s, before), r) then [r] else []
  }

  lemma {:induction false} AfterNext(env: Env, s: CState, asks: seq<Request>, r: Request)
    ensures After(env, s, asks + [r]) == Lookup(env, After(env, s, asks), r).1
  {
    assert (asks + [r])[..|asks|] == asks;
  }

  lemma {:induction false} AfterPrefix(env: Env, s0: CState, tasks: seq<Request>, n: nat)
    requires n < |tasks|
    ensures After(env, s0, tasks[..n + 1]) == Lookup(env, After(env, s0, tasks[..n]), tasks[n]).1
  {
    assert tasks[..n + 1][..n] == tasks[..n];
  }

  function FetchOf(env: Env, s: CState, r: Request): seq<Request> { if Misses(env, s, r) then [r] else [] }

  lemma {:induction false} FetchesNext(env: Env, s: CState, asks: seq<Request>, r: Request)
    ensures Fetches(env, s, asks + [r]) == Fetches(env, s, asks) + FetchOf(env, After(env, s, asks), r)
  {
    assert (asks + [r])[..|asks|] == asks;
  }

  lemma {:induction false} Unsnoc(b: seq<Request>) returns (b': seq<Request>, r: Request)
    requires b != []
    ensures b == b' + [r]
  {
    b', r := b[..|b| - 1], b[|b| - 1];
  }

  lemma {:induction false} AfterConcat(env: Env, s: CState, a: seq<Request>, b: seq<Request>)
    ensures After(env, s, a + b) == After(env, After(env, s, a), b)
    decreases |b|
  {
    if b == [] {
      assert a + b == a;
    } else {
      var b', r := Unsnoc(b);
      AfterConcat(env, s, a, b');
      AfterConcatNext(env, s, a, b', r, a + b');
    }
  }

  lemma {:induction false} AfterConcatNext(env: Env, s: CState, a: seq<Request>, b: seq<Request>, r: Request,
      ab: seq<Request>)
    requires ab == a + b && After(env, s, ab) == After(env, After(env, s, a), b)
    ensures After(env, s, a + (b + [r])) == After(env, After(env, s, a), b + [r])
  {
    AfterNext(env, s, ab, r);
    AfterNext(env, After(env, s, a), b, r);
    assert a + (b + [r]) == ab + [r];
  }

  lemma {:induction false} FetchesConcat(env: Env, s: CState, a: seq<Request>, b: seq<Request>)
    ensures Fetches(env, s, a + b) == Fetches(env, s, a) + Fetches(env, After(env, s, a), b)
    decreases |b|
  {
    if b == [] {
      FetchesConcatNone(env, s, a);
    } else {
      var b', r := Unsnoc(b);
      FetchesConcat(env, s, a, b');
      FetchesConcatNext(env, s, a, b', r, a + b');
    }
  }

  lemma {:induction false} FetchesConcatNone(env: Env, s: CState, a: seq<Request>)
    ensures Fetches(env, s, a + []) == Fetches(env, s, a) + Fetches(env, After(env, s, a), [])
  {
    assert a + [] == a;
    assert Fetches(env, s, a) + [] == Fetches(env, s, a);
  }

  lemma {:induction false} FetchesConcatNext(env: Env, s: CState, a: seq<Request>, b: seq<Request>, r: Request,
      ab: seq<Request>)
    requires ab == a + b && Fetches(env, s, ab) == Fetches(env, s, a) + Fetches(env, After(env, s, a), b)
    ensures Fetches(env, s, a + (b + [r])) == Fetches(env, s, a) + Fetches(env, After(env, s, a), b + [r])
  {
    AfterConcat(env, s, a, b);
    FetchesNext(env, s, ab, r);
    FetchesNext(env, After(env, s, a), b, r);
    assert a + (b + [r]) == ab + [r];
    Regroup(Fetches(env, s, a), Fetches(env, After(env, s, a), b), FetchOf(env, After(env, s, ab), r));
  }

  /** Over any sequence of lookups from any faithful store, every answer agrees
      with upstream: the cache never shows, even under colliding keys. */
  lemma {:induction false} CacheTransparent(env: Env, s: CState, asks: seq<Request>)
    requires Faithful(env, s.view)
    ensures Faithful(env, After(env, s, asks).view)
    ensures forall i | 0 <= i < |asks| :: Truthful(env, asks[i], Lookup(env, After(env, s, asks[..i]), asks[i]).0)
    decreases |asks|
  {
    if asks != [] {
      var before, r := asks[..|asks| - 1], asks[|asks| - 1];
      CacheTransparent(env, s, before);
      LookupTransparent(env, After(env, s, before), r);
      forall i | 0 <= i < |asks| ensures Truthful(env, asks[i], Lookup(env, After(env, s, asks[..i]), asks[i]).0) {
        if i < |before| {
          assert asks[..i] == before[..i] && asks[i] == before[i];
        } else {
          assert asks[..i] == before;
        }
      }
    }
  }

  // ---------- asking again ----------

  /** A list that the store can give back: there, and, for a list of names written
      to disk, not empty. */
  predicate Retained(env: Env, r: Request) {
    env.world.upstream(r).Ok? && env.world.upstream(r).list.Present? &&
    (env.onDisk && !SlotOf(r).ValuesSlot? ==> env.world.upstream(r).list.items != [])
  }

  lemma {:induction false} SortedEmpty(s: seq<string>)
    ensures SortedUnique(s) == [] <==> s == []
  {
    SortedUniqueIs(s);
    if s != [] { assert s[0] in SortedUnique(s); }
  }

  lemma {:induction false} SortedStringsEmpty(s: seq<string>)
    ensures SortStrings(s) == [] <==> s == []
  {
    assert |multiset(SortStrings(s))| == |multiset(s)|;
  }

  lemma {:induction false} OwnSlotOnDisk(slot: Slot, l: List)
    ensures Read(OnDisk(Write(slot, l)), slot) ==
      if slot.ValuesSlot? then NormaliseList(l) else OmitEmpty(NormaliseList(l))
  {
  }

  lemma {:induction false} RetainedReads(env: Env, r: Request, now: int)
    requires env.world.upstream(r).Ok?
    ensures Read(Kept(env, NewEntry(env, r, now, env.world.upstream(r).list)).result.value, SlotOf(r)).Present? <==>
        Retained(env, r)
  {
    var list := env.world.upstream(r).list;
    WriteRead(SlotOf(r), SortList(list), SlotOf(r));
    OwnSlotOnDisk(SlotOf(r), SortList(list));
    if list.Present? {
      SortedStringsEmpty(list.items);
      SortedEmpty(SortStrings(list.items));
    }
  }

  lemma {:induction false} KeptReads(env: Env, r: Request, now: int)
    requires Retained(env, r)
    ensures var list := env.world.upstream(r).list.items;
      Read(Kept(env, NewEntry(env, r, now, env.world.upstream(r).list)).result.value, SlotOf(r)) ==
      Present(if env.onDisk then SortedUnique(list) else SortStrings(list))
  {
    var list := env.world.upstream(r).list;
    RetainedReads(env, r, now);
    WriteRead(SlotOf(r), SortList(list), SlotOf(r));
    OwnSlotOnDisk(SlotOf(r), SortList(list));
    SortStringsUnique(list.items, SortStrings(list.items));
  }

  /** A list just fetched and asked for again, in time, is the same list if and only if
      the store is the memory store or upstream does not repeat itself: the file store
      drops repetitions, a fresh fetch does not. */
  lemma {:induction false} AskedTwice(env: Env, s: CState, r: Request)
    requires Misses(env, s, r) && Retained(env, r) && SourceOf(env.world.cfg, r) != "" && RealClock(env)
    requires !Expired(NewEntry(env, r, env.clock(s.ticks), env.world.upstream(r).list), env.clock(s.ticks + 1))
    ensures var (first, t) := Lookup(env, s, r);
      !Misses(env, t, r) &&
      (Lookup(env, t, r).0 == first <==> !env.onDisk || NoDuplicates(env.world.upstream(r).list.items))
  {
    LookupFresh(env, s, r);
    SecondLookup(env, s, r);
    SortedUniqueIff(env.world.upstream(r).list.items);
  }

  lemma {:induction false} SecondLookup(env: Env, s: CState, r: Request)
    requires Misses(env, s, r) && Retained(env, r) && SourceOf(env.world.cfg, r) != "" && RealClock(env)
    requires !Expired(NewEntry(env, r, env.clock(s.ticks), env.world.upstream(r).list), env.clock(s.ticks + 1))
    ensures var t, list := Lookup(env, s, r).1, env.world.upstream(r).list.items;
      !Misses(env, t, r)
      && Lookup(env, t, r).0 == Value(Present(if env.onDisk then SortedUnique(list) else SortStrings(list)))
  {
    LookupFresh(env, s, r);
    KeptLookup(env, Lookup(env, s, r).1, r, env.clock(s.ticks));
  }

  lemma {:induction false} KeptLookup(env: Env, t: CState, r: Request, fetched: int)
    requires Retained(env, r) && Key(env.world.cfg, r) in t.view
    requires var e := NewEntry(env, r, fetched, env.world.upstream(r).list);
      t.view[Key(env.world.cfg, r)] == Kept(env, e) && !Expired(e, env.clock(t.ticks))
    ensures var list := env.world.upstream(r).list.items;
      !Misses(env, t, r)
      && Lookup(env, t, r).0 == Value(Present(if env.onDisk then SortedUnique(list) else SortStrings(list)))
  {
    KeptReads(env, r, fetched);
    LookupCached(env, t, r);
  }

  lemma {:induction false} LookupFresh(env: Env, s: CState, r: Request)
    requires Misses(env, s, r) && env.world.upstream(r).Ok? && SourceOf(env.world.cfg, r) != ""
    requires env.clock(s.ticks) != ZERO_TIME
    ensures var list := env.world.upstream(r).list;
      Lookup(env, s, r) == (Value(SortList(list)),
        CState(s.view[Key(env.world.cfg, r) := Kept(env, NewEntry(env, r, env.clock(s.ticks), list))], s.ticks + 1))
  {
    NewEntryValid(env, r, env.clock(s.ticks), env.world.upstream(r).list);
  }

  lemma {:induction false} LookupCached(env: Env, s: CState, r: Request)
    requires Key(env.world.cfg, r) in s.view && !Expired(s.view[Key(env.world.cfg, r)], env.clock(s.ticks))
    requires s.view[Key(env.world.cfg, r)].result.Some?
    requires Read(s.view[Key(env.world.cfg, r)].result.value, SlotOf(r)).Present?
    ensures !Misses(env, s, r)
    ensures Lookup(env, s, r).0 == Value(Read(s.view[Key(env.world.cfg, r)].result.value, SlotOf(r)))
  {
  }
}
