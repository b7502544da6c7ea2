/** pkg/catalog/entry.go: cache entries, their keys, expiry and validation. */
module Entries {
  import opened Common

  /** A Go slice: nil, or a list that may be empty. */
  datatype List = Absent | Present(items: seq<string>)

  /** A nil and an empty label-values map read the same, so both are map[]. */
  datatype Result = Result(metricNames: List, labelNames: List, labelValues: map<string, List>, seriesCount: int)

  datatype Entry = Entry(schemaVersion: int, query: string, language: string, source: string,
                         fetchedAt: int, ttlSeconds: int, result: Option<Result>, error: string)

  const SCHEMA_VERSION := 1
  const PROMQL := "promql"
  const LOGQL := "logql"
  const TRACEQL := "traceql"
  const LANGUAGES: seq<string> := [PROMQL, LOGQL, TRACEQL]

  /** Times are nanoseconds; this one stands for the zero time.Time. */
  const ZERO_TIME: int := 0

  predicate ValidLanguage(l: string) { l == PROMQL || l == LOGQL || l == TRACEQL }

  // ---------- keys ----------

  function HexDigit(n: nat): char
    requires n < 16
  {
    "0123456789abcdef"[n]
  }

  function HexDigits(n: nat, width: nat): string
  {
    if width == 0 then "" else HexDigits(n / 16, width - 1) + [HexDigit(n % 16)]
  }

  /** Stands for the hex form of SHA-256: lower-case hex, a different one for every input. */
  function Digest(s: string): string {
    if s == "" then "" else HexDigits(s[0] as int, 6) + Digest(s[1..])
  }

  function KeyFor(language: string, source: string, query: string): string {
    Digest(language + "\n" + source + "\n" + query)
  }

  function KeyOf(e: Entry): string { KeyFor(e.language, e.source, e.query) }

  lemma {:induction false} HexDigitsShape(n: nat, width: nat)
    ensures |HexDigits(n, width)| == width
    ensures forall c | c in HexDigits(n, width) :: '0' <= c <= '9' || 'a' <= c <= 'f'
  {
    if width > 0 { HexDigitsShape(n / 16, width - 1); }
  }

  function Pow16(k: nat): nat { if k == 0 then 1 else 16 * Pow16(k - 1) }

  lemma {:induction false} HexDigitsInjective(m: nat, n: nat, width: nat)
    requires HexDigits(m, width) == HexDigits(n, width) && m < Pow16(width) && n < Pow16(width)
    ensures m == n
  {
    if width > 0 {
      HexDigitsShape(m / 16, width - 1);
      HexDigitsShape(n / 16, width - 1);
      SnocInjective(HexDigits(m / 16, width - 1), HexDigits(n / 16, width - 1), HexDigit(m % 16), HexDigit(n % 16));
      HexDigitsInjective(m / 16, n / 16, width - 1);
    }
  }

  lemma {:induction false} SnocInjective(a: string, b: string, x: char, y: char)
    requires a + [x] == b + [y]
    ensures a == b && x == y
  {
    assert |a| == |b|;
    assert (a + [x])[..|a|] == a && (b + [y])[..|b|] == b && (a + [x])[|a|] == x && (b + [y])[|b|] == y;
  }

  lemma {:induction false} DigestInjective(s: string, t: string)
    requires Digest(s) == Digest(t)
    ensures s == t
  {
    if s != "" { HexDigitsShape(s[0] as int, 6); }
    if t != "" { HexDigitsShape(t[0] as int, 6); }
    if s != "" && t != "" {
      var a, b := HexDigits(s[0] as int, 6), HexDigits(t[0] as int, 6);
      assert Digest(s)[..6] == a && Digest(t)[..6] == b;
      assert Digest(s)[6..] == Digest(s[1..]) && Digest(t)[6..] == Digest(t[1..]);
      PowSix();
      HexDigitsInjective(s[0] as int, t[0] as int, 6);
      DigestInjective(s[1..], t[1..]);
      assert s == [s[0]] + s[1..] && t == [t[0]] + t[1..];
    }
  }

  lemma {:induction false} PowSix()
    ensures Pow16(6) == 0x100_0000
  {
    assert Pow16(2) == 256 && Pow16(4) == 16 * 16 * Pow16(2) && Pow16(6) == 16 * 16 * Pow16(4);
  }

  lemma {:induction false} CancelPrefix(p: string, s: string, t: string)
    requires p + s == p + t
    ensures s == t
  {
    assert (p + s)[|p|..] == s && (p + t)[|p|..] == t;
  }

  lemma {:induction false} CancelSuffix(s: string, t: string, q: string)
    requires s + q == t + q
    ensures s == t
  {
    assert |s| == |t|;
    assert (s + q)[..|s|] == s && (t + q)[..|t|] == t;
  }

  /** s and t up to their first c are the same. */
  lemma {:induction false} CutAtFirst(c: char, s: string, s': string, t: string, t': string)
    requires s + [c] + t == s' + [c] + t' && c !in s && c !in s'
    ensures s == s' && t == t'
  {
    var w := s + [c] + t;
    assert w[|s|] == c && w[|s'|] == c;
    assert forall k | 0 <= k < |s| :: w[k] == s[k] && s[k] in s;
    assert forall k | 0 <= k < |s'| :: w[k] == s'[k] && s'[k] in s';
    assert |s| == |s'|;
    assert w[..|s|] == s && w[..|s'|] == s' && w[|s| + 1..] == t && w[|s'| + 1..] == t';
  }

  /** A key determines its language; and, for one source or for sources without
      a newline, the query too. */
  lemma {:induction false} KeyDetermines(l: string, s: string, q: string, l': string, s': string, q': string)
    requires KeyFor(l, s, q) == KeyFor(l', s', q') && ValidLanguage(l) && ValidLanguage(l')
    ensures l == l'
    ensures s == s' ==> q == q'
    ensures '\n' !in s && '\n' !in s' ==> s == s' && q == q'
  {
    DigestInjective(l + "\n" + s + "\n" + q, l' + "\n" + s' + "\n" + q');
    assert l + "\n" + s + "\n" + q == l + "\n" + (s + "\n" + q);
    assert l' + "\n" + s' + "\n" + q' == l' + "\n" + (s' + "\n" + q');
    CutAtFirst('\n', l, l', s + "\n" + q, s' + "\n" + q');
    if s == s' { CancelPrefix(s + "\n", q, q'); }
    if '\n' !in s && '\n' !in s' { CutAtFirst('\n', s, s', q, q'); }
  }

  // ---------- expiry and validation ----------

  /** A recorded TTL as a duration: an int64 product, which can wrap. */
  function Lifetime(ttlSeconds: int): int { Wrap64(ttlSeconds * SECOND) }

  predicate Expired(e: Entry, now: int) { e.ttlSeconds > 0 && now - e.fetchedAt > Lifetime(e.ttlSeconds) }

  datatype Invalid = NoSchemaVersion | NewerSchema | NoQuery | UnknownLanguage | NoSource | NoFetchedAt | NoPayload

  function Validate(e: Entry): Option<Invalid> {
    if e.schemaVersion <= 0 then Some(NoSchemaVersion)
    else if e.schemaVersion > SCHEMA_VERSION then Some(NewerSchema)
    else if e.query == "" then Some(NoQuery)
    else if !ValidLanguage(e.language) then Some(UnknownLanguage)
    else if e.source == "" then Some(NoSource)
    else if e.fetchedAt == ZERO_TIME then Some(NoFetchedAt)
    else if e.result.None? && e.error == "" then Some(NoPayload)
    else None
  }

  ghost predicate Wrong(e: Entry, why: Invalid) {
    match why
    case NoSchemaVersion => e.schemaVersion <= 0
    case NewerSchema => e.schemaVersion > 1
    case NoQuery => e.query == ""
    case UnknownLanguage => e.language != "promql" && e.language != "logql" && e.language != "traceql"
    case NoSource => e.source == ""
    case NoFetchedAt => e.fetchedAt == ZERO_TIME
    case NoPayload => e.result.None? && e.error == ""
  }

  /** In the order in which they are looked for. */
  function Position(why: Invalid): nat {
    match why
    case NoSchemaVersion => 0
    case NewerSchema => 1
    case NoQuery => 2
    case UnknownLanguage => 3
    case NoSource => 4
    case NoFetchedAt => 5
    case NoPayload => 6
  }

  /** An entry is valid exactly if nothing is wrong with it, and otherwise the first thing
      wrong is named. */
  lemma {:induction false} ValidExactly(e: Entry, why: Invalid)
    ensures Validate(e).None? <==> forall w :: !Wrong(e, w)
    ensures Validate(e) == Some(why) <==> Wrong(e, why) && forall w | Wrong(e, w) :: Position(why) <= Position(w)
  {
    if Validate(e).Some? { assert Wrong(e, Validate(e).value); }
    if Wrong(e, why) && Validate(e) != Some(why) { assert Position(Validate(e).value) < Position(why); }
  }

  /** The TTL in whole seconds, as an entry records it. */
  function TtlSeconds(ttl: int): int
    requires ttl > 0
  {
    ttl / SECOND
  }

  /** Recording a TTL never lengthens it. */
  lemma {:induction false} RecordedTtl(ttl: int)
    requires ttl > 0
    ensures Lifetime(TtlSeconds(ttl)) <= ttl
    ensures ttl <= MAX_INT64 ==> Lifetime(TtlSeconds(ttl)) == TtlSeconds(ttl) * SECOND
  {
  }

  /** The entry records an expiry, which comes out as at most ttl. */
  predicate Bounded(e: Entry, ttl: int) { 0 < e.ttlSeconds && Lifetime(e.ttlSeconds) <= ttl }

  /** An entry is never served more than ttl after its fetch, at whatever time it is
      asked for, if and only if it records an expiry that comes out as at most ttl. */
  lemma {:induction false} EntryHonours(e: Entry, ttl: int)
    ensures (forall now :: !Expired(e, now) ==> now - e.fetchedAt <= ttl) <==> Bounded(e, ttl)
  {
    if !Bounded(e, ttl) {
      var now := e.fetchedAt + if 0 < e.ttlSeconds then Lifetime(e.ttlSeconds) else if ttl > 0 then ttl + 1 else 1;
      assert !Expired(e, now);
    }
  }

  /** An entry written under a TTL honours that TTL if and only if it is at least one
      second: a shorter one is recorded as zero, which means no expiry. */
  lemma {:induction false} TtlHonoured(e: Entry, ttl: int)
    requires ttl > 0 && e.ttlSeconds == TtlSeconds(ttl)
    ensures (forall now :: !Expired(e, now) ==> now - e.fetchedAt <= ttl) <==> ttl >= SECOND
  {
    EntryHonours(e, ttl);
    RecordedTtl(ttl);
  }

  /** A TTL of 9223372037 seconds, some 292 years, wraps, and its entry reads as expired
      from the start. */
  lemma {:induction false} HugeTtlExpires(e: Entry)
    requires e.ttlSeconds == 9_223_372_037
    ensures Lifetime(e.ttlSeconds) < 0 && Expired(e, e.fetchedAt)
  {
  }
}
