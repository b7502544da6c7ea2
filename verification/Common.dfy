/** Helpers that several modules share. */
module Common {

  datatype Option<+T> = None | Some(value: T)

  function Front<T>(s: seq<T>): seq<T>
    requires s != []
  {
    s[..|s| - 1]
  }

  lemma {:induction false} Regroup<T>(a: seq<T>, b: seq<T>, c: seq<T>)
    ensures a + b + c == a + (b + c)
  {
  }

  function Min(a: int, b: int): int { if a <= b then a else b }

  function Max(a: int, b: int): int { if a <= b then b else a }

  const SECOND: int := 1_000_000_000
  const MIN_INT64: int := -0x8000_0000_0000_0000
  const MAX_INT64: int := 0x7FFF_FFFF_FFFF_FFFF

  /** int64 arithmetic wraps. */
  function Wrap64(x: int): int { (x - MIN_INT64) % 0x1_0000_0000_0000_0000 + MIN_INT64 }

  /** strings.ToLower, on ASCII letters. */
  function ToLower(s: string): string {
    if s == "" then "" else [if 'A' <= s[0] <= 'Z' then s[0] - 'A' + 'a' else s[0]] + ToLower(s[1..])
  }

  /** low is s with the letters A to Z in lower case, byte for byte. */
  ghost predicate Lowered(s: string, low: string) {
    |low| == |s| && forall i | 0 <= i < |s| ::
      if 'A' <= s[i] <= 'Z' then 'a' <= low[i] <= 'z' && low[i] - 'a' == s[i] - 'A' else low[i] == s[i]
  }

  lemma {:induction false} LoweredIs(s: string, low: string)
    ensures low == ToLower(s) <==> Lowered(s, low)
  {
    if s != "" && low != "" {
      LoweredIs(s[1..], low[1..]);
      assert low == [low[0]] + low[1..];
      assert Lowered(s, low) ==> Lowered(s[1..], low[1..]);
    }
  }
}
