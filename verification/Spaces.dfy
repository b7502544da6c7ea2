/** strings.TrimSpace, on the bytes of UTF-8 text. */
module Spaces {

  // The one-, two- and three-byte encodings of what unicode.IsSpace accepts.

  predicate Space1(a: char) { a == ' ' || '\t' <= a <= '\r' }

  predicate Space2(a: char, b: char) { a == '\U{C2}' && (b == '\U{85}' || b == '\U{A0}') }

  predicate Space3(a: char, b: char, c: char) {
    || (a == '\U{E1}' && b == '\U{9A}' && c == '\U{80}')
    || (a == '\U{E2}' && b == '\U{80}' && ('\U{80}' <= c <= '\U{8A}' || c in "\U{A8}\U{A9}\U{AF}"))
    || (a == '\U{E2}' && b == '\U{81}' && c == '\U{9F}')
    || (a == '\U{E3}' && b == '\U{80}' && c == '\U{80}')
  }

  /** The length of the space s starts with, or 0. */
  function SpaceAtStart(s: string): (n: nat)
    ensures n <= |s|
  {
    if |s| >= 1 && Space1(s[0]) then 1
    else if |s| >= 2 && Space2(s[0], s[1]) then 2
    else if |s| >= 3 && Space3(s[0], s[1], s[2]) then 3
    else 0
  }

  function SpaceAtEnd(s: string): (n: nat)
    ensures n <= |s|
  {
    var k := |s|;
    if k >= 1 && Space1(s[k - 1]) then 1
    else if k >= 2 && Space2(s[k - 2], s[k - 1]) then 2
    else if k >= 3 && Space3(s[k - 3], s[k - 2], s[k - 1]) then 3
    else 0
  }

  function TrimLeft(s: string): string {
    var n := SpaceAtStart(s);
    if n == 0 then s else TrimLeft(s[n..])
  }

  function TrimRight(s: string): string {
    var n := SpaceAtEnd(s);
    if n == 0 then s else TrimRight(s[..|s| - n])
  }

  function TrimSpace(s: string): string { TrimRight(TrimLeft(s)) }

  /** s is a run of spaces and nothing else. */
  predicate Blank(s: string) { TrimSpace(s) == "" }

  // ---------- what that means ----------

  /** The code points of white space. */
  predicate WhiteSpace(cp: nat) {
    || 0x09 <= cp <= 0x0D || cp == 0x20 || cp == 0x85 || cp == 0xA0 || cp == 0x1680 || 0x2000 <= cp <= 0x200A
    || cp == 0x2028 || cp == 0x2029 || cp == 0x202F || cp == 0x205F || cp == 0x3000
  }

  /** The UTF-8 bytes of a code point below 0x10000. */
  function Utf8(cp: nat): string
    requires cp < 0x1_0000
  {
    if cp < 0x80 then [cp as char]
    else if cp < 0x800 then [(0xC0 + cp / 0x40) as char, (0x80 + cp % 0x40) as char]
    else [(0xE0 + cp / 0x1000) as char, (0x80 + cp / 0x40 % 0x40) as char, (0x80 + cp % 0x40) as char]
  }

  ghost predicate IsSpace(x: string) { exists cp: nat :: WhiteSpace(cp) && x == Utf8(cp) }

  lemma {:induction false} OneByte(a: char)
    ensures IsSpace([a]) <==> Space1(a)
  {
    if Space1(a) { assert WhiteSpace(a as nat) && [a] == Utf8(a as nat); }
  }

  lemma {:induction false} TwoBytes(a: char, b: char)
    ensures IsSpace([a, b]) <==> Space2(a, b)
  {
    if Space2(a, b) {
      var cp := if b == '\U{85}' then 0x85 else 0xA0;
      assert WhiteSpace(cp) && [a, b] == Utf8(cp);
    }
  }

  lemma {:induction false} LongSpace(cp: nat)
    requires WhiteSpace(cp) && cp >= 0x800
    ensures var x := Utf8(cp); |x| == 3 && Space3(x[0], x[1], x[2])
  {
    if 0x2000 <= cp <= 0x200A {
      assert cp / 0x1000 == 2 && cp / 0x40 == 0x80 && cp % 0x40 == cp - 0x2000;
    }
  }

  lemma {:induction false} LongSpaceFrom(a: char, b: char, c: char) returns (cp: nat)
    requires Space3(a, b, c)
    ensures WhiteSpace(cp) && [a, b, c] == Utf8(cp)
  {
    if a == '\U{E1}' {
      cp := 0x1680;
    } else if a == '\U{E3}' {
      cp := 0x3000;
    } else if b == '\U{81}' {
      cp := 0x205F;
    } else {
      cp := 0x2000 + (c as int - 0x80);
      assert cp / 0x1000 == 2 && cp / 0x40 == 0x80 && cp % 0x40 == cp - 0x2000;
    }
  }

  lemma {:induction false} ThreeBytes(a: char, b: char, c: char)
    ensures IsSpace([a, b, c]) <==> Space3(a, b, c)
  {
    if Space3(a, b, c) {
      var cp := LongSpaceFrom(a, b, c);
    }
    if IsSpace([a, b, c]) {
      var cp: nat :| WhiteSpace(cp) && [a, b, c] == Utf8(cp);
      LongSpace(cp);
      assert [a, b, c][0] == a && [a, b, c][1] == b && [a, b, c][2] == c;
    }
  }

  function Concat(xs: seq<string>): string { if xs == [] then "" else xs[0] + Concat(xs[1..]) }

  /** Spaces one after another. */
  ghost predicate AllSpaces(xs: seq<string>) { forall i | 0 <= i < |xs| :: IsSpace(xs[i]) }

  ghost predicate StartsInSpace(s: string) { exists n :: 0 < n <= |s| && IsSpace(s[..n]) }

  ghost predicate EndsInSpace(s: string) { exists k :: 0 <= k < |s| && IsSpace(s[k..]) }

  lemma {:induction false} SpaceLength(x: string)
    requires IsSpace(x)
    ensures 1 <= |x| <= 3
  {
  }

  /** The space s starts with is the one found there. */
  lemma {:induction false} StartsWith(s: string, n: nat)
    requires 0 < n <= |s|
    ensures IsSpace(s[..n]) <==> SpaceAtStart(s) == n
  {
    if IsSpace(s[..n]) { SpaceLength(s[..n]); }
    if n == 1 {
      OneByte(s[0]);
      assert s[..1] == [s[0]];
    } else if n == 2 {
      TwoBytes(s[0], s[1]);
      assert s[..2] == [s[0], s[1]];
    } else if n == 3 {
      ThreeBytes(s[0], s[1], s[2]);
      assert s[..3] == [s[0], s[1], s[2]];
    }
  }

  lemma {:induction false} EndsWith(s: string, k: nat)
    requires k < |s|
    ensures IsSpace(s[k..]) <==> SpaceAtEnd(s) == |s| - k
  {
    var n := |s| - k;
    if IsSpace(s[k..]) { SpaceLength(s[k..]); }
    if n == 1 {
      OneByte(s[k]);
      assert s[k..] == [s[k]];
    } else if n == 2 {
      TwoBytes(s[k], s[k + 1]);
      assert s[k..] == [s[k], s[k + 1]];
    } else if n == 3 {
      ThreeBytes(s[k], s[k + 1], s[k + 2]);
      assert s[k..] == [s[k], s[k + 1], s[k + 2]];
    }
  }

  lemma {:induction false} SpaceStarts(s: string)
    ensures StartsInSpace(s) <==> SpaceAtStart(s) > 0
  {
    if SpaceAtStart(s) > 0 { StartsWith(s, SpaceAtStart(s)); }
    if n :| 0 < n <= |s| && IsSpace(s[..n]) { StartsWith(s, n); }
  }

  lemma {:induction false} SpaceEnds(s: string)
    ensures EndsInSpace(s) <==> SpaceAtEnd(s) > 0
  {
    if SpaceAtEnd(s) > 0 { EndsWith(s, |s| - SpaceAtEnd(s)); }
    if k :| 0 <= k < |s| && IsSpace(s[k..]) { EndsWith(s, k); }
  }

  lemma {:induction false} ConcatMore(xs: seq<string>, ys: seq<string>)
    ensures Concat(xs + ys) == Concat(xs) + Concat(ys)
  {
    if xs == [] {
      assert xs + ys == ys;
    } else {
      ConcatMore(xs[1..], ys);
      assert (xs + ys)[1..] == xs[1..] + ys;
      assert xs[0] + (Concat(xs[1..]) + Concat(ys)) == xs[0] + Concat(xs[1..]) + Concat(ys);
    }
  }

  lemma {:induction false} ConcatOne(x: string)
    ensures Concat([x]) == x
  {
    assert [x][1..] == [];
  }

  lemma {:induction false} OneMoreLeft(s: string, n: nat, m: seq<string>, t: string)
    requires n <= |s| && s[n..] == Concat(m) + t
    ensures s == Concat([s[..n]] + m) + t
  {
    assert ([s[..n]] + m)[1..] == m;
    assert s == s[..n] + s[n..];
    assert s[..n] + (Concat(m) + t) == s[..n] + Concat(m) + t;
  }

  lemma {:induction false} OneMoreRight(s: string, k: nat, m: seq<string>, t: string)
    requires k <= |s| && s[..k] == t + Concat(m)
    ensures s == t + Concat(m + [s[k..]])
  {
    ConcatMore(m, [s[k..]]);
    ConcatOne(s[k..]);
    assert s == s[..k] + s[k..];
    assert t + (Concat(m) + s[k..]) == t + Concat(m) + s[k..];
  }

  lemma {:induction false} TrimLeftIs(s: string) returns (l: seq<string>)
    ensures s == Concat(l) + TrimLeft(s) && AllSpaces(l) && !StartsInSpace(TrimLeft(s))
    decreases |s|
  {
    var n := SpaceAtStart(s);
    SpaceStarts(s);
    if n == 0 {
      l := [];
    } else {
      StartsWith(s, n);
      var m := TrimLeftIs(s[n..]);
      l := [s[..n]] + m;
      OneMoreLeft(s, n, m, TrimLeft(s));
    }
  }

  lemma {:induction false} TrimRightIs(s: string) returns (r: seq<string>)
    ensures s == TrimRight(s) + Concat(r) && AllSpaces(r) && !EndsInSpace(TrimRight(s))
    decreases |s|
  {
    var n := SpaceAtEnd(s);
    SpaceEnds(s);
    if n == 0 {
      r := [];
    } else {
      var k := |s| - n;
      EndsWith(s, k);
      var m := TrimRightIs(s[..k]);
      r := m + [s[k..]];
      OneMoreRight(s, k, m, TrimRight(s));
    }
  }

  lemma {:induction false} StartKept(u: string, t: string)
    requires t <= u && StartsInSpace(t)
    ensures StartsInSpace(u)
  {
    var n :| 0 < n <= |t| && IsSpace(t[..n]);
    assert u[..n] == t[..n];
  }

  /** Trimming takes off spaces at both ends, and leaves none there. */
  lemma {:induction false} TrimSpaceIs(s: string) returns (l: seq<string>, r: seq<string>)
    ensures s == Concat(l) + TrimSpace(s) + Concat(r) && AllSpaces(l) && AllSpaces(r)
    ensures !StartsInSpace(TrimSpace(s)) && !EndsInSpace(TrimSpace(s))
  {
    var u, t := TrimLeft(s), TrimSpace(s);
    l := TrimLeftIs(s);
    r := TrimRightIs(u);
    if StartsInSpace(t) { StartKept(u, t); }
  }

  lemma {:induction false} AllSpacesTrimmed(xs: seq<string>)
    requires AllSpaces(xs)
    ensures TrimLeft(Concat(xs)) == ""
  {
    if xs != [] {
      var s, n := Concat(xs), |xs[0]|;
      assert s[..n] == xs[0] && s[n..] == Concat(xs[1..]);
      SpaceLength(xs[0]);
      StartsWith(s, n);
      AllSpacesTrimmed(xs[1..]);
    }
  }

  lemma {:induction false} BlankSpaces(s: string) returns (xs: seq<string>)
    requires Blank(s)
    ensures AllSpaces(xs) && s == Concat(xs)
  {
    var l, r := TrimSpaceIs(s);
    ConcatMore(l, r);
    assert Concat(l) + "" == Concat(l);
    xs := l + r;
  }

  /** Exactly what is blank. */
  lemma {:induction false} BlankExactly(s: string)
    ensures Blank(s) <==> exists xs :: AllSpaces(xs) && s == Concat(xs)
  {
    if Blank(s) {
      var xs := BlankSpaces(s);
    }
    if xs :| AllSpaces(xs) && s == Concat(xs) { AllSpacesTrimmed(xs); }
  }
}
