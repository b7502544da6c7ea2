/** Edit distance: what the number means (the length of a shortest sequence of
    single-byte edits), the recurrence that computes it, and its metric laws. */
module EditDistance {

  datatype Edit = Insert(at: nat, x: char) | Delete(at: nat) | Substitute(at: nat, x: char)

  predicate Applies(e: Edit, s: string) {
    match e
    case Insert(k, _) => k <= |s|
    case Delete(k) => k < |s|
    case Substitute(k, _) => k < |s|
  }

  function Apply(e: Edit, s: string): string
    requires Applies(e, s)
  {
    match e
    case Insert(k, x) => s[..k] + [x] + s[k..]
    case Delete(k) => s[..k] + s[k + 1..]
    case Substitute(k, x) => s[..k] + [x] + s[k + 1..]
  }

  /** es, applied in order, turns a into b. */
  ghost predicate Turns(es: seq<Edit>, a: string, b: string) {
    if es == [] then a == b
    else Applies(es[0], a) && Turns(es[1..], Apply(es[0], a), b)
  }

  function Min3(a: int, b: int, c: int): int {
    if a <= b && a <= c then a else if b <= c then b else c
  }

  /** The Levenshtein recurrence, from the last element. */
  function Distance(a: string, b: string): nat
    decreases |a| + |b|
  {
    if a == [] then |b|
    else if b == [] then |a|
    else
      var a', b' := a[..|a| - 1], b[..|b| - 1];
      Min3(Distance(a', b) + 1, Distance(a, b') + 1,
           Distance(a', b') + if a[|a| - 1] == b[|b| - 1] then 0 else 1)
  }

  // ---------- the distance is reached by some edit sequence ----------

  lemma {:induction false} TurnsCons(e: Edit, es: seq<Edit>, a: string, b: string)
    requires Applies(e, a) && Turns(es, Apply(e, a), b)
    ensures Turns([e] + es, a, b)
  {
    assert ([e] + es)[1..] == es;
  }

  lemma {:induction false} TurnsConcat(es: seq<Edit>, fs: seq<Edit>, a: string, b: string, c: string)
    requires Turns(es, a, b) && Turns(fs, b, c)
    ensures Turns(es + fs, a, c)
  {
    if es == [] {
      assert es + fs == fs;
    } else {
      TurnsConcat(es[1..], fs, Apply(es[0], a), b, c);
      HeadFirst(es, fs);
      TurnsCons(es[0], es[1..] + fs, a, c);
    }
  }

  lemma {:induction false} HeadFirst(es: seq<Edit>, fs: seq<Edit>)
    requires es != []
    ensures [es[0]] + (es[1..] + fs) == es + fs
  {
  }

  lemma {:induction false} TurnsSnoc(es: seq<Edit>, e: Edit, a: string, b: string, c: string)
    requires Turns(es, a, b) && Applies(e, b) && Apply(e, b) == c
    ensures Turns(es + [e], a, c)
  {
    assert [e][1..] == [];
    assert Turns([e], b, c);
    TurnsConcat(es, [e], a, b, c);
  }

  lemma {:induction false} ApplySnoc(e: Edit, a: string, x: char)
    requires Applies(e, a)
    ensures Applies(e, a + [x]) && Apply(e, a + [x]) == Apply(e, a) + [x]
  {
    assert Apply(e, a + [x]) == Apply(e, a) + [x];
  }

  /** Edits of a prefix leave what follows it alone. */
  lemma {:induction false} TurnsPrefix(es: seq<Edit>, a: string, b: string, x: char)
    requires Turns(es, a, b)
    ensures Turns(es, a + [x], b + [x])
  {
    if es != [] {
      TurnsPrefix(es[1..], Apply(es[0], a), b, x);
      ApplySnoc(es[0], a, x);
    }
  }

  lemma {:induction false} InsertAll(b: string) returns (es: seq<Edit>)
    ensures Turns(es, [], b) && |es| == |b|
  {
    if b == [] {
      es := [];
    } else {
      var b' := b[..|b| - 1];
      es := InsertAll(b');
      var e := Insert(|b'|, b[|b'|]);
      assert Apply(e, b') == b;
      TurnsSnoc(es, e, [], b', b);
      es := es + [e];
    }
  }

  lemma {:induction false} DeleteAll(a: string) returns (es: seq<Edit>)
    ensures Turns(es, a, []) && |es| == |a|
  {
    if a == [] {
      es := [];
    } else {
      var fs := DeleteAll(a[1..]);
      assert Apply(Delete(0), a) == a[1..];
      TurnsCons(Delete(0), fs, a, []);
      es := [Delete(0)] + fs;
    }
  }

  /** Some sequence of exactly Distance(a, b) edits turns a into b. */
  lemma {:induction false} SomeTurnsInDistance(a: string, b: string) returns (es: seq<Edit>)
    ensures Turns(es, a, b) && |es| == Distance(a, b)
    decreases |a| + |b|
  {
    if a == [] {
      es := InsertAll(b);
    } else if b == [] {
      es := DeleteAll(a);
    } else {
      var a', b', x, y := a[..|a| - 1], b[..|b| - 1], a[|a| - 1], b[|b| - 1];
      assert a == a' + [x] && b == b' + [y];
      if Distance(a, b) == Distance(a', b) + 1 {
        var fs := SomeTurnsInDistance(a', b);
        assert Apply(Delete(|a'|), a) == a';
        TurnsCons(Delete(|a'|), fs, a, b);
        es := [Delete(|a'|)] + fs;
      } else {
        var last: Edit;
        if Distance(a, b) == Distance(a, b') + 1 {
          es := SomeTurnsInDistance(a, b');
          last := Insert(|b'|, y);
          assert Apply(last, b') == b;
          TurnsSnoc(es, last, a, b', b);
          es := es + [last];
        } else {
          es := SomeTurnsInDistance(a', b');
          TurnsPrefix(es, a', b', x);
          if x != y {
            last := Substitute(|b'|, y);
            assert Apply(last, b' + [x]) == b;
            TurnsSnoc(es, last, a, b' + [x], b);
            es := es + [last];
          }
        }
      }
    }
  }

  // ---------- no shorter edit sequence does ----------

  lemma {:induction false} DistanceStep(a: string, x: char, b: string, y: char)
    ensures Distance(a + [x], b + [y]) ==
            Min3(Distance(a, b + [y]) + 1, Distance(a + [x], b) + 1, Distance(a, b) + if x == y then 0 else 1)
  {
    assert (a + [x])[..|a|] == a && (b + [y])[..|b|] == b;
  }

  lemma {:induction false} DistanceGrowsByOne(a: string, b: string, y: char)
    ensures Distance(a, b + [y]) <= Distance(a, b) + 1
  {
    if a != [] {
      assert a == a[..|a| - 1] + [a[|a| - 1]];
      DistanceStep(a[..|a| - 1], a[|a| - 1], b, y);
    }
  }

  lemma {:induction false} DroppingLast(x: string, d: char, b: string)
    ensures Distance(x, b) <= Distance(x + [d], b) + 1
  {
    if b == [] {
      assert Distance(x, []) == |x| && Distance(x + [d], []) == |x| + 1;
    } else {
      var b', w := b[..|b| - 1], b[|b| - 1];
      assert b == b' + [w];
      DroppingLast(x, d, b');
      DistanceStep(x, d, b', w);
      DistanceGrowsByOne(x, b', w);
    }
  }

  lemma {:induction false} ChangingLast(x: string, c: char, d: char, b: string)
    ensures Distance(x + [c], b) <= Distance(x + [d], b) + 1
  {
    if b == [] {
      assert Distance(x + [c], []) == |x| + 1;
    } else {
      var b', w := b[..|b| - 1], b[|b| - 1];
      assert b == b' + [w];
      ChangingLast(x, c, d, b');
      DistanceStep(x, c, b', w);
      DistanceStep(x, d, b', w);
    }
  }

  lemma {:induction false} AddingLast(x: string, c: char, b: string)
    ensures Distance(x + [c], b) <= Distance(x, b) + 1
  {
    if b == [] {
      assert Distance(x + [c], []) == |x| + 1;
    } else {
      assert b == b[..|b| - 1] + [b[|b| - 1]];
      DistanceStep(x, c, b[..|b| - 1], b[|b| - 1]);
    }
  }

  /** p and q end two otherwise equal sequences, and are at most one element long. */
  lemma {:induction false} LastApart(x: string, p: string, q: string, b: string)
    requires |p| <= 1 && |q| <= 1
    ensures Distance(x + p, b) <= Distance(x + q, b) + 1
  {
    if p == [] && q == [] {
    } else if p == [] {
      assert x + p == x && q == [q[0]];
      DroppingLast(x, q[0], b);
    } else if q == [] {
      assert x + q == x && p == [p[0]];
      AddingLast(x, p[0], b);
    } else {
      assert p == [p[0]] && q == [q[0]];
      ChangingLast(x, p[0], q[0], b);
    }
  }

  lemma {:induction false} ApartStep(s: string, t: string, z: char, b: string, w: char)
    requires Distance(s, b + [w]) <= Distance(t, b + [w]) + 1
    requires Distance(s + [z], b) <= Distance(t + [z], b) + 1
    requires Distance(s, b) <= Distance(t, b) + 1
    ensures Distance(s + [z], b + [w]) <= Distance(t + [z], b + [w]) + 1
  {
    StepBelow(s, z, b, w);
    DistanceStep(t, z, b, w);
  }

  lemma {:induction false} StepBelow(a: string, x: char, b: string, y: char)
    ensures Distance(a + [x], b + [y]) <= Distance(a, b + [y]) + 1
    ensures Distance(a + [x], b + [y]) <= Distance(a + [x], b) + 1
    ensures Distance(a + [x], b + [y]) <= Distance(a, b) + if x == y then 0 else 1
  {
    DistanceStep(a, x, b, y);
  }

  /** Sequences that are at most one element apart before a common ending y are
      at most one apart in their distance to any b. */
  lemma {:induction false} OneEditApart(x: string, p: string, q: string, y: string, b: string, s: string, t: string)
    requires |p| <= 1 && |q| <= 1 && s == x + p + y && t == x + q + y
    ensures Distance(s, b) <= Distance(t, b) + 1
    decreases |y| + |b|
  {
    if y == [] {
      assert s == x + p && t == x + q;
      LastApart(x, p, q, b);
    } else if b == [] {
      assert Distance(s, b) == |s| && Distance(t, b) == |t|;
    } else {
      var b', w, y', z := b[..|b| - 1], b[|b| - 1], y[..|y| - 1], y[|y| - 1];
      var s', t' := x + p + y', x + q + y';
      assert b == b' + [w] && s == s' + [z] && t == t' + [z];
      OneEditApart(x, p, q, y, b', s, t);
      OneEditApart(x, p, q, y', b, s', t');
      OneEditApart(x, p, q, y', b', s', t');
      ApartStep(s', t', z, b', w);
    }
  }

  lemma {:induction false} EditMovesByOne(e: Edit, a: string, b: string)
    requires Applies(e, a)
    ensures Distance(a, b) <= Distance(Apply(e, a), b) + 1
  {
    match e
    case Insert(k, c) => OneEditApart(a[..k], [], [c], a[k..], b, a, Apply(e, a));
    case Delete(k) => OneEditApart(a[..k], [a[k]], [], a[k + 1..], b, a, Apply(e, a));
    case Substitute(k, c) => OneEditApart(a[..k], [a[k]], [c], a[k + 1..], b, a, Apply(e, a));
  }

  lemma {:induction false} DistanceToSelf(a: string)
    ensures Distance(a, a) == 0
  {
    if a != [] { DistanceToSelf(a[..|a| - 1]); }
  }

  /** Every edit sequence from a to b, in any order and through any strings,
      has at least Distance(a, b) edits. */
  lemma {:induction false} NoShorterTurns(es: seq<Edit>, a: string, b: string)
    requires Turns(es, a, b)
    ensures Distance(a, b) <= |es|
  {
    if es == [] {
      DistanceToSelf(a);
    } else {
      NoShorterTurns(es[1..], Apply(es[0], a), b);
      EditMovesByOne(es[0], a, b);
    }
  }

  // ---------- metric laws ----------

  lemma {:induction false} DistanceZero(a: string, b: string)
    ensures Distance(a, b) == 0 <==> a == b
    decreases |a|
  {
    if a == b {
      DistanceToSelf(a);
    } else if a != [] && b != [] {
      DistanceZero(a[..|a| - 1], b[..|b| - 1]);
      assert a == a[..|a| - 1] + [a[|a| - 1]] && b == b[..|b| - 1] + [b[|b| - 1]];
    }
  }

  lemma {:induction false} DistanceSymmetric(a: string, b: string)
    ensures Distance(a, b) == Distance(b, a)
    decreases |a| + |b|
  {
    if a != [] && b != [] {
      DistanceSymmetric(a[..|a| - 1], b);
      DistanceSymmetric(a, b[..|b| - 1]);
      DistanceSymmetric(a[..|a| - 1], b[..|b| - 1]);
    }
  }

  lemma {:induction false} DistanceTriangle(a: string, b: string, c: string)
    ensures Distance(a, c) <= Distance(a, b) + Distance(b, c)
  {
    var es := SomeTurnsInDistance(a, b);
    var fs := SomeTurnsInDistance(b, c);
    TurnsConcat(es, fs, a, b, c);
    NoShorterTurns(es + fs, a, c);
  }

  // ---------- the two pruning rules ----------

  /** The length difference never exceeds the distance. */
  lemma {:induction false} LengthBound(a: string, b: string)
    ensures |a| - |b| <= Distance(a, b) && |b| - |a| <= Distance(a, b)
    decreases |a| + |b|
  {
    if a != [] && b != [] {
      LengthBound(a[..|a| - 1], b);
      LengthBound(a, b[..|b| - 1]);
      LengthBound(a[..|a| - 1], b[..|b| - 1]);
    }
  }

  /** Each entry of a row is at least some entry of the row before it. */
  lemma {:induction false} RowAbove(a: string, x: char, b: string) returns (j: nat)
    ensures j <= |b| && Distance(a, b[..j]) <= Distance(a + [x], b)
  {
    assert b[..|b|] == b;
    if b == [] {
      j := 0;
      assert Distance(a, []) == |a| && Distance(a + [x], []) == |a| + 1;
    } else {
      var b', y := b[..|b| - 1], b[|b| - 1];
      assert b == b' + [y];
      DistanceStep(a, x, b', y);
      if Distance(a + [x], b) == Distance(a, b) + 1 {
        j := |b|;
      } else if Distance(a + [x], b) == Distance(a + [x], b') + 1 {
        j := RowAbove(a, x, b');
        assert b'[..j] == b[..j];
      } else {
        j := |b'|;
      }
    }
  }

  /** A lower bound of one row bounds every later row, and so the result. */
  lemma {:induction false} RowMinimumNeverFalls(a: string, b: string, i: nat, k: nat, m: int)
    requires i <= k <= |a|
    requires forall j | 0 <= j <= |b| :: m <= Distance(a[..i], b[..j])
    ensures forall j | 0 <= j <= |b| :: m <= Distance(a[..k], b[..j])
    decreases k - i
  {
    if i < k {
      assert a[..i + 1] == a[..i] + [a[i]];
      forall j | 0 <= j <= |b| ensures m <= Distance(a[..i + 1], b[..j]) {
        var j' := RowAbove(a[..i], a[i], b[..j]);
        assert b[..j][..j'] == b[..j'];
      }
      RowMinimumNeverFalls(a, b, i + 1, k, m);
    }
  }

  // ---------- the table of the dynamic programme ----------

  ghost predicate Shape(a: string, b: string, t: seq<seq<int>>) {
    |t| == |a| + 1 && forall i | 0 <= i <= |a| :: |t[i]| == |b| + 1
  }

  /** t[i][j] follows the recurrence. */
  ghost predicate CellFollows(a: string, b: string, t: seq<seq<int>>, i: int, j: int)
    requires Shape(a, b, t) && 1 <= i <= |a| && 1 <= j <= |b|
  {
    t[i][j] == Min3(t[i - 1][j] + 1, t[i][j - 1] + 1, t[i - 1][j - 1] + if a[i - 1] == b[j - 1] then 0 else 1)
  }

  ghost predicate RowExceeds(row: seq<int>, m: int) {
    forall j | 0 <= j < |row| :: m < row[j]
  }

  /** The three facts a row-by-row computation needs: the borders, the
      recurrence, and that a row whose entries all exceed a bound dooms the
      result to exceed it too. */
  ghost predicate IsTable(a: string, b: string, t: seq<seq<int>>) {
    && Shape(a, b, t)
    && (forall j | 0 <= j <= |b| :: t[0][j] == j)
    && (forall i | 0 <= i <= |a| :: t[i][0] == i)
    && (forall i, j | 1 <= i <= |a| && 1 <= j <= |b| :: CellFollows(a, b, t, i, j))
    && (forall i, m | 0 <= i <= |a| :: RowExceeds(t[i], m) ==> m < t[|a|][|b|])
  }

  ghost predicate Tabulates(a: string, b: string, t: seq<seq<int>>) {
    Shape(a, b, t) && forall i, j | 0 <= i <= |a| && 0 <= j <= |b| :: t[i][j] == Distance(a[..i], b[..j])
  }

  lemma {:induction false} CellIs(a: string, b: string, t: seq<seq<int>>, i: int, j: int)
    requires Tabulates(a, b, t) && 1 <= i <= |a| && 1 <= j <= |b|
    ensures CellFollows(a, b, t, i, j)
  {
    assert a[..i] == a[..i - 1] + [a[i - 1]] && b[..j] == b[..j - 1] + [b[j - 1]];
    DistanceStep(a[..i - 1], a[i - 1], b[..j - 1], b[j - 1]);
  }

  lemma {:induction false} RowBounds(a: string, b: string, t: seq<seq<int>>, i: int, m: int)
    requires Tabulates(a, b, t) && 0 <= i <= |a| && RowExceeds(t[i], m)
    ensures m < t[|a|][|b|]
  {
    forall j | 0 <= j <= |b| ensures m + 1 <= Distance(a[..i], b[..j]) { assert m < t[i][j]; }
    RowMinimumNeverFalls(a, b, i, |a|, m + 1);
    assert t[|a|][|b|] == Distance(a[..|a|], b[..|b|]);
  }

  lemma {:induction false} Table(a: string, b: string) returns (t: seq<seq<int>>)
    ensures IsTable(a, b, t) && t[|a|][|b|] == Distance(a, b)
  {
    t := seq(|a| + 1, i requires 0 <= i <= |a| => seq(|b| + 1, j requires 0 <= j <= |b| => Distance(a[..i], b[..j])));
    assert Tabulates(a, b, t);
    forall i, j | 1 <= i <= |a| && 1 <= j <= |b| ensures CellFollows(a, b, t, i, j) { CellIs(a, b, t, i, j); }
    forall i, m | 0 <= i <= |a| && RowExceeds(t[i], m) ensures m < t[|a|][|b|] { RowBounds(a, b, t, i, m); }
    assert a[..|a|] == a && b[..|b|] == b;
  }
}
