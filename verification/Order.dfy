/** Orders and sorting: the byte order of strings, and what a stable or an
    unstable library sort may return. */
module Order {
  import opened Common

  /** The byte-wise order in which Go compares strings. */
  predicate Less(a: string, b: string) {
    b != [] && (a == [] || a[0] < b[0] || (a[0] == b[0] && Less(a[1..], b[1..])))
  }

  ghost predicate StrictWeak<T(!new)>(less: (T, T) -> bool) {
    && (forall x :: !less(x, x))
    && (forall x, y, z :: less(x, y) && less(y, z) ==> less(x, z))
    && (forall x, y, z :: less(x, z) ==> less(x, y) || less(y, z))
  }

  ghost predicate StrictTotal<T(!new)>(less: (T, T) -> bool) {
    && StrictWeak(less)
    && forall x, y :: x == y || less(x, y) || less(y, x)
  }

  ghost predicate StrictlySorted<T>(less: (T, T) -> bool, list: seq<T>) {
    forall i, j | 0 <= i < j < |list| :: less(list[i], list[j])
  }

  /** No element is less than one before it. */
  ghost predicate Sorted<T>(less: (T, T) -> bool, s: seq<T>) {
    forall i, j | 0 <= i < j < |s| :: !less(s[j], s[i])
  }

  predicate Tied<T>(less: (T, T) -> bool, x: T, y: T) {
    !less(x, y) && !less(y, x)
  }

  /** The elements of s that tie with x, in the order they stand in s. */
  function Ties<T>(less: (T, T) -> bool, x: T, s: seq<T>): seq<T> {
    if s == [] then []
    else (if Tied(less, x, s[0]) then [s[0]] else []) + Ties(less, x, s[1..])
  }

  /** t is a rearrangement of s that keeps tied elements in order. */
  ghost predicate SameTies<T(!new)>(less: (T, T) -> bool, s: seq<T>, t: seq<T>) {
    forall x :: Ties(less, x, s) == Ties(less, x, t)
  }

  // ---------- the string order ----------

  /** Where the strings first differ, a ends or holds the smaller byte. */
  ghost predicate DifferBelow(a: string, b: string, k: nat) {
    k <= |a| && k < |b| && a[..k] == b[..k] && (k == |a| || a[k] < b[k])
  }

  /** A string comes before those it is the beginning of, and otherwise before those with
      a greater byte where the two first differ. */
  lemma {:induction false} LessIs(a: string, b: string)
    ensures Less(a, b) <==> exists k :: DifferBelow(a, b, k)
  {
    if a == [] || b == [] || a[0] != b[0] {
      if Less(a, b) { assert DifferBelow(a, b, 0); }
      if k: nat :| DifferBelow(a, b, k) {
        if k > 0 { assert a[..k][0] == b[..k][0]; }
      }
    } else {
      LessIs(a[1..], b[1..]);
      if k: nat :| DifferBelow(a[1..], b[1..], k) {
        assert a[..k + 1] == [a[0]] + a[1..][..k] && b[..k + 1] == [b[0]] + b[1..][..k];
        assert DifferBelow(a, b, k + 1);
      }
      if k: nat :| DifferBelow(a, b, k) {
        assert a[1..][..k - 1] == a[..k][1..] && b[1..][..k - 1] == b[..k][1..];
        assert DifferBelow(a[1..], b[1..], k - 1);
      }
    }
  }

  lemma {:induction false} LessTotal(a: string, b: string)
    ensures a == b || Less(a, b) || Less(b, a)
  {
    if a != [] && b != [] && a[0] == b[0] {
      LessTotal(a[1..], b[1..]);
      assert a == [a[0]] + a[1..] && b == [b[0]] + b[1..];
    }
  }

  lemma {:induction false} LessTransitive(a: string, b: string, c: string)
    requires Less(a, b) && Less(b, c)
    ensures Less(a, c)
  {
    if a != [] && a[0] == b[0] == c[0] {
      LessTransitive(a[1..], b[1..], c[1..]);
    }
  }

  lemma {:induction false} LessIrreflexive(a: string)
    ensures !Less(a, a)
  {
    if a != [] { LessIrreflexive(a[1..]); }
  }

  lemma {:induction false} StringsTotal()
    ensures StrictTotal(Less)
  {
    forall x: string ensures !Less(x, x) { LessIrreflexive(x); }
    forall x: string, y: string, z: string | Less(x, y) && Less(y, z) ensures Less(x, z) {
      LessTransitive(x, y, z);
    }
    forall x: string, y: string ensures x == y || Less(x, y) || Less(y, x) { LessTotal(x, y); }
    forall x: string, y: string, z: string | Less(x, z) ensures Less(x, y) || Less(y, z) {
      LessTotal(x, y); LessTotal(y, z);
      if Less(y, x) { LessTransitive(y, x, z); }
    }
  }

  // ---------- comparing by several keys ----------

  /** One key of a comparison. Keys of one kind are only compared with each other. */
  datatype SortKey = Text(s: string) | Num(n: int) | Flag(b: bool)

  predicate KeyLess(x: SortKey, y: SortKey) {
    match (x, y)
    case (Text(s), Text(t)) => Less(s, t)
    case (Num(m), Num(n)) => m < n
    case (Flag(b), Flag(c)) => !b && c
    case _ => Kind(x) < Kind(y)
  }

  function Kind(x: SortKey): nat { match x case Text(_) => 0 case Num(_) => 1 case Flag(_) => 2 }

  /** The first key that differs decides. */
  predicate KeysLess(a: seq<SortKey>, b: seq<SortKey>) {
    b != [] && (a == [] || KeyLess(a[0], b[0]) || (a[0] == b[0] && KeysLess(a[1..], b[1..])))
  }

  lemma {:induction false} KeysLessCons(x: SortKey, y: SortKey, a: seq<SortKey>, b: seq<SortKey>)
    ensures KeysLess([x] + a, [y] + b) == (KeyLess(x, y) || (x == y && KeysLess(a, b)))
  {
    assert ([x] + a)[1..] == a && ([y] + b)[1..] == b;
  }

  lemma {:induction false} KeyTotal(x: SortKey, y: SortKey)
    ensures !KeyLess(x, x) && (x == y || KeyLess(x, y) || KeyLess(y, x))
  {
    if x.Text? { LessIrreflexive(x.s); }
    if x.Text? && y.Text? { LessTotal(x.s, y.s); }
  }

  lemma {:induction false} KeyTransitive(x: SortKey, y: SortKey, z: SortKey)
    requires KeyLess(x, y) && KeyLess(y, z)
    ensures KeyLess(x, z)
  {
    if x.Text? && y.Text? && z.Text? { LessTransitive(x.s, y.s, z.s); }
  }

  lemma {:induction false} KeysTotal(a: seq<SortKey>, b: seq<SortKey>)
    ensures !KeysLess(a, a) && (a == b || KeysLess(a, b) || KeysLess(b, a))
  {
    if a != [] {
      KeyTotal(a[0], a[0]);
      KeysTotal(a[1..], if b == [] then [] else b[1..]);
      if b != [] {
        KeyTotal(a[0], b[0]);
        assert a == [a[0]] + a[1..] && b == [b[0]] + b[1..];
      }
    }
  }

  lemma {:induction false} KeysTransitive(a: seq<SortKey>, b: seq<SortKey>, c: seq<SortKey>)
    requires KeysLess(a, b) && KeysLess(b, c)
    ensures KeysLess(a, c)
  {
    if a != [] {
      if KeyLess(a[0], b[0]) && KeyLess(b[0], c[0]) {
        KeyTransitive(a[0], b[0], c[0]);
      } else if a[0] == b[0] == c[0] {
        KeyTotal(a[0], a[0]);
        KeysTransitive(a[1..], b[1..], c[1..]);
      }
    }
  }

  /** less compares by the keys that key lists. */
  ghost predicate ComparesBy<T(!new)>(less: (T, T) -> bool, key: T -> seq<SortKey>) {
    forall x, y :: less(x, y) <==> KeysLess(key(x), key(y))
  }

  lemma {:induction false} ByKeysWeak<T(!new)>(less: (T, T) -> bool, key: T -> seq<SortKey>)
    requires ComparesBy(less, key)
    ensures StrictWeak(less)
    ensures forall x, y :: Tied(less, x, y) <==> key(x) == key(y)
  {
    forall x ensures !less(x, x) { KeysTotal(key(x), key(x)); }
    forall x, y, z | less(x, y) && less(y, z) ensures less(x, z) { KeysTransitive(key(x), key(y), key(z)); }
    forall x, y, z | less(x, z) ensures less(x, y) || less(y, z) {
      KeysTotal(key(x), key(y));
      KeysTotal(key(y), key(z));
      if KeysLess(key(y), key(x)) { KeysTransitive(key(y), key(x), key(z)); }
    }
    forall x, y ensures Tied(less, x, y) <==> key(x) == key(y) {
      KeysTotal(key(x), key(y));
      KeysTotal(key(x), key(x));
    }
  }

  lemma {:induction false} ByKeysTotal<T(!new)>(less: (T, T) -> bool, key: T -> seq<SortKey>)
    requires ComparesBy(less, key)
    requires forall x, y :: key(x) == key(y) ==> x == y
    ensures StrictTotal(less)
  {
    ByKeysWeak(less, key);
    forall x, y ensures x == y || less(x, y) || less(y, x) { KeysTotal(key(x), key(y)); }
  }

  // ---------- sorting ----------

  /** x goes in front of the first element that is not less than it. */
  function Insert<T>(less: (T, T) -> bool, x: T, s: seq<T>): seq<T> {
    if s == [] || !less(s[0], x) then [x] + s else [s[0]] + Insert(less, x, s[1..])
  }

  /** The one sorted rearrangement that keeps ties in order (see StableSortUnique). */
  function StableSort<T>(less: (T, T) -> bool, s: seq<T>): seq<T> {
    if s == [] then [] else Insert(less, s[0], StableSort(less, s[1..]))
  }

  lemma {:induction false} InsertSorts<T(!new)>(less: (T, T) -> bool, x: T, s: seq<T>)
    requires StrictWeak(less) && Sorted(less, s)
    ensures Sorted(less, Insert(less, x, s))
    ensures multiset(Insert(less, x, s)) == multiset(s) + multiset{x}
  {
    if s == [] || !less(s[0], x) {
      var r := [x] + s;
      forall i, j | 0 <= i < j < |r| ensures !less(r[j], r[i]) {
        if i == 0 && j > 1 { assert !less(s[j-1], s[0]); }
      }
    } else {
      InsertSorts(less, x, s[1..]);
      var t := Insert(less, x, s[1..]);
      assert s == [s[0]] + s[1..];
      forall y | y in t ensures !less(y, s[0]) {
        assert y in multiset(t);
        if y != x {
          assert y in multiset(s[1..]);
          assert exists k :: 1 <= k < |s| && s[k] == y;
        }
      }
      ConsSorted(less, s[0], t);
    }
  }

  lemma {:induction false} ConsSorted<T>(less: (T, T) -> bool, x: T, t: seq<T>)
    requires Sorted(less, t) && forall y | y in t :: !less(y, x)
    ensures Sorted(less, [x] + t)
  {
    var r := [x] + t;
    forall i, j | 0 <= i < j < |r| ensures !less(r[j], r[i]) {
      assert r[j] == t[j - 1] && t[j - 1] in t;
    }
  }

  lemma {:induction false} NotTiedToBoth<T(!new)>(less: (T, T) -> bool, y: T, a: T, b: T)
    requires StrictWeak(less) && less(a, b)
    ensures !(Tied(less, y, a) && Tied(less, y, b))
  {
  }

  lemma {:induction false} TiesCons<T>(less: (T, T) -> bool, y: T, x: T, s: seq<T>)
    ensures Ties(less, y, [x] + s) == (if Tied(less, y, x) then [x] else []) + Ties(less, y, s)
  {
    assert ([x] + s)[1..] == s;
  }

  lemma {:induction false} InsertKeepsTies<T(!new)>(less: (T, T) -> bool, x: T, s: seq<T>, y: T)
    requires StrictWeak(less)
    ensures Ties(less, y, Insert(less, x, s)) == (if Tied(less, y, x) then [x] else []) + Ties(less, y, s)
  {
    if s == [] || !less(s[0], x) {
      TiesCons(less, y, x, s);
    } else {
      InsertKeepsTies(less, x, s[1..], y);
      TiesCons(less, y, s[0], Insert(less, x, s[1..]));
      NotTiedToBoth(less, y, s[0], x);
    }
  }

  /** StableSort is a stable sort. */
  lemma {:induction false} StableSortSorts<T(!new)>(less: (T, T) -> bool, s: seq<T>)
    requires StrictWeak(less)
    ensures Sorted(less, StableSort(less, s))
    ensures multiset(StableSort(less, s)) == multiset(s)
    ensures SameTies(less, s, StableSort(less, s))
  {
    if s != [] {
      StableSortSorts(less, s[1..]);
      assert s == [s[0]] + s[1..];
      InsertSorts(less, s[0], StableSort(less, s[1..]));
      forall y ensures Ties(less, y, s) == Ties(less, y, StableSort(less, s)) {
        InsertKeepsTies(less, s[0], StableSort(less, s[1..]), y);
        assert Ties(less, y, s[1..]) == Ties(less, y, StableSort(less, s[1..]));
      }
    }
  }

  lemma {:induction false} TiesAreTied<T(!new)>(less: (T, T) -> bool, x: T, s: seq<T>)
    ensures forall y | y in Ties(less, x, s) :: y in s && Tied(less, x, y)
    ensures forall y | y in s && Tied(less, x, y) :: y in Ties(less, x, s)
  {
    if s != [] {
      TiesAreTied(less, x, s[1..]);
      assert s == [s[0]] + s[1..];
    }
  }

  lemma {:induction false} HeadTies<T(!new)>(less: (T, T) -> bool, s: seq<T>, t: seq<T>)
    requires StrictWeak(less) && s != [] && Ties(less, s[0], s) == Ties(less, s[0], t)
    ensures t != []
  {
    assert Ties(less, s[0], s)[0] == s[0];
  }

  /** Two sorted sequences with the same ties are the same sequence: a stable
      sort hides every reordering that keeps ties in order. */
  lemma {:induction false} StableSortUnique<T(!new)>(less: (T, T) -> bool, s: seq<T>, t: seq<T>)
    requires StrictWeak(less) && Sorted(less, s) && Sorted(less, t) && SameTies(less, s, t)
    ensures s == t
  {
    if s == [] || t == [] {
      if s != [] { HeadTies(less, s, t); }
      if t != [] { HeadTies(less, t, s); }
    } else {
      var x, y := s[0], t[0];
      TiesAreTied(less, x, s); TiesAreTied(less, x, t);
      TiesAreTied(less, y, s); TiesAreTied(less, y, t);
      assert x in s && y in t;
      assert x in Ties(less, x, t) && y in Ties(less, y, s);
      assert x in t && y in s;
      assert Tied(less, x, y);
      assert Ties(less, x, s)[0] == x && Ties(less, x, t)[0] == y;
      assert x == y;
      forall z ensures Ties(less, z, s[1..]) == Ties(less, z, t[1..]) {
        assert Ties(less, z, s) == Ties(less, z, t);
        var head := if Tied(less, z, x) then [x] else [];
        assert Ties(less, z, s) == head + Ties(less, z, s[1..]);
        assert Ties(less, z, t) == head + Ties(less, z, t[1..]);
        assert Ties(less, z, s[1..]) == Ties(less, z, s)[|head|..];
        assert Ties(less, z, t[1..]) == Ties(less, z, t)[|head|..];
      }
      StableSortUnique(less, s[1..], t[1..]);
      assert s == [x] + s[1..] && t == [y] + t[1..];
    }
  }

  /** Only equal elements of s tie. */
  ghost predicate Untied<T>(less: (T, T) -> bool, s: seq<T>) {
    forall x, y | x in s && y in s && Tied(less, x, y) :: x == y
  }

  lemma {:induction false} TailBag<T>(s: seq<T>)
    requires s != []
    ensures multiset(s[1..]) == multiset(s) - multiset{s[0]} && s == [s[0]] + s[1..]
  {
    assert s == [s[0]] + s[1..];
  }

  lemma {:induction false} UntiedHeads<T>(less: (T, T) -> bool, s: seq<T>, t: seq<T>)
    requires Untied(less, s) && Sorted(less, s) && Sorted(less, t) && multiset(s) == multiset(t)
    requires s != [] && t != [] && !less(s[0], s[0])
    ensures s[0] == t[0]
  {
    var x, y := s[0], t[0];
    assert x in multiset(t) && y in multiset(s);
    var i :| 0 <= i < |t| && t[i] == x;
    var j :| 0 <= j < |s| && s[j] == y;
    assert !less(x, y) && !less(y, x);
    assert x in s && y in s && Tied(less, x, y);
  }

  /** Where only equal elements tie, every sort, stable or not, has one possible outcome. */
  lemma {:induction false} SortUniqueUntied<T(!new)>(less: (T, T) -> bool, s: seq<T>, t: seq<T>)
    requires StrictWeak(less) && Untied(less, s)
    requires Sorted(less, s) && Sorted(less, t) && multiset(s) == multiset(t)
    ensures s == t
  {
    assert |multiset(s)| == |s| && |multiset(t)| == |t|;
    if s != [] {
      UntiedHeads(less, s, t);
      TailBag(s);
      TailBag(t);
      assert Untied(less, s[1..]);
      SortUniqueUntied(less, s[1..], t[1..]);
    }
  }

  lemma {:induction false} SortUnique<T(!new)>(less: (T, T) -> bool, s: seq<T>, t: seq<T>)
    requires StrictTotal(less) && Sorted(less, s) && Sorted(less, t) && multiset(s) == multiset(t)
    ensures s == t
  {
    SortUniqueUntied(less, s, t);
  }

  /** Where two different elements tie, an unstable sort has a second possible outcome. */
  lemma {:induction false} SortAmbiguous<T(!new)>(less: (T, T) -> bool, s: seq<T>, i: nat, j: nat) returns (t: seq<T>)
    requires StrictWeak(less) && Sorted(less, s)
    requires i < j < |s| && s[i] != s[j] && Tied(less, s[i], s[j])
    ensures Sorted(less, t) && multiset(t) == multiset(s) && t != s
  {
    t := s[i := s[j]][j := s[i]];
    assert t[i] == s[j] && t[j] == s[i];
    forall k, m | 0 <= k < m < |t| ensures !less(t[m], t[k]) {
      var k', m' := if k == i then j else if k == j then i else k, if m == i then j else if m == j then i else m;
      assert t[k] == s[k'] && t[m] == s[m'];
      SwapKeepsOrder(less, s, i, j, k, m);
    }
  }

  lemma {:induction false} SwapKeepsOrder<T(!new)>(less: (T, T) -> bool, s: seq<T>, i: nat, j: nat, k: nat, m: nat)
    requires StrictWeak(less) && Sorted(less, s)
    requires i < j < |s| && Tied(less, s[i], s[j]) && k < m < |s|
    ensures !less(s[if m == i then j else if m == j then i else m], s[if k == i then j else if k == j then i else k])
  {
    assert !less(s[m], s[k]);
  }

  // ---------- the stable sort in place ----------

  /** s without the element at j is sorted up to n, and s[j] is less than what follows it. */
  ghost predicate SortedBut<T>(less: (T, T) -> bool, s: seq<T>, n: nat, j: nat) {
    && j < n <= |s|
    && (forall p, q | 0 <= p < q < n && p != j && q != j :: !less(s[q], s[p]))
    && (forall q | j < q < n :: less(s[j], s[q]))
  }

  function SwapBack<T>(s: seq<T>, j: nat): seq<T>
    requires 0 < j < |s|
  {
    s[j - 1 := s[j]][j := s[j - 1]]
  }

  lemma {:induction false} SwapBackSorted<T(!new)>(less: (T, T) -> bool, s: seq<T>, n: nat, j: nat)
    requires StrictWeak(less) && 0 < j && SortedBut(less, s, n, j) && less(s[j], s[j - 1])
    ensures SortedBut(less, SwapBack(s, j), n, j - 1)
  {
  }

  lemma {:induction false} TiesConcat<T>(less: (T, T) -> bool, x: T, s: seq<T>, t: seq<T>)
    ensures Ties(less, x, s + t) == Ties(less, x, s) + Ties(less, x, t)
  {
    if s == [] {
      assert s + t == t;
    } else {
      TiesConcat(less, x, s[1..], t);
      assert (s + t)[1..] == s[1..] + t;
      Regroup(if Tied(less, x, s[0]) then [s[0]] else [], Ties(less, x, s[1..]), Ties(less, x, t));
    }
  }

  lemma {:induction false} SwapBackTies<T(!new)>(less: (T, T) -> bool, s: seq<T>, j: nat, x: T)
    requires StrictWeak(less) && 0 < j < |s| && less(s[j], s[j - 1])
    ensures Ties(less, x, SwapBack(s, j)) == Ties(less, x, s)
  {
    var l, r, a, b := s[..j - 1], s[j + 1..], s[j - 1], s[j];
    assert s == l + ([a] + ([b] + r)) && SwapBack(s, j) == l + ([b] + ([a] + r));
    TiesConcat(less, x, l, [a] + ([b] + r));
    TiesConcat(less, x, l, [b] + ([a] + r));
    TiesCons(less, x, a, [b] + r);
    TiesCons(less, x, b, [a] + r);
    TiesCons(less, x, a, r);
    TiesCons(less, x, b, r);
    NotTiedToBoth(less, x, b, a);
  }

  lemma {:induction false} InPlace<T(!new)>(less: (T, T) -> bool, s: seq<T>, n: nat, j: nat)
    requires StrictWeak(less) && SortedBut(less, s, n, j) && (j == 0 || !less(s[j], s[j - 1]))
    ensures Sorted(less, s[..n])
  {
    forall p, q | 0 <= p < q < n ensures !less(s[q], s[p]) {
      if q == j {
        assert !less(s[j], s[j - 1]);
        if p < j - 1 { assert !less(s[j - 1], s[p]); }
      } else if p == j {
        assert less(s[j], s[q]);
      }
    }
  }

  /** sort.SliceStable: insertion by adjacent exchanges. */
  method SliceStable<T(!new)>(less: (T, T) -> bool, a: array<T>)
    requires StrictWeak(less)
    modifies a
    ensures a[..] == StableSort(less, old(a[..]))
  {
    ghost var was := a[..];
    for i := 0 to a.Length
      invariant Sorted(less, a[..i]) && SameTies(less, was, a[..])
    {
      var j: nat := i;
      assert SortedBut(less, a[..], i + 1, i) by { assert forall k | 0 <= k < i :: a[..][k] == a[..i][k]; }
      while j > 0 && less(a[j], a[j - 1])
        invariant j <= i && SortedBut(less, a[..], i + 1, j) && SameTies(less, was, a[..])
      {
        ghost var s := a[..];
        a[j], a[j - 1] := a[j - 1], a[j];
        assert a[..] == SwapBack(s, j);
        SwapBackSorted(less, s, i + 1, j);
        forall x ensures Ties(less, x, was) == Ties(less, x, a[..]) { SwapBackTies(less, s, j, x); }
        j := j - 1;
      }
      InPlace(less, a[..], i + 1, j);
      assert a[..][..i + 1] == a[..i + 1];
    }
    assert a[..a.Length] == a[..];
    StableSortSorts(less, was);
    StableSortUnique(less, StableSort(less, was), a[..]);
  }

  /** sort.Strings */
  function SortStrings(s: seq<string>): (r: seq<string>)
    ensures multiset(r) == multiset(s) && Sorted(Less, r)
  {
    StringsTotal();
    StableSortSorts(Less, s);
    StableSort(Less, s)
  }

  lemma {:induction false} SortStringsUnique(s: seq<string>, t: seq<string>)
    requires multiset(s) == multiset(t)
    ensures SortStrings(s) == SortStrings(t)
  {
    StringsTotal();
    SortUnique(Less, SortStrings(s), SortStrings(t));
  }

  method SortStringsInPlace(a: array<string>)
    modifies a
    ensures a[..] == SortStrings(old(a[..]))
  {
    StringsTotal();
    SliceStable(Less, a);
  }
}
