/** pkg/catalog/store.go, sortedUnique: sorted lists without duplicates. */
module Lists {
  import opened Order

  /** Of neighbouring equal elements, keeps the first. */
  function Unique(s: seq<string>): seq<string> {
    if |s| <= 1 then s
    else Unique(s[..|s| - 1]) + if s[|s| - 1] == s[|s| - 2] then [] else [s[|s| - 1]]
  }

  function SortedUnique(s: seq<string>): seq<string> { Unique(SortStrings(s)) }

  /** Compacts an array into its own prefix, comparing with an element that an
      earlier turn may already have overwritten. */
  method Compact(a: array<string>) returns (n: nat)
    modifies a
    ensures n <= a.Length && a[..n] == Unique(old(a[..]))
  {
    ghost var was := a[..];
    n := 0;
    for i := 0 to a.Length
      invariant n <= i && (i > 0 ==> n > 0)
      invariant a[..n] == Unique(was[..i])
      invariant forall k | i <= k < a.Length :: a[k] == was[k]
      invariant i > 0 ==> a[i - 1] == was[i - 1]
    {
      var v := a[i];
      UniqueNext(was, i);
      if i > 0 && v == a[i - 1] {
        continue;
      }
      a[n] := v;
      n := n + 1;
      assert a[..n] == a[..n - 1] + [v];
    }
    assert was[..a.Length] == was;
  }

  lemma {:induction false} UniqueNext(s: seq<string>, i: nat)
    requires i < |s|
    ensures Unique(s[..i + 1]) == Unique(s[..i]) + if i > 0 && s[i] == s[i - 1] then [] else [s[i]]
  {
    assert s[..i + 1][..i] == s[..i];
  }

  method ComputeSortedUnique(s: seq<string>) returns (out: seq<string>)
    ensures out == SortedUnique(s)
  {
    if |s| == 0 {
      return s;
    }
    var a := new string[|s|](i requires 0 <= i < |s| => s[i]);
    assert a[..] == s;
    SortStringsInPlace(a);
    var n := Compact(a);
    out := a[..n];
  }

  lemma {:induction false} UniqueOfSorted(s: seq<string>)
    requires Sorted(Less, s)
    ensures StrictlySorted(Less, Unique(s))
    ensures forall x :: x in Unique(s) <==> x in s
    ensures |s| > 0 ==> Unique(s) != [] && Unique(s)[|Unique(s)| - 1] == s[|s| - 1]
  {
    if |s| > 1 {
      var t, x := s[..|s| - 1], s[|s| - 1];
      UniqueOfSorted(t);
      assert s == t + [x];
      var u := Unique(t);
      if x != s[|s| - 2] {
        forall i | 0 <= i < |u| ensures Less(u[i], x) {
          assert u[i] in t;
          var k :| 0 <= k < |t| && t[k] == u[i];
          SortedLess(s, k);
        }
      }
    }
  }

  lemma {:induction false} SortedLess(s: seq<string>, k: nat)
    requires |s| > 1 && Sorted(Less, s) && k < |s| - 1 && s[|s| - 1] != s[|s| - 2]
    ensures Less(s[k], s[|s| - 1])
  {
    var y, x := s[|s| - 2], s[|s| - 1];
    LessTotal(y, x);
    LessTotal(s[k], x);
    assert !Less(x, y) && !Less(x, s[k]) && (k < |s| - 2 ==> !Less(y, s[k]));
  }

  lemma {:induction false} UniqueOfStrict(s: seq<string>)
    requires forall i, j | 0 <= i < j < |s| :: s[i] != s[j]
    ensures Unique(s) == s
  {
    if |s| > 1 {
      UniqueOfStrict(s[..|s| - 1]);
      assert s == s[..|s| - 1] + [s[|s| - 1]];
    }
  }

  /** SortedUnique is strictly sorted and has exactly the elements of its input. */
  lemma {:induction false} SortedUniqueIs(s: seq<string>)
    ensures StrictlySorted(Less, SortedUnique(s)) && forall x :: x in SortedUnique(s) <==> x in s
  {
    UniqueOfSorted(SortStrings(s));
    forall x ensures x in SortStrings(s) <==> x in s {
      assert x in multiset(SortStrings(s)) <==> x in multiset(s);
    }
  }

  lemma {:induction false} FirstSame(s: seq<string>, t: seq<string>)
    requires s != [] && t != [] && StrictlySorted(Less, s) && StrictlySorted(Less, t) && s[0] in t && t[0] in s
    ensures s[0] == t[0]
  {
    var i: nat :| i < |t| && t[i] == s[0];
    var j: nat :| j < |s| && s[j] == t[0];
    if i > 0 && j > 0 {
      LessTransitive(s[0], s[j], t[i]);
      LessIrreflexive(s[0]);
    }
  }

  lemma {:induction false} StrictlySortedUnique(s: seq<string>, t: seq<string>)
    requires StrictlySorted(Less, s) && StrictlySorted(Less, t) && forall x :: x in s <==> x in t
    ensures s == t
  {
    if s == [] || t == [] {
      if s != [] { FirstIn(s, t); }
      if t != [] { FirstIn(t, s); }
    } else {
      FirstSame(s, t);
      var s1, t1 := s[1..], t[1..];
      forall x ensures x in s1 <==> x in t1 { TailMember(s, x); TailMember(t, x); }
      StrictlySortedUnique(s1, t1);
      assert s == [s[0]] + s1 && t == [t[0]] + t1;
    }
  }

  lemma {:induction false} FirstIn(s: seq<string>, t: seq<string>)
    requires s != [] && forall x :: x in s <==> x in t
    ensures t != []
  {
    assert s[0] in s;
  }

  lemma {:induction false} TailMember(s: seq<string>, x: string)
    requires s != [] && StrictlySorted(Less, s)
    ensures x in s[1..] <==> x in s && x != s[0]
  {
    assert s == [s[0]] + s[1..];
    LessIrreflexive(s[0]);
    if x in s[1..] {
      var k :| 0 <= k < |s[1..]| && s[1..][k] == x;
      assert Less(s[0], s[k + 1]);
    }
  }

  /** It depends on the set of elements alone. */
  lemma {:induction false} SortedUniqueCanonical(s: seq<string>, t: seq<string>)
    requires forall x :: x in s <==> x in t
    ensures SortedUnique(s) == SortedUnique(t)
  {
    SortedUniqueIs(s);
    SortedUniqueIs(t);
    StrictlySortedUnique(SortedUnique(s), SortedUnique(t));
  }

  predicate NoDuplicates(s: seq<string>) { forall i, j | 0 <= i < j < |s| :: s[i] != s[j] }

  lemma {:induction false} NoDuplicatesCount(s: seq<string>)
    ensures NoDuplicates(s) <==> forall x :: multiset(s)[x] <= 1
  {
    if s != [] {
      var t := s[1..];
      assert s == [s[0]] + t;
      NoDuplicatesCount(t);
      if NoDuplicates(s) {
        assert NoDuplicates(t) by { assert forall i | 0 <= i < |t| :: t[i] == s[i + 1]; }
        assert s[0] !in t;
      }
      if forall x :: multiset(s)[x] <= 1 {
        forall x ensures multiset(t)[x] <= 1 { assert multiset(s)[x] <= 1; }
        assert multiset(s)[s[0]] == 1 + multiset(t)[s[0]];
        forall i, j | 0 <= i < j < |s| ensures s[i] != s[j] {
          assert s[j] == t[j - 1] && s[j] in t;
          if i > 0 { assert s[i] == t[i - 1]; }
        }
      }
    }
  }

  /** Without duplicates there is nothing to drop. */
  lemma {:induction false} SortedUniqueNoDuplicates(s: seq<string>)
    requires NoDuplicates(s)
    ensures SortedUnique(s) == SortStrings(s)
  {
    NoDuplicatesCount(s);
    NoDuplicatesCount(SortStrings(s));
    UniqueOfStrict(SortStrings(s));
  }

  /** Dropping repetitions changes nothing exactly if there are none. */
  lemma {:induction false} SortedUniqueIff(s: seq<string>)
    ensures SortedUnique(s) == SortStrings(s) <==> NoDuplicates(s)
  {
    if NoDuplicates(s) {
      SortedUniqueNoDuplicates(s);
    } else {
      SortedUniqueIs(s);
      if SortedUnique(s) == SortStrings(s) {
        StrictIsNoDuplicates(SortStrings(s));
        NoDuplicatesCount(SortStrings(s));
        NoDuplicatesCount(s);
      }
    }
  }

  lemma {:induction false} StrictIsNoDuplicates(s: seq<string>)
    requires StrictlySorted(Less, s)
    ensures NoDuplicates(s)
  {
    forall i, j | 0 <= i < j < |s| ensures s[i] != s[j] { LessIrreflexive(s[i]); }
  }

  /** The strictly sorted listing of a set. */
  ghost function SortedKeys(s: set<string>): (r: seq<string>)
    ensures StrictlySorted(Less, r) && forall k :: k in r <==> k in s
  {
    if s == {} then []
    else
      var x :| x in s;
      var r := SortedKeys(s - {x}) + [x];
      SortedUniqueIs(r);
      SortedUnique(r)
  }

  /** Sorting a duplicate-free listing. */
  lemma {:induction false} SortListing(s: set<string>, list: seq<string>)
    requires NoDuplicates(list) && forall k :: k in list <==> k in s
    ensures SortStrings(list) == SortedKeys(s)
  {
    SortedUniqueNoDuplicates(list);
    SortedUniqueIs(list);
    StrictlySortedUnique(SortedUnique(list), SortedKeys(s));
  }

  /** sortedKeys: lists a set in whatever order it yields, and sorts. */
  method ComputeSortedKeys(s: set<string>) returns (out: seq<string>)
    ensures out == SortedKeys(s)
  {
    out := [];
    var rest := s;
    while rest != {}
      invariant rest <= s && NoDuplicates(out)
      invariant forall k :: k in out <==> k in s - rest
      decreases rest
    {
      var k :| k in rest;
      assert k !in out;
      rest := rest - {k};
      out := out + [k];
    }
    SortListing(s, out);
    out := SortStrings(out);
  }
}
