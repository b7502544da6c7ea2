/** pkg/catalog/suggest.go: the bounded two-row edit distance and the
    "did you mean" selection built on it. */
module Suggest {
  import opened Common
  import opened Order
  import opened EditDistance

  function Abs(x: int): int { if x < 0 then -x else x }

  /** The edit distance, or -1 when it exceeds the cutoff. Two row buffers are
      swapped after each row; the row about to be filled holds stale values. */
  method Levenshtein(a: string, b: string, cutoff: int) returns (d: int)
    ensures d == if a == b then 0 else if Distance(a, b) <= cutoff then Distance(a, b) else -1
    ensures 0 <= cutoff ==> d == if Distance(a, b) <= cutoff then Distance(a, b) else -1
  {
    DistanceZero(a, b);
    LengthBound(a, b);
    if a == b { return 0; }
    var la, lb := |a|, |b|;
    if Abs(la - lb) > cutoff { return -1; }
    if la == 0 {
      if lb <= cutoff { return lb; }
      return -1;
    }
    if lb == 0 {
      if la <= cutoff { return la; }
      return -1;
    }

    ghost var table := Table(a, b);
    var prev, curr := new int[lb + 1], new int[lb + 1];
    for j := 0 to lb + 1
      invariant forall k | 0 <= k < j :: prev[k] == k
    {
      prev[j] := j;
    }
    for i := 1 to la + 1
      invariant prev.Length == curr.Length == lb + 1 && prev != curr
      invariant fresh(prev) && fresh(curr)
      invariant forall j | 0 <= j <= lb :: prev[j] == table[i - 1][j]
    {
      curr[0] := i;
      var rowMin := curr[0];
      for j := 1 to lb + 1
        invariant forall k | 0 <= k <= lb :: prev[k] == table[i - 1][k]
        invariant forall k | 0 <= k < j :: curr[k] == table[i][k] && rowMin <= curr[k]
      {
        var cost := 1;
        if a[i - 1] == b[j - 1] {
          cost := 0;
        }
        var del := prev[j] + 1;
        var ins := curr[j - 1] + 1;
        var sub := prev[j - 1] + cost;
        assert CellFollows(a, b, table, i, j);
        curr[j] := Min3(del, ins, sub);
        if curr[j] < rowMin {
          rowMin := curr[j];
        }
      }
      if rowMin > cutoff {
        assert RowExceeds(table[i], cutoff);
        return -1;
      }
      prev, curr := curr, prev;
    }
    d := prev[lb];
    if d > cutoff { return -1; }
  }

  /** What Levenshtein answers, in terms of edit sequences: with a non-negative
      cutoff it is d >= 0 exactly when a shortest sequence of single-byte edits
      has d <= cutoff steps. */
  lemma {:induction false} ShortestEdits(a: string, b: string, d: nat)
    ensures d == Distance(a, b) <==>
            (exists es: seq<Edit> :: Turns(es, a, b) && |es| == d) &&
            (forall es: seq<Edit> | Turns(es, a, b) :: d <= |es|)
    ensures Distance(a, b) <= d <==> exists es: seq<Edit> :: Turns(es, a, b) && |es| <= d
  {
    var best := SomeTurnsInDistance(a, b);
    forall es: seq<Edit> | Turns(es, a, b) ensures Distance(a, b) <= |es| {
      NoShorterTurns(es, a, b);
    }
  }

  // ---------- Suggest ----------

  datatype Scored = Scored(name: string, dist: int)

  predicate ScoredLess(x: Scored, y: Scored) {
    if x.dist != y.dist then x.dist < y.dist else Less(x.name, y.name)
  }

  lemma {:induction false} ScoredTotal()
    ensures StrictTotal(ScoredLess)
  {
    StringsTotal();
  }

  /** sort.Slice: any sorted rearrangement, ties in any order. */
  method SortScored(s: seq<Scored>) returns (t: seq<Scored>)
    ensures multiset(t) == multiset(s) && Sorted(ScoredLess, t)
  {
    ScoredTotal();
    StableSortSorts(ScoredLess, s);
    t := StableSort(ScoredLess, s);
  }

  lemma {:induction false} RankingUnique(s: seq<Scored>, t: seq<Scored>)
    requires multiset(t) == multiset(s) && Sorted(ScoredLess, t)
    ensures t == StableSort(ScoredLess, s) && |t| == |s|
  {
    assert |multiset(t)| == |multiset(s)|;
    ScoredTotal();
    StableSortSorts(ScoredLess, s);
    SortUnique(ScoredLess, t, StableSort(ScoredLess, s));
  }

  /** The corpus entries within the cutoff, with their distances. */
  function Candidates(query: string, corpus: seq<string>, cutoff: nat): seq<Scored> {
    if corpus == [] then []
    else (if Distance(query, corpus[0]) <= cutoff then [Scored(corpus[0], Distance(query, corpus[0]))] else [])
         + Candidates(query, corpus[1..], cutoff)
  }

  function Names(s: seq<Scored>): (r: seq<string>)
    ensures |r| == |s| && forall i | 0 <= i < |s| :: r[i] == s[i].name
  {
    if s == [] then [] else [s[0].name] + Names(s[1..])
  }

  function Matches(query: string, corpus: seq<string>, maxResults: int, maxDistance: int): seq<string> {
    if query == "" || corpus == [] || maxResults <= 0 then []
    else
      var ranked := StableSort(ScoredLess, Candidates(query, corpus, Max(maxDistance, 0)));
      Names(ranked[..if |ranked| < maxResults then |ranked| else maxResults])
  }

  lemma {:induction false} CandidatesSnoc(query: string, corpus: seq<string>, c: string, cutoff: nat)
    ensures Candidates(query, corpus + [c], cutoff) ==
            Candidates(query, corpus, cutoff) +
            if Distance(query, c) <= cutoff then [Scored(c, Distance(query, c))] else []
  {
    if corpus != [] {
      assert (corpus + [c])[1..] == corpus[1..] + [c];
      CandidatesSnoc(query, corpus[1..], c, cutoff);
    }
  }

  lemma {:induction false} CandidatesNext(query: string, corpus: seq<string>, i: nat, cutoff: nat)
    requires i < |corpus|
    ensures Candidates(query, corpus[..i + 1], cutoff) ==
            Candidates(query, corpus[..i], cutoff) +
            if Distance(query, corpus[i]) <= cutoff then [Scored(corpus[i], Distance(query, corpus[i]))] else []
  {
    assert corpus[..i + 1] == corpus[..i] + [corpus[i]];
    CandidatesSnoc(query, corpus[..i], corpus[i], cutoff);
  }

  /** The first loop: every candidate within the cutoff. */
  method ScoreAll(query: string, corpus: seq<string>, cutoff: nat) returns (scoredAll: seq<Scored>)
    ensures scoredAll == Candidates(query, corpus, cutoff)
  {
    scoredAll := [];
    for i := 0 to |corpus|
      invariant scoredAll == Candidates(query, corpus[..i], cutoff)
    {
      var c := corpus[i];
      CandidatesNext(query, corpus, i, cutoff);
      var d := Levenshtein(query, c, cutoff);
      if d < 0 {
        continue;
      }
      scoredAll := scoredAll + [Scored(c, d)];
    }
    assert corpus[..|corpus|] == corpus;
  }

  /** The last loop: the names of the first n. */
  method FirstNames(sorted: seq<Scored>, n: nat) returns (out: seq<string>)
    requires n <= |sorted|
    ensures out == Names(sorted[..n])
  {
    var a := new string[n];
    for i := 0 to n
      invariant forall k | 0 <= k < i :: a[k] == sorted[k].name
    {
      a[i] := sorted[i].name;
    }
    out := a[..];
  }

  method Suggest(query: string, corpus: seq<string>, maxResults: int, maxDistance: int) returns (out: seq<string>)
    ensures out == Matches(query, corpus, maxResults, maxDistance)
  {
    if query == "" || |corpus| == 0 || maxResults <= 0 {
      return [];
    }
    var cutoff := maxDistance;
    if cutoff < 0 {
      cutoff := 0;
    }
    var scoredAll := ScoreAll(query, corpus, cutoff);
    var sorted := SortScored(scoredAll);
    RankingUnique(scoredAll, sorted);
    var n := maxResults;
    if |sorted| < n {
      n := |sorted|;
    }
    out := FirstNames(sorted, n);
  }

  // ---------- what the selection means ----------

  lemma {:induction false} CandidatesCount(query: string, corpus: seq<string>, cutoff: nat, c: Scored)
    ensures multiset(Candidates(query, corpus, cutoff))[c] ==
            if c.dist == Distance(query, c.name) && c.dist <= cutoff then multiset(corpus)[c.name] else 0
  {
    if corpus != [] {
      CandidatesCount(query, corpus[1..], cutoff, c);
      assert corpus == [corpus[0]] + corpus[1..];
      assert multiset(corpus) == multiset{corpus[0]} + multiset(corpus[1..]);
    }
  }

  /** The result does not depend on the order of the corpus. */
  lemma {:induction false} MatchesIgnoreOrder(query: string, corpus: seq<string>, corpus': seq<string>,
      maxResults: int, maxDistance: int)
    requires multiset(corpus) == multiset(corpus')
    ensures Matches(query, corpus, maxResults, maxDistance) == Matches(query, corpus', maxResults, maxDistance)
  {
    assert |corpus| == |multiset(corpus)| && |corpus'| == |multiset(corpus')|;
    var cut := Max(maxDistance, 0);
    var s, t := Candidates(query, corpus, cut), Candidates(query, corpus', cut);
    forall c ensures multiset(s)[c] == multiset(t)[c] {
      CandidatesCount(query, corpus, cut, c);
      CandidatesCount(query, corpus', cut, c);
    }
    ScoredTotal();
    StableSortSorts(ScoredLess, s);
    StableSortSorts(ScoredLess, t);
    SortUnique(ScoredLess, StableSort(ScoredLess, s), StableSort(ScoredLess, t));
  }

  /** x is named before y: closer to the query, or as close and smaller. */
  predicate Closer(query: string, x: string, y: string) {
    Distance(query, x) < Distance(query, y) || (Distance(query, x) == Distance(query, y) && Less(x, y))
  }

  /** Every occurrence in the corpus of every name within the cutoff. */
  ghost predicate AllNear(query: string, corpus: seq<string>, cutoff: nat, names: seq<string>) {
    forall c :: multiset(names)[c] == if Distance(query, c) <= cutoff then multiset(corpus)[c] else 0
  }

  ghost predicate BestFirst(query: string, names: seq<string>) {
    forall i, j | 0 <= i < j < |names| :: !Closer(query, names[j], names[i])
  }

  /** The result is the best min(maxResults, n) of the n candidates within the
      cutoff, best first: together with what is left out it makes up exactly
      the candidates, and nothing left out comes before anything returned. */
  lemma {:induction false} MatchesAreBest(query: string, corpus: seq<string>, maxResults: int, maxDistance: int)
      returns (rest: seq<string>)
    ensures var out := Matches(query, corpus, maxResults, maxDistance);
      if query == "" || maxResults <= 0 then out == []
      else
        && AllNear(query, corpus, Max(maxDistance, 0), out + rest)
        && BestFirst(query, out + rest)
        && |out| <= maxResults && (rest == [] || |out| == maxResults)
  {
    if query == "" || maxResults <= 0 { return []; }
    rest := MatchesArePrefix(query, corpus, maxResults, maxDistance);
    RankingIsAll(query, corpus, Max(maxDistance, 0));
    RankingIsBestFirst(query, corpus, Max(maxDistance, 0));
  }

  lemma {:induction false} MatchesArePrefix(query: string, corpus: seq<string>, maxResults: int, maxDistance: int)
      returns (rest: seq<string>)
    requires query != "" && maxResults > 0
    ensures var out := Matches(query, corpus, maxResults, maxDistance);
      && out + rest == Names(StableSort(ScoredLess, Candidates(query, corpus, Max(maxDistance, 0))))
      && |out| <= maxResults && (rest == [] || |out| == maxResults)
  {
    var ranked := StableSort(ScoredLess, Candidates(query, corpus, Max(maxDistance, 0)));
    if corpus == [] {
      rest := [];
    } else {
      var n := if |ranked| < maxResults then |ranked| else maxResults;
      rest := Names(ranked[n..]);
      NamesConcat(ranked[..n], ranked[n..]);
      assert ranked[..n] + ranked[n..] == ranked;
    }
  }

  lemma {:induction false} TrueDistances(query: string, corpus: seq<string>, cut: nat, r: Scored)
    requires r in StableSort(ScoredLess, Candidates(query, corpus, cut))
    ensures r.dist == Distance(query, r.name)
  {
    var cands := Candidates(query, corpus, cut);
    var ranked := StableSort(ScoredLess, cands);
    RankingSorts(cands);
    assert r in multiset(ranked);
    CandidatesCount(query, corpus, cut, r);
  }

  lemma {:induction false} RankingSorts(cands: seq<Scored>)
    ensures multiset(StableSort(ScoredLess, cands)) == multiset(cands)
    ensures Sorted(ScoredLess, StableSort(ScoredLess, cands))
  {
    ScoredTotal();
    StableSortSorts(ScoredLess, cands);
  }

  lemma {:induction false} RankingIsAll(query: string, corpus: seq<string>, cut: nat)
    ensures AllNear(query, corpus, cut, Names(StableSort(ScoredLess, Candidates(query, corpus, cut))))
  {
    var cands := Candidates(query, corpus, cut);
    var ranked := StableSort(ScoredLess, cands);
    RankingSorts(cands);
    forall r | r in ranked ensures r.dist == Distance(query, r.name) { TrueDistances(query, corpus, cut, r); }
    forall c ensures multiset(Names(ranked))[c] == if Distance(query, c) <= cut then multiset(corpus)[c] else 0 {
      NamesCount(query, ranked, c);
      CandidatesCount(query, corpus, cut, Scored(c, Distance(query, c)));
    }
  }

  lemma {:induction false} RankingIsBestFirst(query: string, corpus: seq<string>, cut: nat)
    ensures BestFirst(query, Names(StableSort(ScoredLess, Candidates(query, corpus, cut))))
  {
    var ranked := StableSort(ScoredLess, Candidates(query, corpus, cut));
    RankingSorts(Candidates(query, corpus, cut));
    forall i, j | 0 <= i < j < |ranked| ensures !Closer(query, ranked[j].name, ranked[i].name) {
      TrueDistances(query, corpus, cut, ranked[i]);
      TrueDistances(query, corpus, cut, ranked[j]);
      assert !ScoredLess(ranked[j], ranked[i]);
    }
  }

  lemma {:induction false} NamesConcat(s: seq<Scored>, t: seq<Scored>)
    ensures Names(s + t) == Names(s) + Names(t)
  {
    assert forall i | 0 <= i < |s + t| :: Names(s + t)[i] == (Names(s) + Names(t))[i];
  }

  lemma {:induction false} NamesCount(query: string, s: seq<Scored>, c: string)
    requires forall r | r in s :: r.dist == Distance(query, r.name)
    ensures multiset(Names(s))[c] == multiset(s)[Scored(c, Distance(query, c))]
  {
    if s != [] {
      assert s == [s[0]] + s[1..];
      NamesCount(query, s[1..], c);
      assert Names(s) == [s[0].name] + Names(s[1..]);
      assert s[0] in s;
    }
  }
}
