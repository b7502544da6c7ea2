/** traceql.go: matchers read from comparisons, and the canonical order of the
    attributes and matchers collected from a TraceQL expression. */
module TraceQL {
  import opened Common
  import opened Order

  datatype Attribute = Attribute(scope: string, parent: bool, name: string)

  function Qualified(a: Attribute): string { a.scope + "." + a.name }

  datatype Matcher = Matcher(attribute: Attribute, value: string)

  // ---------- matchers of a comparison ----------

  /** An attribute node of the parsed expression; intrinsic 0 means it is not one. */
  datatype Node = Node(scopeName: string, parent: bool, name: string, intrinsic: nat)

  /** A literal: a string, a list of strings (which an IN comparison holds), or neither. */
  datatype Static = Str(s: string) | Strs(list: seq<string>) | OtherStatic

  datatype FieldExpr =
    | AttributeField(a: Node)
    | AttributePtr(pa: Option<Node>)
    | StaticField(s: Static)
    | StaticPtr(ps: Option<Static>)
    | OtherField

  datatype Op = OpEqual | OpIn | OtherOp

  function AttributeFrom(a: Node): Attribute {
    var scope := ToLower(a.scopeName);
    Attribute(if scope == "none" then "" else scope, a.parent, a.name)
  }

  function FieldAttribute(f: FieldExpr): Option<Node> {
    match f
    case AttributeField(a) => Some(a)
    case AttributePtr(pa) => pa
    case _ => None
  }

  function FieldStrings(f: FieldExpr): Option<seq<string>> {
    var lit: Option<Static> := match f case StaticField(s) => Some(s) case StaticPtr(ps) => ps case _ => None;
    match lit
    case Some(Str(s)) => Some([s])
    case Some(Strs(list)) => Some(list)
    case _ => None
  }

  function MatchersFrom(op: Op, lhs: FieldExpr, rhs: FieldExpr): seq<Matcher> {
    if op == OtherOp then []
    else
      var swap := FieldAttribute(lhs).None? || FieldStrings(rhs).None?;
      var attr := FieldAttribute(if swap then rhs else lhs);
      var lits := FieldStrings(if swap then lhs else rhs);
      if attr.None? || lits.None? || attr.value.intrinsic != 0 || attr.value.name == "" then []
      else seq(|lits.value|, i requires 0 <= i < |lits.value| => Matcher(AttributeFrom(attr.value), lits.value[i]))
  }

  // ---------- what a comparison says ----------

  /** The node stands for attribute a: the same name and parent; no scope if the node's
      scope is empty or reads none in any letter case, and the node's, lowered, otherwise. */
  ghost predicate StandsFor(n: Node, a: Attribute) {
    && a.name == n.name && a.parent == n.parent
    && if n.scopeName == "" || Lowered(n.scopeName, "none") then a.scope == "" else Lowered(n.scopeName, a.scope)
  }

  /** The field is the attribute node n, or points at it. */
  ghost predicate IsNode(f: FieldExpr, n: Node) { f == AttributeField(n) || f == AttributePtr(Some(n)) }

  /** The field is a literal of these strings, or points at one. */
  ghost predicate IsStrings(f: FieldExpr, list: seq<string>) {
    || f == StaticField(Strs(list)) || f == StaticPtr(Some(Strs(list)))
    || (|list| == 1 && (f == StaticField(Str(list[0])) || f == StaticPtr(Some(Str(list[0])))))
  }

  /** One field names an attribute that is not intrinsic, and the other gives it value. */
  ghost predicate Compares(attr: FieldExpr, lit: FieldExpr, m: Matcher) {
    exists n, list :: ComparesWith(attr, lit, n, list) && StandsFor(n, m.attribute) && m.value in list
  }

  ghost predicate ComparesWith(attr: FieldExpr, lit: FieldExpr, n: Node, list: seq<string>) {
    IsNode(attr, n) && n.intrinsic == 0 && n.name != "" && IsStrings(lit, list)
  }

  /** Exactly which attribute a node is read as. */
  lemma {:induction false} AttributeExactly(n: Node, a: Attribute)
    ensures a == AttributeFrom(n) <==> StandsFor(n, a)
  {
    LoweredIs(n.scopeName, "none");
    LoweredIs(n.scopeName, a.scope);
  }

  lemma {:induction false} FieldIs(f: FieldExpr, n: Node, list: seq<string>)
    ensures FieldAttribute(f) == Some(n) <==> IsNode(f, n)
    ensures FieldStrings(f) == Some(list) <==> IsStrings(f, list)
  {
    assert |list| == 1 ==> list == [list[0]];
  }

  lemma {:induction false} ComparesIs(attr: FieldExpr, lit: FieldExpr, m: Matcher)
    ensures Compares(attr, lit, m) <==>
      && FieldAttribute(attr).Some? && FieldStrings(lit).Some?
      && FieldAttribute(attr).value.intrinsic == 0 && FieldAttribute(attr).value.name != ""
      && m.attribute == AttributeFrom(FieldAttribute(attr).value) && m.value in FieldStrings(lit).value
  {
    forall n, list
      ensures FieldAttribute(attr) == Some(n) <==> IsNode(attr, n)
      ensures FieldStrings(lit) == Some(list) <==> IsStrings(lit, list)
    {
      FieldIs(attr, n, list);
      FieldIs(lit, n, list);
    }
    forall n { AttributeExactly(n, m.attribute); }
    if FieldAttribute(attr).Some? && FieldStrings(lit).Some? {
      var n, list := FieldAttribute(attr).value, FieldStrings(lit).value;
      assert IsNode(attr, n) && IsStrings(lit, list);
    }
  }

  /** A matcher is read from a comparison exactly when it is an equality whose one side
      is its attribute, neither intrinsic nor nameless, and whose other side is its value
      or a list holding it. */
  lemma {:induction false} MatchersExactly(op: Op, lhs: FieldExpr, rhs: FieldExpr, m: Matcher)
    ensures m in MatchersFrom(op, lhs, rhs) <==>
      op != OtherOp && (Compares(lhs, rhs, m) || Compares(rhs, lhs, m))
  {
    var ms := MatchersFrom(op, lhs, rhs);
    ComparesIs(lhs, rhs, m);
    ComparesIs(rhs, lhs, m);
    if op != OtherOp && (Compares(lhs, rhs, m) || Compares(rhs, lhs, m)) {
      var lits := FieldStrings(if Compares(lhs, rhs, m) then rhs else lhs).value;
      var i :| 0 <= i < |lits| && lits[i] == m.value;
      assert ms[i] == m;
    }
  }

  /** An equality with a list gives one matcher for each string of it, in order. */
  lemma {:induction false} MatcherPerString(op: Op, attr: FieldExpr, lit: FieldExpr, n: Node, list: seq<string>)
    requires op != OtherOp && ComparesWith(attr, lit, n, list)
    ensures var ms := MatchersFrom(op, attr, lit);
      |ms| == |list| && forall i | 0 <= i < |list| :: ms[i].value == list[i] && StandsFor(n, ms[i].attribute)
  {
    FieldIs(attr, n, list);
    FieldIs(lit, n, list);
    AttributeExactly(n, AttributeFrom(n));
  }

  /** It does not matter which side the attribute is written on. */
  lemma {:induction false} MatchersEitherSide(op: Op, lhs: FieldExpr, rhs: FieldExpr)
    ensures MatchersFrom(op, lhs, rhs) == MatchersFrom(op, rhs, lhs)
  {
    assert !(FieldAttribute(lhs).Some? && FieldStrings(lhs).Some?);
    assert !(FieldAttribute(rhs).Some? && FieldStrings(rhs).Some?);
  }

  // ---------- ordering ----------

  predicate AttributeLess(x: Attribute, y: Attribute) {
    if x.scope != y.scope then Less(x.scope, y.scope)
    else if x.name != y.name then Less(x.name, y.name)
    else !x.parent && y.parent
  }

  predicate MatcherLess(x: Matcher, y: Matcher) {
    if Qualified(x.attribute) != Qualified(y.attribute) then Less(Qualified(x.attribute), Qualified(y.attribute))
    else if x.value != y.value then Less(x.value, y.value)
    else !x.attribute.parent && y.attribute.parent
  }

  /** By scope, then name, then those of the span itself before those of its parent. */
  lemma {:induction false} AttributeOrder(x: Attribute, y: Attribute)
    ensures AttributeLess(x, y) <==>
      Less(x.scope, y.scope) || (x.scope == y.scope &&
        (Less(x.name, y.name) || (x.name == y.name && !x.parent && y.parent)))
  {
    LessIrreflexive(x.scope);
    LessIrreflexive(x.name);
  }

  /** By scope, dot and name as one string, then value, then parent. */
  lemma {:induction false} MatcherOrder(x: Matcher, y: Matcher)
    ensures var a, b := x.attribute, y.attribute;
      var p, q := a.scope + "." + a.name, b.scope + "." + b.name;
      MatcherLess(x, y) <==>
        Less(p, q) || (p == q && (Less(x.value, y.value) || (x.value == y.value && !a.parent && b.parent)))
  {
    LessIrreflexive(Qualified(x.attribute));
    LessIrreflexive(x.value);
  }

  function AttributeKeys(x: Attribute): seq<SortKey> { [Text(x.scope)] + ([Text(x.name)] + ([Flag(x.parent)] + [])) }

  function MatcherKeys(x: Matcher): seq<SortKey> {
    [Text(Qualified(x.attribute))] + ([Text(x.value)] + ([Flag(x.attribute.parent)] + []))
  }

  lemma {:induction false} ThreeKeys(a: string, b: string, c: bool, a': string, b': string, c': bool)
    ensures KeysLess([Text(a)] + ([Text(b)] + ([Flag(c)] + [])), [Text(a')] + ([Text(b')] + ([Flag(c')] + []))) <==>
            if a != a' then Less(a, a') else if b != b' then Less(b, b') else !c && c'
  {
    LessIrreflexive(a);
    LessIrreflexive(b);
    var z, z' := [Flag(c)] + [], [Flag(c')] + [];
    KeysLessCons(Flag(c), Flag(c'), [], []);
    KeysLessCons(Text(b), Text(b'), z, z');
    KeysLessCons(Text(a), Text(a'), [Text(b)] + z, [Text(b')] + z');
  }

  lemma {:induction false} AttributeTotal()
    ensures StrictTotal(AttributeLess)
  {
    forall x, y ensures AttributeLess(x, y) <==> KeysLess(AttributeKeys(x), AttributeKeys(y)) {
      ThreeKeys(x.scope, x.name, x.parent, y.scope, y.name, y.parent);
    }
    forall x, y | AttributeKeys(x) == AttributeKeys(y) ensures x == y { AttributeKeysDetermine(x, y); }
    ByKeysTotal(AttributeLess, AttributeKeys);
  }

  lemma {:induction false} AttributeKeysDetermine(x: Attribute, y: Attribute)
    requires AttributeKeys(x) == AttributeKeys(y)
    ensures x == y
  {
    var k, l := AttributeKeys(x), AttributeKeys(y);
    assert k[0] == l[0] && k[1] == l[1] && k[2] == l[2];
  }

  lemma {:induction false} MatcherWeak()
    ensures StrictWeak(MatcherLess)
    ensures forall x, y :: Tied(MatcherLess, x, y) <==> SameKeys(x, y)
  {
    forall x, y ensures MatcherLess(x, y) <==> KeysLess(MatcherKeys(x), MatcherKeys(y)) {
      ThreeKeys(Qualified(x.attribute), x.value, x.attribute.parent,
                Qualified(y.attribute), y.value, y.attribute.parent);
    }
    ByKeysWeak(MatcherLess, MatcherKeys);
    forall x, y ensures Tied(MatcherLess, x, y) <==> SameKeys(x, y) {
      var k, l := MatcherKeys(x), MatcherKeys(y);
      assert k == l ==> k[0] == l[0] && k[1] == l[1] && k[2] == l[2];
    }
  }

  predicate SameKeys(x: Matcher, y: Matcher) {
    && Qualified(x.attribute) == Qualified(y.attribute) && x.value == y.value
    && x.attribute.parent == y.attribute.parent
  }

  /** A list holds each element of the set once. */
  ghost predicate Enumerates<T>(s: set<T>, list: seq<T>) {
    multiset(list) == multiset(s)
  }

  /** Iterating over a Go map: every key once, in no particular order. */
  method Range<T(==)>(s: set<T>) returns (list: seq<T>)
    ensures Enumerates(s, list)
  {
    list := [];
    var rest := s;
    while rest != {}
      invariant rest <= s && multiset(list) + multiset(rest) == multiset(s)
      decreases rest
    {
      var x :| x in rest;
      assert multiset(rest) == multiset(rest - {x}) + multiset{x};
      list := list + [x];
      rest := rest - {x};
    }
  }

  /** sort.Slice, which may leave tied elements in any order. */
  method SortAttributes(list: seq<Attribute>) returns (out: seq<Attribute>)
    ensures multiset(out) == multiset(list) && Sorted(AttributeLess, out)
  {
    AttributeTotal();
    StableSortSorts(AttributeLess, list);
    out := StableSort(AttributeLess, list);
  }

  method SortMatchers(list: seq<Matcher>) returns (out: seq<Matcher>)
    ensures multiset(out) == multiset(list) && Sorted(MatcherLess, out)
  {
    MatcherWeak();
    StableSortSorts(MatcherLess, list);
    out := StableSort(MatcherLess, list);
  }

  ghost predicate SortedList<T>(less: (T, T) -> bool, s: set<T>, list: seq<T>) {
    Enumerates(s, list) && Sorted(less, list)
  }

  /** The end of ExtractTraceQL: both collected sets, listed and sorted. */
  method Output(attrs: set<Attribute>, matchers: set<Matcher>) returns (as_: seq<Attribute>, ms: seq<Matcher>)
    ensures SortedList(AttributeLess, attrs, as_) && SortedList(MatcherLess, matchers, ms)
  {
    var la := Range(attrs);
    as_ := SortAttributes(la);
    var lm := Range(matchers);
    ms := SortMatchers(lm);
  }

  // ---------- canonical output ----------

  lemma {:induction false} CountedTwice<T>(list: seq<T>, i: nat, j: nat)
    requires i < j < |list| && list[i] == list[j]
    ensures multiset(list)[list[i]] >= 2
  {
    assert list == list[..j] + list[j..];
    assert list[i] in list[..j] && list[i] in list[j..];
    assert multiset(list) == multiset(list[..j]) + multiset(list[j..]);
  }

  lemma {:induction false} ListedOnce<T>(s: set<T>, list: seq<T>, i: nat, j: nat)
    requires Enumerates(s, list) && i < j < |list|
    ensures list[i] != list[j]
  {
    if list[i] == list[j] {
      CountedTwice(list, i, j);
    }
  }

  lemma {:induction false} ListedElements<T>(s: set<T>, list: seq<T>)
    requires Enumerates(s, list)
    ensures forall x :: x in list <==> x in s
  {
    forall x ensures x in list <==> x in s {
      assert x in multiset(list) <==> x in multiset(s);
    }
  }

  lemma {:induction false} UntiedStrictly<T>(less: (T, T) -> bool, elems: set<T>, s: seq<T>)
    requires SortedList(less, elems, s) && Untied(less, s)
    ensures StrictlySorted(less, s)
  {
    forall i, j | 0 <= i < j < |s| ensures less(s[i], s[j]) {
      ListedOnce(elems, s, i, j);
      assert s[i] in s && s[j] in s && !less(s[j], s[i]);
    }
  }

  /** Sorted attributes are strictly sorted, so free of duplicates, and depend on
      the collected set alone: neither map order nor the unstable sort shows. */
  lemma {:induction false} AttributesCanonical(attrs: set<Attribute>, s: seq<Attribute>, t: seq<Attribute>)
    requires SortedList(AttributeLess, attrs, s) && SortedList(AttributeLess, attrs, t)
    ensures s == t && StrictlySorted(AttributeLess, s) && forall a :: a in s <==> a in attrs
  {
    AttributeTotal();
    SortUnique(AttributeLess, s, t);
    ListedElements(attrs, s);
    UntiedStrictly(AttributeLess, attrs, s);
  }

  ghost predicate DistinctTies(matchers: set<Matcher>) {
    exists x, y :: x in matchers && y in matchers && x != y && Tied(MatcherLess, x, y)
  }

  ghost predicate OneSorting(matchers: set<Matcher>) {
    forall s, t | SortedList(MatcherLess, matchers, s) && SortedList(MatcherLess, matchers, t) :: s == t
  }

  lemma {:induction false} UntiedOneSorting(matchers: set<Matcher>)
    requires !DistinctTies(matchers)
    ensures OneSorting(matchers)
  {
    MatcherWeak();
    forall s, t | SortedList(MatcherLess, matchers, s) && SortedList(MatcherLess, matchers, t) ensures s == t {
      ListedElements(matchers, s);
      SortUniqueUntied(MatcherLess, s, t);
    }
  }

  lemma {:induction false} SomeSorting<T(!new)>(less: (T, T) -> bool, elems: set<T>) returns (s: seq<T>)
    requires StrictWeak(less)
    ensures SortedList(less, elems, s)
  {
    var list := SomeListing(elems);
    StableSortSorts(less, list);
    s := StableSort(less, list);
  }

  lemma {:induction false} OtherSorting<T(!new)>(less: (T, T) -> bool, elems: set<T>, s: seq<T>, x: T, y: T)
      returns (t: seq<T>)
    requires StrictWeak(less) && SortedList(less, elems, s) && x in elems && y in elems && x != y && Tied(less, x, y)
    ensures SortedList(less, elems, t) && t != s
  {
    ListedElements(elems, s);
    var i :| 0 <= i < |s| && s[i] == x;
    var j :| 0 <= j < |s| && s[j] == y;
    t := SortAmbiguous(less, s, if i < j then i else j, if i < j then j else i);
  }

  lemma {:induction false} TiedTwoSortings(matchers: set<Matcher>)
    requires DistinctTies(matchers)
    ensures !OneSorting(matchers)
  {
    MatcherWeak();
    var x, y :| x in matchers && y in matchers && x != y && Tied(MatcherLess, x, y);
    var s := SomeSorting(MatcherLess, matchers);
    var t := OtherSorting(MatcherLess, matchers, s, x, y);
  }

  /** The sorted matchers depend on the collected set alone exactly when no two
      different matchers of the set tie. */
  lemma {:induction false} MatchersCanonical(matchers: set<Matcher>)
    ensures OneSorting(matchers) <==> !DistinctTies(matchers)
  {
    if DistinctTies(matchers) { TiedTwoSortings(matchers); } else { UntiedOneSorting(matchers); }
  }

  lemma {:induction false} SomeListing<T>(s: set<T>) returns (list: seq<T>)
    ensures Enumerates(s, list)
  {
    if s == {} {
      list := [];
    } else {
      var x :| x in s;
      list := SomeListing(s - {x});
      assert multiset(s) == multiset(s - {x}) + multiset{x};
      list := list + [x];
    }
  }

  predicate DotFree(s: string) { '.' !in s }

  lemma {:induction false} FirstDot(x: Attribute)
    requires DotFree(x.scope)
    ensures var q := Qualified(x); q[|x.scope|] == '.' && forall k | 0 <= k < |x.scope| :: q[k] != '.'
  {
    assert forall k | 0 <= k < |x.scope| :: Qualified(x)[k] == x.scope[k];
  }

  /** On scopes without a dot, the qualified name determines scope and name. */
  lemma {:induction false} QualifiedInjective(x: Attribute, y: Attribute)
    requires DotFree(x.scope) && DotFree(y.scope) && Qualified(x) == Qualified(y)
    ensures x.scope == y.scope && x.name == y.name
  {
    FirstDot(x);
    FirstDot(y);
    var q, n := Qualified(x), |x.scope|;
    assert n == |y.scope|;
    assert x.scope == q[..n] == y.scope && x.name == q[n + 1..] == y.name;
  }

  /** Scopes without a dot, as the parser's are, leave no ties. */
  lemma {:induction false} DotFreeMatchersCanonical(matchers: set<Matcher>, s: seq<Matcher>, t: seq<Matcher>)
    requires forall m | m in matchers :: DotFree(m.attribute.scope)
    requires SortedList(MatcherLess, matchers, s) && SortedList(MatcherLess, matchers, t)
    ensures s == t && StrictlySorted(MatcherLess, s) && forall m :: m in s <==> m in matchers
  {
    ListedElements(matchers, s);
    forall x, y | x in matchers && y in matchers && Tied(MatcherLess, x, y) ensures x == y {
      DotFreeUntied(x, y);
    }
    MatcherWeak();
    SortUniqueUntied(MatcherLess, s, t);
    UntiedStrictly(MatcherLess, matchers, s);
  }

  lemma {:induction false} DotFreeUntied(x: Matcher, y: Matcher)
    requires DotFree(x.attribute.scope) && DotFree(y.attribute.scope) && Tied(MatcherLess, x, y)
    ensures x == y
  {
    MatcherWeak();
    assert SameKeys(x, y);
    QualifiedInjective(x.attribute, y.attribute);
  }

  /** A dot in a scope can hide where the scope ends, and the order with it. */
  lemma {:induction false} DottedScopeTies()
    ensures var x := Matcher(Attribute("a.b", false, "c"), "v");
      var y := Matcher(Attribute("a", false, "b.c"), "v");
      x != y && DistinctTies({x, y})
  {
    var x := Matcher(Attribute("a.b", false, "c"), "v");
    var y := Matcher(Attribute("a", false, "b.c"), "v");
    assert Qualified(x.attribute) == "a.b.c" == Qualified(y.attribute);
    MatcherWeak();
    assert x in {x, y} && y in {x, y};
  }
}
