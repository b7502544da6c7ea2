/** traceql.go, ExtractTraceQL: the visits of a walk, and what is read from them. */
module Extract {
  import opened Common
  import opened Order
  import opened Lists
  import opened ReflectWalk
  import opened TraceQL
  import Checks

  // ---------- what one value refers to ----------

  /** What a visited value is to the extractor: a comparison, an attribute node, or
      anything else, with the name of the function it calls or "". */
  datatype Kind = Comparison(op: Op, lhs: FieldExpr, rhs: FieldExpr) | AttributeNode(node: Node) | Other(call: string)

  /** How the parser's values read. */
  datatype Ast = Ast(kindOf: Value -> Kind, intrinsicName: nat -> string)

  datatype Ref =
    | AttributeRef(a: Attribute)
    | IntrinsicRef(name: string)
    | FunctionRef(fn: string)
    | MatcherRef(m: Matcher)

  /** n refers to ref. */
  ghost predicate Refers(ast: Ast, n: Value, ref: Ref) {
    match (ast.kindOf(n), ref)
    case (Comparison(op, lhs, rhs), MatcherRef(m)) => op != OtherOp && (Compares(lhs, rhs, m) || Compares(rhs, lhs, m))
    case (AttributeNode(x), IntrinsicRef(name)) => x.intrinsic != 0 && name == ast.intrinsicName(x.intrinsic)
    case (AttributeNode(x), AttributeRef(a)) => x.intrinsic == 0 && x.name != "" && StandsFor(x, a)
    case (Other(call), FunctionRef(fn)) => fn == call != ""
    case _ => false
  }

  ghost predicate RefersSome(ast: Ast, visits: seq<Value>, ref: Ref) { exists n | n in visits :: Refers(ast, n, ref) }

  /** The maps that the visits fill. */
  datatype Found = Found(attributes: set<Attribute>, intrinsics: set<string>, functions: set<string>,
                         matchers: set<Matcher>)
  {
    predicate Holds(ref: Ref) {
      match ref
      case AttributeRef(a) => a in attributes
      case IntrinsicRef(name) => name in intrinsics
      case FunctionRef(fn) => fn in functions
      case MatcherRef(m) => m in matchers
    }
  }

  ghost predicate Collected(ast: Ast, visits: seq<Value>, found: Found) {
    forall ref: Ref :: found.Holds(ref) <==> RefersSome(ast, visits, ref)
  }

  lemma {:induction false} CollectedNext(ast: Ast, visits: seq<Value>, found: Found, v: Value, found': Found)
    requires Collected(ast, visits, found)
    requires forall ref: Ref :: found'.Holds(ref) <==> found.Holds(ref) || Refers(ast, v, ref)
    ensures Collected(ast, visits + [v], found')
  {
    forall ref: Ref
      ensures RefersSome(ast, visits + [v], ref) <==> RefersSome(ast, visits, ref) || Refers(ast, v, ref)
    {
      if Refers(ast, v, ref) { assert v in visits + [v]; }
      if RefersSome(ast, visits, ref) {
        var n :| n in visits && Refers(ast, n, ref);
        assert n in visits + [v];
      }
    }
  }

  lemma {:induction false} Without(vs: seq<Value>, i: nat)
    requires i < |vs|
    ensures forall c :: c in vs <==> c == vs[i] || c in vs[..i] + vs[i + 1..]
  {
    assert vs == vs[..i] + [vs[i]] + vs[i + 1..];
  }

  // ---------- the walk ----------

  class Walker {
    const heap: Heap
    const ast: Ast
    var seen: set<nat>
    var found: Found
    ghost var visits: seq<Value>

    constructor (heap: Heap, ast: Ast)
      ensures this.heap == heap && this.ast == ast && seen == {} && visits == [] && Collected(ast, visits, found)
    {
      this.heap, this.ast := heap, ast;
      seen, visits, found := {}, [], Found({}, {}, {}, {});
    }

    /** The callback of the walk. */
    method Visit(v: Value)
      requires Collected(ast, visits, found)
      modifies this`visits, this`found
      ensures visits == old(visits) + [v] && Collected(ast, visits, found)
    {
      ghost var was := found;
      match ast.kindOf(v) {
        case Comparison(op, lhs, rhs) =>
          found := AddMatchers(found, MatchersFrom(op, lhs, rhs));
          forall m ensures m in MatchersFrom(op, lhs, rhs) <==> Refers(ast, v, MatcherRef(m)) {
            MatchersExactly(op, lhs, rhs, m);
          }
        case AttributeNode(a) =>
          if a.intrinsic != 0 {
            found := found.(intrinsics := found.intrinsics + {ast.intrinsicName(a.intrinsic)});
          } else if a.name != "" {
            forall x { AttributeExactly(a, x); }
            found := found.(attributes := found.attributes + {AttributeFrom(a)});
          }
        case Other(call) =>
          if call != "" {
            found := found.(functions := found.functions + {call});
          }
      }
      CollectedNext(ast, visits, was, v, found);
      visits := visits + [v];
    }

    /** Visits what v reaches and has not been followed yet. */
    method Walk(v: Value)
      requires Closed(heap, v) && OncePerAddress(seen, visits) && Collected(ast, visits, found)
      modifies this
      ensures old(seen) <= seen && old(visits) <= visits
      ensures OncePerAddress(seen, visits) && Collected(ast, visits, found)
      ensures Covered(v, seen, visits)
      ensures Done(heap, v, |old(visits)|, seen, visits)
      decreases Addresses(heap) - seen, v, 1
    {
      ghost var from := |visits|;
      match v {
        case Nothing =>
        case Leaf(_) =>
        case Pointer(p) =>
          if p.addr in seen {
            return;
          }
          VisitKeepsOnce(seen, visits, v);
          seen := seen + {p.addr};
          Visit(v);
          assert Inside(v, Pointer(p));
          assert p.addr in Addresses(heap);
          assert Closed(heap, heap[p]);
          ghost var visits1 := visits;
          Walk(heap[p]);
          assert visits[from] == visits1[from];
          DonePointer(heap, p, from, seen, visits);
        case Interface(e) =>
          VisitKeepsOnce(seen, visits, v);
          Visit(v);
          Itself(heap, v);
          ghost var visits1 := visits;
          WalkInOrder(v, [e], from);
          assert visits[from] == visits1[from];
        case Struct(_, fs) =>
          VisitKeepsOnce(seen, visits, v);
          Visit(v);
          Itself(heap, v);
          ghost var visits1 := visits;
          WalkInOrder(v, fs, from);
          assert visits[from] == visits1[from];
        case Items(es) =>
          WalkInOrder(v, es, from);
        case Mapping(es) =>
          WalkInAnyOrder(v, es, from);
      }
    }

    /** The loops over the fields of a struct and the elements of a slice or an array. */
    method WalkInOrder(v: Value, vs: seq<Value>, ghost from: nat)
      requires vs == Children(v)
      requires Closed(heap, v) && OncePerAddress(seen, visits) && Collected(ast, visits, found)
      requires from <= |visits| && Done(heap, v, from, seen, visits)
      modifies this
      ensures old(seen) <= seen && old(visits) <= visits
      ensures OncePerAddress(seen, visits) && Collected(ast, visits, found)
      ensures forall c | c in vs :: Covered(c, seen, visits)
      ensures Done(heap, v, from, seen, visits)
      decreases Addresses(heap) - seen, v, 0
    {
      var i := 0;
      while i < |vs|
        invariant i <= |vs|
        invariant old(seen) <= seen && old(visits) <= visits
        invariant OncePerAddress(seen, visits) && Collected(ast, visits, found)
        invariant forall c | c in vs[..i] :: Covered(c, seen, visits)
        invariant Done(heap, v, from, seen, visits)
      {
        ghost var seen1, visits1 := seen, visits;
        WalkPart(v, vs[i], from);
        forall c | c in vs[..i] ensures Covered(c, seen, visits) { CoveredGrows(c, seen1, visits1, seen, visits); }
        i := i + 1;
      }
    }

    /** The loop over a map, which yields its values in any order. */
    method WalkInAnyOrder(v: Value, vs: seq<Value>, ghost from: nat)
      requires vs == Children(v)
      requires Closed(heap, v) && OncePerAddress(seen, visits) && Collected(ast, visits, found)
      requires from <= |visits| && Done(heap, v, from, seen, visits)
      modifies this
      ensures old(seen) <= seen && old(visits) <= visits
      ensures OncePerAddress(seen, visits) && Collected(ast, visits, found)
      ensures forall c | c in vs :: Covered(c, seen, visits)
      ensures Done(heap, v, from, seen, visits)
      decreases Addresses(heap) - seen, v, 0
    {
      var rest := vs;
      while rest != []
        invariant forall c | c in rest :: c in vs
        invariant old(seen) <= seen && old(visits) <= visits
        invariant OncePerAddress(seen, visits) && Collected(ast, visits, found)
        invariant forall c | c in vs :: c in rest || Covered(c, seen, visits)
        invariant Done(heap, v, from, seen, visits)
        decreases |rest|
      {
        var i: nat :| i < |rest|;
        ghost var seen1, visits1 := seen, visits;
        assert rest[i] in Children(v);
        WalkPart(v, rest[i], from);
        forall c | c in vs && c !in rest ensures Covered(c, seen, visits) {
          CoveredGrows(c, seen1, visits1, seen, visits);
        }
        Without(rest, i);
        rest := rest[..i] + rest[i + 1..];
      }
    }

    /** One turn of such a loop. */
    method WalkPart(v: Value, c: Value, ghost from: nat)
      requires c in Children(v)
      requires Closed(heap, v) && OncePerAddress(seen, visits) && Collected(ast, visits, found)
      requires from <= |visits| && Done(heap, v, from, seen, visits)
      modifies this
      ensures old(seen) <= seen && old(visits) <= visits
      ensures OncePerAddress(seen, visits) && Collected(ast, visits, found)
      ensures Covered(c, seen, visits)
      ensures Done(heap, v, from, seen, visits)
      decreases Addresses(heap) - seen, c, 2
    {
      ghost var seen1, visits1 := seen, visits;
      assert Part(v, c);
      PartReaches(heap, v, c);
      Walk(c);
      DoneMore(heap, v, c, from, seen1, visits1, seen, visits);
    }
  }

  function AddMatchers(found: Found, ms: seq<Matcher>): Found {
    found.(matchers := found.matchers + set m | m in ms)
  }

  /** The call ExtractTraceQL makes, with a fresh seen set. */
  method WalkFrom(heap: Heap, root: Value, ast: Ast)
      returns (found: Found, ghost seen: set<nat>, ghost visits: seq<Value>)
    requires Closed(heap, root)
    ensures Walked(heap, root, seen, visits) && Collected(ast, visits, found)
  {
    var w := new Walker(heap, ast);
    w.Walk(root);
    found, seen, visits := w.found, w.seen, w.visits;
  }

  // ---------- the extraction ----------

  /** What the parser makes of an expression. */
  datatype Parsed = Tree(heap: Heap, root: Value) | Refused(msg: string)

  datatype Extraction = Extraction(res: Checks.TraceResult, intrinsics: seq<string>, functions: seq<string>)

  function NothingIn(expr: string): Extraction { Extraction(Checks.TraceResult(expr, [], []), [], []) }

  /** The lists of an extraction are its collected sets, sorted. */
  ghost predicate Rendered(found: Found, x: Extraction) {
    && SortedList(AttributeLess, found.attributes, x.res.attributes) && x.intrinsics == SortedKeys(found.intrinsics)
    && x.functions == SortedKeys(found.functions) && SortedList(MatcherLess, found.matchers, x.res.matchers)
  }

  /** x is what some walk of the tree may give. */
  ghost predicate ExtractedFrom(heap: Heap, root: Value, ast: Ast, x: Extraction) {
    exists seen, visits, found ::
      Walked(heap, root, seen, visits) && Collected(ast, visits, found) && Rendered(found, x)
  }

  method ExtractTraceQL(expr: string, parse: string -> Parsed, ast: Ast) returns (x: Extraction, err: Option<string>)
    requires parse(expr).Tree? ==> Closed(parse(expr).heap, parse(expr).root)
    ensures expr == "" ==> x == NothingIn("") && err == Some("empty expression")
    ensures expr != "" && parse(expr).Refused? ==> x == NothingIn(expr) && err == Some("parse: " + parse(expr).msg)
    ensures expr != "" && parse(expr).Tree? ==>
      err.None? && x.res.expr == expr && ExtractedFrom(parse(expr).heap, parse(expr).root, ast, x)
  {
    if expr == "" {
      return NothingIn(expr), Some("empty expression");
    }
    match parse(expr) {
      case Refused(msg) =>
        return NothingIn(expr), Some("parse: " + msg);
      case Tree(heap, root) =>
        x := ExtractTree(expr, heap, root, ast);
        return x, None;
    }
  }

  method ExtractTree(expr: string, heap: Heap, root: Value, ast: Ast) returns (x: Extraction)
    requires Closed(heap, root)
    ensures x.res.expr == expr && ExtractedFrom(heap, root, ast, x)
  {
    var found;
    ghost var seen, visits;
    found, seen, visits := WalkFrom(heap, root, ast);
    var attributes, matchers := Output(found.attributes, found.matchers);
    var intrinsics := ComputeSortedKeys(found.intrinsics);
    var functions := ComputeSortedKeys(found.functions);
    x := Extraction(Checks.TraceResult(expr, attributes, matchers), intrinsics, functions);
    assert Rendered(found, x);
  }

  // ---------- what an extraction holds ----------

  predicate Listed(x: Extraction, ref: Ref) {
    match ref
    case AttributeRef(a) => a in x.res.attributes
    case IntrinsicRef(name) => name in x.intrinsics
    case FunctionRef(fn) => fn in x.functions
    case MatcherRef(m) => m in x.res.matchers
  }

  /** Some reachable pointer, interface or struct refers to ref. */
  ghost predicate ReachableRef(heap: Heap, root: Value, ast: Ast, ref: Ref) {
    exists n: Value :: (n.Pointer? || n.Interface? || n.Struct?) && Reaches(heap, root, n) && Refers(ast, n, ref)
  }

  lemma {:induction false} ListedIsHeld(found: Found, x: Extraction, ref: Ref)
    requires Rendered(found, x)
    ensures Listed(x, ref) <==> found.Holds(ref)
  {
    match ref
    case AttributeRef(_) => ListedElements(found.attributes, x.res.attributes);
    case IntrinsicRef(_) =>
    case FunctionRef(_) =>
    case MatcherRef(_) => ListedElements(found.matchers, x.res.matchers);
  }

  /** Only what something reachable refers to is listed; and all of it, unless an
      address is reached at two types. */
  lemma {:induction false} ExtractsReachable(heap: Heap, root: Value, ast: Ast, x: Extraction, ref: Ref)
    requires ExtractedFrom(heap, root, ast, x)
    ensures Listed(x, ref) ==> ReachableRef(heap, root, ast, ref)
    ensures OneTypePerAddress(heap, root) ==> (Listed(x, ref) <==> ReachableRef(heap, root, ast, ref))
  {
    var seen, visits, found :|
      Walked(heap, root, seen, visits) && Collected(ast, visits, found) && Rendered(found, x);
    ListedIsHeld(found, x, ref);
    WalkIsComplete(heap, root, seen, visits);
    assert found.Holds(ref) <==> RefersSome(ast, visits, ref);
  }

  // ---------- one extraction ----------

  lemma {:induction false} SameElements<T>(s: set<T>, t: set<T>, x: seq<T>, y: seq<T>)
    requires Enumerates(s, x) && Enumerates(t, y) && forall e :: e in x <==> e in y
    ensures multiset(x) == multiset(y)
  {
    ListedElements(s, x);
    ListedElements(t, y);
    assert forall e :: e in s <==> e in t;
    assert s == t;
  }

  lemma {:induction false} SameListing<T(!new)>(less: (T, T) -> bool, s: set<T>, t: set<T>, x: seq<T>, y: seq<T>)
    requires StrictTotal(less) && SortedList(less, s, x) && SortedList(less, t, y) && forall e :: e in x <==> e in y
    ensures x == y
  {
    SameElements(s, t, x, y);
    SortUnique(less, x, y);
  }

  /** Two different listed matchers that the comparator does not tell apart. */
  ghost predicate TiedMatchers(x: Extraction) { !Untied(MatcherLess, x.res.matchers) }

  ghost predicate SameListed(x: Extraction, y: Extraction) { forall ref: Ref :: Listed(x, ref) <==> Listed(y, ref) }

  lemma {:induction false} SameMatchers(f: Found, g: Found, x: Extraction, y: Extraction)
    requires Rendered(f, x) && Rendered(g, y) && SameListed(x, y) && !TiedMatchers(x)
    ensures x.res.matchers == y.res.matchers
  {
    forall m ensures m in x.res.matchers <==> m in y.res.matchers {
      assert Listed(x, MatcherRef(m)) <==> Listed(y, MatcherRef(m));
    }
    MatcherWeak();
    SameElements(f.matchers, g.matchers, x.res.matchers, y.res.matchers);
    SortUniqueUntied(MatcherLess, x.res.matchers, y.res.matchers);
  }

  lemma {:induction false} SameAttributes(f: Found, g: Found, x: Extraction, y: Extraction)
    requires Rendered(f, x) && Rendered(g, y) && SameListed(x, y)
    ensures x.res.attributes == y.res.attributes
  {
    forall a ensures a in x.res.attributes <==> a in y.res.attributes {
      assert Listed(x, AttributeRef(a)) <==> Listed(y, AttributeRef(a));
    }
    AttributeTotal();
    SameListing(AttributeLess, f.attributes, g.attributes, x.res.attributes, y.res.attributes);
  }

  lemma {:induction false} SameNames(f: Found, g: Found, x: Extraction, y: Extraction)
    requires Rendered(f, x) && Rendered(g, y) && SameListed(x, y)
    ensures x.intrinsics == y.intrinsics && x.functions == y.functions
  {
    forall s ensures s in SortedKeys(f.intrinsics) <==> s in SortedKeys(g.intrinsics) {
      assert Listed(x, IntrinsicRef(s)) <==> Listed(y, IntrinsicRef(s));
    }
    forall s ensures s in SortedKeys(f.functions) <==> s in SortedKeys(g.functions) {
      assert Listed(x, FunctionRef(s)) <==> Listed(y, FunctionRef(s));
    }
    StrictlySortedUnique(SortedKeys(f.intrinsics), SortedKeys(g.intrinsics));
    StrictlySortedUnique(SortedKeys(f.functions), SortedKeys(g.functions));
  }

  lemma {:induction false} SameExtraction(heap: Heap, root: Value, ast: Ast, x: Extraction, y: Extraction)
    requires ExtractedFrom(heap, root, ast, x) && ExtractedFrom(heap, root, ast, y) && x.res.expr == y.res.expr
    requires OneTypePerAddress(heap, root) && !TiedMatchers(x)
    ensures x == y
  {
    forall ref: Ref ensures Listed(x, ref) <==> Listed(y, ref) {
      ExtractsReachable(heap, root, ast, x, ref);
      ExtractsReachable(heap, root, ast, y, ref);
    }
    var f := FoundOf(heap, root, ast, x);
    var g := FoundOf(heap, root, ast, y);
    SameAttributes(f, g, x, y);
    SameNames(f, g, x, y);
    SameMatchers(f, g, x, y);
  }

  lemma {:induction false} FoundOf(heap: Heap, root: Value, ast: Ast, x: Extraction) returns (found: Found)
    requires ExtractedFrom(heap, root, ast, x)
    ensures Rendered(found, x)
    ensures forall y | Rendered(found, y) :: ExtractedFrom(heap, root, ast, y)
  {
    var seen, visits, f :| Walked(heap, root, seen, visits) && Collected(ast, visits, f) && Rendered(f, x);
    found := f;
  }

  ghost predicate OnlyExtraction(heap: Heap, root: Value, ast: Ast, x: Extraction) {
    forall y | ExtractedFrom(heap, root, ast, y) && y.res.expr == x.res.expr :: y == x
  }

  /** Without addresses at two types, map order and the unstable sort cannot change the
      extraction, if and only if no two different matchers tie. */
  lemma {:induction false} ExtractionCanonical(heap: Heap, root: Value, ast: Ast, x: Extraction)
    requires ExtractedFrom(heap, root, ast, x) && OneTypePerAddress(heap, root)
    ensures OnlyExtraction(heap, root, ast, x) <==> !TiedMatchers(x)
  {
    if TiedMatchers(x) {
      var y := OtherExtraction(heap, root, ast, x);
    } else {
      forall y | ExtractedFrom(heap, root, ast, y) && y.res.expr == x.res.expr ensures y == x {
        SameExtraction(heap, root, ast, x, y);
      }
    }
  }

  lemma {:induction false} OtherExtraction(heap: Heap, root: Value, ast: Ast, x: Extraction) returns (y: Extraction)
    requires ExtractedFrom(heap, root, ast, x) && TiedMatchers(x)
    ensures ExtractedFrom(heap, root, ast, y) && y.res.expr == x.res.expr && y != x
  {
    var found := FoundOf(heap, root, ast, x);
    var m, k :| m in x.res.matchers && k in x.res.matchers && m != k && Tied(MatcherLess, m, k);
    MatcherWeak();
    ListedElements(found.matchers, x.res.matchers);
    var other := OtherSorting(MatcherLess, found.matchers, x.res.matchers, m, k);
    y := x.(res := x.res.(matchers := other));
    assert Rendered(found, y);
  }

  /** The parser's scopes hold no dot, so its extractions do not tie. */
  lemma {:induction false} DotFreeUntiedMatchers(x: Extraction)
    requires forall m | m in x.res.matchers :: DotFree(m.attribute.scope)
    ensures !TiedMatchers(x)
  {
    forall m, k | m in x.res.matchers && k in x.res.matchers && Tied(MatcherLess, m, k) ensures m == k {
      DotFreeUntied(m, k);
    }
  }
}
