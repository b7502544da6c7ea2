/** traceql.go, walkReflect: a depth-first walk over a pointer heap that may be
    cyclic, broken by a set of addresses already followed. */
module ReflectWalk {

  /** A pointer as reflection sees it: an address and the type it points at. A
      struct and its first field can share an address, at different types. */
  datatype Ptr = Ptr(addr: nat, typ: nat)

  /** The edges the walker can follow. */
  datatype Value =
    | Nothing                      // invalid, or a nil pointer or interface
    | Leaf(n: int)
    | Pointer(p: Ptr)
    | Interface(elem: Value)
    | Struct(typ: nat, fields: seq<Value>)
    | Items(elems: seq<Value>)     // of a slice or an array
    | Mapping(values: seq<Value>)  // of a map, which yields them in any order

  function Children(v: Value): (cs: seq<Value>)
    ensures forall c | c in cs :: c < v
  {
    match v
    case Interface(e) => [e]
    case Struct(_, fs) => fs
    case Items(es) => es
    case Mapping(es) => es
    case _ => []
  }

  type Heap = map<Ptr, Value>

  // ---------- reachability ----------

  /** n is v or sits inside it, without following a pointer. */
  ghost predicate Inside(v: Value, n: Value)
    decreases v
  {
    n == v || exists c | c in Children(v) :: Inside(c, n)
  }

  /** What a value holds: the content of an interface, every field, element and map value. */
  lemma {:induction false} InsideExactly(v: Value, n: Value)
    ensures Inside(v, n) <==>
      n == v || match v
        case Interface(e) => Inside(e, n)
        case Struct(_, fields) => exists f :: f in fields && Inside(f, n)
        case Items(elems) => exists e :: e in elems && Inside(e, n)
        case Mapping(values) => exists e :: e in values && Inside(e, n)
        case _ => false
  {
    if c :| c in Children(v) && Inside(c, n) {
      assert !v.Pointer?;
    }
    if v.Interface? { assert v.elem in Children(v); }
  }

  /** n is inside v, or inside what some chain of at most k pointers leads to. */
  ghost predicate ReachesIn(heap: Heap, v: Value, n: Value, k: nat)
    decreases k
  {
    Inside(v, n) ||
    (k > 0 && exists p :: p in heap && Inside(v, Pointer(p)) && ReachesIn(heap, heap[p], n, k - 1))
  }

  ghost predicate Reaches(heap: Heap, v: Value, n: Value) { exists k: nat :: ReachesIn(heap, v, n, k) }

  /** Every pointer met on the way leads somewhere. */
  ghost predicate Closed(heap: Heap, v: Value) {
    && (forall p :: Inside(v, Pointer(p)) ==> p in heap)
    && (forall q, p :: q in heap && Inside(heap[q], Pointer(p)) ==> p in heap)
  }

  predicate Visitable(n: Value) { n.Pointer? || n.Interface? || n.Struct? }

  // ---------- the walker ----------

  /** Nothing inside v is left to do: its pointers are followed, the rest is visited. */
  ghost predicate Covered(v: Value, seen: set<nat>, visits: seq<Value>)
    decreases v
  {
    if v.Pointer? then v.p.addr in seen
    else (Visitable(v) ==> v in visits) && forall c | c in Children(v) :: Covered(c, seen, visits)
  }

  /** One visit of a pointer per followed address, and of no other pointer. */
  ghost predicate OncePerAddress(seen: set<nat>, visits: seq<Value>) {
    && (forall i | 0 <= i < |visits| && visits[i].Pointer? :: visits[i].p.addr in seen)
    && (forall a | a in seen :: exists i :: 0 <= i < |visits| && visits[i].Pointer? && visits[i].p.addr == a)
    && (forall i, j | 0 <= i < j < |visits| && visits[i].Pointer? && visits[j].Pointer? ::
          visits[i].p.addr != visits[j].p.addr)
  }

  /** From visit number `from` on: only what v reaches was visited, and whatever
      the pointers among those visits lead to is covered. */
  ghost predicate Done(heap: Heap, v: Value, from: nat, seen: set<nat>, visits: seq<Value>) {
    forall i | from <= i < |visits| ::
      && Visitable(visits[i]) && Reaches(heap, v, visits[i])
      && (visits[i].Pointer? ==> visits[i].p in heap && Covered(heap[visits[i].p], seen, visits))
  }

  function Addresses(heap: Heap): set<nat> { set p | p in heap :: p.addr }

  // ---------- steps of the proof ----------

  ghost predicate Part(v: Value, c: Value) { forall n :: Inside(c, n) ==> Inside(v, n) }

  lemma {:induction false} ReachesPart(heap: Heap, v: Value, c: Value, n: Value)
    requires Part(v, c) && Reaches(heap, c, n)
    ensures Reaches(heap, v, n)
  {
    var k: nat :| ReachesIn(heap, c, n, k);
    assert ReachesIn(heap, v, n, k);
  }

  lemma {:induction false} ReachesThrough(heap: Heap, p: Ptr, n: Value)
    requires p in heap && Reaches(heap, heap[p], n)
    ensures Reaches(heap, Pointer(p), n)
  {
    var k: nat :| ReachesIn(heap, heap[p], n, k);
    assert Inside(Pointer(p), Pointer(p));
    assert ReachesIn(heap, Pointer(p), n, k + 1);
  }

  lemma {:induction false} CoveredGrows(v: Value, seen: set<nat>, visits: seq<Value>, seen': set<nat>,
      visits': seq<Value>)
    requires Covered(v, seen, visits) && seen <= seen' && visits <= visits'
    ensures Covered(v, seen', visits')
    decreases v
  {
    if v in visits {
      var i :| 0 <= i < |visits| && visits[i] == v;
      assert visits'[i] == v;
    }
    if !v.Pointer? {
      forall c | c in Children(v) ensures Covered(c, seen', visits') { CoveredGrows(c, seen, visits, seen', visits'); }
    }
  }

  lemma {:induction false} VisitKeepsOnce(seen: set<nat>, visits: seq<Value>, v: Value)
    requires OncePerAddress(seen, visits) && (v.Pointer? ==> v.p.addr !in seen)
    ensures OncePerAddress(if v.Pointer? then seen + {v.p.addr} else seen, visits + [v])
  {
    var seen', visits' := if v.Pointer? then seen + {v.p.addr} else seen, visits + [v];
    forall a | a in seen' ensures exists i :: 0 <= i < |visits'| && visits'[i].Pointer? && visits'[i].p.addr == a {
      if a in seen {
        var i :| 0 <= i < |visits| && visits[i].Pointer? && visits[i].p.addr == a;
        assert visits'[i] == visits[i];
      } else {
        assert visits'[|visits|] == v;
      }
    }
  }

  /** Visits made while walking c count as made while walking v. */
  lemma {:induction false} DoneMore(heap: Heap, v: Value, c: Value, from: nat, seen: set<nat>, visits: seq<Value>,
                                    seen': set<nat>, visits': seq<Value>)
    requires Done(heap, v, from, seen, visits) && from <= |visits| && seen <= seen' && visits <= visits'
    requires Done(heap, c, |visits|, seen', visits')
    requires forall n :: Reaches(heap, c, n) ==> Reaches(heap, v, n)
    ensures Done(heap, v, from, seen', visits')
  {
    forall i | from <= i < |visits'|
      ensures Visitable(visits'[i]) && Reaches(heap, v, visits'[i])
      ensures visits'[i].Pointer? ==> visits'[i].p in heap && Covered(heap[visits'[i].p], seen', visits')
    {
      if i < |visits| {
        assert visits'[i] == visits[i];
        if visits[i].Pointer? {
          CoveredGrows(heap[visits[i].p], seen, visits, seen', visits');
        }
      }
    }
  }

  lemma {:induction false} PartReaches(heap: Heap, v: Value, c: Value)
    requires Part(v, c)
    ensures forall n :: Reaches(heap, c, n) ==> Reaches(heap, v, n)
    ensures Closed(heap, v) ==> Closed(heap, c)
  {
    forall n | Reaches(heap, c, n) ensures Reaches(heap, v, n) { ReachesPart(heap, v, c, n); }
  }

  lemma {:induction false} Itself(heap: Heap, v: Value)
    ensures Reaches(heap, v, v)
  {
    assert ReachesIn(heap, v, v, 0);
  }

  /** The first visit of a pointer, then the walk of what it leads to. */
  lemma {:induction false} DonePointer(heap: Heap, p: Ptr, from: nat, seen: set<nat>, visits: seq<Value>)
    requires p in heap && from < |visits| && visits[from] == Pointer(p)
    requires Covered(heap[p], seen, visits) && Done(heap, heap[p], from + 1, seen, visits)
    ensures Done(heap, Pointer(p), from, seen, visits)
  {
    forall i | from <= i < |visits| ensures Reaches(heap, Pointer(p), visits[i]) {
      if i == from { Itself(heap, Pointer(p)); } else { ReachesThrough(heap, p, visits[i]); }
    }
  }

  // ---------- what a finished walk has visited ----------

  lemma {:induction false} CoveredInside(v: Value, n: Value, seen: set<nat>, visits: seq<Value>)
    requires Covered(v, seen, visits) && Inside(v, n)
    ensures Covered(n, seen, visits)
    decreases v
  {
    if n != v {
      var c :| c in Children(v) && Inside(c, n);
      CoveredInside(c, n, seen, visits);
    }
  }

  /** No address is reached at two types. */
  ghost predicate OneTypePerAddress(heap: Heap, root: Value) {
    forall p, q | Reaches(heap, root, Pointer(p)) && Reaches(heap, root, Pointer(q)) :: p.addr == q.addr ==> p == q
  }

  ghost predicate Walked(heap: Heap, root: Value, seen: set<nat>, visits: seq<Value>) {
    OncePerAddress(seen, visits) && Covered(root, seen, visits) && Done(heap, root, 0, seen, visits)
  }

  /** With one type per address, everything reachable is covered. */
  lemma {:induction false} ReachableCovered(heap: Heap, root: Value, v: Value, n: Value, k: nat, seen: set<nat>,
      visits: seq<Value>)
    requires Walked(heap, root, seen, visits) && OneTypePerAddress(heap, root)
    requires Covered(v, seen, visits) && ReachesIn(heap, v, n, k)
    requires forall m :: Reaches(heap, v, m) ==> Reaches(heap, root, m)
    ensures Covered(n, seen, visits)
    decreases k
  {
    if Inside(v, n) {
      CoveredInside(v, n, seen, visits);
    } else {
      var p :| p in heap && Inside(v, Pointer(p)) && ReachesIn(heap, heap[p], n, k - 1);
      CoveredInside(v, Pointer(p), seen, visits);
      var i :| 0 <= i < |visits| && visits[i].Pointer? && visits[i].p.addr == p.addr;
      assert ReachesIn(heap, v, Pointer(p), 0);
      assert visits[i].p == p;
      forall m | Reaches(heap, heap[p], m) ensures Reaches(heap, root, m) {
        var j: nat :| ReachesIn(heap, heap[p], m, j);
        assert ReachesIn(heap, v, m, j + 1);
      }
      ReachableCovered(heap, root, heap[p], n, k - 1, seen, visits);
    }
  }

  lemma {:induction false} VisitedOnce(seen: set<nat>, visits: seq<Value>, p: Ptr, q: Ptr)
    requires OncePerAddress(seen, visits) && Pointer(p) in visits && Pointer(q) in visits && p.addr == q.addr
    ensures p == q
  {
    var i :| 0 <= i < |visits| && visits[i] == Pointer(p);
    var j :| 0 <= j < |visits| && visits[j] == Pointer(q);
    assert i == j;
  }

  /** Whatever the shape of the heap, only reachable things are visited, and a
      pointer at most once per address. Everything reachable is visited if and
      only if no address is reached at two different types. */
  lemma {:induction false} WalkIsComplete(heap: Heap, root: Value, seen: set<nat>, visits: seq<Value>)
    requires Walked(heap, root, seen, visits)
    ensures forall n | n in visits :: (n.Pointer? || n.Interface? || n.Struct?) && Reaches(heap, root, n)
    ensures OneTypePerAddress(heap, root) <==>
            forall n: Value | (n.Pointer? || n.Interface? || n.Struct?) && Reaches(heap, root, n) :: n in visits
  {
    if OneTypePerAddress(heap, root) {
      forall n | Visitable(n) && Reaches(heap, root, n) ensures n in visits {
        var k: nat :| ReachesIn(heap, root, n, k);
        ReachableCovered(heap, root, root, n, k, seen, visits);
        if n.Pointer? {
          var i :| 0 <= i < |visits| && visits[i].Pointer? && visits[i].p.addr == n.p.addr;
          assert Reaches(heap, root, visits[i]);
          assert visits[i] == Pointer(visits[i].p) && n == Pointer(n.p);
        }
      }
    }
    if forall n | Visitable(n) && Reaches(heap, root, n) :: n in visits {
      forall p, q | Reaches(heap, root, Pointer(p)) && Reaches(heap, root, Pointer(q)) && p.addr == q.addr
        ensures p == q
      {
        assert Pointer(p) in visits && Pointer(q) in visits;
        VisitedOnce(seen, visits, p, q);
      }
    }
  }

  /** Two pointers to one address at different types, say to a struct and to its first
      field: the walk that follows the one never visits the other. */
  lemma {:induction false} TwoTypesAtOneAddress(heap: Heap, p: Ptr, q: Ptr, seen: set<nat>, visits: seq<Value>)
    requires p.addr == q.addr && p != q && Walked(heap, Items([Pointer(p), Pointer(q)]), seen, visits)
    ensures !OneTypePerAddress(heap, Items([Pointer(p), Pointer(q)]))
    ensures !(Pointer(p) in visits && Pointer(q) in visits)
  {
    InsideBoth(heap, p, q);
    if Pointer(p) in visits && Pointer(q) in visits { VisitedOnce(seen, visits, p, q); }
  }

  lemma {:induction false} InsideBoth(heap: Heap, p: Ptr, q: Ptr)
    ensures var root := Items([Pointer(p), Pointer(q)]);
      Reaches(heap, root, Pointer(p)) && Reaches(heap, root, Pointer(q))
      && forall r :: Inside(root, Pointer(r)) ==> r == p || r == q
  {
    var root := Items([Pointer(p), Pointer(q)]);
    assert Pointer(p) in Children(root) && Pointer(q) in Children(root);
    assert Inside(Pointer(p), Pointer(p)) && Inside(Pointer(q), Pointer(q));
    assert ReachesIn(heap, root, Pointer(p), 0) && ReachesIn(heap, root, Pointer(q), 0);
    forall r | Inside(root, Pointer(r)) ensures r == p || r == q {
      var c :| c in Children(root) && Inside(c, Pointer(r));
      assert Children(Pointer(p)) == [] == Children(Pointer(q));
    }
  }

  lemma {:induction false} LeafIsClosed(n: int)
    ensures forall p :: !Inside(Leaf(n), Pointer(p))
  {
    assert Children(Leaf(n)) == [];
  }

  /** Such heaps exist. */
  lemma {:induction false} SharedAddress()
    ensures exists heap, root :: Closed(heap, root) && !OneTypePerAddress(heap, root)
  {
    var p, q := Ptr(1, 0), Ptr(1, 1);
    var heap, root := map[p := Leaf(7), q := Leaf(7)], Items([Pointer(p), Pointer(q)]);
    InsideBoth(heap, p, q);
    LeafIsClosed(7);
    assert Closed(heap, root);
  }
}
