/** Nested documents: where something stands in one, and lists that hold what stands in
    a document once per place, in document order. */
module Places {
  import opened Common

  /** The index at each level, from the outside in. */
  type Place = seq<nat>

  ghost predicate Before(p: Place, q: Place) {
    exists k :: 0 <= k < |p| && k < |q| && p[..k] == q[..k] && p[k] < q[k]
  }

  datatype Mark<T> = Mark(place: Place, item: T)

  function Unmarked<T>(marks: seq<Mark<T>>): (items: seq<T>)
    ensures |items| == |marks| && forall i | 0 <= i < |marks| :: items[i] == marks[i].item
  {
    seq(|marks|, i requires 0 <= i < |marks| => marks[i].item)
  }

  ghost predicate Increasing<T>(marks: seq<Mark<T>>) {
    forall i, j | 0 <= i < j < |marks| :: Before(marks[i].place, marks[j].place)
  }

  /** list holds what stands in the document, each thing once for each place it stands at,
      and in the order of the places. */
  ghost predicate InDocumentOrder<T(!new)>(list: seq<T>, at: (Place, T) -> bool) {
    exists marks :: Unmarked(marks) == list && Enumerates(marks, at)
  }

  ghost predicate Enumerates<T(!new)>(marks: seq<Mark<T>>, at: (Place, T) -> bool) {
    Increasing(marks) && forall p, x :: Mark(p, x) in marks <==> at(p, x)
  }

  lemma {:induction false} SameDocument<T(!new)>(list: seq<T>, at: (Place, T) -> bool, at': (Place, T) -> bool)
    requires InDocumentOrder(list, at) && forall p, x :: at(p, x) == at'(p, x)
    ensures InDocumentOrder(list, at')
  {
    var marks :| Unmarked(marks) == list && Enumerates(marks, at);
    assert Enumerates(marks, at');
  }

  lemma {:induction false} IncreasingConcat<T>(a: seq<Mark<T>>, b: seq<Mark<T>>)
    requires Increasing(a) && Increasing(b) && forall m, n | m in a && n in b :: Before(m.place, n.place)
    ensures Increasing(a + b)
  {
    var c := a + b;
    forall i, j | 0 <= i < j < |c| ensures Before(c[i].place, c[j].place) {
      if i < |a| <= j { assert c[i] in a && c[j] in b; }
    }
  }

  // ---------- f of each element, one after the other ----------

  function Flat<A, B>(s: seq<A>, f: A -> seq<B>): seq<B> {
    if s == [] then [] else Flat(Front(s), f) + f(s[|s| - 1])
  }

  lemma {:induction false} FlatNext<A, B>(s: seq<A>, f: A -> seq<B>, i: nat)
    requires i < |s|
    ensures Flat(s[..i + 1], f) == Flat(s[..i], f) + f(s[i])
  {
    assert s[..i + 1][..i] == s[..i];
  }

  lemma {:induction false} FlatConcat<A, B>(s: seq<A>, t: seq<A>, f: A -> seq<B>)
    ensures Flat(s + t, f) == Flat(s, f) + Flat(t, f)
    decreases |t|
  {
    if t == [] {
      assert s + t == s;
    } else {
      FlatConcat(s, Front(t), f);
      assert Front(s + t) == s + Front(t);
      Regroup(Flat(s, f), Flat(Front(t), f), f(t[|t| - 1]));
    }
  }

  lemma {:induction false} InFlat<A, B>(s: seq<A>, f: A -> seq<B>, x: B)
    ensures x in Flat(s, f) <==> exists a :: a in s && x in f(a)
  {
    if s != [] {
      InFlat(Front(s), f, x);
      assert s == Front(s) + [s[|s| - 1]];
    }
  }

  // ---------- one level further out ----------

  /** What stands where in a sequence, given what stands where in its elements. */
  function Within<A, B>(s: seq<A>, at: (A, Place, B) -> bool): (Place, B) -> bool {
    (p: Place, x: B) => |p| > 0 && p[0] < |s| && at(s[p[0]], p[1..], x)
  }

  function AtOf<A, B>(a: A, at: (A, Place, B) -> bool): (Place, B) -> bool { (p: Place, x: B) => at(a, p, x) }

  function Under<T>(i: nat, marks: seq<Mark<T>>): (r: seq<Mark<T>>)
    ensures |r| == |marks| && forall k | 0 <= k < |r| :: r[k] == Mark([i] + marks[k].place, marks[k].item)
  {
    seq(|marks|, k requires 0 <= k < |marks| => Mark([i] + marks[k].place, marks[k].item))
  }

  lemma {:induction false} UnderIncreases<T>(i: nat, marks: seq<Mark<T>>)
    requires Increasing(marks)
    ensures Increasing(Under(i, marks))
  {
    forall a, b | 0 <= a < b < |marks| ensures Before([i] + marks[a].place, [i] + marks[b].place) {
      var p, q := marks[a].place, marks[b].place;
      var k :| 0 <= k < |p| && k < |q| && p[..k] == q[..k] && p[k] < q[k];
      assert ([i] + p)[..k + 1] == [i] + p[..k] && ([i] + q)[..k + 1] == [i] + q[..k];
    }
  }

  lemma {:induction false} InUnder<T>(i: nat, marks: seq<Mark<T>>, p: Place, x: T)
    ensures Mark(p, x) in Under(i, marks) <==> |p| > 0 && p[0] == i && Mark(p[1..], x) in marks
  {
    var r := Under(i, marks);
    if Mark(p, x) in r {
      var k :| 0 <= k < |r| && r[k] == Mark(p, x);
      assert p[1..] == marks[k].place && marks[k] == Mark(p[1..], x);
    }
    if |p| > 0 && p[0] == i && Mark(p[1..], x) in marks {
      var k :| 0 <= k < |marks| && marks[k] == Mark(p[1..], x);
      assert p == [i] + p[1..] && r[k] == Mark(p, x);
    }
  }

  lemma {:induction false} BeforeAtOnce(p: Place, q: Place)
    requires p != [] && q != [] && p[0] < q[0]
    ensures Before(p, q)
  {
    assert p[..0] == q[..0];
  }

  /** Marks whose first index is below n, and then marks under n. */
  lemma {:induction false} MarksBelow<T>(a: seq<Mark<T>>, n: nat, b: seq<Mark<T>>)
    requires Increasing(a) && Increasing(b) && forall m | m in a :: m.place != [] && m.place[0] < n
    ensures Increasing(a + Under(n, b))
    ensures Unmarked(a + Under(n, b)) == Unmarked(a) + Unmarked(b)
    ensures forall p, x :: Mark(p, x) in a + Under(n, b) <==>
      Mark(p, x) in a || (|p| > 0 && p[0] == n && Mark(p[1..], x) in b)
  {
    UnderIncreases(n, b);
    forall m, k | m in a && k in Under(n, b) ensures Before(m.place, k.place) { BeforeAtOnce(m.place, k.place); }
    IncreasingConcat(a, Under(n, b));
    forall p, x { InUnder(n, b, p, x); }
  }

  /** The documents of the elements of a sequence make the document of the sequence. */
  lemma {:induction false} FlatInOrder<A, B(!new)>(s: seq<A>, f: A -> seq<B>, at: (A, Place, B) -> bool)
    requires forall a | a in s :: InDocumentOrder(f(a), AtOf(a, at))
    ensures InDocumentOrder(Flat(s, f), Within(s, at))
  {
    if s == [] {
      assert Enumerates([], Within(s, at)) && Unmarked<B>([]) == [];
    } else {
      var front, a := Front(s), s[|s| - 1];
      assert s == front + [a];
      FlatInOrder(front, f, at);
      var ms :| Unmarked(ms) == Flat(front, f) && Enumerates(ms, Within(front, at));
      var ns :| Unmarked(ns) == f(a) && Enumerates(ns, AtOf(a, at));
      OneMoreElement(front, a, at, ms, ns);
    }
  }

  lemma {:induction false} OneMoreElement<A, B(!new)>(front: seq<A>, a: A, at: (A, Place, B) -> bool,
      ms: seq<Mark<B>>, ns: seq<Mark<B>>)
    requires Enumerates(ms, Within(front, at)) && Enumerates(ns, AtOf(a, at))
    ensures Enumerates(ms + Under(|front|, ns), Within(front + [a], at))
    ensures Unmarked(ms + Under(|front|, ns)) == Unmarked(ms) + Unmarked(ns)
  {
    var s, n, marks := front + [a], |front|, ms + Under(|front|, ns);
    forall m | m in ms ensures m.place != [] && m.place[0] < n { assert Within(front, at)(m.place, m.item); }
    MarksBelow(ms, n, ns);
    forall p, x ensures Mark(p, x) in marks <==> Within(s, at)(p, x) {
      assert Mark(p, x) in ms <==> Within(front, at)(p, x);
      if |p| > 0 && p[0] == n { assert Mark(p[1..], x) in ns <==> AtOf(a, at)(p[1..], x); }
    }
  }

  /** One thing and nothing around it. */
  lemma {:induction false} OneInOrder<T(!new)>(list: seq<T>, at: (Place, T) -> bool)
    requires |list| <= 1 && forall p, x :: at(p, x) <==> p == [] && x in list
    ensures InDocumentOrder(list, at)
  {
    var marks := if list == [] then [] else [Mark([], list[0])];
    assert Unmarked(marks) == list && Enumerates(marks, at);
  }

  // ---------- one part after another ----------

  /** What stands where in a document of two parts. */
  function InParts<B>(first: (Place, B) -> bool, second: (Place, B) -> bool): (Place, B) -> bool {
    (p: Place, x: B) => |p| > 0 && ((p[0] == 0 && first(p[1..], x)) || (p[0] == 1 && second(p[1..], x)))
  }

  lemma {:induction false} PartsInOrder<B(!new)>(a: seq<B>, b: seq<B>, first: (Place, B) -> bool,
      second: (Place, B) -> bool)
    requires InDocumentOrder(a, first) && InDocumentOrder(b, second)
    ensures InDocumentOrder(a + b, InParts(first, second))
  {
    var ms :| Unmarked(ms) == a && Enumerates(ms, first);
    var ns :| Unmarked(ns) == b && Enumerates(ns, second);
    UnderIncreases(0, ms);
    forall p, x { InUnder(0, ms, p, x); }
    MarksBelow(Under(0, ms), 1, ns);
    assert Unmarked(Under(0, ms)) == Unmarked(ms);
    assert Enumerates(Under(0, ms) + Under(1, ns), InParts(first, second));
  }

  // ---------- some of what there is ----------

  function Chosen<A, B>(marks: seq<Mark<A>>, pick: A -> Option<B>): seq<Mark<B>> {
    if marks == [] then []
    else
      var m := marks[|marks| - 1];
      Chosen(Front(marks), pick) + match pick(m.item) case Some(y) => [Mark(m.place, y)] case None => []
  }

  /** At most one of each element. */
  function OfEach<A, B>(pick: A -> Option<B>): A -> seq<B> {
    (a: A) => match pick(a) case Some(y) => [y] case None => []
  }

  /** m is what is picked of one of the marks. */
  ghost predicate PickedFrom<A, B>(marks: seq<Mark<A>>, pick: A -> Option<B>, m: Mark<B>) {
    exists k :: 0 <= k < |marks| && marks[k].place == m.place && pick(marks[k].item) == Some(m.item)
  }

  lemma {:induction false} InChosen<A, B>(marks: seq<Mark<A>>, pick: A -> Option<B>, m: Mark<B>)
    ensures m in Chosen(marks, pick) <==> PickedFrom(marks, pick, m)
  {
    if marks != [] {
      var front, n := Front(marks), |marks| - 1;
      InChosen(front, pick, m);
      if PickedFrom(front, pick, m) {
        var k :| 0 <= k < n && front[k].place == m.place && pick(front[k].item) == Some(m.item);
        assert marks[k] == front[k];
      }
      if PickedFrom(marks, pick, m) {
        var k :| 0 <= k < |marks| && marks[k].place == m.place && pick(marks[k].item) == Some(m.item);
        if k < n { assert front[k] == marks[k]; }
      }
    }
  }

  lemma {:induction false} ChosenBefore<A, B>(marks: seq<Mark<A>>, pick: A -> Option<B>, last: Place)
    requires forall m | m in marks :: Before(m.place, last)
    ensures forall m | m in Chosen(marks, pick) :: Before(m.place, last)
  {
    forall m | m in Chosen(marks, pick) ensures Before(m.place, last) {
      InChosen(marks, pick, m);
      var k :| 0 <= k < |marks| && marks[k].place == m.place && pick(marks[k].item) == Some(m.item);
      assert marks[k] in marks;
    }
  }

  lemma {:induction false} ChosenIncreases<A, B>(marks: seq<Mark<A>>, pick: A -> Option<B>)
    requires Increasing(marks)
    ensures Increasing(Chosen(marks, pick))
  {
    if marks != [] {
      var front, last := Front(marks), marks[|marks| - 1];
      ChosenIncreases(front, pick);
      if pick(last.item).Some? {
        ChosenBefore(front, pick, last.place);
        IncreasingConcat(Chosen(front, pick), [Mark(last.place, pick(last.item).value)]);
      }
    }
  }

  lemma {:induction false} ChosenItems<A, B>(marks: seq<Mark<A>>, pick: A -> Option<B>)
    ensures Unmarked(Chosen(marks, pick)) == Flat(Unmarked(marks), OfEach(pick))
  {
    if marks != [] {
      ChosenItems(Front(marks), pick);
      assert Front(Unmarked(marks)) == Unmarked(Front(marks));
    }
  }

  /** What is picked of what stands at a place. */
  ghost predicate PickedAt<A(!new), B>(at: (Place, A) -> bool, pick: A -> Option<B>, p: Place, y: B) {
    exists a :: at(p, a) && pick(a) == Some(y)
  }

  lemma {:induction false} PickInOrder<A(!new), B(!new)>(list: seq<A>, at: (Place, A) -> bool, pick: A -> Option<B>,
      at': (Place, B) -> bool)
    requires InDocumentOrder(list, at) && forall p, y :: at'(p, y) <==> PickedAt(at, pick, p, y)
    ensures InDocumentOrder(Flat(list, OfEach(pick)), at')
  {
    var marks :| Unmarked(marks) == list && Enumerates(marks, at);
    ChosenIncreases(marks, pick);
    ChosenItems(marks, pick);
    forall p, y ensures Mark(p, y) in Chosen(marks, pick) <==> at'(p, y) {
      InChosen(marks, pick, Mark(p, y));
      PickedIs(marks, at, pick, p, y);
    }
    assert Enumerates(Chosen(marks, pick), at');
  }

  lemma {:induction false} PickedIs<A(!new), B>(marks: seq<Mark<A>>, at: (Place, A) -> bool, pick: A -> Option<B>,
      p: Place, y: B)
    requires Enumerates(marks, at)
    ensures PickedFrom(marks, pick, Mark(p, y)) <==> PickedAt(at, pick, p, y)
  {
    if a :| at(p, a) && pick(a) == Some(y) {
      assert Mark(p, a) in marks;
      var k :| 0 <= k < |marks| && marks[k] == Mark(p, a);
    }
    if PickedFrom(marks, pick, Mark(p, y)) {
      var k :| 0 <= k < |marks| && marks[k].place == p && pick(marks[k].item) == Some(y);
      assert Mark(p, marks[k].item) in marks;
    }
  }
}
