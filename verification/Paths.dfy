/** File names, as path/filepath reads them. */
module Paths {

  /** filepath.Ext: from the last dot of the last path element, "" without one. */
  function Ext(name: string): string {
    if name == "" || name[|name| - 1] == '/' then ""
    else if name[|name| - 1] == '.' then "."
    else
      var e := Ext(name[..|name| - 1]);
      if e == "" then "" else e + [name[|name| - 1]]
  }

  /** What follows the last dot is the extension. */
  lemma {:induction false} ExtOf(stem: string, letters: string)
    requires '.' !in letters && '/' !in letters
    ensures Ext(stem + "." + letters) == "." + letters
  {
    var name := stem + "." + letters;
    if letters == "" {
      assert name[|name| - 1] == '.';
    } else {
      var n := |letters| - 1;
      assert name[..|name| - 1] == stem + "." + letters[..n];
      assert name[|name| - 1] == letters[n] && letters[n] in letters;
      ExtOf(stem, letters[..n]);
      assert letters == letters[..n] + [letters[n]];
    }
  }

  /** x is what name has from the last dot of its last element on. */
  ghost predicate EndsIn(name: string, x: string) {
    exists stem: string, letters: string ::
      name == stem + x && x == "." + letters && '.' !in letters && '/' !in letters
  }

  /** The last element has no dot: a slash comes after each. */
  ghost predicate Undotted(name: string) {
    forall k | 0 <= k < |name| && name[k] == '.' :: exists j :: k < j < |name| && name[j] == '/'
  }

  /** Exactly what the extension is, for all names. */
  lemma {:induction false} ExtExactly(name: string, x: string)
    ensures Ext(name) == x <==> (x == "" && Undotted(name)) || EndsIn(name, x)
  {
    ExtFinds(name);
    if EndsIn(name, x) { ExtIs(name, x); }
    if EndsIn(name, Ext(name)) { EndsInDot(name, Ext(name)); }
  }

  lemma {:induction false} ExtIs(name: string, x: string)
    requires EndsIn(name, x)
    ensures Ext(name) == x
  {
    var stem: string, letters: string :|
      name == stem + x && x == "." + letters && '.' !in letters && '/' !in letters;
    assert name == stem + "." + letters;
    ExtOf(stem, letters);
  }

  lemma {:induction false} EndsInDot(name: string, x: string)
    requires EndsIn(name, x)
    ensures !Undotted(name) && x != ""
  {
    var stem: string, letters: string :|
      name == stem + x && x == "." + letters && '.' !in letters && '/' !in letters;
    assert name[|stem|] == '.';
    assert forall j | |stem| < j < |name| :: name[j] == letters[j - |stem| - 1];
  }

  lemma {:induction false} ExtFinds(name: string)
    ensures if Ext(name) == "" then Undotted(name) else EndsIn(name, Ext(name))
  {
    if name == "" || name[|name| - 1] == '/' {
    } else if name[|name| - 1] == '.' {
      assert name == name[..|name| - 1] + "." && "." == "." + "";
    } else {
      var front, c := name[..|name| - 1], name[|name| - 1];
      ExtFinds(front);
      if Ext(front) == "" {
        forall k | 0 <= k < |name| && name[k] == '.' ensures exists j :: k < j < |name| && name[j] == '/' {
          assert front[k] == '.';
          var j :| k < j < |front| && front[j] == '/';
          assert name[j] == '/';
        }
      } else {
        ExtGrows(front, c, Ext(front));
        assert front + [c] == name;
      }
    }
  }

  lemma {:induction false} ExtGrows(front: string, c: char, x: string)
    requires EndsIn(front, x) && c != '.' && c != '/'
    ensures EndsIn(front + [c], x + [c])
  {
    var stem: string, letters: string :|
      front == stem + x && x == "." + letters && '.' !in letters && '/' !in letters;
    assert front + [c] == stem + (x + [c]) && x + [c] == "." + (letters + [c]);
  }
}
