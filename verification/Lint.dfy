/** pkg/lint/lint.go: duplicate alerts, collected through a map whose iteration
    order must not show in the output. */
module Lint {
  import opened Common
  import opened Order
  import opened Findings
  import opened Places

  /** A rule group with the alert names of its rules, "" for a recording rule. */
  datatype Group = Group(name: string, alerts: seq<string>)
  datatype RuleFile = RuleFile(path: string, groups: seq<Group>)

  function FormatSource(s: Source): string {
    if s.group != "" then s.file + ":" + s.group else s.file
  }

  /** The finding for one more definition, at l, of an alert first defined at first. */
  function Duplicate(first: Source, l: Source): Finding {
    Finding("E303_DUPLICATE_ALERT", "error", "lint", l,
            "alert name `" + l.rule + "` is also defined at " + FormatSource(first), [], Context("", "", "", ""))
  }

  // ---------- every alert, in document order ----------

  function AlertOf(path: string, group: string): string -> seq<Source> {
    (name: string) => if name != "" then [Source(path, 0, group, name, "")] else []
  }

  function AlertsOfGroup(path: string): Group -> seq<Source> { (g: Group) => Flat(g.alerts, AlertOf(path, g.name)) }

  function AlertsOfFile(): RuleFile -> seq<Source> { (f: RuleFile) => Flat(f.groups, AlertsOfGroup(f.path)) }

  function Alerts(files: seq<RuleFile>): seq<Source> { Flat(files, AlertsOfFile()) }

  // ---------- reference: duplicates in document order ----------

  /** The definitions of one alert. */
  function At(all: seq<Source>, name: string): seq<Source> {
    if all == [] then []
    else At(Front(all), name) + if all[|all| - 1].rule == name then [all[|all| - 1]] else []
  }

  /** One finding for every definition that is not the first of its name, in
      document order, each pointing at the first. */
  function Duplicates(all: seq<Source>): seq<Finding> {
    if all == [] then []
    else
      var l, before := all[|all| - 1], Front(all);
      Duplicates(before) + if At(before, l.rule) != [] then [Duplicate(At(before, l.rule)[0], l)] else []
  }

  // ---------- the code ----------

  /** The findings for one name, from its definitions. */
  function DuplicatesOf(locs: seq<Source>): seq<Finding> {
    if |locs| < 2 then [] else DuplicatesOf(Front(locs)) + [Duplicate(locs[0], locs[|locs| - 1])]
  }

  function InOrder(all: seq<Source>, names: seq<string>): seq<Finding> {
    if names == [] then [] else InOrder(all, Front(names)) + DuplicatesOf(At(all, names[|names| - 1]))
  }

  /** The map from alert name to its definitions. */
  ghost predicate Collected(all: seq<Source>, seen: map<string, seq<Source>>) {
    forall name :: if name in seen then seen[name] == At(all, name) && seen[name] != [] else At(all, name) == []
  }

  lemma {:induction false} AtSnoc(all: seq<Source>, l: Source, name: string)
    ensures At(all + [l], name) == At(all, name) + if l.rule == name then [l] else []
  {
    assert Front(all + [l]) == all;
  }

  method Add(seen: map<string, seq<Source>>, file: string, group: string, name: string, ghost all: seq<Source>)
      returns (seen': map<string, seq<Source>>)
    requires Collected(all, seen)
    ensures Collected(all + if name != "" then [Source(file, 0, group, name, "")] else [], seen')
  {
    if name == "" {
      assert all + [] == all;
      return seen;
    }
    var l := Source(file, 0, group, name, "");
    seen' := seen[name := (if name in seen then seen[name] else []) + [l]];
    forall n ensures if n in seen' then seen'[n] == At(all + [l], n) && seen'[n] != [] else At(all + [l], n) == [] {
      AtSnoc(all, l, n);
    }
  }

  method AddGroup(file: string, g: Group, seen: map<string, seq<Source>>, ghost all: seq<Source>)
      returns (seen': map<string, seq<Source>>)
    requires Collected(all, seen)
    ensures Collected(all + AlertsOfGroup(file)(g), seen')
  {
    seen' := seen;
    ghost var upTo, f := all, AlertOf(file, g.name);
    assert all + [] == all;
    for k := 0 to |g.alerts|
      invariant Collected(upTo, seen') && upTo == all + Flat(g.alerts[..k], f)
    {
      seen' := Add(seen', file, g.name, g.alerts[k], upTo);
      FlatNext(g.alerts, f, k);
      Regroup(all, Flat(g.alerts[..k], f), f(g.alerts[k]));
      upTo := upTo + f(g.alerts[k]);
    }
    assert g.alerts[..|g.alerts|] == g.alerts;
  }

  method AddFile(f: RuleFile, seen: map<string, seq<Source>>, ghost all: seq<Source>)
      returns (seen': map<string, seq<Source>>)
    requires Collected(all, seen)
    ensures Collected(all + AlertsOfFile()(f), seen')
  {
    seen' := seen;
    ghost var upTo, h := all, AlertsOfGroup(f.path);
    assert all + [] == all;
    for j := 0 to |f.groups|
      invariant Collected(upTo, seen') && upTo == all + Flat(f.groups[..j], h)
    {
      seen' := AddGroup(f.path, f.groups[j], seen', upTo);
      FlatNext(f.groups, h, j);
      Regroup(all, Flat(f.groups[..j], h), h(f.groups[j]));
      upTo := upTo + h(f.groups[j]);
    }
    assert f.groups[..|f.groups|] == f.groups;
  }

  method AddFiles(files: seq<RuleFile>, seen: map<string, seq<Source>>, ghost all: seq<Source>)
      returns (seen': map<string, seq<Source>>)
    requires Collected(all, seen)
    ensures Collected(all + Alerts(files), seen')
  {
    seen' := seen;
    ghost var upTo, h := all, AlertsOfFile();
    assert all + [] == all;
    for i := 0 to |files|
      invariant Collected(upTo, seen') && upTo == all + Flat(files[..i], h)
    {
      seen' := AddFile(files[i], seen', upTo);
      FlatNext(files, h, i);
      Regroup(all, Flat(files[..i], h), h(files[i]));
      upTo := upTo + h(files[i]);
    }
    assert files[..|files|] == files;
  }

  /** Each element of s once, and nothing else. */
  ghost predicate Listing(s: set<string>, names: seq<string>) {
    && (forall i, j | 0 <= i < j < |names| :: names[i] != names[j])
    && (forall name :: name in names <==> name in s)
  }

  lemma {:induction false} ListingSnoc(s: set<string>, names: seq<string>, name: string)
    requires Listing(s, names) && name !in s
    ensures Listing(s + {name}, names + [name])
  {
    forall n ensures n in names + [name] <==> n in s + {name} {}
  }

  ghost predicate Names(all: seq<Source>, names: seq<string>) {
    exists s :: Listing(s, names) && forall name :: name in s <==> At(all, name) != []
  }

  /** Reports the duplicates name by name, in the order the map iteration takes. */
  method DetectDuplicateAlerts(promFiles: seq<RuleFile>, lokiFiles: seq<RuleFile>)
      returns (out: seq<Finding>, ghost names: seq<string>)
    ensures var all := Alerts(promFiles) + Alerts(lokiFiles);
      Names(all, names) && out == InOrder(all, names)
  {
    var seen := AddFiles(promFiles, map[], []);
    assert [] + Alerts(promFiles) == Alerts(promFiles);
    ghost var all := Alerts(promFiles) + Alerts(lokiFiles);
    seen := AddFiles(lokiFiles, seen, Alerts(promFiles));
    out, names := Report(seen, all);
    assert forall name :: name in seen.Keys <==> At(all, name) != [];
  }

  /** All but the first definition of one name. */
  method ReportName(out: seq<Finding>, locs: seq<Source>) returns (out': seq<Finding>)
    ensures out' == out + DuplicatesOf(locs)
  {
    out' := out;
    if |locs| < 2 {
      return;
    }
    var first := locs[0];
    for k := 1 to |locs|
      invariant out' == out + DuplicatesOf(locs[..k])
    {
      assert Front(locs[..k + 1]) == locs[..k];
      out' := out' + [Duplicate(first, locs[k])];
    }
    assert locs[..|locs|] == locs;
  }

  method Report(seen: map<string, seq<Source>>, ghost all: seq<Source>)
      returns (out: seq<Finding>, ghost names: seq<string>)
    requires forall name | name in seen :: seen[name] == At(all, name)
    ensures Listing(seen.Keys, names) && out == InOrder(all, names)
  {
    out, names := [], [];
    var rest := seen.Keys;
    while rest != {}
      invariant rest <= seen.Keys && Listing(seen.Keys - rest, names) && out == InOrder(all, names)
      decreases rest
    {
      var name :| name in rest;
      var locs := seen[name];
      assert Front(names + [name]) == names;
      assert InOrder(all, names + [name]) == InOrder(all, names) + DuplicatesOf(locs);
      ListingSnoc(seen.Keys - rest, names, name);
      assert seen.Keys - (rest - {name}) == seen.Keys - rest + {name};
      rest := rest - {name};
      names := names + [name];
      out := ReportName(out, locs);
    }
    assert seen.Keys - {} == seen.Keys;
  }

  /** perFile stands for what the single-rule checks report, in file order. */
  method LintAll(detectDuplicates: bool, perFile: seq<Finding>, promFiles: seq<RuleFile>, lokiFiles: seq<RuleFile>)
      returns (out: seq<Finding>)
    ensures var all := Alerts(promFiles) + Alerts(lokiFiles);
      out == SortedFindings(perFile + if detectDuplicates then Duplicates(all) else [])
  {
    var fs := perFile;
    assert perFile + [] == perFile;
    if detectDuplicates {
      ghost var all := Alerts(promFiles) + Alerts(lokiFiles);
      var dups, names := DetectDuplicateAlerts(promFiles, lokiFiles);
      fs := fs + dups;
      MapOrderHidden(perFile, all, names);
    }
    out := SortSlice(fs);
  }

  // ---------- the stable sort hides the map order ----------

  function ByRule(name: string, fs: seq<Finding>): seq<Finding> {
    if fs == [] then [] else (if fs[0].source.rule == name then [fs[0]] else []) + ByRule(name, fs[1..])
  }

  lemma {:induction false} ByRuleConcat(name: string, s: seq<Finding>, t: seq<Finding>)
    ensures ByRule(name, s + t) == ByRule(name, s) + ByRule(name, t)
  {
    if s == [] {
      assert s + t == t;
    } else {
      assert (s + t)[1..] == s[1..] + t;
      ByRuleConcat(name, s[1..], t);
      Regroup(if s[0].source.rule == name then [s[0]] else [], ByRule(name, s[1..]), ByRule(name, t));
    }
  }

  lemma {:induction false} ByRuleAll(name: string, s: seq<Finding>)
    requires forall f | f in s :: f.source.rule == name
    ensures ByRule(name, s) == s
  {
    if s != [] {
      assert s[0] in s;
      ByRuleAll(name, s[1..]);
      assert s == [s[0]] + s[1..];
    }
  }

  lemma {:induction false} ByRuleNone(name: string, s: seq<Finding>)
    requires forall f | f in s :: f.source.rule != name
    ensures ByRule(name, s) == []
  {
    if s != [] {
      assert s[0] in s;
      ByRuleNone(name, s[1..]);
    }
  }

  lemma {:induction false} TiesByRule(x: Finding, s: seq<Finding>)
    ensures Ties(FindingLess, x, s) == Ties(FindingLess, x, ByRule(x.source.rule, s))
  {
    if s != [] {
      TiesByRule(x, s[1..]);
      var t := ByRule(x.source.rule, s[1..]);
      if s[0].source.rule == x.source.rule {
        TiesCons(FindingLess, x, s[0], t);
      } else {
        FindingWeak();
        assert !Tied(FindingLess, x, s[0]);
        assert [] + t == t;
      }
    }
  }

  lemma {:induction false} DuplicatesOfRule(locs: seq<Source>, name: string)
    requires forall l | l in locs :: l.rule == name
    ensures forall f | f in DuplicatesOf(locs) :: f.source.rule == name
  {
    if |locs| >= 2 {
      DuplicatesOfRule(Front(locs), name);
      assert locs[|locs| - 1] in locs;
    }
  }

  lemma {:induction false} AtRule(all: seq<Source>, name: string)
    ensures forall l | l in At(all, name) :: l.rule == name
  {
    if all != [] { AtRule(Front(all), name); }
  }

  lemma {:induction false} ByRuleDuplicates(all: seq<Source>, name: string)
    ensures ByRule(name, Duplicates(all)) == DuplicatesOf(At(all, name))
  {
    if all != [] {
      var l, before := all[|all| - 1], Front(all);
      ByRuleDuplicates(before, name);
      var locs := At(before, l.rule);
      var more := if locs != [] then [Duplicate(locs[0], l)] else [];
      ByRuleConcat(name, Duplicates(before), more);
      if l.rule == name {
        ByRuleAll(name, more);
        assert At(all, name) == locs + [l] && Front(locs + [l]) == locs;
      } else {
        ByRuleNone(name, more);
        assert At(all, name) == At(before, name);
      }
    }
  }

  lemma {:induction false} ByRuleOfName(all: seq<Source>, n: string, name: string)
    ensures ByRule(name, DuplicatesOf(At(all, n))) == if n == name then DuplicatesOf(At(all, n)) else []
  {
    var more := DuplicatesOf(At(all, n));
    AtRule(all, n);
    DuplicatesOfRule(At(all, n), n);
    if n == name { ByRuleAll(name, more); } else { ByRuleNone(name, more); }
  }

  /** The names with the last one taken off. */
  lemma {:induction false} InOrderLast(all: seq<Source>, names: seq<string>)
    requires names != [] && forall i, j | 0 <= i < j < |names| :: names[i] != names[j]
    ensures var n, before := names[|names| - 1], Front(names);
      InOrder(all, names) == InOrder(all, before) + DuplicatesOf(At(all, n)) && n !in before
      && forall name :: name in names <==> name in before || name == n
  {
    assert names == Front(names) + [names[|names| - 1]];
  }

  lemma {:induction false} ByRuleInOrder(all: seq<Source>, names: seq<string>, name: string)
    requires forall i, j | 0 <= i < j < |names| :: names[i] != names[j]
    ensures ByRule(name, InOrder(all, names)) == if name in names then DuplicatesOf(At(all, name)) else []
  {
    if names != [] {
      var n, before := names[|names| - 1], Front(names);
      ByRuleInOrder(all, before, name);
      InOrderLast(all, names);
      ByRuleConcat(name, InOrder(all, before), DuplicatesOf(At(all, n)));
      ByRuleOfName(all, n, name);
      EmptySides(ByRule(name, InOrder(all, before)));
      EmptySides(DuplicatesOf(At(all, n)));
    }
  }

  lemma {:induction false} EmptySides(fs: seq<Finding>)
    ensures [] + fs == fs && fs + [] == fs
  {
  }

  /** Whatever order the map iteration takes, the sorted output is that of the
      duplicates in document order. */
  lemma {:induction false} MapOrderHidden(perFile: seq<Finding>, all: seq<Source>, names: seq<string>)
    requires Names(all, names)
    ensures SortedFindings(perFile + InOrder(all, names)) == SortedFindings(perFile + Duplicates(all))
  {
    var s, t := perFile + InOrder(all, names), perFile + Duplicates(all);
    forall x ensures Ties(FindingLess, x, s) == Ties(FindingLess, x, t) {
      var name := x.source.rule;
      TiesByRule(x, s);
      TiesByRule(x, t);
      ByRuleConcat(name, perFile, InOrder(all, names));
      ByRuleConcat(name, perFile, Duplicates(all));
      ByRuleDuplicates(all, name);
      ByRuleInOrder(all, names, name);
    }
    FindingWeak();
    StableSortSorts(FindingLess, s);
    StableSortSorts(FindingLess, t);
    StableSortUnique(FindingLess, SortedFindings(s), SortedFindings(t));
  }

  /** The distinct names among the alerts. */
  function Distinct(all: seq<Source>): set<string> { set l | l in all :: l.rule }

  lemma {:induction false} DistinctSnoc(before: seq<Source>, l: Source)
    ensures Distinct(before + [l]) == Distinct(before) + {l.rule}
  {
    assert forall m :: m in before + [l] <==> m in before || m == l;
  }

  lemma {:induction false} AtEmpty(all: seq<Source>, name: string)
    ensures At(all, name) == [] <==> name !in Distinct(all)
  {
    if all != [] {
      AtEmpty(Front(all), name);
      DistinctSnoc(Front(all), all[|all| - 1]);
      assert all == Front(all) + [all[|all| - 1]];
    }
  }

  /** There are as many duplicate findings as alerts beyond the first of each name. */
  lemma {:induction false} DuplicatesCount(all: seq<Source>)
    ensures |Duplicates(all)| == |all| - |Distinct(all)|
  {
    if all != [] {
      var l, before := all[|all| - 1], Front(all);
      DuplicatesCount(before);
      AtEmpty(before, l.rule);
      DistinctSnoc(before, l);
      assert all == before + [l];
      CardinalityWith(Distinct(before), l.rule);
    }
  }

  lemma {:induction false} CardinalityWith(s: set<string>, x: string)
    ensures |s + {x}| == |s| + if x in s then 0 else 1
  {
    if x in s { assert s + {x} == s; }
  }

  /** all[i] is the first definition of name. */
  ghost predicate FirstAt(all: seq<Source>, i: int, name: string) {
    0 <= i < |all| && all[i].rule == name && forall k | 0 <= k < i :: all[k].rule != name
  }

  lemma {:induction false} FirstDefinition(all: seq<Source>, name: string) returns (i: nat)
    requires At(all, name) != []
    ensures FirstAt(all, i, name) && At(all, name)[0] == all[i]
  {
    var before := Front(all);
    if At(before, name) != [] {
      i := FirstDefinition(before, name);
    } else {
      i := |all| - 1;
      AtEmpty(before, name);
      assert forall k | 0 <= k < i :: all[k] == before[k] && before[k] in before;
    }
  }

  /** f is the finding for a definition j after the first, i, of its name: it is at j, and
      points at i. */
  ghost predicate Repeats(all: seq<Source>, i: int, j: int, f: Finding) {
    && 0 <= i < j < |all| && FirstAt(all, i, all[j].rule)
    && f.code == "E303_DUPLICATE_ALERT" && f.severity == "error" && f.category == "lint" && f.source == all[j]
    && f.message == "alert name `" + all[j].rule + "` is also defined at "
         + (if all[i].group == "" then all[i].file else all[i].file + ":" + all[i].group)
    && f.suggestions == [] && f.context == Context("", "", "", "")
  }

  lemma {:induction false} LastDuplicate(all: seq<Source>, f: Finding)
    requires all != [] && f in Duplicates(all) && f !in Duplicates(Front(all))
    ensures var l, before := all[|all| - 1], Front(all);
      At(before, l.rule) != [] && f == Duplicate(At(before, l.rule)[0], l)
  {
  }

  lemma {:induction false} DuplicatesRepeat(all: seq<Source>, f: Finding) returns (i: int, j: int)
    requires f in Duplicates(all)
    ensures Repeats(all, i, j, f)
  {
    if f in Duplicates(Front(all)) {
      i, j := DuplicatesRepeat(Front(all), f);
      RepeatsMore(all, i, j, f);
    } else {
      LastDuplicate(all, f);
      i := FirstDefinition(Front(all), all[|all| - 1].rule);
      j := |all| - 1;
      FirstMore(all, i, all[|all| - 1].rule);
    }
  }

  lemma {:induction false} FirstMore(all: seq<Source>, i: int, name: string)
    requires all != [] && FirstAt(Front(all), i, name)
    ensures FirstAt(all, i, name) && all[i] == Front(all)[i]
  {
    assert forall k | 0 <= k < |all| - 1 :: all[k] == Front(all)[k];
  }

  lemma {:induction false} RepeatsMore(all: seq<Source>, i: int, j: int, f: Finding)
    requires all != [] && Repeats(Front(all), i, j, f)
    ensures Repeats(all, i, j, f)
  {
    FirstMore(all, i, Front(all)[j].rule);
    assert all[j] == Front(all)[j];
  }

  lemma {:induction false} RepeatsReported(all: seq<Source>, i: int, j: int, f: Finding)
    requires Repeats(all, i, j, f)
    ensures f in Duplicates(all)
  {
    var l, before := all[|all| - 1], Front(all);
    if j < |all| - 1 {
      RepeatsReported(before, i, j, f);
    } else {
      AtEmpty(before, l.rule);
      assert before[i] in before;
      var k := FirstDefinition(before, l.rule);
      assert k == i;
      assert Duplicate(At(before, l.rule)[0], l) == f;
    }
  }

  /** A duplicate finding is reported for j exactly when some earlier alert has
      its name, and it names the first of those. */
  lemma {:induction false} DuplicatesExactly(all: seq<Source>, f: Finding)
    ensures f in Duplicates(all) <==> exists i, j :: Repeats(all, i, j, f)
  {
    if f in Duplicates(all) {
      var i, j := DuplicatesRepeat(all, f);
    }
    if exists i, j :: Repeats(all, i, j, f) {
      var i, j :| Repeats(all, i, j, f);
      RepeatsReported(all, i, j, f);
    }
  }

  // ---------- which alerts there are ----------

  /** The rule at p = [file, group, rule] is an alert, of that source. */
  ghost predicate AlertAt(files: seq<RuleFile>, p: Place, l: Source) {
    && |p| == 3 && p[0] < |files| && p[1] < |files[p[0]].groups| && p[2] < |files[p[0]].groups[p[1]].alerts|
    && var f, g := files[p[0]], files[p[0]].groups[p[1]];
      g.alerts[p[2]] != "" && l == Source(f.path, 0, g.name, g.alerts[p[2]], "")
  }

  /** PromQL files before LogQL files. */
  ghost predicate DefinedAt(promFiles: seq<RuleFile>, lokiFiles: seq<RuleFile>, p: Place, l: Source) {
    || (p != [] && p[0] == 0 && AlertAt(promFiles, p[1..], l))
    || (p != [] && p[0] == 1 && AlertAt(lokiFiles, p[1..], l))
  }

  function AlertHere(path: string, group: string): (string, Place, Source) -> bool {
    (name: string, p: Place, l: Source) => p == [] && name != "" && l == Source(path, 0, group, name, "")
  }

  function AlertInGroup(path: string): (Group, Place, Source) -> bool {
    (g: Group, p: Place, l: Source) => Within(g.alerts, AlertHere(path, g.name))(p, l)
  }

  function AlertInFile(): (RuleFile, Place, Source) -> bool {
    (f: RuleFile, p: Place, l: Source) => Within(f.groups, AlertInGroup(f.path))(p, l)
  }

  lemma {:induction false} GroupInOrder(path: string, g: Group)
    ensures InDocumentOrder(AlertsOfGroup(path)(g), AtOf(g, AlertInGroup(path)))
  {
    forall name ensures InDocumentOrder(AlertOf(path, g.name)(name), AtOf(name, AlertHere(path, g.name))) {
      OneInOrder(AlertOf(path, g.name)(name), AtOf(name, AlertHere(path, g.name)));
    }
    FlatInOrder(g.alerts, AlertOf(path, g.name), AlertHere(path, g.name));
    SameDocument(AlertsOfGroup(path)(g), Within(g.alerts, AlertHere(path, g.name)), AtOf(g, AlertInGroup(path)));
  }

  lemma {:induction false} FilesInOrder(files: seq<RuleFile>)
    ensures InDocumentOrder(Alerts(files), (p, l) => AlertAt(files, p, l))
  {
    forall f ensures InDocumentOrder(AlertsOfFile()(f), AtOf(f, AlertInFile())) {
      forall g ensures InDocumentOrder(AlertsOfGroup(f.path)(g), AtOf(g, AlertInGroup(f.path))) {
        GroupInOrder(f.path, g);
      }
      FlatInOrder(f.groups, AlertsOfGroup(f.path), AlertInGroup(f.path));
      SameDocument(AlertsOfFile()(f), Within(f.groups, AlertInGroup(f.path)), AtOf(f, AlertInFile()));
    }
    FlatInOrder(files, AlertsOfFile(), AlertInFile());
    forall p, l ensures Within(files, AlertInFile())(p, l) <==> AlertAt(files, p, l) { AlertPlace(files, p, l); }
    SameDocument(Alerts(files), Within(files, AlertInFile()), (p, l) => AlertAt(files, p, l));
  }

  lemma {:induction false} AlertPlace(files: seq<RuleFile>, p: Place, l: Source)
    ensures Within(files, AlertInFile())(p, l) <==> AlertAt(files, p, l)
  {
    if p != [] && p[0] < |files| {
      var f, q := files[p[0]], p[1..];
      assert Within(files, AlertInFile())(p, l) == Within(f.groups, AlertInGroup(f.path))(q, l);
      if q != [] && q[0] < |f.groups| {
        var g, r := f.groups[q[0]], q[1..];
        assert Within(f.groups, AlertInGroup(f.path))(q, l) == Within(g.alerts, AlertHere(f.path, g.name))(r, l);
        assert q[0] == p[1] && r == p[2..];
        if |r| == 1 { assert r[1..] == [] && r[0] == p[2]; }
      }
    }
  }

  /** The alerts are those of the files, as often as they are defined and in document order. */
  lemma {:induction false} AlertsExactly(promFiles: seq<RuleFile>, lokiFiles: seq<RuleFile>)
    ensures InDocumentOrder(Alerts(promFiles) + Alerts(lokiFiles), (p, l) => DefinedAt(promFiles, lokiFiles, p, l))
  {
    var prom, loki := (p, l) => AlertAt(promFiles, p, l), (p, l) => AlertAt(lokiFiles, p, l);
    FilesInOrder(promFiles);
    FilesInOrder(lokiFiles);
    PartsInOrder(Alerts(promFiles), Alerts(lokiFiles), prom, loki);
    SameDocument(Alerts(promFiles) + Alerts(lokiFiles), InParts(prom, loki),
                 (p, l) => DefinedAt(promFiles, lokiFiles, p, l));
  }
}
