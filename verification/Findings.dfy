/** pkg/finding/finding.go: findings and their six-key stable order. */
module Findings {
  import opened Order

  datatype Source = Source(file: string, line: int, group: string, rule: string, panel: string)

  datatype Context = Context(metric: string, labelName: string, value: string, expr: string)

  datatype Finding = Finding(code: string, severity: string, category: string, source: Source,
                             message: string, suggestions: seq<string>, context: Context)

  predicate FindingLess(a: Finding, b: Finding) {
    if a.source.file != b.source.file then Less(a.source.file, b.source.file)
    else if a.source.line != b.source.line then a.source.line < b.source.line
    else if a.source.group != b.source.group then Less(a.source.group, b.source.group)
    else if a.source.rule != b.source.rule then Less(a.source.rule, b.source.rule)
    else if a.code != b.code then Less(a.code, b.code)
    else Less(a.message, b.message)
  }

  function Keys(f: Finding): seq<SortKey> {
    [Text(f.source.file)] + ([Num(f.source.line)] + ([Text(f.source.group)] + ([Text(f.source.rule)] + LastKeys(f))))
  }

  function LastKeys(f: Finding): seq<SortKey> { [Text(f.code)] + ([Text(f.message)] + []) }

  /** The keys in which tied findings agree. */
  predicate SameKeys(a: Finding, b: Finding) {
    && a.source.file == b.source.file && a.source.line == b.source.line && a.source.group == b.source.group
    && a.source.rule == b.source.rule && a.code == b.code && a.message == b.message
  }

  lemma {:induction false} FindingLessByKeys(a: Finding, b: Finding)
    ensures FindingLess(a, b) <==> KeysLess(Keys(a), Keys(b))
  {
    var s, t := a.source, b.source;
    var a1, b1 := LastKeys(a), LastKeys(b);
    var a2, b2 := [Text(s.rule)] + a1, [Text(t.rule)] + b1;
    var a3, b3 := [Text(s.group)] + a2, [Text(t.group)] + b2;
    LastKeysLess(a, b);
    KeyTotal(Text(s.rule), Text(s.rule));
    KeyTotal(Text(s.group), Text(s.group));
    KeyTotal(Text(s.file), Text(s.file));
    KeysLessCons(Text(s.rule), Text(t.rule), a1, b1);
    KeysLessCons(Text(s.group), Text(t.group), a2, b2);
    KeysLessCons(Num(s.line), Num(t.line), a3, b3);
    KeysLessCons(Text(s.file), Text(t.file), [Num(s.line)] + a3, [Num(t.line)] + b3);
  }

  lemma {:induction false} LastKeysLess(a: Finding, b: Finding)
    ensures KeysLess(LastKeys(a), LastKeys(b)) <==>
        if a.code != b.code then Less(a.code, b.code) else Less(a.message, b.message)
  {
    KeyTotal(Text(a.code), Text(a.code));
    KeysLessCons(Text(a.message), Text(b.message), [], []);
    KeysLessCons(Text(a.code), Text(b.code), [Text(a.message)] + [], [Text(b.message)] + []);
  }

  lemma {:induction false} KeysAgree(a: Finding, b: Finding)
    ensures Keys(a) == Keys(b) <==> SameKeys(a, b)
  {
    var k, l := Keys(a), Keys(b);
    assert k == l ==> k[0] == l[0] && k[1] == l[1] && k[2] == l[2] && k[3] == l[3] && k[4] == l[4] && k[5] == l[5];
  }

  lemma {:induction false} FindingWeak()
    ensures StrictWeak(FindingLess)
    ensures forall a, b :: Tied(FindingLess, a, b) <==> SameKeys(a, b)
  {
    forall a, b ensures FindingLess(a, b) <==> KeysLess(Keys(a), Keys(b)) { FindingLessByKeys(a, b); }
    ByKeysWeak(FindingLess, Keys);
    forall a, b ensures Tied(FindingLess, a, b) <==> SameKeys(a, b) { KeysAgree(a, b); }
  }

  /** By file, then line, group, rule, code and message, the smaller first. */
  lemma {:induction false} FindingOrder(a: Finding, b: Finding)
    ensures var s, t := a.source, b.source;
      FindingLess(a, b) <==>
        Less(s.file, t.file) || (s.file == t.file &&
          (s.line < t.line || (s.line == t.line &&
            (Less(s.group, t.group) || (s.group == t.group &&
              (Less(s.rule, t.rule) || (s.rule == t.rule &&
                (Less(a.code, b.code) || (a.code == b.code && Less(a.message, b.message))))))))))
  {
    LessIrreflexive(a.source.file);
    LessIrreflexive(a.source.group);
    LessIrreflexive(a.source.rule);
    LessIrreflexive(a.code);
  }

  function SortedFindings(fs: seq<Finding>): seq<Finding> { StableSort(FindingLess, fs) }

  method Sort(findings: array<Finding>)
    modifies findings
    ensures findings[..] == SortedFindings(old(findings[..]))
  {
    FindingWeak();
    SliceStable(FindingLess, findings);
  }

  /** What every caller of Sort builds: the slice in its final order. */
  method SortSlice(fs: seq<Finding>) returns (out: seq<Finding>)
    ensures out == SortedFindings(fs)
  {
    var a := new Finding[|fs|](i requires 0 <= i < |fs| => fs[i]);
    assert a[..] == fs;
    Sort(a);
    out := a[..];
  }
}
