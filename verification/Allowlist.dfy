/** pkg/catalog/allowlist.go: loading suppression rules, and matching them. */
module Allowlist {

  datatype MetricRule = MetricRule(pattern: string)
  datatype LabelRule = LabelRule(metric: string, patterns: seq<string>)
  datatype ValueRule = ValueRule(metric: string, labelName: string, patterns: seq<string>)

  /** The decoded YAML document. */
  datatype Document = Document(metrics: seq<MetricRule>, labels: seq<LabelRule>, values: seq<ValueRule>)

  /** What is loaded; the order of patterns within a list does not matter to a query. */
  datatype Allowlist = Allowlist(metrics: seq<string>, labels: map<string, seq<string>>,
                                 labelValues: map<string, seq<string>>)

  predicate MatchPattern(pattern: string, s: string) {
    if pattern == "*" then true
    else if |pattern| > 0 && pattern[|pattern| - 1] == '*' then pattern[..|pattern| - 1] <= s
    else pattern == s
  }

  /** strings.Cut at the first slash. */
  function CutAt(s: string): (before: nat)
    ensures before <= |s| && (before < |s| ==> s[before] == '/') && forall k | 0 <= k < before :: s[k] != '/'
  {
    if s == "" || s[0] == '/' then 0 else 1 + CutAt(s[1..])
  }

  predicate MatchAny(patterns: seq<string>, s: string) {
    exists i | 0 <= i < |patterns| :: MatchPattern(patterns[i], s)
  }

  predicate AllowsMetric(a: Allowlist, name: string) { MatchAny(a.metrics, name) }

  predicate AllowsLabel(a: Allowlist, metric: string, labelName: string) {
    exists m | m in a.labels :: MatchPattern(m, metric) && MatchAny(a.labels[m], labelName)
  }

  predicate KeyMatches(key: string, metric: string, labelName: string) {
    var k := CutAt(key);
    k < |key| && MatchPattern(key[..k], metric) && MatchPattern(key[k + 1..], labelName)
  }

  predicate AllowsLabelValue(a: Allowlist, metric: string, labelName: string, value: string) {
    exists key | key in a.labelValues :: KeyMatches(key, metric, labelName) && MatchAny(a.labelValues[key], value)
  }

  // ---------- the queries, as loops ----------

  method AnyMatch(patterns: seq<string>, s: string) returns (b: bool)
    ensures b == MatchAny(patterns, s)
  {
    for i := 0 to |patterns|
      invariant forall k | 0 <= k < i :: !MatchPattern(patterns[k], s)
    {
      if MatchPattern(patterns[i], s) {
        return true;
      }
    }
    return false;
  }

  method QueryLabel(a: Allowlist, metric: string, labelName: string) returns (b: bool)
    ensures b == AllowsLabel(a, metric, labelName)
  {
    var rest := a.labels.Keys;
    while rest != {}
      invariant rest <= a.labels.Keys
      invariant forall m | m in a.labels.Keys - rest :: !(MatchPattern(m, metric) && MatchAny(a.labels[m], labelName))
      decreases rest
    {
      var m :| m in rest;
      rest := rest - {m};
      if !MatchPattern(m, metric) {
        continue;
      }
      var hit := AnyMatch(a.labels[m], labelName);
      if hit {
        return true;
      }
    }
    return false;
  }

  method QueryLabelValue(a: Allowlist, metric: string, labelName: string, value: string) returns (b: bool)
    ensures b == AllowsLabelValue(a, metric, labelName, value)
  {
    var rest := a.labelValues.Keys;
    while rest != {}
      invariant rest <= a.labelValues.Keys
      invariant forall key | key in a.labelValues.Keys - rest ::
        !(KeyMatches(key, metric, labelName) && MatchAny(a.labelValues[key], value))
      decreases rest
    {
      var key :| key in rest;
      rest := rest - {key};
      var k := CutAt(key);
      if k == |key| {
        continue;
      }
      if !MatchPattern(key[..k], metric) || !MatchPattern(key[k + 1..], labelName) {
        continue;
      }
      var hit := AnyMatch(a.labelValues[key], value);
      if hit {
        return true;
      }
    }
    return false;
  }

  // ---------- loading ----------

  function Appended(m: map<string, seq<string>>, key: string, patterns: seq<string>): map<string, seq<string>> {
    m[key := (if key in m then m[key] else []) + patterns]
  }

  predicate KeepsLabel(l: LabelRule) { l.metric != "" && |l.patterns| > 0 }
  predicate KeepsValue(v: ValueRule) { v.metric != "" && v.labelName != "" && |v.patterns| > 0 }

  function ValueKey(v: ValueRule): string { v.metric + "/" + v.labelName }

  /** pattern is listed under key. */
  ghost predicate Lists(m: map<string, seq<string>>, key: string, pattern: string) {
    key in m && pattern in m[key]
  }

  /** Every pattern is listed under the key of the rule it came from, and no other. */
  ghost predicate Loaded(doc: Document, a: Allowlist) {
    && (forall p :: p in a.metrics <==> exists i :: 0 <= i < |doc.metrics| && doc.metrics[i].pattern == p && p != "")
    && (forall key, p :: Lists(a.labels, key, p) <==>
         exists i :: 0 <= i < |doc.labels| && KeepsLabel(doc.labels[i]) && doc.labels[i].metric == key
             && p in doc.labels[i].patterns)
    && (forall key, p :: Lists(a.labelValues, key, p) <==>
         exists i :: 0 <= i < |doc.values| && KeepsValue(doc.values[i]) && ValueKey(doc.values[i]) == key
             && p in doc.values[i].patterns)
  }

  method Load(doc: Document) returns (a: Allowlist)
    ensures Loaded(doc, a)
  {
    var metrics: seq<string> := [];
    for i := 0 to |doc.metrics|
      invariant forall p :: p in metrics <==> exists j :: 0 <= j < i && doc.metrics[j].pattern == p && p != ""
    {
      if doc.metrics[i].pattern == "" {
        continue;
      }
      metrics := metrics + [doc.metrics[i].pattern];
    }
    var labels := LoadLabels(doc.labels);
    var values := LoadValues(doc.values);
    a := Allowlist(metrics, labels, values);
  }

  lemma {:induction false} AppendedLists(m: map<string, seq<string>>, key: string, patterns: seq<string>)
    ensures forall k, p :: Lists(Appended(m, key, patterns), k, p) <==> Lists(m, k, p) || (k == key && p in patterns)
  {
  }

  method LoadLabels(rules: seq<LabelRule>) returns (m: map<string, seq<string>>)
    ensures forall key, p :: Lists(m, key, p) <==>
      exists i :: 0 <= i < |rules| && KeepsLabel(rules[i]) && rules[i].metric == key && p in rules[i].patterns
  {
    m := map[];
    for i := 0 to |rules|
      invariant forall key, p :: Lists(m, key, p) <==>
        exists j :: 0 <= j < i && KeepsLabel(rules[j]) && rules[j].metric == key && p in rules[j].patterns
    {
      var l := rules[i];
      if l.metric == "" || |l.patterns| == 0 {
        continue;
      }
      AppendedLists(m, l.metric, l.patterns);
      m := Appended(m, l.metric, l.patterns);
    }
  }

  method LoadValues(rules: seq<ValueRule>) returns (m: map<string, seq<string>>)
    ensures forall key, p :: Lists(m, key, p) <==>
      exists i :: 0 <= i < |rules| && KeepsValue(rules[i]) && ValueKey(rules[i]) == key && p in rules[i].patterns
  {
    m := map[];
    for i := 0 to |rules|
      invariant forall key, p :: Lists(m, key, p) <==>
        exists j :: 0 <= j < i && KeepsValue(rules[j]) && ValueKey(rules[j]) == key && p in rules[j].patterns
    {
      var v := rules[i];
      if v.metric == "" || v.labelName == "" || |v.patterns| == 0 {
        continue;
      }
      AppendedLists(m, ValueKey(v), v.patterns);
      m := Appended(m, ValueKey(v), v.patterns);
    }
  }

  // ---------- what patterns and keys mean ----------

  /** A pattern that ends in a star accepts exactly what its stem begins; any other, itself. */
  ghost predicate Accepts(pattern: string, s: string) {
    (exists stem :: pattern == stem + "*" && stem <= s) || ((forall stem :: pattern != stem + "*") && s == pattern)
  }

  ghost predicate SomeAccepts(patterns: seq<string>, s: string) { exists p :: p in patterns && Accepts(p, s) }

  lemma {:induction false} PatternExactly(pattern: string, s: string)
    ensures MatchPattern(pattern, s) <==> Accepts(pattern, s)
  {
    var n := |pattern| - 1;
    if n >= 0 && pattern[n] == '*' {
      var stem := pattern[..n];
      assert pattern == stem + "*";
      forall other | pattern == other + "*" ensures other == stem { assert other == pattern[..n]; }
      if pattern == "*" { assert stem == "" <= s; }
    } else {
      forall stem ensures pattern != stem + "*" {
        assert (stem + "*")[|stem|] == '*';
      }
    }
  }

  lemma {:induction false} AnyExactly(patterns: seq<string>, s: string)
    ensures MatchAny(patterns, s) <==> SomeAccepts(patterns, s)
  {
    forall p ensures MatchPattern(p, s) <==> Accepts(p, s) { PatternExactly(p, s); }
    if p :| p in patterns && Accepts(p, s) {
      var i :| 0 <= i < |patterns| && patterns[i] == p;
      assert MatchPattern(patterns[i], s);
    }
  }

  lemma {:induction false} CutAtIs(s: string, k: nat)
    requires k < |s| && s[k] == '/' && forall i | 0 <= i < k :: s[i] != '/'
    ensures CutAt(s) == k
  {
  }

  lemma {:induction false} CutAtSlash(key: string, head: string, tail: string)
    requires key == head + "/" + tail && '/' !in head
    ensures CutAt(key) == |head| < |key| && key[..|head|] == head && key[|head| + 1..] == tail
  {
    assert forall i | 0 <= i < |head| :: key[i] == head[i] && head[i] in head;
    CutAtIs(key, |head|);
  }

  /** A key of two patterns, split at its first slash. */
  ghost predicate KeyAccepts(key: string, metric: string, labelName: string) {
    exists head, tail ::
      key == head + "/" + tail && '/' !in head && Accepts(head, metric) && Accepts(tail, labelName)
  }

  lemma {:induction false} CutKeyMatches(head: string, tail: string, metric: string, labelName: string)
    requires '/' !in head
    ensures KeyMatches(head + "/" + tail, metric, labelName) <==> Accepts(head, metric) && Accepts(tail, labelName)
  {
    CutAtSlash(head + "/" + tail, head, tail);
    PatternExactly(head, metric);
    PatternExactly(tail, labelName);
  }

  lemma {:induction false} KeyExactly(key: string, metric: string, labelName: string)
    ensures KeyMatches(key, metric, labelName) <==> KeyAccepts(key, metric, labelName)
  {
    var k := CutAt(key);
    if k < |key| {
      assert key == key[..k] + "/" + key[k + 1..];
      CutKeyMatches(key[..k], key[k + 1..], metric, labelName);
    }
    if KeyAccepts(key, metric, labelName) {
      var head, tail :|
        key == head + "/" + tail && '/' !in head && Accepts(head, metric) && Accepts(tail, labelName);
      CutKeyMatches(head, tail, metric, labelName);
    }
  }

  // ---------- what the loaded rules mean ----------

  /** A metric is allowed exactly if a pattern of the document accepts it. */
  lemma {:induction false} LoadedMetricsAllow(doc: Document, a: Allowlist, metric: string)
    requires Loaded(doc, a)
    ensures AllowsMetric(a, metric) <==>
            exists r :: r in doc.metrics && r.pattern != "" && Accepts(r.pattern, metric)
  {
    AnyExactly(a.metrics, metric);
    if p :| p in a.metrics && Accepts(p, metric) {
      var i :| 0 <= i < |doc.metrics| && doc.metrics[i].pattern == p && p != "";
      assert doc.metrics[i] in doc.metrics;
    }
    if r :| r in doc.metrics && r.pattern != "" && Accepts(r.pattern, metric) {
      assert r.pattern in a.metrics;
    }
  }

  ghost predicate LabelRuleAllows(l: LabelRule, metric: string, labelName: string) {
    l.metric != "" && Accepts(l.metric, metric) && SomeAccepts(l.patterns, labelName)
  }

  lemma {:induction false} LoadedLabelsAllow(doc: Document, a: Allowlist, metric: string, labelName: string)
    requires Loaded(doc, a)
    ensures AllowsLabel(a, metric, labelName) <==>
            exists l :: l in doc.labels && LabelRuleAllows(l, metric, labelName)
  {
    if AllowsLabel(a, metric, labelName) {
      var m :| m in a.labels && MatchPattern(m, metric) && MatchAny(a.labels[m], labelName);
      PatternExactly(m, metric);
      AnyExactly(a.labels[m], labelName);
      var p :| p in a.labels[m] && Accepts(p, labelName);
      assert Lists(a.labels, m, p);
      var i :| 0 <= i < |doc.labels| && KeepsLabel(doc.labels[i]) && doc.labels[i].metric == m
          && p in doc.labels[i].patterns;
      assert doc.labels[i] in doc.labels && LabelRuleAllows(doc.labels[i], metric, labelName);
    }
    if l :| l in doc.labels && LabelRuleAllows(l, metric, labelName) {
      var p :| p in l.patterns && Accepts(p, labelName);
      assert Lists(a.labels, l.metric, p);
      PatternExactly(l.metric, metric);
      AnyExactly(a.labels[l.metric], labelName);
    }
  }

  /** What a value rule allows once its patterns are joined, and the key cut again. */
  ghost predicate JoinedRuleAllows(v: ValueRule, metric: string, labelName: string, value: string) {
    && v.metric != "" && v.labelName != ""
    && KeyAccepts(v.metric + "/" + v.labelName, metric, labelName) && SomeAccepts(v.patterns, value)
  }

  lemma {:induction false} LoadedValuesAllow(doc: Document, a: Allowlist, metric: string, labelName: string,
      value: string)
    requires Loaded(doc, a)
    ensures AllowsLabelValue(a, metric, labelName, value) <==>
            exists v :: v in doc.values && JoinedRuleAllows(v, metric, labelName, value)
  {
    if AllowsLabelValue(a, metric, labelName, value) {
      var key :| key in a.labelValues && KeyMatches(key, metric, labelName) && MatchAny(a.labelValues[key], value);
      KeyExactly(key, metric, labelName);
      AnyExactly(a.labelValues[key], value);
      var p :| p in a.labelValues[key] && Accepts(p, value);
      assert Lists(a.labelValues, key, p);
      var i :| 0 <= i < |doc.values| && KeepsValue(doc.values[i]) && ValueKey(doc.values[i]) == key
          && p in doc.values[i].patterns;
      assert doc.values[i] in doc.values && JoinedRuleAllows(doc.values[i], metric, labelName, value);
    }
    if v :| v in doc.values && JoinedRuleAllows(v, metric, labelName, value) {
      var p :| p in v.patterns && Accepts(p, value);
      assert Lists(a.labelValues, ValueKey(v), p);
      KeyExactly(ValueKey(v), metric, labelName);
      AnyExactly(a.labelValues[ValueKey(v)], value);
    }
  }

  // ---------- which rules survive the joining ----------

  ghost predicate ValueRuleMatches(v: ValueRule, metric: string, labelName: string) {
    Accepts(v.metric, metric) && Accepts(v.labelName, labelName)
  }

  function StemOf(pattern: string): string {
    if |pattern| > 0 && pattern[|pattern| - 1] == '*' then pattern[..|pattern| - 1] else pattern
  }

  /** A value rule survives the joining of its metric and label patterns into one
      key exactly when its metric pattern has no slash: the key is cut at the first. */
  lemma {:induction false} ValueKeyFaithful(v: ValueRule)
    requires KeepsValue(v)
    ensures '/' !in v.metric <==>
            forall metric, labelName ::
              KeyAccepts(v.metric + "/" + v.labelName, metric, labelName) <==> ValueRuleMatches(v, metric, labelName)
  {
    if '/' !in v.metric {
      forall metric, labelName
        ensures KeyAccepts(v.metric + "/" + v.labelName, metric, labelName) <==> ValueRuleMatches(v, metric, labelName)
      {
        SlashFreeKey(v, metric, labelName);
      }
    } else {
      SlashedKeyMisses(v);
    }
  }

  lemma {:induction false} SlashFreeKey(v: ValueRule, metric: string, labelName: string)
    requires '/' !in v.metric
    ensures KeyAccepts(v.metric + "/" + v.labelName, metric, labelName) <==> ValueRuleMatches(v, metric, labelName)
  {
    var key := v.metric + "/" + v.labelName;
    CutAtSlash(key, v.metric, v.labelName);
    KeyExactly(key, metric, labelName);
    PatternExactly(v.metric, metric);
    PatternExactly(v.labelName, labelName);
  }

  lemma {:induction false} StemAccepted(pattern: string)
    ensures Accepts(pattern, StemOf(pattern))
  {
    PatternExactly(pattern, StemOf(pattern));
  }

  /** A pattern does not accept the stem of what it ends in. */
  lemma {:induction false} LongerMisses(pattern: string, end: string)
    requires end != "" && |pattern| > |end| && pattern[|pattern| - |end|..] == end
    ensures !Accepts(pattern, StemOf(end))
  {
    PatternExactly(pattern, StemOf(end));
    assert pattern[|pattern| - 1] == end[|end| - 1];
  }

  lemma {:induction false} SlashedKeyMisses(v: ValueRule)
    requires KeepsValue(v) && '/' in v.metric
    ensures var metric, labelName := StemOf(v.metric), StemOf(v.labelName);
      ValueRuleMatches(v, metric, labelName) && !KeyAccepts(v.metric + "/" + v.labelName, metric, labelName)
  {
    StemAccepted(v.metric);
    StemAccepted(v.labelName);
    forall head, tail | v.metric + "/" + v.labelName == head + "/" + tail && '/' !in head
      ensures !Accepts(tail, StemOf(v.labelName))
    {
      SlashedTail(v.metric, v.labelName, head, tail);
      LongerMisses(tail, v.labelName);
    }
  }

  lemma {:induction false} SlashedTail(a: string, b: string, head: string, tail: string)
    requires a + "/" + b == head + "/" + tail && '/' !in head && '/' in a
    ensures |tail| > |b| && tail[|tail| - |b|..] == b
  {
    var key := a + "/" + b;
    var k :| 0 <= k < |a| && a[k] == '/';
    assert key[k] == '/';
    assert forall i | 0 <= i < |head| :: key[i] == head[i] && head[i] in head;
    assert key[|key| - |b|..] == b && tail == key[|head| + 1..];
  }

  ghost predicate ValueRuleAllows(v: ValueRule, metric: string, labelName: string, value: string) {
    v.metric != "" && v.labelName != "" && ValueRuleMatches(v, metric, labelName) && SomeAccepts(v.patterns, value)
  }

  /** Where no metric pattern holds a slash, that is what the rules say. */
  lemma {:induction false} SlashFreeValuesAllow(doc: Document, a: Allowlist, metric: string, labelName: string,
      value: string)
    requires Loaded(doc, a) && forall v | v in doc.values :: '/' !in v.metric
    ensures AllowsLabelValue(a, metric, labelName, value) <==>
            exists v :: v in doc.values && ValueRuleAllows(v, metric, labelName, value)
  {
    LoadedValuesAllow(doc, a, metric, labelName, value);
    forall v | v in doc.values
      ensures JoinedRuleAllows(v, metric, labelName, value) <==> ValueRuleAllows(v, metric, labelName, value)
    {
      SlashFreeKey(v, metric, labelName);
    }
  }
}
