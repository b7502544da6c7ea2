/** pkg/report/text.go: the two message escapers and the tab-separated report. */
module Escape {

  /** strings.ReplaceAll for a one-byte pattern. */
  function ReplaceAll(s: string, c: char, r: string): string {
    if s == "" then "" else (if s[0] == c then r else [s[0]]) + ReplaceAll(s[1..], c, r)
  }

  function TsvEscape(s: string): string {
    var s := ReplaceAll(s, '\\', "\\\\");
    var s := ReplaceAll(s, '\t', "\\t");
    var s := ReplaceAll(s, '\n', "\\n");
    ReplaceAll(s, '\r', "\\r")
  }

  function GaEscape(s: string): string {
    var s := ReplaceAll(s, '%', "%25");
    var s := ReplaceAll(s, '\r', "%0D");
    ReplaceAll(s, '\n', "%0A")
  }

  /** All four replacements at once, one character at a time. */
  function TsvChar(c: char): string {
    match c
    case '\\' => "\\\\"
    case '\t' => "\\t"
    case '\n' => "\\n"
    case '\r' => "\\r"
    case _ => [c]
  }

  function GaChar(c: char): string {
    match c
    case '%' => "%25"
    case '\r' => "%0D"
    case '\n' => "%0A"
    case _ => [c]
  }

  function Substitute(s: string, f: char -> string): string {
    if s == "" then "" else f(s[0]) + Substitute(s[1..], f)
  }

  /** Reads the two-character escapes back; anything else stands for itself. */
  function TsvUnescape(s: string): string {
    if s == "" then ""
    else if s[0] == '\\' && |s| > 1 && s[1] in "\\tnr" then
      (match s[1] case '\\' => "\\" case 't' => "\t" case 'n' => "\n" case _ => "\r") + TsvUnescape(s[2..])
    else [s[0]] + TsvUnescape(s[1..])
  }

  function GaUnescape(s: string): string {
    if s == "" then ""
    else if s[0] == '%' && |s| > 2 && s[1..3] in {"25", "0D", "0A"} then
      (match s[2] case '5' => "%" case 'D' => "\r" case _ => "\n") + GaUnescape(s[3..])
    else [s[0]] + GaUnescape(s[1..])
  }

  // ---------- chained replacement is one simultaneous substitution ----------

  lemma {:induction false} ReplaceAllConcat(s: string, t: string, c: char, r: string)
    ensures ReplaceAll(s + t, c, r) == ReplaceAll(s, c, r) + ReplaceAll(t, c, r)
  {
    if s == "" {
      assert s + t == t;
    } else {
      assert (s + t)[1..] == s[1..] + t;
      ReplaceAllConcat(s[1..], t, c, r);
    }
  }

  lemma {:induction false} ReplaceOne(x: char, c: char, r: string)
    ensures ReplaceAll([x], c, r) == if x == c then r else [x]
  {
    assert [x][1..] == "";
  }

  /** A short string passes through a replacement of a character it lacks. */
  lemma {:induction false} ReplaceNone(s: string, c: char, r: string)
    requires c !in s
    ensures ReplaceAll(s, c, r) == s
  {
    if s != "" {
      ReplaceNone(s[1..], c, r);
      assert s == [s[0]] + s[1..];
    }
  }

  lemma {:induction false} ReplacePair(x: char, y: char, c: char, r: string)
    requires c != x && c != y
    ensures ReplaceAll([x, y], c, r) == [x, y]
  {
    ReplaceNone([x, y], c, r);
  }

  lemma {:induction false} TsvEscapeOne(x: char)
    ensures TsvEscape([x]) == TsvChar(x)
  {
    ReplaceOne(x, '\\', "\\\\");
    if x == '\\' {
      ReplacePair('\\', '\\', '\t', "\\t");
      ReplacePair('\\', '\\', '\n', "\\n");
      ReplacePair('\\', '\\', '\r', "\\r");
    } else {
      ReplaceOne(x, '\t', "\\t");
      if x == '\t' {
        ReplacePair('\\', 't', '\n', "\\n");
        ReplacePair('\\', 't', '\r', "\\r");
      } else {
        ReplaceOne(x, '\n', "\\n");
        if x == '\n' {
          ReplacePair('\\', 'n', '\r', "\\r");
        } else {
          ReplaceOne(x, '\r', "\\r");
        }
      }
    }
  }

  lemma {:induction false} TsvEscapeConcat(s: string, t: string)
    ensures TsvEscape(s + t) == TsvEscape(s) + TsvEscape(t)
  {
    ReplaceAllConcat(s, t, '\\', "\\\\");
    var s1, t1 := ReplaceAll(s, '\\', "\\\\"), ReplaceAll(t, '\\', "\\\\");
    ReplaceAllConcat(s1, t1, '\t', "\\t");
    var s2, t2 := ReplaceAll(s1, '\t', "\\t"), ReplaceAll(t1, '\t', "\\t");
    ReplaceAllConcat(s2, t2, '\n', "\\n");
    ReplaceAllConcat(ReplaceAll(s2, '\n', "\\n"), ReplaceAll(t2, '\n', "\\n"), '\r', "\\r");
  }

  lemma {:induction false} TsvEscapeIsSubstitution(s: string)
    ensures TsvEscape(s) == Substitute(s, TsvChar)
  {
    if s != "" {
      assert s == [s[0]] + s[1..];
      TsvEscapeConcat([s[0]], s[1..]);
      TsvEscapeOne(s[0]);
      TsvEscapeIsSubstitution(s[1..]);
    }
  }

  lemma {:induction false} GaEscapeIsSubstitution(s: string)
    ensures GaEscape(s) == Substitute(s, GaChar)
  {
    if s != "" {
      var x, t := s[0], s[1..];
      assert s == [x] + t;
      GaEscapeIsSubstitution(t);
      ReplaceAllConcat([x], t, '%', "%25");
      var x1, t1 := ReplaceAll([x], '%', "%25"), ReplaceAll(t, '%', "%25");
      ReplaceAllConcat(x1, t1, '\r', "%0D");
      var x2, t2 := ReplaceAll(x1, '\r', "%0D"), ReplaceAll(t1, '\r', "%0D");
      ReplaceAllConcat(x2, t2, '\n', "%0A");
      GaEscapeOne(x);
    }
  }

  lemma {:induction false} GaEscapeOne(x: char)
    ensures GaEscape([x]) == GaChar(x)
  {
    ReplaceOne(x, '%', "%25");
    if x == '%' {
      ReplaceNone("%25", '\r', "%0D");
      ReplaceNone("%25", '\n', "%0A");
    } else {
      ReplaceOne(x, '\r', "%0D");
      if x == '\r' {
        ReplaceNone("%0D", '\n', "%0A");
      } else {
        ReplaceOne(x, '\n', "%0A");
      }
    }
  }

  // ---------- escaping loses nothing, and leaves no separator behind ----------

  lemma {:induction false} TsvUnescapeOne(c: char, t: string)
    ensures TsvUnescape(TsvChar(c) + t) == [c] + TsvUnescape(t)
  {
    assert (TsvChar(c) + t)[|TsvChar(c)|..] == t;
  }

  lemma {:induction false} TsvRoundTrip(s: string)
    ensures TsvUnescape(TsvEscape(s)) == s
    ensures forall c | c in TsvEscape(s) :: c != '\t' && c != '\n' && c != '\r'
  {
    TsvEscapeIsSubstitution(s);
    if s != "" {
      TsvEscapeIsSubstitution(s[1..]);
      TsvRoundTrip(s[1..]);
      TsvUnescapeOne(s[0], Substitute(s[1..], TsvChar));
      assert s == [s[0]] + s[1..];
    }
  }

  lemma {:induction false} GaUnescapeOne(c: char, t: string)
    ensures GaUnescape(GaChar(c) + t) == [c] + GaUnescape(t)
  {
    var u := GaChar(c) + t;
    assert u[|GaChar(c)|..] == t;
    if |GaChar(c)| == 3 { assert u[1..3] == GaChar(c)[1..]; }
  }

  lemma {:induction false} GaRoundTrip(s: string)
    ensures GaUnescape(GaEscape(s)) == s
    ensures forall c | c in GaEscape(s) :: c != '\n' && c != '\r'
  {
    GaEscapeIsSubstitution(s);
    if s != "" {
      GaEscapeIsSubstitution(s[1..]);
      GaRoundTrip(s[1..]);
      GaUnescapeOne(s[0], Substitute(s[1..], GaChar));
      assert s == [s[0]] + s[1..];
    }
  }

  // ---------- the tab-separated report ----------

  function Join(parts: seq<string>, sep: char): string {
    if parts == [] then "" else if |parts| == 1 then parts[0]
    else parts[0] + [sep] + Join(parts[1..], sep)
  }

  function Split(s: string, sep: char): (r: seq<string>)
    ensures r != []
  {
    if s == "" then [""]
    else if s[0] == sep then [""] + Split(s[1..], sep)
    else var r := Split(s[1..], sep); [[s[0]] + r[0]] + r[1..]
  }

  function Count(s: string, c: char): nat {
    if s == "" then 0 else (if s[0] == c then 1 else 0) + Count(s[1..], c)
  }

  lemma {:induction false} SplitLength(s: string, sep: char)
    ensures |Split(s, sep)| == Count(s, sep) + 1
  {
    if s != "" { SplitLength(s[1..], sep); }
  }

  lemma {:induction false} CountConcat(s: string, t: string, c: char)
    ensures Count(s + t, c) == Count(s, c) + Count(t, c)
  {
    if s == "" {
      assert s + t == t;
    } else {
      assert (s + t)[1..] == s[1..] + t;
      CountConcat(s[1..], t, c);
    }
  }

  lemma {:induction false} CountZero(s: string, c: char)
    ensures Count(s, c) == 0 <==> c !in s
  {
    if s != "" { CountZero(s[1..], c); assert s == [s[0]] + s[1..]; }
  }

  lemma {:induction false} CountJoin(parts: seq<string>, sep: char)
    requires parts != []
    ensures Count(Join(parts, sep), sep) >= |parts| - 1
    ensures Count(Join(parts, sep), sep) == |parts| - 1 <==> forall p | p in parts :: sep !in p
  {
    CountZero(parts[0], sep);
    if |parts| == 1 {
      assert parts == [parts[0]];
    } else {
      var rest := Join(parts[1..], sep);
      CountJoin(parts[1..], sep);
      CountConcat(parts[0] + [sep], rest, sep);
      CountConcat(parts[0], [sep], sep);
      assert Count([sep], sep) == 1;
      assert parts == [parts[0]] + parts[1..];
    }
  }

  lemma {:induction false} SplitFirst(p: string, rest: string, sep: char)
    requires sep !in p
    ensures Split(p + [sep] + rest, sep) == [p] + Split(rest, sep)
    ensures Split(p, sep) == [p]
  {
    if p == "" {
      assert p + [sep] + rest == [sep] + rest;
    } else {
      SplitFirst(p[1..], rest, sep);
      assert (p + [sep] + rest)[1..] == p[1..] + [sep] + rest;
      assert p == [p[0]] + p[1..];
    }
  }

  /** Splitting undoes joining exactly when no part holds the separator. */
  lemma {:induction false} SplitJoin(parts: seq<string>, sep: char)
    requires parts != []
    ensures Split(Join(parts, sep), sep) == parts <==> forall p | p in parts :: sep !in p
  {
    if forall p | p in parts :: sep !in p {
      if |parts| == 1 {
        SplitFirst(parts[0], "", sep);
      } else {
        SplitFirst(parts[0], Join(parts[1..], sep), sep);
        SplitJoin(parts[1..], sep);
      }
    } else {
      CountJoin(parts, sep);
      SplitLength(Join(parts, sep), sep);
    }
  }

  function Digits(n: nat): string {
    (if n < 10 then "" else Digits(n / 10)) + ["0123456789"[n % 10]]
  }

  /** fmt's %d */
  function Decimal(n: int): string { if n < 0 then "-" + Digits(-n) else Digits(n) }

  lemma {:induction false} DigitsPlain(n: nat)
    ensures '\t' !in Digits(n) && '\n' !in Digits(n)
  {
    if n >= 10 { DigitsPlain(n / 10); }
  }

  /** What decimal digits say. */
  function ValueOf(s: string): int {
    if s == "" then 0 else ValueOf(s[..|s| - 1]) * 10 + (s[|s| - 1] as int - '0' as int)
  }

  /** The line number is written in digits that say it, without leading zeros. */
  lemma {:induction false} DecimalExactly(n: int)
    ensures n < 0 ==> Decimal(n) == "-" + Decimal(-n)
    ensures n >= 0 ==>
      var s := Decimal(n);
      s != "" && ValueOf(s) == n && (forall c | c in s :: '0' <= c <= '9') && (s[0] == '0' ==> s == "0")
  {
    if n >= 0 {
      var s := Digits(n);
      assert s[|s| - 1] as int - '0' as int == n % 10;
      if n >= 10 {
        DecimalExactly(n / 10);
        assert s[..|s| - 1] == Digits(n / 10);
      }
    }
  }

  datatype Row = Row(severity: string, code: string, category: string, file: string, line: int,
                     group: string, rule: string, message: string)

  function Columns(r: Row): seq<string> {
    [r.severity, r.code, r.category, r.file, Decimal(r.line), r.group, r.rule, r.message]
  }

  function Line(r: Row): string {
    Join(Columns(r)[..7] + [TsvEscape(r.message)], '\t')
  }

  /** Which column is which. */
  lemma {:induction false} LineIs(r: Row)
    ensures Line(r) == Join([r.severity, r.code, r.category, r.file, Decimal(r.line), r.group, r.rule,
                             TsvEscape(r.message)], '\t')
  {
    var cols := [r.severity, r.code, r.category, r.file, Decimal(r.line), r.group, r.rule, TsvEscape(r.message)];
    assert Columns(r)[..7] + [TsvEscape(r.message)] == cols;
  }

  function Lines(rows: seq<Row>): (ls: seq<string>)
    ensures |ls| == |rows| && forall i | 0 <= i < |rows| :: ls[i] == Line(rows[i])
  {
    if rows == [] then [] else [Line(rows[0])] + Lines(rows[1..])
  }

  method WriteRow(f: Row) returns (text: string)
    ensures text == Line(f)
  {
    var cols := [f.severity, f.code, f.category, f.file, Decimal(f.line), f.group, f.rule, TsvEscape(f.message)];
    assert cols == Columns(f)[..7] + [TsvEscape(f.message)];
    text := Join(cols, '\t');
  }

  /** The report: lines, each ended by a newline. */
  function Report(rows: seq<Row>): string { Join(Lines(rows) + [""], '\n') }

  lemma {:induction false} ReportNext(rows: seq<Row>, i: nat)
    requires i < |rows|
    ensures Report(rows[..i + 1]) == Report(rows[..i]) + (Line(rows[i]) + "\n")
  {
    LinesNext(rows, i);
    JoinSnoc(Lines(rows[..i]), Line(rows[i]));
  }

  lemma {:induction false} LinesNext(rows: seq<Row>, i: nat)
    requires i < |rows|
    ensures Lines(rows[..i + 1]) == Lines(rows[..i]) + [Line(rows[i])]
  {
    var ls, before := Lines(rows[..i + 1]), Lines(rows[..i]);
    forall k | 0 <= k <= i ensures ls[k] == (before + [Line(rows[i])])[k] {
      assert rows[..i + 1][k] == rows[k];
      if k < i { assert rows[..i][k] == rows[k]; }
    }
  }

  method Write(rows: seq<Row>) returns (out: string)
    ensures out == Join(Lines(rows) + [""], '\n')
  {
    out := "";
    for i := 0 to |rows|
      invariant out == Report(rows[..i])
    {
      var text := WriteRow(rows[i]);
      ReportNext(rows, i);
      out := out + (text + "\n");
    }
    assert rows[..|rows|] == rows;
  }

  lemma {:induction false} JoinSnoc(ls: seq<string>, l: string)
    ensures Join(ls + [l] + [""], '\n') == Join(ls + [""], '\n') + (l + "\n")
  {
    if ls == [] {
      assert ([l] + [""])[1..] == [""];
      assert ls + [l] + [""] == [l] + [""];
    } else {
      JoinSnoc(ls[1..], l);
      assert (ls + [l] + [""])[1..] == ls[1..] + [l] + [""];
      assert (ls + [""])[1..] == ls[1..] + [""];
    }
  }

  /** What a reader of the report recovers: lines, columns, unescaped message. */
  function ReadRow(line: string): seq<string> {
    var cols := Split(line, '\t');
    if |cols| == 8 then cols[..7] + [TsvUnescape(cols[7])] else cols
  }

  function ReadRows(lines: seq<string>): (r: seq<seq<string>>)
    ensures |r| == |lines| && forall i | 0 <= i < |lines| :: r[i] == ReadRow(lines[i])
  {
    if lines == [] then [] else [ReadRow(lines[0])] + ReadRows(lines[1..])
  }

  function Read(report: string): seq<seq<string>> {
    var lines := Split(report, '\n');
    ReadRows(lines[..|lines| - 1])
  }

  /** No text but the message holds c. */
  predicate Free(r: Row, c: char) {
    c !in r.severity && c !in r.code && c !in r.category && c !in r.file && c !in r.group && c !in r.rule
  }

  /** A row of eight columns, the last one escaped. */
  lemma {:induction false} ReadRowExactly(parts: seq<string>, message: string)
    requires |parts| == 8 && parts[7] == TsvEscape(message)
    ensures ReadRow(Join(parts, '\t')) == parts[..7] + [message] <==> forall p | p in parts :: '\t' !in p
  {
    TsvRoundTrip(message);
    SplitJoin(parts, '\t');
    CountJoin(parts, '\t');
    SplitLength(Join(parts, '\t'), '\t');
    if forall p | p in parts :: '\t' !in p {
      assert Split(Join(parts, '\t'), '\t') == parts;
    }
  }

  lemma {:induction false} InNone(parts: seq<string>, c: char)
    ensures (forall p | p in parts :: c !in p) <==> forall i | 0 <= i < |parts| :: c !in parts[i]
  {
  }

  lemma {:induction false} RowParts(r: Row, parts: seq<string>)
    requires parts == Columns(r)[..7] + [TsvEscape(r.message)]
    ensures |parts| == 8 && parts[0] == r.severity && parts[1] == r.code && parts[2] == r.category
    ensures parts[3] == r.file && parts[4] == Decimal(r.line) && parts[5] == r.group && parts[6] == r.rule
    ensures parts[7] == TsvEscape(r.message)
  {
  }

  lemma {:induction false} FreeParts(r: Row, parts: seq<string>, c: char)
    requires parts == Columns(r)[..7] + [TsvEscape(r.message)] && (c == '\t' || c == '\n')
    ensures Free(r, c) <==> forall p | p in parts :: c !in p
  {
    TsvRoundTrip(r.message);
    if r.line < 0 { DigitsPlain(-r.line); } else { DigitsPlain(r.line); }
    InNone(parts, c);
    RowParts(r, parts);
    assert c !in parts[7] && c !in parts[4];
  }

  lemma {:induction false} LineFree(r: Row)
    ensures '\n' in Line(r) <==> !Free(r, '\n')
    ensures ReadRow(Line(r)) == Columns(r) <==> Free(r, '\t')
  {
    var parts := Columns(r)[..7] + [TsvEscape(r.message)];
    FreeParts(r, parts, '\t');
    FreeParts(r, parts, '\n');
    ReadRowExactly(parts, r.message);
    InJoin(parts, '\t', '\n');
    assert parts[..7] + [r.message] == Columns(r);
  }

  lemma {:induction false} InJoin(parts: seq<string>, sep: char, c: char)
    requires c != sep
    ensures c in Join(parts, sep) <==> exists p :: p in parts && c in p
  {
    if |parts| == 1 {
      assert parts[0] in parts;
    } else if parts != [] {
      InJoin(parts[1..], sep, c);
      assert parts == [parts[0]] + parts[1..];
    }
  }

  function AllColumns(rows: seq<Row>): (r: seq<seq<string>>)
    ensures |r| == |rows| && forall i | 0 <= i < |rows| :: r[i] == Columns(rows[i])
  {
    if rows == [] then [] else [Columns(rows[0])] + AllColumns(rows[1..])
  }

  lemma {:induction false} ReadRowsExactly(rows: seq<Row>)
    ensures ReadRows(Lines(rows)) == AllColumns(rows) <==> forall i | 0 <= i < |rows| :: Free(rows[i], '\t')
  {
    var got, want := ReadRows(Lines(rows)), AllColumns(rows);
    forall i | 0 <= i < |rows| ensures got[i] == want[i] <==> Free(rows[i], '\t') {
      LineFree(rows[i]);
      assert got[i] == ReadRow(Line(rows[i]));
    }
    assert got == want <==> forall i | 0 <= i < |rows| :: got[i] == want[i];
  }

  lemma {:induction false} NoNewlines(rows: seq<Row>)
    ensures (forall p | p in Lines(rows) + [""] :: '\n' !in p) <==> forall i | 0 <= i < |rows| :: Free(rows[i], '\n')
  {
    var parts := Lines(rows) + [""];
    forall i | 0 <= i < |rows| ensures '\n' in parts[i] <==> !Free(rows[i], '\n') {
      LineFree(rows[i]);
      assert parts[i] == Line(rows[i]);
    }
    assert forall i | 0 <= i < |rows| :: parts[i] in parts;
  }

  /** read holds the eight columns of every row, raw message included. */
  ghost predicate Recovers(read: seq<seq<string>>, rows: seq<Row>) {
    |read| == |rows| && forall i | 0 <= i < |rows| ::
      var r := rows[i];
      read[i] == [r.severity, r.code, r.category, r.file, Decimal(r.line), r.group, r.rule, r.message]
  }

  /** Reading a report back gives the original eight columns of every finding,
      raw message included, exactly when no other column holds a tab or a newline. */
  lemma {:induction false} ReadWrite(rows: seq<Row>)
    ensures Recovers(Read(Join(Lines(rows) + [""], '\n')), rows)
            <==> forall i | 0 <= i < |rows| :: Free(rows[i], '\t') && Free(rows[i], '\n')
  {
    var parts := Lines(rows) + [""];
    var report := Join(parts, '\n');
    SplitJoin(parts, '\n');
    CountJoin(parts, '\n');
    SplitLength(report, '\n');
    NoNewlines(rows);
    ReadRowsExactly(rows);
    assert Recovers(Read(report), rows) <==> Read(report) == AllColumns(rows);
    if forall p | p in parts :: '\n' !in p {
      assert Split(report, '\n')[..|rows|] == Lines(rows);
    } else {
      assert |Read(report)| > |rows|;
    }
  }
}
