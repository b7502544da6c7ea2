/** dashboard.go: what the byte scanner of a Grafana call makes of an argument, and what that
    means in terms of quoted strings, groups and commas. A char stands for a byte. */
module GrafanaScan {
  import opened Common

  /** Depth counters, the open quote ('\0' when there is none), and whether the
      next byte is escaped. */
  datatype Scan = Scan(paren: int, brace: int, bracket: int, quote: char, escaped: bool)

  const NO_QUOTE := '\0'
  const TOP := Scan(1, 0, 0, NO_QUOTE, false)

  predicate Closes(st: Scan, c: char) { st.quote == NO_QUOTE && c == ')' && st.paren == 1 }

  predicate Splits(st: Scan, c: char) { st == TOP && c == ',' }

  function Next(st: Scan, c: char): Scan {
    if st.quote != NO_QUOTE then
      if st.escaped then st.(escaped := false)
      else if c == '\\' && st.quote != '`' then st.(escaped := true)
      else if c == st.quote then st.(quote := NO_QUOTE)
      else st
    else
      match c
      case '"' => st.(quote := '"')
      case '\'' => st.(quote := '\'')
      case '`' => st.(quote := '`')
      case '(' => st.(paren := st.paren + 1)
      case ')' => st.(paren := st.paren - 1)
      case '{' => st.(brace := st.brace + 1)
      case '}' => if st.brace > 0 then st.(brace := st.brace - 1) else st
      case '[' => st.(bracket := st.bracket + 1)
      case ']' => if st.bracket > 0 then st.(bracket := st.bracket - 1) else st
      case _ => st
  }

  /** The state after scanning text as part of one argument; None when the
      argument would end before text does. */
  function ScanText(st: Scan, text: string): Option<Scan>
    decreases |text|
  {
    if text == "" then Some(st)
    else if Closes(st, text[0]) || Splits(st, text[0]) then None
    else ScanText(Next(st, text[0]), text[1..])
  }

  /** An argument a comma can follow: every quote, paren, brace and bracket closed. */
  predicate ScansWhole(arg: string) { ScanText(TOP, arg) == Some(TOP) }

  /** An argument the call's closing paren can follow: braces and brackets may stay open. */
  predicate ScansLast(arg: string) {
    var end := ScanText(TOP, arg);
    end.Some? && Closes(end.value, ')')
  }

  lemma {:induction false} ScanSnoc(st: Scan, text: string, c: char)
    requires ScanText(st, text).Some?
    requires !Closes(ScanText(st, text).value, c) && !Splits(ScanText(st, text).value, c)
    ensures ScanText(st, text + [c]) == Some(Next(ScanText(st, text).value, c))
    decreases |text|
  {
    if text == "" {
      assert (text + [c])[1..] == "";
    } else {
      assert (text + [c])[1..] == text[1..] + [c];
      ScanSnoc(Next(st, text[0]), text[1..], c);
    }
  }

  // ---------- text as it reads ----------

  /** A byte outside all quotes, or a whole quoted string. */
  datatype Token = Byte(c: char) | Quoted(q: char, body: string)

  function TextOf(t: Token): string { match t case Byte(c) => [c] case Quoted(q, body) => [q] + body + [q] }

  predicate IsQuote(c: char) { c == '"' || c == '\'' || c == '`' }

  /** What may stand between quotes q: any bytes but q, of which a backslash takes the next
      byte along, q or not, unless the quotes are backquotes. */
  predicate Body(q: char, s: string) {
    if s == "" then true
    else if s[0] == '\\' && q != '`' then |s| >= 2 && Body(q, s[2..])
    else s[0] != q && Body(q, s[1..])
  }

  predicate Proper(t: Token) {
    match t
    case Byte(c) => !IsQuote(c)
    case Quoted(q, body) => IsQuote(q) && Body(q, body)
  }

  function Concat(ts: seq<Token>): string {
    if ts == [] then "" else Concat(Front(ts)) + TextOf(ts[|ts| - 1])
  }

  /** text reads as these bytes and strings. */
  ghost predicate Reads(ts: seq<Token>, text: string) {
    (forall i | 0 <= i < |ts| :: Proper(ts[i])) && Concat(ts) == text
  }

  /** How many more of the tokens open than close. */
  function Balance(ts: seq<Token>, open: char, close: char): int {
    if ts == [] then 0
    else Balance(Front(ts), open, close)
         + if ts[|ts| - 1] == Byte(open) then 1 else if ts[|ts| - 1] == Byte(close) then -1 else 0
  }

  /** Something is open at the end: some stretch up to there opens more than it closes. */
  ghost predicate Unclosed(ts: seq<Token>, open: char, close: char) {
    exists k :: 0 <= k <= |ts| && Balance(ts[k..], open, close) > 0
  }

  /** The end of the tokens is outside all parens, braces and brackets. */
  ghost predicate Outside(ts: seq<Token>) {
    Balance(ts, '(', ')') == 0 && !Unclosed(ts, '{', '}') && !Unclosed(ts, '[', ']')
  }

  /** No comma stands outside everything, and no paren closes what the tokens did not open. */
  ghost predicate OneArgument(ts: seq<Token>) {
    forall i | 0 <= i < |ts| ::
      && (ts[i] == Byte(',') ==> !Outside(ts[..i]))
      && (ts[i] == Byte(')') ==> Balance(ts[..i], '(', ')') > 0)
  }

  /** An argument that a comma can follow. */
  ghost predicate WholeArg(arg: string) { exists ts :: Reads(ts, arg) && OneArgument(ts) && Outside(ts) }

  /** An argument that the closing paren of the call can follow: braces and brackets may stay open. */
  ghost predicate LastArg(arg: string) {
    exists ts :: Reads(ts, arg) && OneArgument(ts) && Balance(ts, '(', ')') == 0
  }

  // ---------- depth counters ----------

  /** A depth that a stray closer leaves at 0. */
  function Depth(ts: seq<Token>, open: char, close: char): nat {
    if ts == [] then 0
    else
      var d := Depth(Front(ts), open, close);
      if ts[|ts| - 1] == Byte(open) then d + 1
      else if ts[|ts| - 1] == Byte(close) && d > 0 then d - 1
      else d
  }

  /** It is the most by which a stretch up to the end opens more than it closes. */
  lemma {:induction false} DepthIs(ts: seq<Token>, open: char, close: char) returns (k: nat)
    requires open != close
    ensures k <= |ts| && Balance(ts[k..], open, close) == Depth(ts, open, close)
    ensures forall j | 0 <= j <= |ts| :: Balance(ts[j..], open, close) <= Depth(ts, open, close)
  {
    if ts == [] {
      k := 0;
    } else {
      var front, n := Front(ts), |ts|;
      k := DepthIs(front, open, close);
      forall j | 0 <= j < n
        ensures Balance(ts[j..], open, close) == Balance(front[j..], open, close)
          + if ts[n - 1] == Byte(open) then 1 else if ts[n - 1] == Byte(close) then -1 else 0
      {
        assert Front(ts[j..]) == front[j..];
      }
      assert ts[n..] == [];
      if Depth(front, open, close) == 0 && ts[n - 1] == Byte(close) { k := n; }
    }
  }

  lemma {:induction false} DepthPositive(ts: seq<Token>, open: char, close: char)
    requires open != close
    ensures Depth(ts, open, close) > 0 <==> Unclosed(ts, open, close)
  {
    var k := DepthIs(ts, open, close);
  }

  // ---------- scanning tokens ----------

  /** Where the scanner stands after an argument's tokens. */
  function StateAfter(ts: seq<Token>): Scan {
    Scan(1 + Balance(ts, '(', ')'), Depth(ts, '{', '}'), Depth(ts, '[', ']'), NO_QUOTE, false)
  }

  lemma {:induction false} StateOutside(ts: seq<Token>)
    ensures StateAfter(ts) == TOP <==> Outside(ts)
  {
    DepthPositive(ts, '{', '}');
    DepthPositive(ts, '[', ']');
  }

  lemma {:induction false} ScanConcat(st: Scan, a: string, b: string)
    ensures ScanText(st, a + b) ==
      if ScanText(st, a).None? then None else ScanText(ScanText(st, a).value, b)
    decreases |a|
  {
    if a == "" {
      assert a + b == b;
    } else {
      assert (a + b)[1..] == a[1..] + b;
      ScanConcat(Next(st, a[0]), a[1..], b);
    }
  }

  lemma {:induction false} ScanOne(st: Scan, c: char)
    ensures ScanText(st, [c]) == if Closes(st, c) || Splits(st, c) then None else Some(Next(st, c))
  {
    assert [c][1..] == "";
  }

  /** A quoted string leaves the scanner where it was. */
  lemma {:induction false} ScanBody(st: Scan, q: char, body: string)
    requires IsQuote(q) && st.quote == q && !st.escaped && Body(q, body)
    ensures ScanText(st, body + [q]) == Some(st.(quote := NO_QUOTE))
    decreases |body|
  {
    var text := body + [q];
    if body == "" {
      ScanOne(st, q);
    } else if body[0] == '\\' && q != '`' {
      assert text[1..][1..] == body[2..] + [q];
      ScanBody(st, q, body[2..]);
    } else {
      assert text[1..] == body[1..] + [q];
      ScanBody(st, q, body[1..]);
    }
  }

  lemma {:induction false} ScanToken(st: Scan, t: Token)
    requires Proper(t) && st.quote == NO_QUOTE && !st.escaped
    ensures ScanText(st, TextOf(t)) ==
      match t
      case Byte(c) => if Closes(st, c) || Splits(st, c) then None else Some(Next(st, c))
      case Quoted(_, _) => Some(st)
  {
    match t
    case Byte(c) => ScanOne(st, c);
    case Quoted(q, body) =>
      assert TextOf(t) == [q] + (body + [q]);
      ScanConcat(st, [q], body + [q]);
      ScanOne(st, q);
      ScanBody(st.(quote := q), q, body);
  }

  lemma {:induction false} StateNext(ts: seq<Token>, t: Token)
    requires Proper(t) && (t.Byte? ==> !Closes(StateAfter(ts), t.c))
    ensures StateAfter(ts + [t]) == match t case Byte(c) => Next(StateAfter(ts), c) case Quoted(_, _) => StateAfter(ts)
  {
    assert Front(ts + [t]) == ts;
  }

  lemma {:induction false} OneArgumentNext(ts: seq<Token>, t: Token)
    ensures OneArgument(ts + [t]) <==>
      && OneArgument(ts)
      && (t == Byte(',') ==> !Outside(ts)) && (t == Byte(')') ==> Balance(ts, '(', ')') > 0)
  {
    var all := ts + [t];
    assert all[..|ts|] == ts && all[|ts|] == t;
    assert forall i | 0 <= i < |ts| :: all[..i] == ts[..i] && all[i] == ts[i];
  }

  /** Parens never close more than was opened. */
  lemma {:induction false} NeverBelow(ts: seq<Token>)
    requires OneArgument(ts)
    ensures Balance(ts, '(', ')') >= 0
  {
    if ts != [] {
      assert ts == Front(ts) + [ts[|ts| - 1]];
      OneArgumentNext(Front(ts), ts[|ts| - 1]);
      NeverBelow(Front(ts));
    }
  }

  /** The scanner goes through tokens exactly if they are one argument, and then stands
      where the balance of the tokens says. */
  lemma {:induction false} ScanTokens(ts: seq<Token>)
    requires forall i | 0 <= i < |ts| :: Proper(ts[i])
    ensures ScanText(TOP, Concat(ts)) == if OneArgument(ts) then Some(StateAfter(ts)) else None
  {
    if ts != [] {
      var front, t := Front(ts), ts[|ts| - 1];
      assert ts == front + [t];
      ScanTokens(front);
      OneArgumentNext(front, t);
      ScanConcat(TOP, Concat(front), TextOf(t));
      if OneArgument(front) {
        NeverBelow(front);
        StateOutside(front);
        ScanToken(StateAfter(front), t);
        if OneArgument(ts) { StateNext(front, t); }
      }
    }
  }

  // ---------- every argument reads as tokens ----------

  /** The scanner comes out of its quotes: that is where the string ends. */
  lemma {:induction false} FindClose(st: Scan, text: string) returns (body: string, tail: string)
    requires IsQuote(st.quote) && !st.escaped
    requires ScanText(st, text).Some? && ScanText(st, text).value.quote == NO_QUOTE
    ensures text == body + [st.quote] + tail && Body(st.quote, body)
    ensures ScanText(st.(quote := NO_QUOTE), tail) == ScanText(st, text)
    decreases |text|
  {
    var c := text[0];
    assert text == [c] + text[1..];
    if c == '\\' && st.quote != '`' {
      assert text[1..] == [text[1]] + text[2..];
      body, tail := FindClose(st, text[2..]);
      body := [c, text[1]] + body;
      assert text == body + [st.quote] + tail && body[2..] == body[2..];
    } else if c == st.quote {
      body, tail := "", text[1..];
    } else {
      body, tail := FindClose(st, text[1..]);
      body := [c] + body;
      assert body[1..] == body[1..];
    }
  }

  lemma {:induction false} FrontCons(t: Token, ts: seq<Token>)
    requires ts != []
    ensures Front([t] + ts) == [t] + Front(ts) && ([t] + ts)[|ts|] == ts[|ts| - 1]
  {
  }

  lemma {:induction false} ConcatCons(t: Token, ts: seq<Token>)
    ensures Concat([t] + ts) == TextOf(t) + Concat(ts)
  {
    if ts == [] {
      OneToken(t);
      assert [t] + ts == [t];
    } else {
      var front, last := Front(ts), ts[|ts| - 1];
      ConcatCons(t, front);
      FrontCons(t, ts);
      ConcatLast([t] + ts);
      ConcatLast(ts);
      Regroup(TextOf(t), Concat(front), TextOf(last));
    }
  }

  lemma {:induction false} OneToken(t: Token)
    ensures Concat([t]) == TextOf(t)
  {
    assert Front([t]) == [];
  }

  lemma {:induction false} ConcatLast(ts: seq<Token>)
    requires ts != []
    ensures Concat(ts) == Concat(Front(ts)) + TextOf(ts[|ts| - 1])
  {
  }

  /** What the scanner goes through and comes out of unquoted reads as tokens. */
  lemma {:induction false} Tokenise(st: Scan, text: string) returns (ts: seq<Token>)
    requires st.quote == NO_QUOTE && !st.escaped
    requires ScanText(st, text).Some? && ScanText(st, text).value.quote == NO_QUOTE
    ensures Reads(ts, text)
    decreases |text|
  {
    if text == "" {
      ts := [];
    } else {
      var c, rest := text[0], text[1..];
      var t, more;
      assert text == [c] + rest;
      if IsQuote(c) {
        var body, tail := FindClose(Next(st, c), rest);
        more := Tokenise(st, tail);
        t := Quoted(c, body);
        assert text == TextOf(t) + tail;
      } else {
        more := Tokenise(Next(st, c), rest);
        t := Byte(c);
      }
      ConcatCons(t, more);
      ts := [t] + more;
    }
  }

  /** Exactly which texts the scanner takes for an argument. */
  lemma {:induction false} ArgumentsExactly(arg: string)
    ensures ScansWhole(arg) <==> WholeArg(arg)
    ensures ScansLast(arg) <==> LastArg(arg)
  {
    if ScansWhole(arg) || ScansLast(arg) {
      var ts := Tokenise(TOP, arg);
      ScanTokens(ts);
      StateOutside(ts);
    }
    forall ts | Reads(ts, arg) && OneArgument(ts) ensures ScanText(TOP, arg) == Some(StateAfter(ts)) { ScanTokens(ts); }
    forall ts ensures StateAfter(ts) == TOP <==> Outside(ts) { StateOutside(ts); }
  }

  // ---------- nested text ----------

  /** Text with groups inside it: strings and bytes, and parens, braces or brackets around more text. */
  datatype Nested = Done | Piece(t: Token, rest: Nested) | Group(open: char, inside: Nested, rest: Nested)

  function Closer(open: char): char { if open == '(' then ')' else if open == '{' then '}' else ']' }

  function Written(n: Nested): string {
    match n
    case Done => ""
    case Piece(t, rest) => TextOf(t) + Written(rest)
    case Group(open, inside, rest) => [open] + Written(inside) + [Closer(open)] + Written(rest)
  }

  predicate WellNested(n: Nested) {
    match n
    case Done => true
    case Piece(t, rest) => Proper(t) && (t.Byte? ==> t.c !in "(){}[]") && WellNested(rest)
    case Group(open, inside, rest) => open in "({[" && WellNested(inside) && WellNested(rest)
  }

  /** No comma stands outside all groups and strings. */
  predicate NoOuterComma(n: Nested) {
    match n
    case Done => true
    case Piece(t, rest) => t != Byte(',') && NoOuterComma(rest)
    case Group(_, _, rest) => NoOuterComma(rest)
  }

  lemma {:induction false} ScanNested(st: Scan, n: Nested)
    requires WellNested(n) && st.quote == NO_QUOTE && !st.escaped
    requires st.paren >= 1 && st.brace >= 0 && st.bracket >= 0 && (st == TOP ==> NoOuterComma(n))
    ensures ScanText(st, Written(n)) == Some(st)
    decreases n, 0
  {
    match n
    case Done =>
    case Piece(t, rest) =>
      ScanToken(st, t);
      ScanConcat(st, TextOf(t), Written(rest));
      ScanNested(st, rest);
    case Group(open, inside, rest) =>
      ScanGroup(st, open, inside);
      ScanConcat(st, [open] + Written(inside) + [Closer(open)], Written(rest));
      ScanNested(st, rest);
  }

  lemma {:induction false} ScanGroup(st: Scan, open: char, inside: Nested)
    requires open in "({[" && WellNested(inside) && st.quote == NO_QUOTE && !st.escaped
    requires st.paren >= 1 && st.brace >= 0 && st.bracket >= 0
    ensures ScanText(st, [open] + Written(inside) + [Closer(open)]) == Some(st)
    decreases inside, 1
  {
    var within := Next(st, open);
    ScanNested(within, inside);
    ScanOne(st, open);
    ScanOne(within, Closer(open));
    ScanConcat(st, [open], Written(inside));
    ScanConcat(st, [open] + Written(inside), [Closer(open)]);
  }

  /** Commas within parens, braces, brackets and strings split nothing. */
  lemma {:induction false} NestedIsWhole(n: Nested)
    requires WellNested(n) && NoOuterComma(n)
    ensures WholeArg(Written(n))
  {
    ScanNested(TOP, n);
    ArgumentsExactly(Written(n));
  }

  /** A comma after a whole argument ends it, and a stray closing brace or bracket is as
      good as any other byte. */
  lemma {:induction false} WholeArgsJoined(a: string, b: string)
    requires WholeArg(a) && WholeArg(b)
    ensures !WholeArg(a + "," + b) && !LastArg(a + "," + b)
    ensures WholeArg(a + b) && WholeArg(a + "}" + b) && WholeArg(a + "]" + b)
  {
    ArgumentsExactly(a);
    ArgumentsExactly(b);
    ArgumentsExactly(a + b);
    ScanConcat(TOP, a, b);
    JoinedBy(a, ',', b);
    JoinedBy(a, '}', b);
    JoinedBy(a, ']', b);
  }

  lemma {:induction false} JoinedBy(a: string, c: char, b: string)
    requires ScansWhole(a) && ScansWhole(b) && c in ",}]"
    ensures WholeArg(a + [c] + b) <==> c != ','
    ensures c == ',' ==> !LastArg(a + [c] + b)
  {
    ArgumentsExactly(a + [c] + b);
    ScanConcat(TOP, a, [c]);
    ScanConcat(TOP, a + [c], b);
    ScanOne(TOP, c);
  }
}
