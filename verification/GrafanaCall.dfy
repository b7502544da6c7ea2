/** dashboard.go: splitting a Grafana template-variable call into its name and
    arguments, and unwrapping the PromQL inside it. A char stands for a byte. */
module GrafanaCall {
  import opened Common
  import opened Spaces
  import opened GrafanaScan

  datatype Call = Call(name: string, args: seq<string>)

  predicate IsIdentByte(b: char) {
    b == '_' || 'a' <= b <= 'z' || 'A' <= b <= 'Z' || '0' <= b <= '9'
  }

  function JoinArgs(args: seq<string>): string {
    if args == [] then "" else if |args| == 1 then args[0] else args[0] + "," + JoinArgs(args[1..])
  }

  function Print(call: Call): string { call.name + "(" + JoinArgs(call.args) + ")" }

  ghost predicate GoodArgs(args: seq<string>) {
    && (forall i | 0 <= i < |args| - 1 :: ScansWhole(args[i]))
    && (args != [] ==> ScansLast(args[|args| - 1]))
  }

  /** A call that the scanner gets through: an identifier, and arguments that each scan to
      their own end. */
  ghost predicate Scannable(call: Call) {
    && call.name != "" && (forall i | 0 <= i < |call.name| :: IsIdentByte(call.name[i]))
    && call.args != [""] && GoodArgs(call.args)
  }

  /** What is left to do once the scan stands at rest, with cur the argument so
      far and args the finished ones. */
  function Parse(cur: string, rest: string, st: Scan, args: seq<string>): Option<seq<string>>
    decreases |rest|
  {
    if rest == "" then None
    else if Closes(st, rest[0]) then
      if !Blank(rest[1..]) then None
      else Some(if cur != "" || args != [] then args + [cur] else args)
    else if Splits(st, rest[0]) then Parse("", rest[1..], st, args + [cur])
    else Parse(cur + [rest[0]], rest[1..], Next(st, rest[0]), args)
  }

  function IdentLength(s: string): (n: nat)
    ensures n <= |s| && (forall k | 0 <= k < n :: IsIdentByte(s[k]))
    ensures n < |s| ==> !IsIdentByte(s[n])
  {
    if s == "" || !IsIdentByte(s[0]) then 0 else 1 + IdentLength(s[1..])
  }

  /** Parse, by positions: what remains to be done at j, with the current
      argument starting at from. */
  function Rest(s: string, from: nat, j: nat, st: Scan, args: seq<string>): Option<seq<string>>
    requires from <= j <= |s|
    decreases |s| - j
  {
    if j == |s| then None
    else if Closes(st, s[j]) then
      if !Blank(s[j + 1..]) then None
      else Some(if from < j || args != [] then args + [s[from..j]] else args)
    else if Splits(st, s[j]) then Rest(s, j + 1, j + 1, st, args + [s[from..j]])
    else Rest(s, from, j + 1, Next(st, s[j]), args)
  }

  lemma {:induction false} RestIsParse(s: string, from: nat, j: nat, st: Scan, args: seq<string>)
    requires from <= j <= |s|
    ensures Rest(s, from, j, st, args) == Parse(s[from..j], s[j..], st, args)
    decreases |s| - j
  {
    if j < |s| {
      assert s[j..][1..] == s[j + 1..] && s[j + 1..j + 1] == "";
      assert s[from..j] + [s[j]] == s[from..j + 1];
      if Splits(st, s[j]) {
        RestIsParse(s, j + 1, j + 1, st, args + [s[from..j]]);
      } else if !Closes(st, s[j]) {
        RestIsParse(s, from, j + 1, Next(st, s[j]), args);
      }
    }
  }

  function Splitting(s: string): Option<Call> {
    var i := IdentLength(s);
    if i == 0 || i >= |s| || s[i] != '(' then None
    else
      var args := Rest(s, i + 1, i + 1, TOP, []);
      if args.None? then None else Some(Call(s[..i], args.value))
  }

  /** The first loop: past the identifier. */
  method ScanIdent(s: string) returns (i: nat)
    ensures i == IdentLength(s)
  {
    i := 0;
    while i < |s| && IsIdentByte(s[i])
      invariant i <= |s| && IdentLength(s) == i + IdentLength(s[i..])
    {
      i := i + 1;
    }
  }

  method SplitCall(s: string) returns (r: Option<Call>)
    ensures r == Splitting(s)
  {
    var i := ScanIdent(s);
    if i == 0 || i >= |s| || s[i] != '(' {
      return None;
    }
    var name := s[..i];
    var args: seq<string> := [];
    var parenDepth, braceDepth, bracketDepth, quote := 0, 0, 0, NO_QUOTE;
    var argStart := i + 1;
    var j := i;
    ghost var goal := Rest(s, i + 1, i + 1, TOP, []);
    while j < |s|
      invariant i <= j <= |s|
      invariant if j == i then Scan(parenDepth, braceDepth, bracketDepth, quote, false) == TOP.(paren := 0)
          && args == [] && argStart == i + 1
                else argStart <= j && goal ==
                     Rest(s, argStart, j, Scan(parenDepth, braceDepth, bracketDepth, quote, false), args)
    {
      var c := s[j];
      ghost var st := Scan(parenDepth, braceDepth, bracketDepth, quote, false);
      if quote != NO_QUOTE {
        if c == '\\' && quote != '`' && j + 1 < |s| {
          assert goal == Rest(s, argStart, j + 1, st.(escaped := true), args);
          j := j + 2;
          continue;
        }
        if c == quote {
          quote := NO_QUOTE;
        }
        j := j + 1;
        continue;
      }
      match c {
        case '"' => quote := c;
        case '\'' => quote := c;
        case '`' => quote := c;
        case '(' => parenDepth := parenDepth + 1;
        case ')' =>
          parenDepth := parenDepth - 1;
          if parenDepth == 0 {
            if TrimSpace(s[j + 1..]) != "" {
              return None;
            }
            if j > argStart || |args| > 0 {
              args := args + [s[argStart..j]];
            }
            return Some(Call(name, args));
          }
        case '{' => braceDepth := braceDepth + 1;
        case '}' =>
          if braceDepth > 0 {
            braceDepth := braceDepth - 1;
          }
        case '[' => bracketDepth := bracketDepth + 1;
        case ']' =>
          if bracketDepth > 0 {
            bracketDepth := bracketDepth - 1;
          }
        case ',' =>
          if parenDepth == 1 && braceDepth == 0 && bracketDepth == 0 {
            args := args + [s[argStart..j]];
            argStart := j + 1;
          }
        case _ =>
      }
      j := j + 1;
    }
    return None;
  }

  // ---------- splitting and printing undo each other ----------

  lemma {:induction false} ScanSkip(cur: string, text: string, rest: string, st: Scan, args: seq<string>)
    requires ScanText(st, text).Some?
    ensures Parse(cur, text + rest, st, args) == Parse(cur + text, rest, ScanText(st, text).value, args)
    decreases |text|
  {
    if text == "" {
      assert text + rest == rest && cur + text == cur;
    } else {
      assert (text + rest)[1..] == text[1..] + rest;
      ScanSkip(cur + [text[0]], text[1..], rest, Next(st, text[0]), args);
      assert cur + [text[0]] + text[1..] == cur + text;
    }
  }

  lemma {:induction false} ParsePrinted(args: seq<string>, blanks: string, acc: seq<string>)
    requires args != [] && GoodArgs(args) && Blank(blanks)
    ensures Parse("", JoinArgs(args) + ")" + blanks, TOP, acc) ==
            Some(if acc == [] && args == [""] then [] else acc + args)
    decreases |args|
  {
    var a := args[0];
    assert "" + a == a;
    if |args| == 1 {
      var rest := ")" + blanks;
      assert JoinArgs(args) + ")" + blanks == a + rest;
      ScanSkip("", a, rest, TOP, acc);
      assert rest[0] == ')' && rest[1..] == blanks;
      assert args == [a];
    } else {
      var rest := JoinArgs(args[1..]) + ")" + blanks;
      assert ScansWhole(a);
      assert JoinArgs(args) + ")" + blanks == a + ("," + rest);
      ScanSkip("", a, "," + rest, TOP, acc);
      assert ("," + rest)[0] == ',' && ("," + rest)[1..] == rest;
      ParsePrinted(args[1..], blanks, acc + [a]);
      assert args == [a] + args[1..];
      assert acc + [a] + args[1..] == acc + args;
    }
  }

  /** text is the printed argument list, its closing paren and blanks; out is
      those arguments added to acc. */
  ghost predicate TakesApart(text: string, acc: seq<string>, out: seq<string>, args: seq<string>, blanks: string) {
    && args != [] && GoodArgs(args) && Blank(blanks)
    && text == JoinArgs(args) + ")" + blanks
    && out == if acc == [] && args == [""] then [] else acc + args
  }

  lemma {:induction false} TakesApartMore(cur: string, tail: string, acc: seq<string>, out: seq<string>,
      more: seq<string>, blanks: string)
    requires ScansWhole(cur) && TakesApart(tail, acc + [cur], out, more, blanks)
    ensures TakesApart(cur + ("," + tail), acc, out, [cur] + more, blanks)
  {
    var args := [cur] + more;
    assert args[1..] == more;
    assert cur + ("," + tail) == JoinArgs(args) + ")" + blanks;
    assert acc + [cur] + more == acc + args;
    forall i | 0 <= i < |args| - 1 ensures ScansWhole(args[i]) {
      if i > 0 { assert args[i] == more[i - 1]; }
    }
  }

  lemma {:induction false} TakesApartLast(cur: string, tail: string, acc: seq<string>)
    requires ScansLast(cur) && Blank(tail)
    ensures TakesApart(cur + (")" + tail), acc, if cur != "" || acc != [] then acc + [cur] else acc, [cur], tail)
  {
    assert cur + (")" + tail) == JoinArgs([cur]) + ")" + tail;
  }

  lemma {:induction false} ParseCloses(cur: string, rest: string, st: Scan, acc: seq<string>)
    requires Parse(cur, rest, st, acc).Some? && Closes(st, rest[0])
    ensures Blank(rest[1..]) && Parse(cur, rest, st, acc) == Some(if cur != "" || acc != [] then acc + [cur] else acc)
  {
  }

  lemma {:induction false} ParseSplits(cur: string, rest: string, st: Scan, acc: seq<string>)
    requires Parse(cur, rest, st, acc).Some? && Splits(st, rest[0])
    ensures Parse(cur, rest, st, acc) == Parse("", rest[1..], st, acc + [cur])
  {
  }

  lemma {:induction false} ParseGoesOn(cur: string, rest: string, st: Scan, acc: seq<string>)
    requires Parse(cur, rest, st, acc).Some? && !Closes(st, rest[0]) && !Splits(st, rest[0])
    ensures Parse(cur, rest, st, acc) == Parse(cur + [rest[0]], rest[1..], Next(st, rest[0]), acc)
  {
  }

  /** cur is scanned and rest is to be parsed. */
  ghost predicate Parsing(cur: string, rest: string, st: Scan, acc: seq<string>, out: seq<string>) {
    Parse(cur, rest, st, acc) == Some(out) && ScanText(TOP, cur) == Some(st)
  }

  lemma {:induction false} ParsingGoesOn(cur: string, rest: string, st: Scan, acc: seq<string>, out: seq<string>)
    requires Parsing(cur, rest, st, acc, out) && !Closes(st, rest[0]) && !Splits(st, rest[0])
    ensures Parsing(cur + [rest[0]], rest[1..], Next(st, rest[0]), acc, out)
  {
    ParseGoesOn(cur, rest, st, acc);
    ScanSnoc(TOP, cur, rest[0]);
  }

  lemma {:induction false} ParsingSplits(cur: string, rest: string, st: Scan, acc: seq<string>, out: seq<string>)
    requires Parsing(cur, rest, st, acc, out) && Splits(st, rest[0])
    ensures Parsing("", rest[1..], st, acc + [cur], out) && ScansWhole(cur) && rest[0] == ','
  {
    ParseSplits(cur, rest, st, acc);
  }

  lemma {:induction false} ParsingCloses(cur: string, rest: string, st: Scan, acc: seq<string>, out: seq<string>)
    requires Parsing(cur, rest, st, acc, out) && Closes(st, rest[0])
    ensures ScansLast(cur) && Blank(rest[1..])
    ensures rest[0] == ')' && out == if cur != "" || acc != [] then acc + [cur] else acc
  {
    ParseCloses(cur, rest, st, acc);
  }

  lemma {:induction false} ParseTakesApart(cur: string, rest: string, st: Scan, acc: seq<string>, out: seq<string>)
      returns (args: seq<string>, blanks: string)
    requires rest != "" && Parsing(cur, rest, st, acc, out)
    ensures TakesApart(cur + rest, acc, out, args, blanks)
    decreases |rest|
  {
    var c, tail := rest[0], rest[1..];
    assert rest == [c] + tail;
    if Closes(st, c) {
      ParsingCloses(cur, rest, st, acc, out);
      args, blanks := [cur], tail;
      TakesApartLast(cur, tail, acc);
    } else if Splits(st, c) {
      ParsingSplits(cur, rest, st, acc, out);
      ParsingMore("", tail, st, acc + [cur], out);
      args, blanks := ParseTakesApart("", tail, st, acc + [cur], out);
      assert "" + tail == tail;
      TakesApartMore(cur, tail, acc, out, args, blanks);
      args := [cur] + args;
    } else {
      ParsingGoesOn(cur, rest, st, acc, out);
      ParsingMore(cur + [c], tail, Next(st, c), acc, out);
      args, blanks := ParseTakesApart(cur + [c], tail, Next(st, c), acc, out);
      assert cur + [c] + tail == cur + rest;
    }
  }

  lemma {:induction false} ParsingMore(cur: string, rest: string, st: Scan, acc: seq<string>, out: seq<string>)
    requires Parsing(cur, rest, st, acc, out)
    ensures rest != ""
  {
  }

  lemma {:induction false} IdentLengthIs(s: string, n: nat)
    requires n <= |s| && (forall k | 0 <= k < n :: IsIdentByte(s[k])) && (n < |s| ==> !IsIdentByte(s[n]))
    ensures IdentLength(s) == n
  {
    if n > 0 { IdentLengthIs(s[1..], n - 1); }
  }

  /** s is the printed call, up to spaces after it. */
  ghost predicate IsPrinted(s: string, call: Call) {
    exists blanks :: Blank(blanks) && s == Print(call) + blanks
  }

  lemma {:induction false} SplittingPrinted(call: Call, blanks: string)
    requires Scannable(call) && Blank(blanks)
    ensures Splitting(Print(call) + blanks) == Some(call)
  {
    PrintedParts(call, blanks);
    ParsePrinted(PrintedArgs(call), blanks, []);
    assert [] + PrintedArgs(call) == PrintedArgs(call);
    SplittingIs(Print(call) + blanks);
  }

  lemma {:induction false} SplittingIs(s: string)
    requires 0 < IdentLength(s) < |s| && s[IdentLength(s)] == '('
    ensures var n := IdentLength(s);
      var args := Parse("", s[n + 1..], TOP, []);
      Splitting(s) == if args.None? then None else Some(Call(s[..n], args.value))
  {
    var n := IdentLength(s);
    RestIsParse(s, n + 1, n + 1, TOP, []);
    assert s[n + 1..n + 1] == "";
  }

  function PrintedArgs(call: Call): seq<string> { if call.args == [] then [""] else call.args }

  lemma {:induction false} PrintedParts(call: Call, blanks: string)
    requires Scannable(call)
    ensures var s, n := Print(call) + blanks, |call.name|;
      n == IdentLength(s) && n < |s| && s[n] == '(' && s[..n] == call.name
      && s[n + 1..] == JoinArgs(PrintedArgs(call)) + ")" + blanks
  {
    var s, n := Print(call) + blanks, |call.name|;
    assert s[..n] == call.name && s[n] == '(';
    assert forall k | 0 <= k < n :: s[k] == call.name[k];
    IdentLengthIs(s, n);
  }

  /** A success has a name, an opening paren, and something parsed after it. */
  lemma {:induction false} SplittingParts(s: string)
    requires Splitting(s).Some?
    ensures var call, n := Splitting(s).value, IdentLength(s);
      0 < n < |s| && s[n] == '(' && call.name == s[..n] && Parsing("", s[n + 1..], TOP, [], call.args)
  {
    SplittingIs(s);
  }

  lemma {:induction false} SplittingTakesApart(s: string)
    requires Splitting(s).Some?
    ensures Scannable(Splitting(s).value) && IsPrinted(s, Splitting(s).value)
  {
    SplittingParts(s);
    CallTakesApart(s, IdentLength(s), Splitting(s).value);
  }

  lemma {:induction false} CallTakesApart(s: string, n: nat, call: Call)
    requires n == IdentLength(s) && 0 < n < |s| && s[n] == '(' && call.name == s[..n]
    requires Parsing("", s[n + 1..], TOP, [], call.args)
    ensures Scannable(call) && IsPrinted(s, call)
  {
    var tail := s[n + 1..];
    ParsingMore("", tail, TOP, [], call.args);
    var args, blanks := ParseTakesApart("", tail, TOP, [], call.args);
    assert "" + tail == tail;
    CutAtParen(s, n);
    PrintedIs(call, args, blanks, s, tail);
    IdentIs(s, n);
    PrintableIs(call, args, blanks, tail);
  }

  lemma {:induction false} CutAtParen(s: string, n: nat)
    requires n < |s| && s[n] == '('
    ensures s == s[..n] + "(" + s[n + 1..]
  {
  }

  lemma {:induction false} IdentIs(s: string, n: nat)
    requires n == IdentLength(s)
    ensures forall c | c in s[..n] :: IsIdentByte(c)
  {
  }

  lemma {:induction false} PrintableIs(call: Call, args: seq<string>, blanks: string, tail: string)
    requires call.name != "" && (forall c | c in call.name :: IsIdentByte(c))
    requires TakesApart(tail, [], call.args, args, blanks)
    ensures Scannable(call)
  {
    assert [] + args == args;
  }

  lemma {:induction false} PrintedIs(call: Call, args: seq<string>, blanks: string, s: string, tail: string)
    requires s == call.name + "(" + tail && TakesApart(tail, [], call.args, args, blanks)
    ensures IsPrinted(s, call)
  {
    assert call.args == if args == [""] then [] else args;
    assert s == Print(call) + blanks;
  }

  /** A call that can be printed and told apart again: a name of letters, digits and
      underscores, and arguments that are each whole, but for braces and brackets the last
      may leave open. One empty argument prints like no argument at all, so it is not one. */
  ghost predicate Printable(call: Call) {
    && call.name != ""
    && (forall i | 0 <= i < |call.name| ::
      var c := call.name[i]; 'a' <= c <= 'z' || 'A' <= c <= 'Z' || '0' <= c <= '9' || c == '_')
    && call.args != [""]
    && (forall i | 0 <= i < |call.args| - 1 :: WholeArg(call.args[i]))
    && (call.args != [] ==> LastArg(call.args[|call.args| - 1]))
  }

  lemma {:induction false} PrintableIsScannable(call: Call)
    ensures Printable(call) <==> Scannable(call)
  {
    forall arg ensures (ScansWhole(arg) <==> WholeArg(arg)) && (ScansLast(arg) <==> LastArg(arg)) {
      ArgumentsExactly(arg);
    }
  }

  /** The splitter succeeds exactly on the printed form of a printable call, and
      returns that call. */
  lemma {:induction false} SplittingExactly(s: string, call: Call)
    ensures Splitting(s) == Some(call) <==> Printable(call) && IsPrinted(s, call)
  {
    PrintableIsScannable(call);
    if Splitting(s) == Some(call) {
      SplittingTakesApart(s);
    }
    if Scannable(call) && IsPrinted(s, call) {
      var blanks :| Blank(blanks) && s == Print(call) + blanks;
      SplittingPrinted(call, blanks);
    }
  }

  // ---------- unwrapping ----------

  /** The PromQL to validate, or None when there is none to validate: decided by
      the one call that expr prints, and expr itself when it prints no call. */
  method Unwrap(expr: string) returns (inner: Option<string>)
    ensures forall call | Printable(call) && IsPrinted(TrimSpace(expr), call) ::
      inner ==
        if call.name == "label_values" then (if |call.args| >= 2 then Some(TrimSpace(call.args[0])) else None)
        else if call.name == "query_result" then (if |call.args| >= 1 then Some(TrimSpace(call.args[0])) else None)
        else if call.name == "metrics" || call.name == "label_names" then None
        else Some(expr)
    ensures (forall call | Printable(call) :: !IsPrinted(TrimSpace(expr), call)) ==> inner == Some(expr)
  {
    var s := TrimSpace(expr);
    var call := SplitCall(s);
    forall c ensures Splitting(s) == Some(c) <==> Printable(c) && IsPrinted(s, c) { SplittingExactly(s, c); }
    if call.None? {
      return Some(expr);
    }
    var name, args := call.value.name, call.value.args;
    match name {
      case "label_values" =>
        if |args| >= 2 {
          return Some(TrimSpace(args[0]));
        }
        return None;
      case "query_result" =>
        if |args| >= 1 {
          return Some(TrimSpace(args[0]));
        }
        return None;
      case "metrics" => return None;
      case "label_names" => return None;
      case _ =>
    }
    return Some(expr);
  }
}
