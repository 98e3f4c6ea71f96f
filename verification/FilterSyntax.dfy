/**
 The filter language's syntax tree, the printer of ui/src/filters.rs, and the grammar it is read back
 with: `||` below `&&` below comparison, prefix `!`, parentheses, calls. Text is modelled as tokens.
 */
module FilterSyntax {
  import opened Wrappers

  datatype Value = Null | Bool(b: bool) | Str(s: string) | Tuple(items: seq<Value>) | Other(text: string)

  datatype BinaryOperator =
    | Equals | NotEquals
    | GreaterThan | GreaterEqual | SmallerThan | SmallerEqual
    | Contains | ContainsCs | In | InCs
    | StartsWith | StartsWithCs | EndsWith | EndsWithCs
    | Plus | Minus

  datatype LogicalOperator = And | Or

  datatype Expr =
    | Literal(value: Value)
    | Property(name: string)
    | Call(function_: string, args: seq<Expr>)
    | Binary(left: Expr, op: BinaryOperator, right: Expr)
    | Logical(left: Expr, lop: LogicalOperator, right: Expr)
    | Not(operand: Expr)
    | Like(left: Expr, caseSensitive: bool, pattern: string)
    | Matches(left: Expr, pattern: string)

  datatype Token =
    | Lit(value: Value) | Word(name: string)
    | Op(op: BinaryOperator) | LOp(lop: LogicalOperator) | Bang
    | LikeWord(caseSensitive: bool) | MatchesWord
    | LParen | RParen | Comma

  // ------------------------------------------------------------------------- printing

  predicate Atomic(e: Expr) { e.Literal? || e.Property? || e.Call? }

  /** `Printer` */
  function Print(e: Expr): (ts: seq<Token>)
    decreases e, 0
  {
    match e
    case Literal(value) => [Lit(value)]
    case Property(name) => [Word(name)]
    case Call(name, args) => [Word(name), LParen] + PrintArgs(args) + [RParen]
    case Binary(left, op, right) => PrintOperand(left) + [Op(op)] + PrintOperand(right)
    case Logical(left, lop, right) => PrintOperand(left) + [LOp(lop)] + PrintOperand(right)
    case Not(operand) => [Bang] + PrintOperand(operand)
    case Like(left, cs, pattern) => PrintOperand(left) + [LikeWord(cs), Lit(Str(pattern))]
    case Matches(left, pattern) => PrintOperand(left) + [MatchesWord, Lit(Str(pattern))]
  }

  /** `print_operand`: composite children are parenthesised. */
  function PrintOperand(e: Expr): seq<Token>
    decreases e, 1
  {
    if Atomic(e) then Print(e) else [LParen] + Print(e) + [RParen]
  }

  function PrintArgs(args: seq<Expr>): seq<Token>
    decreases args
  {
    if args == [] then []
    else if |args| == 1 then Print(args[0])
    else Print(args[0]) + [Comma] + PrintArgs(args[1..])
  }

  // -------------------------------------------------------------------------- parsing

  /** What a parser returns: the tree it read and the tokens it left, or an error. */
  datatype Reading<T> = Read(tree: T, rest: seq<Token>) | Bad

  predicate Shorter<T>(r: Reading<T>, ts: seq<Token>) { r.Read? ==> |r.rest| < |ts| }

  function ParseOr(ts: seq<Token>): (r: Reading<Expr>)
    ensures Shorter(r, ts)
    decreases |ts|, 5
  {
    var first := ParseAnd(ts);
    if first.Bad? then Bad else OrTail(first.tree, first.rest)
  }

  function OrTail(left: Expr, ts: seq<Token>): (r: Reading<Expr>)
    ensures r.Read? ==> |r.rest| <= |ts|
    decreases |ts|, 5
  {
    if ts != [] && ts[0] == LOp(Or) then
      var next := ParseAnd(ts[1..]);
      if next.Bad? then Bad else OrTail(Logical(left, Or, next.tree), next.rest)
    else Read(left, ts)
  }

  function ParseAnd(ts: seq<Token>): (r: Reading<Expr>)
    ensures Shorter(r, ts)
    decreases |ts|, 4
  {
    var first := ParseComparison(ts);
    if first.Bad? then Bad else AndTail(first.tree, first.rest)
  }

  function AndTail(left: Expr, ts: seq<Token>): (r: Reading<Expr>)
    ensures r.Read? ==> |r.rest| <= |ts|
    decreases |ts|, 4
  {
    if ts != [] && ts[0] == LOp(And) then
      var next := ParseComparison(ts[1..]);
      if next.Bad? then Bad else AndTail(Logical(left, And, next.tree), next.rest)
    else Read(left, ts)
  }

  function ParseComparison(ts: seq<Token>): (r: Reading<Expr>)
    ensures Shorter(r, ts)
    decreases |ts|, 3
  {
    var left := ParseUnary(ts);
    if left.Bad? || left.rest == [] then left
    else
      match left.rest[0]
      case Op(op) =>
        var right := ParseUnary(left.rest[1..]);
        if right.Bad? then Bad else Read(Binary(left.tree, op, right.tree), right.rest)
      case LikeWord(cs) =>
        if |left.rest| >= 2 && left.rest[1].Lit? && left.rest[1].value.Str? then
          Read(Like(left.tree, cs, left.rest[1].value.s), left.rest[2..])
        else Bad
      case MatchesWord =>
        if |left.rest| >= 2 && left.rest[1].Lit? && left.rest[1].value.Str? then
          Read(Matches(left.tree, left.rest[1].value.s), left.rest[2..])
        else Bad
      case _ => left
  }

  function ParseUnary(ts: seq<Token>): (r: Reading<Expr>)
    ensures Shorter(r, ts)
    decreases |ts|, 2
  {
    if ts != [] && ts[0] == Bang then
      var operand := ParseUnary(ts[1..]);
      if operand.Bad? then Bad else Read(Not(operand.tree), operand.rest)
    else ParsePrimary(ts)
  }

  function ParsePrimary(ts: seq<Token>): (r: Reading<Expr>)
    ensures Shorter(r, ts)
    decreases |ts|, 1
  {
    if ts == [] then Bad
    else
      match ts[0]
      case Lit(value) => Read(Literal(value), ts[1..])
      case Word(name) =>
        if |ts| >= 2 && ts[1] == LParen then
          var args := ParseArgs(ts[2..]);
          if args.Bad? then Bad else Read(Call(name, args.tree), args.rest)
        else Read(Property(name), ts[1..])
      case LParen =>
        var inner := ParseOr(ts[1..]);
        if inner.Bad? || inner.rest == [] || inner.rest[0] != RParen then Bad
        else Read(inner.tree, inner.rest[1..])
      case _ => Bad
  }

  /** Comma-separated arguments up to and including the closing parenthesis. */
  function ParseArgs(ts: seq<Token>): (r: Reading<seq<Expr>>)
    ensures Shorter(r, ts)
    decreases |ts|, 6
  {
    if ts == [] then Bad
    else if ts[0] == RParen then Read([], ts[1..])
    else
      var first := ParseOr(ts);
      if first.Bad? || first.rest == [] then Bad
      else if first.rest[0] == RParen then Read([first.tree], first.rest[1..])
      else if first.rest[0] == Comma && |first.rest| >= 2 && first.rest[1] != RParen then
        var more := ParseArgs(first.rest[1..]);
        if more.Bad? then Bad else Read([first.tree] + more.tree, more.rest)
      else Bad
  }

  /** `Filter::new`: the whole text must be one expression. */
  function Parse(ts: seq<Token>): Option<Expr> {
    var r := ParseOr(ts);
    if r.Read? && r.rest == [] then Some(r.tree) else None
  }

  // ----------------------------------------------------------------------- round trips

  /** Nothing that could extend an operand. */
  predicate EndsOperand(rest: seq<Token>) { rest == [] || rest[0] != LParen }

  /** Nothing that could extend a comparison. */
  predicate EndsComparison(rest: seq<Token>) {
    rest == [] || rest[0] == RParen || rest[0] == Comma || rest[0].LOp?
  }

  /** Nothing that could extend an expression. */
  predicate EndsExpr(rest: seq<Token>) { rest == [] || rest[0] == RParen || rest[0] == Comma }

  lemma {:induction false} PrintStart(e: Expr)
    ensures Print(e) != [] && Print(e)[0] != RParen && Print(e)[0] != Comma && !Print(e)[0].LOp?
    ensures PrintOperand(e) != [] && PrintOperand(e)[0] != Bang && PrintOperand(e)[0] != RParen
    decreases e
  {
    match e
    case Binary(left, _, _) => PrintStart(left);
    case Logical(left, _, _) => PrintStart(left);
    case Like(left, _, _) => PrintStart(left);
    case Matches(left, _) => PrintStart(left);
    case _ =>
  }

  lemma {:induction false} AtomReads(e: Expr, rest: seq<Token>)
    requires Atomic(e) && EndsOperand(rest)
    ensures ParseUnary(Print(e) + rest) == Read(e, rest)
    decreases e, 1
  {
    var ts := Print(e) + rest;
    if e.Call? {
      assert ts[2..] == PrintArgs(e.args) + ([RParen] + rest);
      ArgsRead(e.args, rest);
    } else {
      assert ts[1..] == rest;
    }
  }

  lemma {:induction false} OperandReads(e: Expr, rest: seq<Token>)
    requires EndsOperand(rest)
    ensures ParseUnary(PrintOperand(e) + rest) == Read(e, rest)
    decreases e, 4
  {
    if Atomic(e) {
      AtomReads(e, rest);
    } else {
      var close := [RParen] + rest;
      assert (PrintOperand(e) + rest)[1..] == Print(e) + close;
      ExprReads(e, close);
      assert close[1..] == rest;
    }
  }

  lemma {:induction false} ArgsRead(args: seq<Expr>, rest: seq<Token>)
    ensures ParseArgs(PrintArgs(args) + ([RParen] + rest)) == Read(args, rest)
    decreases args, 0
  {
    hide ParseOr, Print;
    var close := [RParen] + rest;
    assert close[1..] == rest;
    if args == [] {
      assert PrintArgs(args) + close == close;
    } else if |args| == 1 {
      PrintStart(args[0]);
      ExprReads(args[0], close);
      assert args == [args[0]];
    } else {
      var after := [Comma] + (PrintArgs(args[1..]) + close);
      assert PrintArgs(args) + close == Print(args[0]) + after;
      PrintStart(args[0]);
      PrintStart(args[1]);
      ExprReads(args[0], after);
      assert after[1..] == PrintArgs(args[1..]) + close;
      assert PrintArgs(args[1..])[0] == Print(args[1])[0];
      assert args == [args[0]] + args[1..];
      ArgsRead(args[1..], rest);
    }
  }

  lemma {:induction false} BinaryReads(e: Expr, rest: seq<Token>)
    requires e.Binary? && EndsComparison(rest)
    ensures ParseComparison(Print(e) + rest) == Read(e, rest)
    decreases e, 1
  {
    var after := [Op(e.op)] + (PrintOperand(e.right) + rest);
    assert Print(e) + rest == PrintOperand(e.left) + after;
    OperandReads(e.left, after);
    assert after[1..] == PrintOperand(e.right) + rest;
    OperandReads(e.right, rest);
  }

  lemma {:induction false} PatternReads(e: Expr, rest: seq<Token>)
    requires e.Like? || e.Matches?
    ensures ParseComparison(Print(e) + rest) == Read(e, rest)
    decreases e, 1
  {
    var keyword := if e.Like? then LikeWord(e.caseSensitive) else MatchesWord;
    var after := [keyword, Lit(Str(e.pattern))] + rest;
    assert Print(e) + rest == PrintOperand(e.left) + after;
    OperandReads(e.left, after);
    assert after[2..] == rest;
  }

  lemma {:induction false} ComparisonReads(e: Expr, rest: seq<Token>)
    requires !e.Logical? && EndsComparison(rest)
    ensures ParseComparison(Print(e) + rest) == Read(e, rest)
    decreases e, 2
  {
    hide ParseComparison, ParseUnary, Print;
    if e.Binary? {
      BinaryReads(e, rest);
    } else if e.Like? || e.Matches? {
      PatternReads(e, rest);
    } else if e.Not? {
      BangReads(e, rest);
      UnaryAsComparison(Print(e) + rest, e, rest);
    } else {
      AtomReads(e, rest);
      UnaryAsComparison(Print(e) + rest, e, rest);
    }
  }

  lemma {:induction false} BangReads(e: Expr, rest: seq<Token>)
    requires e.Not? && EndsOperand(rest)
    ensures ParseUnary(Print(e) + rest) == Read(e, rest)
    decreases e, 1
  {
    assert (Print(e) + rest)[1..] == PrintOperand(e.operand) + rest;
    OperandReads(e.operand, rest);
  }

  lemma UnaryAsComparison(ts: seq<Token>, e: Expr, rest: seq<Token>)
    requires ParseUnary(ts) == Read(e, rest) && EndsComparison(rest)
    ensures ParseComparison(ts) == Read(e, rest)
  {
  }

  lemma ComparisonAsExpr(ts: seq<Token>, e: Expr, rest: seq<Token>)
    requires ParseComparison(ts) == Read(e, rest) && EndsExpr(rest)
    ensures ParseOr(ts) == Read(e, rest)
  {
    hide ParseComparison;
    assert AndTail(e, rest) == Read(e, rest) == OrTail(e, rest);
    assert ParseAnd(ts) == Read(e, rest);
  }

  lemma LogicalAsExpr(ts: seq<Token>, e: Expr, after: seq<Token>, rest: seq<Token>)
    requires e.Logical? && EndsExpr(rest)
    requires after != [] && after[0] == LOp(e.lop)
    requires ParseComparison(ts) == Read(e.left, after)
    requires ParseComparison(after[1..]) == Read(e.right, rest)
    ensures ParseOr(ts) == Read(e, rest)
  {
    hide ParseComparison;
    if e.lop == Or {
      assert ParseAnd(ts) == Read(e.left, after);
      assert ParseAnd(after[1..]) == Read(e.right, rest);
      assert OrTail(Logical(e.left, Or, e.right), rest) == Read(e, rest);
    } else {
      assert AndTail(e, rest) == Read(e, rest) == OrTail(e, rest);
      assert AndTail(e.left, after) == Read(e, rest);
      assert ParseAnd(ts) == Read(e, rest);
    }
  }

  lemma OperandAsComparison(e: Expr, rest: seq<Token>)
    requires EndsComparison(rest)
    ensures ParseComparison(PrintOperand(e) + rest) == Read(e, rest)
    decreases e, 5
  {
    OperandReads(e, rest);
    UnaryAsComparison(PrintOperand(e) + rest, e, rest);
  }

  lemma {:induction false} ExprReads(e: Expr, rest: seq<Token>)
    requires EndsExpr(rest)
    ensures ParseOr(Print(e) + rest) == Read(e, rest)
    decreases e, 3
  {
    if e.Logical? {
      var after := [LOp(e.lop)] + (PrintOperand(e.right) + rest);
      assert Print(e) + rest == PrintOperand(e.left) + after;
      OperandAsComparison(e.left, after);
      assert after[1..] == PrintOperand(e.right) + rest;
      OperandAsComparison(e.right, rest);
      LogicalAsExpr(Print(e) + rest, e, after, rest);
    } else {
      ComparisonReads(e, rest);
      ComparisonAsExpr(Print(e) + rest, e, rest);
    }
  }

  /** Printing is invertible: re-parsing the printed text of any tree gives the tree back. */
  lemma PrintParses(e: Expr)
    ensures Parse(Print(e)) == Some(e)
  {
    assert Print(e) + [] == Print(e);
    ExprReads(e, []);
  }
}

/** String literals (`quote`): two successive replacements, then a pair of quotes. */
module Quoting {
  import opened Wrappers

  /** `str::replace` of a single character. */
  function Replace(s: string, c: char, with: string): string {
    if s == "" then "" else (if s[0] == c then with else [s[0]]) + Replace(s[1..], c, with)
  }

  function Escaped(value: string): string { Replace(Replace(value, '\\', "\\\\"), '"', "\\\"") }

  function Quote(value: string): string { "\"" + Escaped(value) + "\"" }

  /** Read a literal's body up to its closing quote: a backslash takes the next character as it is. */
  function Unescape(s: string): Option<(string, string)> {
    if s == "" then None
    else if s[0] == '"' then Some(("", s[1..]))
    else if s[0] == '\\' then
      if |s| < 2 then None
      else
        var more := Unescape(s[2..]);
        if more.None? then None else Some(([s[1]] + more.value.0, more.value.1))
    else
      var more := Unescape(s[1..]);
      if more.None? then None else Some(([s[0]] + more.value.0, more.value.1))
  }

  lemma {:induction false} ReplaceConcat(a: string, b: string, c: char, with: string)
    ensures Replace(a + b, c, with) == Replace(a, c, with) + Replace(b, c, with)
  {
    if a == "" {
      assert a + b == b;
    } else {
      assert (a + b)[1..] == a[1..] + b;
      ReplaceConcat(a[1..], b, c, with);
    }
  }

  lemma EscapedStep(c: char, value: string)
    ensures Escaped([c] + value)
         == (if c == '\\' then "\\\\" else if c == '"' then "\\\"" else [c]) + Escaped(value)
  {
    var first := if c == '\\' then "\\\\" else [c];
    var inner := Replace(value, '\\', "\\\\");
    assert ([c] + value)[1..] == value;
    assert Replace([c] + value, '\\', "\\\\") == first + inner;
    ReplaceConcat(first, inner, '"', "\\\"");
    assert Replace([c], '"', "\\\"") == if c == '"' then "\\\"" else [c] by {
      assert [c][1..] == "";
    }
    assert Replace("\\\\", '"', "\\\"") == "\\\\" by {
      assert "\\\\"[1..] == "\\" && "\\"[1..] == "";
    }
  }

  /** Un-escaping what `quote` wrote gives the value back and stops exactly at the closing quote. */
  lemma {:induction false} QuoteReads(value: string, rest: string)
    ensures Unescape(Escaped(value) + "\"" + rest) == Some((value, rest))
    ensures Quote(value)[0] == '"' && Quote(value)[1..] + rest == Escaped(value) + "\"" + rest
  {
    if value == "" {
      assert Escaped(value) + "\"" + rest == "\"" + rest;
      assert ("\"" + rest)[1..] == rest;
    } else {
      var c, tail := value[0], value[1..];
      assert value == [c] + tail;
      EscapedStep(c, tail);
      QuoteReads(tail, rest);
      var text := Escaped(value) + "\"" + rest;
      var after := Escaped(tail) + "\"" + rest;
      if c == '\\' || c == '"' {
        assert text[0] == '\\' && text[1] == c && text[2..] == after;
      } else {
        assert text[0] == c && text[1..] == after;
      }
    }
    assert Quote(value)[1..] == Escaped(value) + "\"";
  }
}
