/** How the parser reads printed conjunctions, and texts that mix `&&` and `||` without parentheses. */
module Conjunctions {
  import opened Wrappers
  import opened Seqs
  import opened FilterSyntax
  import opened Decompose

  /** The left-nested conjunction the parser builds from a chain. */
  function Chain(es: seq<Expr>): Expr
    requires es != []
  {
    if |es| == 1 then es[0] else Logical(Chain(es[..|es| - 1]), And, es[|es| - 1])
  }

  /** Each text reads as its expression wherever a comparison may end. */
  ghost predicate ReadsAs(parts: seq<seq<Token>>, es: seq<Expr>) {
    && |parts| == |es|
    && forall i, rest :: 0 <= i < |es| && EndsComparison(rest) ==>
                           ParseComparison(parts[i] + rest) == Read(es[i], rest)
  }

  lemma {:induction false} ChainReads(parts: seq<seq<Token>>, es: seq<Expr>, rest: seq<Token>)
    requires es != [] && ReadsAs(parts, es) && EndsComparison(rest)
    ensures ParseAnd(Join(parts) + rest) == AndTail(Chain(es), rest)
  {
    hide ParseComparison;
    if |es| == 1 {
      assert ParseComparison(parts[0] + rest) == Read(es[0], rest);
    } else {
      var n := |es| - 1;
      var after := [LOp(And)] + (parts[n] + rest);
      assert Join(parts) + rest == Join(parts[..n]) + after;
      assert ReadsAs(parts[..n], es[..n]) by { ReadsPrefix(parts, es, n); }
      ChainReads(parts[..n], es[..n], after);
      assert after[1..] == parts[n] + rest;
      assert ParseComparison(parts[n] + rest) == Read(es[n], rest);
      assert AndTail(Chain(es[..n]), after) == AndTail(Logical(Chain(es[..n]), And, es[n]), rest);
    }
  }

  lemma ReadsPrefix(parts: seq<seq<Token>>, es: seq<Expr>, n: nat)
    requires ReadsAs(parts, es) && n <= |es|
    ensures ReadsAs(parts[..n], es[..n])
  {
  }

  lemma ChainParses(parts: seq<seq<Token>>, es: seq<Expr>)
    requires es != [] && ReadsAs(parts, es)
    ensures Parse(Join(parts)) == Some(Chain(es))
    ensures forall rest :: EndsExpr(rest) ==> ParseOr(Join(parts) + rest) == Read(Chain(es), rest)
  {
    hide ParseAnd;
    forall rest | EndsExpr(rest) ensures ParseOr(Join(parts) + rest) == Read(Chain(es), rest) {
      ChainReads(parts, es, rest);
      assert AndTail(Chain(es), rest) == Read(Chain(es), rest) == OrTail(Chain(es), rest);
    }
    assert Join(parts) + [] == Join(parts);
    assert ParseOr(Join(parts) + []) == Read(Chain(es), []);
  }

  /** The tree an advanced disjunction comes back as: a right-nested `||` is re-associated. */
  function Reassociated(e: Expr): Expr {
    if IsOr(e) && IsOr(e.right) then Logical(Logical(e.left, Or, e.right.left), Or, e.right.right) else e
  }

  // ------------------------------------------------ texts that mix `&&` and `||` unparenthesised

  /** One comparison of a flat text, with the connective before it. */
  datatype Item = Item(lop: LogicalOperator, text: seq<Token>, tree: Expr)

  function FlatText(items: seq<Item>): seq<Token> {
    if items == [] then []
    else if |items| == 1 then items[0].text
    else FlatText(items[..|items| - 1]) + [LOp(items[|items| - 1].lop)] + items[|items| - 1].text
  }

  /** The parser's position in a flat text: finished disjuncts, and the conjunction being read. */
  datatype Cursor = Cursor(done: Option<Expr>, current: Expr)

  function Closed(c: Cursor): Expr {
    if c.done.None? then c.current else Logical(c.done.value, Or, c.current)
  }

  function Advance(c: Cursor, item: Item): Cursor {
    if item.lop == And then c.(current := Logical(c.current, And, item.tree))
    else Cursor(Some(Closed(c)), item.tree)
  }

  function Scanned(items: seq<Item>): Cursor
    requires items != []
  {
    if |items| == 1 then Cursor(None, items[0].tree)
    else Advance(Scanned(items[..|items| - 1]), items[|items| - 1])
  }

  function Resume(c: Cursor, after: seq<Token>): Reading<Expr> {
    var r := AndTail(c.current, after);
    if r.Bad? then Bad else OrTail(Closed(c.(current := r.tree)), r.rest)
  }

  ghost predicate ItemsRead(items: seq<Item>) {
    forall i, rest :: 0 <= i < |items| && EndsComparison(rest) ==>
                        ParseComparison(items[i].text + rest) == Read(items[i].tree, rest)
  }

  /** The grammar reads a flat text item by item, `&&` binding tighter than `||`. */
  lemma {:induction false} FlatReads(items: seq<Item>, after: seq<Token>)
    requires items != [] && ItemsRead(items) && EndsComparison(after)
    ensures ParseOr(FlatText(items) + after) == Resume(Scanned(items), after)
  {
    hide ParseComparison;
    var n := |items| - 1;
    var item := items[n];
    assert ParseComparison(item.text + after) == Read(item.tree, after);
    if n > 0 {
      var more := [LOp(item.lop)] + (item.text + after);
      assert FlatText(items) + after == FlatText(items[..n]) + more;
      assert ItemsRead(items[..n]) by {
        forall i, rest | 0 <= i < n && EndsComparison(rest)
          ensures ParseComparison(items[..n][i].text + rest) == Read(items[..n][i].tree, rest)
        {
          assert ParseComparison(items[i].text + rest) == Read(items[i].tree, rest);
        }
      }
      FlatReads(items[..n], more);
      ResumeStep(Scanned(items[..n]), item, after);
    } else {
      assert ParseAnd(item.text + after) == AndTail(item.tree, after);
    }
  }

  lemma ResumeStep(c: Cursor, item: Item, after: seq<Token>)
    requires ParseComparison(item.text + after) == Read(item.tree, after)
    ensures Resume(c, [LOp(item.lop)] + (item.text + after)) == Resume(Advance(c, item), after)
  {
    hide ParseComparison;
    var more := [LOp(item.lop)] + (item.text + after);
    assert more[1..] == item.text + after;
    if item.lop == And {
      assert AndTail(c.current, more) == AndTail(Logical(c.current, And, item.tree), after);
    } else {
      assert AndTail(c.current, more) == Read(c.current, more);
      assert ParseAnd(item.text + after) == AndTail(item.tree, after);
    }
  }

  /** The comparisons at the surface of a printed expression. */
  function SurfaceItems(lop: LogicalOperator, e: Expr): seq<Item> {
    if e.Logical? then [Item(lop, PrintOperand(e.left), e.left), Item(e.lop, PrintOperand(e.right), e.right)]
    else [Item(lop, Print(e), e)]
  }

  function AdvancedItems(e: Expr): seq<Item> {
    if IsOr(e) then SurfaceItems(And, e.left) + SurfaceItems(Or, e.right) else SurfaceItems(And, e)
  }

  lemma SurfaceReads(lop: LogicalOperator, e: Expr)
    ensures ItemsRead(SurfaceItems(lop, e)) && FlatText(SurfaceItems(lop, e)) == Print(e)
  {
    hide ParseComparison, Print, PrintOperand;
    var items := SurfaceItems(lop, e);
    forall i, rest | 0 <= i < |items| && EndsComparison(rest)
      ensures ParseComparison(items[i].text + rest) == Read(items[i].tree, rest)
    {
      if e.Logical? {
        OperandAsComparison(items[i].tree, rest);
      } else {
        ComparisonReads(e, rest);
      }
    }
    if e.Logical? {
      assert items[..1] == [items[0]];
      PrintLogical(e);
    }
  }

  lemma PrintLogical(e: Expr)
    requires e.Logical?
    ensures Print(e) == PrintOperand(e.left) + [LOp(e.lop)] + PrintOperand(e.right)
  {
  }

  lemma {:induction false} FlatConcat(a: seq<Item>, b: seq<Item>)
    requires a != [] && b != []
    ensures FlatText(a + b) == FlatText(a) + [LOp(b[0].lop)] + FlatText(b)
  {
    var front := b[..|b| - 1];
    assert (a + b)[..|a + b| - 1] == a + front;
    if front == [] {
      assert a + front == a;
    } else {
      FlatConcat(a, front);
    }
  }

  lemma ConcatRead(a: seq<Item>, b: seq<Item>)
    requires ItemsRead(a) && ItemsRead(b)
    ensures ItemsRead(a + b)
  {
  }

  lemma AdvancedReads(e: Expr)
    ensures ItemsRead(AdvancedItems(e)) && FlatText(AdvancedItems(e)) == AdvancedText(e)
    ensures AdvancedItems(e) != [] && AdvancedItems(e)[0].lop == And
  {
    hide ItemsRead, FlatText, Print, PrintOperand;
    if IsOr(e) {
      SurfaceReads(And, e.left);
      SurfaceReads(Or, e.right);
      FlatConcat(SurfaceItems(And, e.left), SurfaceItems(Or, e.right));
      ConcatRead(SurfaceItems(And, e.left), SurfaceItems(Or, e.right));
    } else {
      SurfaceReads(And, e);
    }
  }

  /** Reading `left || right` from unparenthesised sides. */
  lemma OrTextReads(e: Expr, rest: seq<Token>)
    requires IsOr(e) && EndsExpr(rest)
    ensures ParseOr(AdvancedText(e) + rest) == Read(Reassociated(e), rest)
  {
    hide ParseOr, Print, PrintOperand, ItemsRead, FlatText;
    AdvancedReads(e);
    FlatReads(AdvancedItems(e), rest);
    ScannedOr(e);
  }

  lemma ScannedOr(e: Expr)
    requires IsOr(e)
    ensures Closed(Scanned(AdvancedItems(e))) == Reassociated(e)
    ensures forall rest :: EndsExpr(rest) ==> Resume(Scanned(AdvancedItems(e)), rest) == Read(Reassociated(e), rest)
  {
    hide Print, PrintOperand;
    var items := AdvancedItems(e);
    var n := |SurfaceItems(And, e.left)|;
    assert items[..n] == SurfaceItems(And, e.left);
    assert items[..1] == [items[0]];
    assert Closed(Scanned(items[..n])) == e.left;
    var middle := items[..n + 1];
    assert middle[..n] == items[..n];
    if e.right.Logical? {
      assert items[..|items| - 1] == middle;
    } else {
      assert items == middle;
    }
  }

  /** The items of all advanced pieces joined by `&&`. */
  function JoinedItems(rest: seq<Expr>): seq<Item> {
    if rest == [] then [] else JoinedItems(rest[..|rest| - 1]) + AdvancedItems(rest[|rest| - 1])
  }

  lemma {:induction false} JoinedReads(rest: seq<Expr>)
    requires rest != []
    ensures JoinedItems(rest) != [] && ItemsRead(JoinedItems(rest))
    ensures FlatText(JoinedItems(rest)) == Join(Map(AdvancedText, rest))
  {
    hide ItemsRead, FlatText, AdvancedText, AdvancedItems;
    var front, last := rest[..|rest| - 1], rest[|rest| - 1];
    AdvancedReads(last);
    if front == [] {
      assert JoinedItems(rest) == AdvancedItems(last);
    } else {
      JoinedReads(front);
      ConcatRead(JoinedItems(front), AdvancedItems(last));
      FlatConcat(JoinedItems(front), AdvancedItems(last));
      var parts := Map(AdvancedText, rest);
      assert parts[..|parts| - 1] == Map(AdvancedText, front);
    }
  }

  /** A `||` anywhere in a flat text makes the whole text a disjunction. */
  lemma {:induction false} OrSpoils(items: seq<Item>, k: nat)
    requires 0 < k < |items| && items[k].lop == Or
    ensures Scanned(items).done.Some?
  {
    if k < |items| - 1 {
      OrSpoils(items[..|items| - 1], k);
    }
  }
}
