/** What splitting an expression, printing the pieces and parsing them again builds. */
module Resplit {
  import opened Wrappers
  import opened Seqs
  import opened FilterSyntax
  import opened Decompose
  import opened Conjunctions

  /** The top-level `&&` chain. */
  function Conjuncts(e: Expr): (cs: seq<Expr>)
    ensures cs != []
  {
    if e.Logical? && e.lop == And then Conjuncts(e.left) + Conjuncts(e.right) else [e]
  }

  predicate IsAnd(e: Expr) { e.Logical? && e.lop == And }

  predicate Flat(cs: seq<Expr>) { forall i :: 0 <= i < |cs| ==> !IsAnd(cs[i]) }

  function Chips(cs: seq<Expr>): seq<Expr> { Filter(IsChip, cs) }

  function Rest(cs: seq<Expr>): seq<Expr> { Filter((c: Expr) => !IsChip(c), cs) }

  predicate DistinctDims(chips: seq<Expr>) {
    && (forall i :: 0 <= i < |chips| ==> IsChip(chips[i]))
    && (forall i, j :: 0 <= i < j < |chips| ==> ChipDim(chips[i]) != ChipDim(chips[j]))
  }

  /** At most one advanced piece, or none that is a top-level `||`. */
  predicate Joinable(rest: seq<Expr>) { |rest| <= 1 || forall i :: 0 <= i < |rest| ==> !IsOr(rest[i]) }

  /** Each chip dimension once, and advanced pieces that join safely. */
  predicate Splittable(e: Expr) { DistinctDims(Chips(Conjuncts(e))) && Joinable(Rest(Conjuncts(e))) }

  function TermOf(chip: Expr): (Dim, string)
    requires IsChip(chip)
  {
    (ChipDim(chip), chip.right.value.s)
  }

  function TermsFor(chips: seq<Expr>): seq<(Dim, string)>
    requires forall i :: 0 <= i < |chips| ==> IsChip(chips[i])
  {
    seq(|chips|, i requires 0 <= i < |chips| => TermOf(chips[i]))
  }

  function TermExpr(term: (Dim, string)): Expr { Binary(Property(Param(term.0)), Equals, Literal(Str(term.1))) }

  lemma {:induction false} PiecesAreConjuncts(e: Expr)
    ensures Pieces(e) == Map(PieceOf, Conjuncts(e))
    ensures Flat(Conjuncts(e))
  {
    if IsAnd(e) {
      PiecesAreConjuncts(e.left);
      PiecesAreConjuncts(e.right);
    }
  }

  lemma {:induction false} FilterAll<A(!new)>(p: A -> bool, s: seq<A>)
    requires forall x :: x in s ==> p(x)
    ensures Filter(p, s) == s
  {
    if s != [] {
      FilterAll(p, s[..|s| - 1]);
    }
  }

  lemma DistinctFront(chips: seq<Expr>)
    requires DistinctDims(chips) && chips != []
    ensures DistinctDims(chips[..|chips| - 1])
    ensures Retain(TermsFor(chips[..|chips| - 1]), ChipDim(chips[|chips| - 1])) == TermsFor(chips[..|chips| - 1])
  {
    hide IsChip, ChipDim;
    var front, dim := chips[..|chips| - 1], ChipDim(chips[|chips| - 1]);
    var terms := TermsFor(front);
    forall t | t in terms ensures t.0 != dim {
      var i :| 0 <= i < |terms| && terms[i] == t;
      assert t == TermOf(front[i]) && front[i] == chips[i];
    }
    FilterAll((t: (Dim, string)) => t.0 != dim, terms);
  }

  lemma {:induction false} SplitTerms(cs: seq<Expr>)
    requires DistinctDims(Chips(cs))
    ensures TermsOf(Map(PieceOf, cs)) == TermsFor(Chips(cs))
  {
    hide IsChip, ChipDim, AdvancedText, DistinctDims, Retain;
    if cs != [] {
      var front, last := cs[..|cs| - 1], cs[|cs| - 1];
      assert Map(PieceOf, cs)[..|cs| - 1] == Map(PieceOf, front);
      if IsChip(last) {
        var chips := Chips(cs);
        assert chips[..|chips| - 1] == Chips(front);
        DistinctFront(chips);
        SplitTerms(front);
        ChipsAreChips(cs);
        ChipsAreChips(front);
        assert TermsFor(chips) == TermsFor(Chips(front)) + [TermOf(last)];
      } else {
        SplitTerms(front);
      }
    }
  }

  lemma ChipsAreChips(cs: seq<Expr>)
    ensures forall i :: 0 <= i < |Chips(cs)| ==> IsChip(Chips(cs)[i])
    ensures forall c :: c in Rest(cs) ==> !IsChip(c)
  {
  }

  lemma {:induction false} SplitAdvanced(cs: seq<Expr>)
    ensures AdvancedOf(Map(PieceOf, cs)) == Map(AdvancedText, Rest(cs))
  {
    hide IsChip, ChipDim, AdvancedText;
    if cs != [] {
      var front, last := cs[..|cs| - 1], cs[|cs| - 1];
      assert Map(PieceOf, cs)[..|cs| - 1] == Map(PieceOf, front);
      SplitAdvanced(front);
    }
  }

  /** The tree the advanced remainder comes back as. */
  function RestExpr(rest: seq<Expr>): Expr
    requires rest != []
  {
    if |rest| == 1 then Reassociated(rest[0]) else Chain(rest)
  }

  lemma RestReads(rest: seq<Expr>, after: seq<Token>)
    requires rest != [] && Flat(rest) && EndsExpr(after)
    requires Joinable(rest)
    ensures ParseOr(Join(Map(AdvancedText, rest)) + after) == Read(RestExpr(rest), after)
  {
    hide ParseOr, ParseComparison, Print, PrintOperand;
    if |rest| == 1 {
      if IsOr(rest[0]) {
        OrTextReads(rest[0], after);
      } else {
        ExprReads(rest[0], after);
      }
    } else {
      var parts := Map(AdvancedText, rest);
      forall i, more | 0 <= i < |rest| && EndsComparison(more)
        ensures ParseComparison(parts[i] + more) == Read(rest[i], more)
      {
        ComparisonReads(rest[i], more);
      }
      ChainParses(parts, rest);
    }
  }

  /** A parenthesised expression reads as one operand. */
  lemma GroupReads(text: seq<Token>, e: Expr, rest: seq<Token>)
    requires EndsComparison(rest)
    requires ParseOr(text + ([RParen] + rest)) == Read(e, [RParen] + rest)
    ensures ParseComparison([LParen] + text + [RParen] + rest) == Read(e, rest)
  {
    hide ParseOr;
    var ts := [LParen] + text + [RParen] + rest;
    assert ts[1..] == text + ([RParen] + rest);
    assert ([RParen] + rest)[1..] == rest;
    assert ParseUnary(ts) == Read(e, rest);
    UnaryAsComparison(ts, e, rest);
  }

  /** The conjuncts of the re-parsed expression: canonical chips first, then the remainder. */
  function Recombined(chips: seq<Expr>, rest: seq<Expr>): seq<Expr>
    requires forall i :: 0 <= i < |chips| ==> IsChip(chips[i])
  {
    Map(TermExpr, TermsFor(chips)) + (if rest == [] then [] else [RestExpr(rest)])
  }

  lemma RestNonEmpty(rest: seq<Expr>)
    requires rest != []
    ensures Join(Map(AdvancedText, rest)) != []
  {
  }

  /** The text reads as the tree wherever an expression may end. */
  ghost predicate ExprText(text: seq<Token>, tree: Expr) {
    text != [] && forall after :: EndsExpr(after) ==> ParseOr(text + after) == Read(tree, after)
  }

  lemma TermsRead(terms: seq<(Dim, string)>)
    ensures ReadsAs(Map(TermText, terms), Map(TermExpr, terms))
  {
    hide ParseComparison;
    forall i, more | 0 <= i < |terms| && EndsComparison(more)
      ensures ParseComparison(TermText(terms[i]) + more) == Read(TermExpr(terms[i]), more)
    {
      TermReads(terms[i], more);
    }
  }

  /** A printed query reads back as the chain of its chips and, last, its remainder. */
  lemma QueryReads(terms: seq<(Dim, string)>, text: seq<Token>, tree: Expr)
    requires ExprText(text, tree)
    ensures Parse(ToExpression(Query(terms, Some(text)))) == Some(Chain(Map(TermExpr, terms) + [tree]))
  {
    hide ParseOr, ParseComparison;
    TermsRead(terms);
    if terms == [] {
      assert Map(TermExpr, terms) + [tree] == [tree];
      assert text + [] == text;
      assert ParseOr(text + []) == Read(tree, []);
    } else {
      var group := [LParen] + text + [RParen];
      forall more | EndsComparison(more)
        ensures ParseComparison(group + more) == Read(tree, more)
      {
        assert ParseOr(text + ([RParen] + more)) == Read(tree, [RParen] + more);
        GroupReads(text, tree, more);
      }
      ChainParses(Map(TermText, terms) + [group], Map(TermExpr, terms) + [tree]);
    }
  }

  lemma ChipsOnlyRead(terms: seq<(Dim, string)>)
    requires terms != []
    ensures Parse(ToExpression(Query(terms, None))) == Some(Chain(Map(TermExpr, terms)))
  {
    hide Parse;
    TermsRead(terms);
    ChainParses(Map(TermText, terms), Map(TermExpr, terms));
  }

  lemma TermReads(term: (Dim, string), more: seq<Token>)
    requires EndsComparison(more)
    ensures ParseComparison(TermText(term) + more) == Read(TermExpr(term), more)
  {
    assert PrintOperand(Property(Param(term.0))) == [Word(Param(term.0))];
    assert PrintOperand(Literal(Str(term.1))) == [Lit(Str(term.1))];
    assert Print(TermExpr(term)) == TermText(term);
    ComparisonReads(TermExpr(term), more);
  }

  lemma RestText(rest: seq<Expr>)
    requires rest != [] && Flat(rest)
    requires Joinable(rest)
    ensures ExprText(Join(Map(AdvancedText, rest)), RestExpr(rest))
  {
    hide ParseOr, AdvancedText, RestExpr;
    RestNonEmpty(rest);
    forall after | EndsExpr(after)
      ensures ParseOr(Join(Map(AdvancedText, rest)) + after) == Read(RestExpr(rest), after)
    {
      RestReads(rest, after);
    }
  }

  lemma SplitReads(chips: seq<Expr>, rest: seq<Expr>)
    requires forall i :: 0 <= i < |chips| ==> IsChip(chips[i])
    requires chips + rest != [] && Flat(rest)
    requires Joinable(rest)
    ensures var q := Query(TermsFor(chips), if rest == [] then None else Some(Join(Map(AdvancedText, rest))));
            && Recombined(chips, rest) != []
            && Parse(ToExpression(q)) == Some(Chain(Recombined(chips, rest)))
  {
    hide IsChip, AdvancedText, RestExpr, Parse, ToExpression, ExprText;
    if rest == [] {
      ChipsOnlyRead(TermsFor(chips));
      assert Recombined(chips, rest) == Map(TermExpr, TermsFor(chips));
    } else {
      RestText(rest);
      QueryReads(TermsFor(chips), Join(Map(AdvancedText, rest)), RestExpr(rest));
    }
  }
}
