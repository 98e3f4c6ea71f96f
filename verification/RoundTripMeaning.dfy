/** Splitting, printing and re-parsing keeps the meaning of a splittable expression on every row. */
module RoundTripMeaning {
  import opened Wrappers
  import opened Events
  import opened Seqs
  import opened FilterSyntax
  import opened Predicates
  import opened Decompose
  import opened Conjunctions
  import opened Resplit

  /** Kleene conjunction of values, where an expression that does not compile spoils the whole. */
  function Both(a: Option<Tri>, b: Option<Tri>): Option<Tri> {
    if a.None? || b.None? then None else Some(AndK(a.value, b.value))
  }

  function AllOf(cs: seq<Expr>, e: Event, w: World): Option<Tri> {
    if cs == [] then Some(True) else Both(AllOf(cs[..|cs| - 1], e, w), Denote(cs[|cs| - 1], e, w))
  }

  lemma {:induction false} AllOfConcat(a: seq<Expr>, b: seq<Expr>, e: Event, w: World)
    ensures AllOf(a + b, e, w) == Both(AllOf(a, e, w), AllOf(b, e, w))
  {
    hide Denote;
    if b == [] {
      assert a + b == a;
    } else {
      assert (a + b)[..|a + b| - 1] == a + b[..|b| - 1];
      AllOfConcat(a, b[..|b| - 1], e, w);
    }
  }

  lemma AllOfOne(c: Expr, e: Event, w: World)
    ensures AllOf([c], e, w) == Denote(c, e, w)
  {
  }

  lemma {:induction false} ConjunctsMean(x: Expr, e: Event, w: World)
    ensures AllOf(Conjuncts(x), e, w) == Denote(x, e, w)
  {
    hide Denote;
    if IsAnd(x) {
      ConjunctsMean(x.left, e, w);
      ConjunctsMean(x.right, e, w);
      AllOfConcat(Conjuncts(x.left), Conjuncts(x.right), e, w);
      DenoteLogical(x.left, And, x.right, e, w);
    } else {
      AllOfOne(x, e, w);
    }
  }

  lemma {:induction false} ChainMeans(cs: seq<Expr>, e: Event, w: World)
    requires cs != []
    ensures Denote(Chain(cs), e, w) == AllOf(cs, e, w)
  {
    hide Denote;
    if |cs| == 1 {
      AllOfOne(cs[0], e, w);
      assert cs == [cs[0]];
    } else {
      ChainMeans(cs[..|cs| - 1], e, w);
      DenoteLogical(Chain(cs[..|cs| - 1]), And, cs[|cs| - 1], e, w);
    }
  }

  /** Moving the chips in front of the remainder does not change a conjunction. */
  lemma {:induction false} SplitMeans(cs: seq<Expr>, e: Event, w: World)
    ensures AllOf(cs, e, w) == Both(AllOf(Chips(cs), e, w), AllOf(Rest(cs), e, w))
  {
    hide Denote, IsChip, Both, AllOf;
    if cs == [] {
      assert AllOf([], e, w) == Both(AllOf([], e, w), AllOf([], e, w)) by { AllOfNone(e, w); }
    } else {
      var front, last := cs[..|cs| - 1], cs[|cs| - 1];
      assert cs == front + [last];
      SplitMeans(front, e, w);
      AllOfConcat(front, [last], e, w);
      BothSwaps(AllOf(Chips(front), e, w), AllOf(Rest(front), e, w), AllOf([last], e, w));
      if IsChip(last) {
        AllOfConcat(Chips(front), [last], e, w);
      } else {
        AllOfConcat(Rest(front), [last], e, w);
      }
    }
  }

  lemma AllOfNone(e: Event, w: World)
    ensures AllOf([], e, w) == Both(AllOf([], e, w), AllOf([], e, w))
  {
  }

  lemma BothSwaps(a: Option<Tri>, b: Option<Tri>, c: Option<Tri>)
    ensures Both(Both(a, b), c) == Both(Both(a, c), b) == Both(a, Both(b, c))
  {
  }

  lemma {:induction false} FindDimParam(param: string, dims: seq<Dim>)
    requires FindDim(param, dims).Some?
    ensures Param(FindDim(param, dims).value) == param
  {
    if Param(dims[0]) != param {
      FindDimParam(param, dims[1..]);
    }
  }

  lemma ParamIsLower(dim: Dim)
    ensures Lower(Param(dim)) == Param(dim)
  {
    match dim
    case _ =>
  }

  /** Printing a chip in canonical case does not change what it selects. */
  lemma ChipMeans(chip: Expr, e: Event, w: World)
    requires IsChip(chip)
    ensures Denote(TermExpr(TermOf(chip)), e, w) == Denote(chip, e, w)
  {
    hide Param, Lower, FieldFor, VisitBinary, Eval;
    FindDimParam(Lower(chip.left.name), ALL);
    ParamIsLower(ChipDim(chip));
    var canonical := TermExpr(TermOf(chip));
    assert Visit(canonical.left, w.context, w.glob) == Visit(chip.left, w.context, w.glob);
    assert Visit(canonical, w.context, w.glob) == Visit(chip, w.context, w.glob);
    assert Compile(canonical, w.context, w.glob) == Compile(chip, w.context, w.glob);
  }

  lemma {:induction false} ChipsMean(chips: seq<Expr>, e: Event, w: World)
    requires forall i :: 0 <= i < |chips| ==> IsChip(chips[i])
    ensures AllOf(Map(TermExpr, TermsFor(chips)), e, w) == AllOf(chips, e, w)
  {
    hide Denote, IsChip, TermExpr, TermOf;
    if chips != [] {
      var n := |chips| - 1;
      ChipsMean(chips[..n], e, w);
      var all := Map(TermExpr, TermsFor(chips));
      assert all[..n] == Map(TermExpr, TermsFor(chips[..n]));
      ChipMeans(chips[n], e, w);
    }
  }

  lemma ReassociatedMeans(x: Expr, e: Event, w: World)
    ensures Denote(Reassociated(x), e, w) == Denote(x, e, w)
  {
    hide Denote;
    if IsOr(x) && IsOr(x.right) {
      DenoteLogical(x.left, Or, x.right, e, w);
      DenoteLogical(x.right.left, Or, x.right.right, e, w);
      DenoteLogical(x.left, Or, x.right.left, e, w);
      DenoteLogical(Logical(x.left, Or, x.right.left), Or, x.right.right, e, w);
    }
  }

  lemma RestMeans(rest: seq<Expr>, e: Event, w: World)
    requires rest != []
    ensures AllOf([RestExpr(rest)], e, w) == AllOf(rest, e, w)
  {
    hide Denote;
    AllOfOne(RestExpr(rest), e, w);
    if |rest| == 1 {
      ReassociatedMeans(rest[0], e, w);
      AllOfOne(rest[0], e, w);
      assert rest == [rest[0]];
    } else {
      ChainMeans(rest, e, w);
    }
  }

  lemma RecombinedMeans(chips: seq<Expr>, rest: seq<Expr>, e: Event, w: World)
    requires forall i :: 0 <= i < |chips| ==> IsChip(chips[i])
    ensures AllOf(Recombined(chips, rest), e, w) == Both(AllOf(chips, e, w), AllOf(rest, e, w))
  {
    hide Denote, IsChip, TermExpr, RestExpr, AllOf, TermsFor;
    ChipsMean(chips, e, w);
    var terms := Map(TermExpr, TermsFor(chips));
    if rest == [] {
      assert Recombined(chips, rest) == terms == terms + [];
      AllOfConcat(terms, [], e, w);
    } else {
      AllOfConcat(terms, [RestExpr(rest)], e, w);
      RestMeans(rest, e, w);
    }
  }

  /**
   Decomposing an expression, printing the query and parsing it again keeps the value of the
   expression on every row, nulls and compile errors included, under any vocabulary.
   */
  lemma RoundTripKeepsMeaning(x: Expr, e: Event, w: World)
    requires Splittable(x)
    ensures var y := Parse(ToExpression(Assemble(Pieces(x))));
            y.Some? && Denote(y.value, e, w) == Denote(x, e, w)
  {
    hide Denote, IsChip, ChipDim, Recombined, Chain, ToExpression, Parse, AdvancedText;
    var cs := Conjuncts(x);
    var chips, rest := Chips(cs), Rest(cs);
    PiecesAreConjuncts(x);
    SplitTerms(cs);
    SplitAdvanced(cs);
    ChipsAreChips(cs);
    SplitCovers(cs);
    SplitReads(chips, rest);
    ChainMeans(Recombined(chips, rest), e, w);
    RecombinedMeans(chips, rest, e, w);
    SplitMeans(cs, e, w);
    ConjunctsMean(x, e, w);
  }

  lemma SplitCovers(cs: seq<Expr>)
    requires cs != []
    ensures Chips(cs) + Rest(cs) != []
    ensures Flat(cs) ==> Flat(Rest(cs))
  {
    hide IsChip;
    var c := cs[0];
    assert c in cs;
    assert c in Chips(cs) || c in Rest(cs);
    forall i | 0 <= i < |Rest(cs)| && Flat(cs) ensures !IsAnd(Rest(cs)[i]) {
      assert Rest(cs)[i] in Rest(cs);
      var j :| 0 <= j < |cs| && cs[j] == Rest(cs)[i];
    }
  }
}
