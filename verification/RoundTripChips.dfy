/** Splitting, printing and re-parsing keeps the chips, exactly when the expression is splittable. */
module RoundTripChips {
  import opened Wrappers
  import opened Events
  import opened Seqs
  import opened FilterSyntax
  import opened Predicates
  import opened Decompose
  import opened Conjunctions
  import opened Resplit
  import opened RoundTripMeaning

  lemma {:induction false} ConjunctsOfChain(cs: seq<Expr>)
    requires cs != []
    ensures Conjuncts(Chain(cs)) == FlattenConjuncts(cs)
  {
    if |cs| > 1 {
      ConjunctsOfChain(cs[..|cs| - 1]);
    } else {
      assert cs[..0] == [];
      assert FlattenConjuncts([]) == [];
    }
  }

  function FlattenConjuncts(cs: seq<Expr>): seq<Expr> {
    if cs == [] then [] else FlattenConjuncts(cs[..|cs| - 1]) + Conjuncts(cs[|cs| - 1])
  }

  lemma {:induction false} FlatConjuncts(cs: seq<Expr>)
    requires Flat(cs)
    ensures FlattenConjuncts(cs) == cs
  {
    if cs != [] {
      FlatConjuncts(cs[..|cs| - 1]);
      assert cs == cs[..|cs| - 1] + [cs[|cs| - 1]];
    }
  }

  /** What the re-parsed expression decomposes into. */
  function Settled(rest: seq<Expr>): seq<Expr> { if |rest| == 1 then [Reassociated(rest[0])] else rest }

  lemma TermIsChip(term: (Dim, string))
    ensures IsChip(TermExpr(term)) && TermOf(TermExpr(term)) == term
  {
    hide Param, Lower;
    ParamIsLower(term.0);
    NameRoundTrip(term.0);
  }

  lemma {:induction false} FindDimFinds(dim: Dim, dims: seq<Dim>)
    requires dim in dims
    ensures FindDim(Param(dim), dims).Some?
  {
    hide Param;
    if dims[0] != dim {
      FindDimFinds(dim, dims[1..]);
    }
  }

  lemma InAll(dim: Dim)
    ensures dim in ALL
  {
  }

  lemma ParamInjective(a: Dim, b: Dim)
    requires Param(a) == Param(b)
    ensures a == b
  {
  }

  lemma NameRoundTrip(dim: Dim)
    ensures FromParam(Param(dim)) == Some(dim)
  {
    hide Param;
    InAll(dim);
    FindDimFinds(dim, ALL);
    FindDimParam(Param(dim), ALL);
    ParamInjective(FromParam(Param(dim)).value, dim);
  }

  /** The dimension of each field name that is read as a chip. */
  lemma ChipNames()
    ensures FromParam("project") == Some(Project) && FromParam("source") == Some(Source)
    ensures FromParam("path") == Some(Path) && FromParam("referrer") == Some(Referrer)
    ensures FromParam("country") == Some(Country) && FromParam("language") == Some(Language)
    ensures FromParam("browser") == Some(Browser) && FromParam("version") == Some(Version)
    ensures FromParam("os") == Some(Os) && FromParam("device") == Some(Device)
    ensures FromParam("utm_source") == Some(UtmSource) && FromParam("utm_medium") == Some(UtmMedium)
    ensures FromParam("utm_campaign") == Some(UtmCampaign) && FromParam("app_version") == Some(AppVersion)
    ensures FromParam("event") == Some(EventName)
  {
    hide FromParam;
    forall dim: Dim ensures FromParam(Param(dim)) == Some(dim) {
      NameRoundTrip(dim);
    }
    assert Param(Project) == "project" && Param(Source) == "source" && Param(Path) == "path";
    assert Param(Referrer) == "referrer" && Param(Country) == "country" && Param(Language) == "language";
    assert Param(Browser) == "browser" && Param(Version) == "version" && Param(Os) == "os";
    assert Param(Device) == "device" && Param(UtmSource) == "utm_source" && Param(UtmMedium) == "utm_medium";
    assert Param(UtmCampaign) == "utm_campaign" && Param(AppVersion) == "app_version";
    assert Param(EventName) == "event";
  }

  lemma {:induction false} FilterConcat<A(!new)>(p: A -> bool, a: seq<A>, b: seq<A>)
    ensures Filter(p, a + b) == Filter(p, a) + Filter(p, b)
  {
    if b == [] {
      assert a + b == a;
    } else {
      assert (a + b)[..|a + b| - 1] == a + b[..|b| - 1];
      FilterConcat(p, a, b[..|b| - 1]);
    }
  }

  lemma {:induction false} FilterNone<A(!new)>(p: A -> bool, s: seq<A>)
    requires forall x :: x in s ==> !p(x)
    ensures Filter(p, s) == []
  {
    if s != [] {
      FilterNone(p, s[..|s| - 1]);
    }
  }

  lemma SplitConcat(chips: seq<Expr>, rest: seq<Expr>)
    requires forall c :: c in chips ==> IsChip(c)
    requires forall c :: c in rest ==> !IsChip(c)
    ensures Chips(chips + rest) == chips && Rest(chips + rest) == rest
  {
    hide IsChip;
    var other := (c: Expr) => !IsChip(c);
    FilterConcat(IsChip, chips, rest);
    FilterConcat(other, chips, rest);
    FilterAll(IsChip, chips);
    FilterNone(IsChip, rest);
    FilterAll(other, rest);
    FilterNone(other, chips);
    assert chips + [] == chips && [] + rest == rest;
  }

  /** An expression the grammar rejects is shown and sent back verbatim. */
  lemma UnparseableIsVerbatim(text: seq<Token>)
    requires Parse(text).None?
    ensures ToExpression(QueryOf(text)) == text && QueryOf(ToExpression(QueryOf(text))) == QueryOf(text)
  {
  }

  // ------------------------------------------------------------- what the remainder is read as

  function RestTree(rest: seq<Expr>): Expr
    requires rest != []
  {
    JoinedNonEmpty(rest);
    Closed(Scanned(JoinedItems(rest)))
  }

  lemma JoinedNonEmpty(rest: seq<Expr>)
    requires rest != []
    ensures JoinedItems(rest) != []
  {
  }

  /** However the pieces mix, their joined text reads as some tree. */
  lemma AnyRestText(rest: seq<Expr>)
    requires rest != []
    ensures ExprText(Join(Map(AdvancedText, rest)), RestTree(rest))
  {
    hide ParseOr, AdvancedText, AdvancedItems, JoinedItems, Scanned, ItemsRead;
    RestNonEmpty(rest);
    JoinedReads(rest);
    JoinedNonEmpty(rest);
    var items := JoinedItems(rest);
    forall after | EndsExpr(after)
      ensures ParseOr(Join(Map(AdvancedText, rest)) + after) == Read(RestTree(rest), after)
    {
      FlatReads(items, after);
      var c := Scanned(items);
      assert AndTail(c.current, after) == Read(c.current, after);
      assert OrTail(Closed(c), after) == Read(Closed(c), after);
    }
  }

  lemma {:induction false} JoinedHasOr(rest: seq<Expr>, j: nat) returns (k: nat)
    requires j < |rest| && IsOr(rest[j])
    ensures 0 < k < |JoinedItems(rest)| && JoinedItems(rest)[k].lop == Or
  {
    hide Print, PrintOperand;
    var front, last := rest[..|rest| - 1], rest[|rest| - 1];
    if j < |rest| - 1 {
      k := JoinedHasOr(front, j);
    } else {
      k := |JoinedItems(front)| + |SurfaceItems(And, last.left)|;
      assert AdvancedItems(last)[|SurfaceItems(And, last.left)|] == SurfaceItems(Or, last.right)[0];
    }
  }

  lemma SpoiltRest(rest: seq<Expr>, j: nat)
    requires j < |rest| && IsOr(rest[j])
    ensures IsOr(RestTree(rest))
  {
    hide JoinedItems;
    var k := JoinedHasOr(rest, j);
    OrSpoils(JoinedItems(rest), k);
  }

  lemma {:induction false} FilterCounts<A(!new)>(p: A -> bool, s: seq<A>)
    ensures |Filter(p, s)| <= |s|
    ensures |Filter(p, s)| == |s| ==> forall x :: x in s ==> p(x)
  {
    if s != [] {
      FilterCounts(p, s[..|s| - 1]);
      assert s == s[..|s| - 1] + [s[|s| - 1]];
    }
  }

  /** When no term was replaced, the last chip's dimension is new. */
  lemma DistinctSnoc(chips: seq<Expr>, last: Expr)
    requires DistinctDims(chips) && IsChip(last)
    requires |Retain(TermsFor(chips), ChipDim(last))| == |chips|
    ensures DistinctDims(chips + [last])
  {
    hide IsChip, ChipDim;
    var terms, all := TermsFor(chips), chips + [last];
    FilterCounts((t: (Dim, string)) => t.0 != ChipDim(last), terms);
    forall i, j | 0 <= i < j < |all| ensures ChipDim(all[i]) != ChipDim(all[j]) {
      if j == |chips| {
        assert terms[i] in terms && terms[i] == TermOf(chips[i]);
      }
    }
  }

  lemma {:induction false} TermsCount(cs: seq<Expr>)
    ensures |TermsOf(Map(PieceOf, cs))| <= |Chips(cs)|
    ensures |TermsOf(Map(PieceOf, cs))| == |Chips(cs)| ==> DistinctDims(Chips(cs))
  {
    hide IsChip, ChipDim, AdvancedText, DistinctDims, TermsFor;
    if cs == [] {
      assert DistinctDims([]) by { NoChips(); }
    } else {
      var front, last := cs[..|cs| - 1], cs[|cs| - 1];
      assert Map(PieceOf, cs)[..|cs| - 1] == Map(PieceOf, front);
      TermsCount(front);
      if IsChip(last) {
        var terms := TermsOf(Map(PieceOf, front));
        FilterCounts((t: (Dim, string)) => t.0 != ChipDim(last), terms);
        assert Chips(cs) == Chips(front) + [last];
        if |TermsOf(Map(PieceOf, cs))| == |Chips(cs)| {
          SplitTerms(front);
          ChipsAreChips(front);
          DistinctSnoc(Chips(front), last);
        }
      }
    }
  }

  lemma NoChips()
    ensures DistinctDims([])
  {
  }

  lemma TermExprsFlat(terms: seq<(Dim, string)>)
    ensures Flat(Map(TermExpr, terms))
  {
  }

  lemma SameTree(text: seq<Token>, a: Expr, b: Expr)
    requires ExprText(text, a) && ExprText(text, b)
    ensures a == b
  {
    hide ParseOr;
    assert ParseOr(text + []) == Read(a, []);
    assert ParseOr(text + []) == Read(b, []);
  }

  lemma TermsExist(cs: seq<Expr>)
    requires cs != [] && Rest(cs) == []
    ensures TermsOf(Map(PieceOf, cs)) != []
  {
  }

  // ------------------------------------------------------------------------- what is kept

  predicate DistinctTerms(terms: seq<(Dim, string)>) {
    forall i, j :: 0 <= i < j < |terms| ==> terms[i].0 != terms[j].0
  }

  lemma {:induction false} RetainDistinct(terms: seq<(Dim, string)>, dim: Dim)
    requires DistinctTerms(terms)
    ensures DistinctTerms(Retain(terms, dim))
  {
    if terms != [] {
      var front, last := terms[..|terms| - 1], terms[|terms| - 1];
      RetainDistinct(front, dim);
      var kept := Retain(front, dim);
      forall i | 0 <= i < |kept| ensures kept[i].0 != last.0 {
        assert kept[i] in kept && kept[i] in front;
        var k :| 0 <= k < |front| && front[k] == kept[i];
        assert terms[k].0 != terms[|terms| - 1].0;
      }
    }
  }

  /** A query never has two chips of one dimension. */
  lemma {:induction false} TermsDistinct(pieces: seq<Piece>)
    ensures DistinctTerms(TermsOf(pieces))
  {
    if pieces != [] {
      var front, last := pieces[..|pieces| - 1], pieces[|pieces| - 1];
      TermsDistinct(front);
      if last.Term? {
        RetainDistinct(TermsOf(front), last.dim);
        var kept := Retain(TermsOf(front), last.dim);
        forall i | 0 <= i < |kept| ensures kept[i].0 != last.dim {
          assert kept[i] in kept;
        }
      }
    }
  }

  /** Printed chips are the chips they print. */
  lemma CanonicalChips(terms: seq<(Dim, string)>)
    requires DistinctTerms(terms)
    ensures DistinctDims(Map(TermExpr, terms)) && TermsFor(Map(TermExpr, terms)) == terms
    ensures forall c :: c in Map(TermExpr, terms) ==> IsChip(c)
  {
    hide IsChip, ChipDim, TermExpr;
    var canonical := Map(TermExpr, terms);
    forall i | 0 <= i < |terms| ensures IsChip(canonical[i]) && TermOf(canonical[i]) == terms[i] {
      TermIsChip(terms[i]);
    }
    forall i, j | 0 <= i < j < |canonical| ensures ChipDim(canonical[i]) != ChipDim(canonical[j]) {
      assert ChipDim(canonical[i]) == terms[i].0 && ChipDim(canonical[j]) == terms[j].0;
    }
    forall c | c in canonical ensures IsChip(c) {
      var i :| 0 <= i < |canonical| && canonical[i] == c;
    }
  }

  /** The re-read remainder has the pieces as its conjuncts, or is one disjunction. */
  lemma RestSettles(rest: seq<Expr>)
    requires rest != [] && Flat(rest)
    ensures if Joinable(rest) then Conjuncts(RestTree(rest)) == Settled(rest) else IsOr(RestTree(rest))
  {
    hide ParseOr, RestTree, AdvancedText;
    if Joinable(rest) {
      RestText(rest);
      AnyRestText(rest);
      SameTree(Join(Map(AdvancedText, rest)), RestTree(rest), RestExpr(rest));
      if |rest| > 1 {
        ConjunctsOfChain(rest);
        FlatConjuncts(rest);
      }
    } else {
      var j :| 0 <= j < |rest| && IsOr(rest[j]);
      SpoiltRest(rest, j);
    }
  }

  lemma RestHasNoChips(rest: seq<Expr>)
    requires rest != [] && Flat(rest) && forall c :: c in rest ==> !IsChip(c)
    ensures forall c :: c in Conjuncts(RestTree(rest)) ==> !IsChip(c)
  {
    hide RestTree, IsChip;
    RestSettles(rest);
    if !Joinable(rest) {
      OrIsNoChip(RestTree(rest));
    } else if |rest| == 1 && IsOr(rest[0]) {
      OrIsNoChip(Reassociated(rest[0]));
    }
  }

  /** The tail of the re-parsed conjunction: nothing, or the conjuncts of the re-read remainder. */
  function Tail(rest: seq<Expr>): seq<Expr> { if rest == [] then [] else Conjuncts(RestTree(rest)) }

  function Remainder(rest: seq<Expr>): Option<seq<Token>> {
    if rest == [] then None else Some(Join(Map(AdvancedText, rest)))
  }

  lemma ReparsedConjuncts(terms: seq<(Dim, string)>, rest: seq<Expr>)
    requires terms != [] || rest != []
    ensures var y := Parse(ToExpression(Query(terms, Remainder(rest))));
            y.Some? && Conjuncts(y.value) == Map(TermExpr, terms) + Tail(rest)
  {
    hide Parse, ToExpression, AdvancedText, RestTree, ExprText;
    var front := Map(TermExpr, terms);
    TermExprsFlat(terms);
    FlatConjuncts(front);
    if rest == [] {
      ChipsOnlyRead(terms);
      ConjunctsOfChain(front);
      assert front + Tail(rest) == front;
    } else {
      AnyRestText(rest);
      QueryReads(terms, Join(Map(AdvancedText, rest)), RestTree(rest));
      ConjunctsOfChain(front + [RestTree(rest)]);
      assert (front + [RestTree(rest)])[..|front|] == front;
    }
  }

  /** Any chips of distinct dimensions and any remainder: the query of the printed text. */
  lemma ReparsedQuery(terms: seq<(Dim, string)>, rest: seq<Expr>)
    requires (terms != [] || rest != []) && DistinctTerms(terms)
    requires Flat(rest) && forall c :: c in rest ==> !IsChip(c)
    ensures QueryOf(ToExpression(Query(terms, Remainder(rest)))) == Query(terms, Remainder(Tail(rest)))
  {
    hide IsChip, Parse, ToExpression, AdvancedText, RestTree, Conjuncts, TermExpr, DistinctDims, Chips, Rest, TermsFor, Join;
    var text := ToExpression(Query(terms, Remainder(rest)));
    var front := Map(TermExpr, terms);
    ReparsedConjuncts(terms, rest);
    var cs := front + Tail(rest);
    if rest != [] {
      RestHasNoChips(rest);
    }
    CanonicalChips(terms);
    SplitConcat(front, Tail(rest));
    PiecesAreConjuncts(Parse(text).value);
    SplitTerms(cs);
    SplitAdvanced(cs);
    PrintedNonEmpty(terms, rest);
    assert Map(AdvancedText, Tail(rest)) == [] <==> Tail(rest) == [];
  }

  lemma PrintedNonEmpty(terms: seq<(Dim, string)>, rest: seq<Expr>)
    requires terms != [] || rest != []
    ensures ToExpression(Query(terms, Remainder(rest))) != []
  {
    if rest != [] {
      RestNonEmpty(rest);
    }
  }

  // The remainder: which texts survive re-association.

  lemma FirstOther(p: seq<Token>) returns (i: nat)
    ensures i <= |p| && (forall k :: 0 <= k < i ==> p[k] == LParen) && (i < |p| ==> p[i] != LParen)
  {
    i := 0;
    while i < |p| && p[i] == LParen
      invariant i <= |p| && forall k :: 0 <= k < i ==> p[k] == LParen
    {
      i := i + 1;
    }
  }

  /** A text and its parenthesised form differ, whatever follows the connective behind the text. */
  lemma ParenthesesShow(p: seq<Token>, a: seq<Token>, b: seq<Token>)
    requires p != [] && b != []
    ensures p + [LOp(Or)] + a != [LParen] + p + b
  {
    var i := FirstOther(p);
    var x, y := p + [LOp(Or)] + a, [LParen] + p + b;
    assert x[i] != LParen;
    assert y[i] == if i == 0 then LParen else p[i - 1];
  }

  /** A right-nested disjunction keeps its text exactly when its outer operands need no parentheses. */
  lemma ReassociatedTextIff(e: Expr)
    requires IsOr(e) && IsOr(e.right)
    ensures AdvancedText(Reassociated(e)) == AdvancedText(e) <==> Atomic(e.left) && Atomic(e.right.right)
  {
    hide Print;
    var a, b, c := e.left, e.right.left, e.right.right;
    var or := [LOp(Or)];
    OrText(b, c);
    OrText(a, b);
    assert AdvancedText(e) == Print(a) + or + (PrintOperand(b) + or + PrintOperand(c));
    assert AdvancedText(Reassociated(e)) == (PrintOperand(a) + or + PrintOperand(b)) + or + Print(c);
    if Atomic(a) {
      var front := Print(a) + or + PrintOperand(b) + or;
      assert AdvancedText(e) == front + PrintOperand(c);
      assert AdvancedText(Reassociated(e)) == front + Print(c);
      assert |AdvancedText(e)| == |AdvancedText(Reassociated(e))| <==> |PrintOperand(c)| == |Print(c)|;
    } else {
      PrintsSomething(a);
      var rest := [RParen] + or + PrintOperand(b) + or + Print(c);
      ParenthesesShow(Print(a), PrintOperand(b) + or + PrintOperand(c), rest);
      assert AdvancedText(Reassociated(e)) == [LParen] + Print(a) + rest;
    }
  }

  lemma OrText(l: Expr, r: Expr)
    ensures Print(Logical(l, Or, r)) == PrintOperand(l) + [LOp(Or)] + PrintOperand(r)
  {
  }

  lemma PrintsSomething(e: Expr)
    ensures Print(e) != []
  {
  }

  /** A remainder that is not one right-nested disjunction with an outer operand in parentheses. */
  predicate KeepsText(rest: seq<Expr>) {
    |rest| == 1 && IsOr(rest[0]) && IsOr(rest[0].right) ==> Atomic(rest[0].left) && Atomic(rest[0].right.right)
  }

  lemma SettledTextIff(rest: seq<Expr>)
    requires Joinable(rest)
    ensures Remainder(Settled(rest)) == Remainder(rest) <==> KeepsText(rest)
  {
    hide AdvancedText, Atomic;
    if |rest| == 1 {
      assert Map(AdvancedText, rest) == [AdvancedText(rest[0])];
      assert Map(AdvancedText, Settled(rest)) == [AdvancedText(Reassociated(rest[0]))];
      if IsOr(rest[0]) && IsOr(rest[0].right) {
        ReassociatedTextIff(rest[0]);
      }
    }
  }

  /**
   For every expression the re-parsed query has the same chips in the same order; and when the
   advanced pieces join safely, it is the same query exactly when the remainder keeps its text.
   */
  lemma RoundTripKeepsChips(x: Expr)
    ensures var q := Assemble(Pieces(x));
            var q' := QueryOf(ToExpression(q));
            && q'.terms == q.terms
            && (Joinable(Rest(Conjuncts(x))) ==> (q' == q <==> KeepsText(Rest(Conjuncts(x)))))
  {
    hide IsChip, ChipDim, ToExpression, Parse, AdvancedText, Conjuncts, KeepsText, Join, PieceOf, RestTree;
    var cs := Conjuncts(x);
    var rest := Rest(cs);
    PiecesAreConjuncts(x);
    SplitAdvanced(cs);
    ChipsAreChips(cs);
    SplitCovers(cs);
    TermsDistinct(Map(PieceOf, cs));
    var terms := TermsOf(Map(PieceOf, cs));
    if rest == [] {
      TermsExist(cs);
    }
    assert Assemble(Pieces(x)) == Query(terms, Remainder(rest));
    ReparsedQuery(terms, rest);
    if Joinable(rest) {
      if rest != [] {
        RestSettles(rest);
      }
      SettledTextIff(rest);
    }
  }

  // ------------------------------------------------------------- exactly when it splits again

  lemma {:induction false} SplitCounts(cs: seq<Expr>)
    ensures |Chips(cs)| + |Rest(cs)| == |cs|
  {
    hide IsChip;
    if cs != [] {
      SplitCounts(cs[..|cs| - 1]);
    }
  }

  /**
   For every expression, the printed query parses; and it splits into as many conjuncts as the
   expression had exactly when no chip dimension repeats and the advanced pieces join safely.
   */
  lemma SplitsAgainIff(x: Expr)
    ensures var y := Parse(ToExpression(Assemble(Pieces(x))));
            y.Some? && (|Conjuncts(y.value)| == |Conjuncts(x)| <==> Splittable(x))
  {
    hide IsChip, ChipDim, Parse, ToExpression, AdvancedText, RestTree, Conjuncts, Join, PieceOf, DistinctDims, Chips, Rest;
    var cs := Conjuncts(x);
    var terms, rest := TermsOf(Map(PieceOf, cs)), Rest(cs);
    PiecesAreConjuncts(x);
    SplitAdvanced(cs);
    SplitCovers(cs);
    SplitCounts(cs);
    TermsCount(cs);
    if DistinctDims(Chips(cs)) {
      SplitTerms(cs);
    }
    if rest == [] {
      TermsExist(cs);
    } else {
      RestSettles(rest);
      OneConjunct(RestTree(rest));
    }
    assert Assemble(Pieces(x)) == Query(terms, Remainder(rest));
    ReparsedConjuncts(terms, rest);
  }

  lemma OneConjunct(e: Expr)
    ensures IsOr(e) ==> |Conjuncts(e)| == 1
  {
  }

  // --------------------------------------------------------------- what unsafe queries turn into

  lemma OneDimension(a: (Dim, string), b: (Dim, string))
    requires a.0 == b.0
    ensures Assemble([Term(a.0, a.1), Term(b.0, b.1)]) == Query([b], None)
  {
    var pieces := [Term(a.0, a.1), Term(b.0, b.1)];
    assert pieces[..1] == [Term(a.0, a.1)];
    assert [Term(a.0, a.1)][..0] == [] && [a][..0] == [];
    assert TermsOf([]) == [] && Retain([], a.0) == [] && AdvancedOf([]) == [];
    assert TermsOf(pieces[..1]) == [a] && AdvancedOf(pieces[..1]) == [];
    assert Retain([a], b.0) == [];
  }

  /** The condition matters: of two chips on one dimension only the later one survives. */
  lemma RepeatedDimensionWidens(a: Expr, b: Expr, e: Event, w: World)
    requires IsChip(a) && IsChip(b) && ChipDim(a) == ChipDim(b)
    requires Denote(a, e, w) == Some(False) && Denote(b, e, w) == Some(True)
    ensures var x := Logical(a, And, b);
            var y := Parse(ToExpression(Assemble(Pieces(x))));
            y == Some(TermExpr(TermOf(b))) && !Keeps(x, e, w) && Keeps(y.value, e, w)
  {
    hide Denote, Parse, ToExpression, ChipDim, TermExpr, Assemble;
    OneDimension(TermOf(a), TermOf(b));
    assert Pieces(Logical(a, And, b)) == [PieceOf(a), PieceOf(b)];
    ChipsOnlyRead([TermOf(b)]);
    assert Map(TermExpr, [TermOf(b)]) == [TermExpr(TermOf(b))];
    ChipMeans(b, e, w);
    DenoteLogical(a, And, b, e, w);
  }

  /** And so does a disjunction joined to a second advanced piece: its left side escapes the rest. */
  lemma JoinedDisjunctionWidens(p: Expr, q: Expr, r: Expr, e: Event, w: World)
    requires !p.Logical? && !q.Logical? && !r.Logical? && !IsChip(r)
    requires Denote(p, e, w) == Some(True) && Denote(q, e, w).Some? && Denote(r, e, w) == Some(False)
    ensures var x := Logical(Logical(p, Or, q), And, r);
            var y := Parse(ToExpression(Assemble(Pieces(x))));
            y == Some(Logical(p, Or, Logical(q, And, r))) && !Keeps(x, e, w) && Keeps(y.value, e, w)
  {
    hide Denote, IsChip, Parse, ToExpression, Assemble, Pieces, OrK, AndK;
    JoinedReparsed(p, q, r);
    DenoteLogical(p, Or, q, e, w);
    DenoteLogical(Logical(p, Or, q), And, r, e, w);
    DenoteLogical(q, And, r, e, w);
    DenoteLogical(p, Or, Logical(q, And, r), e, w);
    TrueOr();
  }

  lemma TrueOr()
    ensures forall t: Tri :: OrK(True, t) == True && AndK(True, t) == t && AndK(t, False) == False
  {
  }

  lemma JoinedReparsed(p: Expr, q: Expr, r: Expr)
    requires !p.Logical? && !q.Logical? && !r.Logical? && !IsChip(r)
    ensures var x := Logical(Logical(p, Or, q), And, r);
            Parse(ToExpression(Assemble(Pieces(x)))) == Some(Logical(p, Or, Logical(q, And, r)))
  {
    hide IsChip, Parse, ToExpression, Assemble, AdvancedText, ExprText, Join, RestTree;
    var or := Logical(p, Or, q);
    var rest := [or, r];
    OrIsNoChip(or);
    assert Pieces(Logical(or, And, r)) == [Advanced(AdvancedText(or)), Advanced(AdvancedText(r))];
    AnyRestText(rest);
    TwoAdvanced(AdvancedText(or), AdvancedText(r));
    assert Map(AdvancedText, rest) == [AdvancedText(or), AdvancedText(r)];
    QueryReads([], Join(Map(AdvancedText, rest)), RestTree(rest));
    assert Map(TermExpr, []) + [RestTree(rest)] == [RestTree(rest)];
    RestTreeOf(p, q, r);
  }

  lemma OrIsNoChip(e: Expr)
    requires IsOr(e)
    ensures !IsChip(e)
  {
  }

  lemma TwoAdvanced(a: seq<Token>, b: seq<Token>)
    ensures Assemble([Advanced(a), Advanced(b)]) == Query([], Some(Join([a, b])))
  {
    var pieces := [Advanced(a), Advanced(b)];
    assert pieces[..1] == [Advanced(a)];
    assert [Advanced(a)][..0] == [];
    assert TermsOf([]) == [] && AdvancedOf([]) == [];
    assert TermsOf([Advanced(a)]) == [] && AdvancedOf([Advanced(a)]) == [a];
    assert TermsOf(pieces) == [] && AdvancedOf(pieces) == [a, b];
  }

  lemma RestTreeOf(p: Expr, q: Expr, r: Expr)
    requires !p.Logical? && !q.Logical? && !r.Logical?
    ensures RestTree([Logical(p, Or, q), r]) == Logical(p, Or, Logical(q, And, r))
  {
    hide Print;
    var or := Logical(p, Or, q);
    var rest := [or, r];
    assert rest[..1] == [or] && [or][..0] == [];
    var items := [Item(And, Print(p), p), Item(Or, Print(q), q), Item(And, Print(r), r)];
    assert JoinedItems([or]) == items[..2];
    assert JoinedItems(rest) == items;
    assert items[..2][..1] == items[..1];
    assert Scanned(items[..1]) == Cursor(None, p);
    assert Scanned(items[..2]) == Cursor(Some(p), q);
  }

  // Both happen: on the dashboard, for a page view from Britain.

  function FromBritain(): Event { BlankRow(PageLoad, "https://a").(dims := map["country" := "GB"]) }

  lemma CountryMeans(value: string, w: World)
    requires w.context.fields == Dashboard && value != ""
    ensures Denote(Compare("country", Equals, Str(value)), FromBritain(), w) == Some(TriOf(Lower("GB") == Lower(value)))
    ensures Denote(Compare("country", NotEquals, Str(value)), FromBritain(), w) == Some(TriOf(Lower("GB") != Lower(value)))
  {
    NoCapitals();
    var f := TheField("country", w);
    hide Lower, Visit;
    EqMeans("country", value, FromBritain(), w);
    DenoteCompare("country", Equals, Str(value), FromBritain(), w);
    DenoteCompare("country", NotEquals, Str(value), FromBritain(), w);
    EvalStringEq(f, value, FromBritain(), w);
  }

  lemma NoCapitals()
    ensures Lower("country") == "country"
  {
  }

  lemma Differ()
    ensures Lower("GB") != Lower("US") && Lower("GB") != Lower("FR")
  {
    assert Lower("GB")[0] == 'g' && Lower("US")[0] == 'u' && Lower("FR")[0] == 'f';
  }

  /** `country == "US" && country == "GB"` finds nothing, and once re-parsed everything from Britain. */
  lemma TwoCountriesWiden(w: World)
    requires w.context.fields == Dashboard
    ensures var x := Logical(Compare("country", Equals, Str("US")), And, Compare("country", Equals, Str("GB")));
            var y := Parse(ToExpression(Assemble(Pieces(x))));
            y == Some(Compare("country", Equals, Str("GB")))
            && !Keeps(x, FromBritain(), w) && Keeps(y.value, FromBritain(), w)
  {
    Differ();
    CountryMeans("US", w);
    CountryMeans("GB", w);
    TermIsChip((Country, "US"));
    TermIsChip((Country, "GB"));
    hide IsChip, ChipDim, Lower, Denote, Parse, ToExpression, Assemble, Pieces, Keeps;
    RepeatedDimensionWidens(TermExpr((Country, "US")), TermExpr((Country, "GB")), FromBritain(), w);
  }

  /** `(country != "US" || country != "FR") && country != "GB"` keeps no row from Britain, and once re-parsed it does. */
  lemma JoinedCountriesWiden(w: World)
    requires w.context.fields == Dashboard
    ensures var us, fr := Compare("country", NotEquals, Str("US")), Compare("country", NotEquals, Str("FR"));
            var gb := Compare("country", NotEquals, Str("GB"));
            var x := Logical(Logical(us, Or, fr), And, gb);
            var y := Parse(ToExpression(Assemble(Pieces(x))));
            y == Some(Logical(us, Or, Logical(fr, And, gb)))
            && !Keeps(x, FromBritain(), w) && Keeps(y.value, FromBritain(), w)
  {
    Differ();
    CountryMeans("US", w);
    CountryMeans("FR", w);
    CountryMeans("GB", w);
    var us, fr := Compare("country", NotEquals, Str("US")), Compare("country", NotEquals, Str("FR"));
    var gb := Compare("country", NotEquals, Str("GB"));
    assert !IsChip(gb);
    hide IsChip, Lower, Denote, Parse, ToExpression, Assemble, Pieces, Keeps;
    JoinedDisjunctionWidens(us, fr, gb, FromBritain(), w);
  }
}
