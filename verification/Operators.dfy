/** What each operator of the filter language keeps, stated on the cells themselves (agent/src/analytics/filter.rs). */
module Operators {
  import opened Wrappers
  import opened Seqs
  import opened Events
  import opened FilterSyntax
  import opened Predicates

  predicate IsString(property: string, w: World) { IsField(property, w) && !TheField(property, w).boolean }

  function CellFor(property: string, e: Event, w: World): Option<string>
    requires IsString(property, w)
  {
    Cell(e, TheField(property, w).column)
  }

  // ------------------------------------------------------------------- substrings and affixes

  lemma PrefixSplits(text: string, needle: string)
    ensures Fits(Prefix, text, needle) <==> exists rest :: text == needle + rest
  {
    if needle <= text {
      assert text == needle + text[|needle|..];
    }
  }

  lemma SuffixSplits(text: string, needle: string)
    ensures Fits(Suffix, text, needle) <==> exists front :: text == front + needle
  {
    if Fits(Suffix, text, needle) {
      assert text == text[..|text| - |needle|] + needle;
    }
  }

  lemma InfixSplits(text: string, needle: string)
    ensures Fits(Anywhere, text, needle) <==> exists front, rest :: text == front + needle + rest
  {
    if i :| 0 <= i <= |text| && needle <= text[i..] {
      assert text == text[..i] + needle + text[i + |needle|..];
    }
    if front, rest :| text == front + needle + rest {
      assert text[|front|..] == needle + rest;
      assert needle <= text[|front|..];
    }
  }

  lemma DenoteAffix(property: string, op: BinaryOperator, v: string, e: Event, w: World)
    requires IsString(property, w)
    requires op in [Contains, ContainsCs, StartsWith, StartsWithCs, EndsWith, EndsWithCs]
    ensures var affix := if op in [Contains, ContainsCs] then Anywhere
                         else if op in [StartsWith, StartsWithCs] then Prefix
                         else Suffix;
            var folded, cell := op in [Contains, StartsWith, EndsWith], CellFor(property, e, w);
            Denote(Compare(property, op, Str(v)), e, w)
            == Answer(cell, cell.Some? && Fits(affix, Fold(folded, cell.value), Fold(folded, v)))
  {
    hide FieldFor, Lower, Column, Fits, Visit, Denote;
    DenoteCompare(property, op, Str(v), e, w);
  }

  /** `startswith` keeps the rows whose cell is the value and something after it, cases aside unless it says `_cs`. */
  lemma StartsWithMeans(property: string, v: string, e: Event, w: World)
    requires IsString(property, w)
    ensures var cell := CellFor(property, e, w);
            && Denote(Compare(property, StartsWith, Str(v)), e, w)
            == Answer(cell, cell.Some? && exists rest :: Lower(cell.value) == Lower(v) + rest)
            && Denote(Compare(property, StartsWithCs, Str(v)), e, w)
            == Answer(cell, cell.Some? && exists rest :: cell.value == v + rest)
  {
    hide FieldFor, Lower, Column, Denote, Fits;
    DenoteAffix(property, StartsWith, v, e, w);
    DenoteAffix(property, StartsWithCs, v, e, w);
    var cell := CellFor(property, e, w);
    if cell.Some? {
      PrefixSplits(Lower(cell.value), Lower(v));
      PrefixSplits(cell.value, v);
    }
  }

  /** `endswith`: something before it and the value. */
  lemma EndsWithMeans(property: string, v: string, e: Event, w: World)
    requires IsString(property, w)
    ensures var cell := CellFor(property, e, w);
            && Denote(Compare(property, EndsWith, Str(v)), e, w)
            == Answer(cell, cell.Some? && exists front :: Lower(cell.value) == front + Lower(v))
            && Denote(Compare(property, EndsWithCs, Str(v)), e, w)
            == Answer(cell, cell.Some? && exists front :: cell.value == front + v)
  {
    hide FieldFor, Lower, Column, Denote, Fits;
    DenoteAffix(property, EndsWith, v, e, w);
    DenoteAffix(property, EndsWithCs, v, e, w);
    var cell := CellFor(property, e, w);
    if cell.Some? {
      SuffixSplits(Lower(cell.value), Lower(v));
      SuffixSplits(cell.value, v);
    }
  }

  /** `contains`: the value with anything around it. */
  lemma ContainsMeans(property: string, v: string, e: Event, w: World)
    requires IsString(property, w)
    ensures var cell := CellFor(property, e, w);
            && Denote(Compare(property, Contains, Str(v)), e, w)
            == Answer(cell, cell.Some? && exists front, rest :: Lower(cell.value) == front + Lower(v) + rest)
            && Denote(Compare(property, ContainsCs, Str(v)), e, w)
            == Answer(cell, cell.Some? && exists front, rest :: cell.value == front + v + rest)
  {
    hide FieldFor, Lower, Column, Denote, Fits;
    DenoteAffix(property, Contains, v, e, w);
    DenoteAffix(property, ContainsCs, v, e, w);
    var cell := CellFor(property, e, w);
    if cell.Some? {
      InfixSplits(Lower(cell.value), Lower(v));
      InfixSplits(cell.value, v);
    }
  }

  /** Lower-casing moves the 26 capital letters and nothing else. */
  lemma LowerFolds(s: string)
    ensures |Lower(s)| == |s| && Lower(Lower(s)) == Lower(s)
    ensures forall i :: 0 <= i < |s| ==>
                          if 'A' <= s[i] <= 'Z' then 'a' <= Lower(s)[i] <= 'z' && Lower(s)[i] - 'a' == s[i] - 'A'
                          else Lower(s)[i] == s[i]
  {
  }

  // --------------------------------------------------------------------------- membership

  /** `in_cs` compares as written; on `source` it is as tolerant of case and scheme as `in`. */
  lemma InCsMeans(property: string, values: seq<string>, e: Event, w: World)
    requires IsString(property, w)
    ensures var cell := CellFor(property, e, w);
            Denote(Compare(property, InCs, ListOf(values)), e, w) ==
            if TheField(property, w).column == "source" then Denote(Compare(property, In, ListOf(values)), e, w)
            else Answer(cell, cell.Some? && cell.value in values)
  {
    hide FieldFor, Lower, Column, SourceForms, Visit, Flatten, Denote;
    assert Strings(ListOf(values).items) == values;
    DenoteCompare(property, InCs, ListOf(values), e, w);
    DenoteCompare(property, In, ListOf(values), e, w);
    assert Map((v: string) => Fold(false, v), values) == values;
  }

  /** A source is named as it is stored or, when the name carries no scheme, without the scheme it is stored with. */
  lemma SourceMeans(property: string, v: string, e: Event, w: World)
    requires IsString(property, w) && TheField(property, w).column == "source" && v != ""
    ensures var name := Lower(v);
            Denote(Compare(property, Equals, Str(v)), e, w) == Some(TriOf(
              Lower(e.source) == name
              || (!(exists front, rest :: name == front + "://" + rest)
                  && exists scheme :: scheme in ["https://", "app://", "pixel://"] && Lower(e.source) == scheme + name)))
  {
    hide FieldFor, Lower, Denote, HasScheme;
    EqMeans(property, v, e, w);
    var name, source := Lower(v), Lower(e.source);
    InfixSplits(name, "://");
    assert HasScheme(name) == Fits(Anywhere, name, "://") by { SchemeIsInfix(name); }
    assert Cell(e, "source") == Some(e.source);
    var schemes := ["https://", "app://", "pixel://"];
    assert schemes[0] in schemes && schemes[1] in schemes && schemes[2] in schemes;
    assert "" + name == name;
  }

  lemma SchemeIsInfix(name: string)
    ensures HasScheme(name) == Fits(Anywhere, name, "://")
  {
  }

  /** `project` compares the stored source with the sources of the project. */
  lemma ProjectMeans(property: string, v: string, names: seq<string>, e: Event, w: World)
    requires Lower(property) == "project"
    ensures var sources := w.context.projectSources;
            && Denote(Compare(property, Equals, Str(v)), e, w) == Some(TriOf(e.source in sources(v)))
            && Denote(Compare(property, NotEquals, Str(v)), e, w) == Some(TriOf(e.source !in sources(v)))
            && Denote(Compare(property, In, ListOf(names)), e, w)
            == Denote(Compare(property, InCs, ListOf(names)), e, w)
            == Some(TriOf(exists name :: name in names && e.source in sources(name)))
  {
    hide FieldFor, Lower, Visit, Flatten, Denote;
    assert Strings(ListOf(names).items) == names;
    DenoteProject(property, Equals, Str(v), e, w);
    DenoteProject(property, NotEquals, Str(v), e, w);
    DenoteProject(property, In, ListOf(names), e, w);
    DenoteProject(property, InCs, ListOf(names), e, w);
    FlattenMapHas(w.context.projectSources, [v], e.source);
    FlattenMapHas(w.context.projectSources, names, e.source);
    assert Cell(e, "source") == Some(e.source);
  }

  // ------------------------------------------------------------------ absence and the flag

  /** Comparisons with `null` are about the null cell alone, and never unknown. */
  lemma NullMeans(property: string, e: Event, w: World)
    requires IsString(property, w)
    ensures var cell := CellFor(property, e, w);
            && Denote(Compare(property, Equals, Null), e, w) == Some(TriOf(cell == None))
            && Denote(Compare(property, NotEquals, Null), e, w) == Some(TriOf(cell != None))
  {
    hide FieldFor, Lower, Column, Visit, Denote;
    DenoteCompare(property, Equals, Null, e, w);
    DenoteCompare(property, NotEquals, Null, e, w);
  }

  /** A field on its own, or compared with `""`, is about whether the cell holds any text. */
  lemma PresenceMeans(property: string, e: Event, w: World)
    requires IsString(property, w)
    ensures var cell := CellFor(property, e, w);
            && Denote(Property(property), e, w) == Some(TriOf(cell.Some? && cell.value != ""))
            && Denote(Compare(property, NotEquals, Str("")), e, w) == Some(TriOf(cell.Some? && cell.value != ""))
  {
    hide FieldFor, Lower, Column, Denote;
    var f := TheField(property, w);
    DenoteProperty(property, e, w);
    DenoteCompare(property, NotEquals, Str(""), e, w);
    EvalSentinel(f.column, e, w);
  }

  lemma DenoteProperty(property: string, e: Event, w: World)
    requires IsField(property, w)
    ensures Denote(Property(property), e, w) == Outcome(Ok(ColumnNode(TheField(property, w))), e, w)
  {
    hide FieldFor, Lower, Eval;
    assert Visit(Property(property), w.context, w.glob) == Ok(ColumnNode(TheField(property, w)));
  }

  predicate IsFlag(property: string, w: World) { IsField(property, w) && TheField(property, w).boolean }

  /** The flag: a report that does not say whether it was handled counts as unhandled, except for `null`. */
  lemma FlagMeans(property: string, b: bool, e: Event, w: World)
    requires IsFlag(property, w)
    ensures var handled := e.excHandled == Some(true);
            && Denote(Property(property), e, w) == Some(TriOf(handled))
            && Denote(Compare(property, Equals, Bool(b)), e, w) == Some(TriOf(handled == b))
            && Denote(Compare(property, NotEquals, Bool(b)), e, w) == Some(TriOf(handled != b))
  {
    hide FieldFor, Lower, Column, Visit, Denote, Cell;
    DenoteProperty(property, e, w);
    DenoteCompare(property, Equals, Bool(b), e, w);
    DenoteCompare(property, NotEquals, Bool(b), e, w);
  }

  /** The flag compared with `null`, or with a string of which only "true" in any case says yes. */
  lemma FlagComparisons(property: string, v: string, e: Event, w: World)
    requires IsFlag(property, w)
    ensures Denote(Compare(property, Equals, Null), e, w) == Some(TriOf(e.excHandled == None))
    ensures Denote(Compare(property, NotEquals, Null), e, w) == Some(TriOf(e.excHandled != None))
    ensures Denote(Compare(property, Equals, Str(v)), e, w)
         == Some(TriOf((e.excHandled == Some(true)) == (Lower(v) == "true")))
  {
    hide FieldFor, Lower, Column, Visit, Denote, Cell;
    DenoteCompare(property, Equals, Null, e, w);
    DenoteCompare(property, NotEquals, Null, e, w);
    DenoteCompare(property, Equals, Str(v), e, w);
  }

  /** `matches` hands the cell and the pattern to regular-expression search, as they are. */
  lemma MatchesMeans(property: string, pattern: string, e: Event, w: World)
    requires IsString(property, w)
    ensures var cell := CellFor(property, e, w);
            Denote(Matches(Property(property), pattern), e, w) == Answer(cell, cell.Some? && w.rx(cell.value, pattern))
  {
    hide FieldFor, Lower, Column;
    var f := TheField(property, w);
    assert Visit(Property(property), w.context, w.glob) == Ok(ColumnNode(f));
    assert Visit(Matches(Property(property), pattern), w.context, w.glob) == Ok(Predicate(Regex(f.column, pattern)));
  }

  /** On their own only `true` and `false` are conditions; other literals, `project` and calls do not compile. */
  lemma ConditionsAlone(b: bool, value: Value, name: string, args: seq<Expr>, e: Event, w: World)
    requires Lower(name) == "project" && !value.Bool?
    ensures Denote(Literal(Bool(b)), e, w) == Some(TriOf(b))
    ensures Denote(Literal(value), e, w) == Denote(Property(name), e, w) == Denote(Call(name, args), e, w) == None
  {
    hide FieldFor, Lower, Strings;
    assert Visit(Literal(Bool(b)), w.context, w.glob) == Ok(BoolNode(b));
    assert Visit(Literal(value), w.context, w.glob) == VisitLiteral(value);
    assert Visit(Property(name), w.context, w.glob) == Ok(ProjectNode);
    assert Visit(Call(name, args), w.context, w.glob) == Err;
  }

  // ----------------------------------------------------------------- which comparisons compile

  /** A comparison may be written with the literal first. */
  lemma LiteralFirst(property: string, op: BinaryOperator, value: Value, e: Event, w: World)
    ensures Denote(Binary(Literal(value), op, Property(property)), e, w) == Denote(Compare(property, op, value), e, w)
  {
    hide FieldFor, Lower, VisitColumn, Eval, IntoPredicate, Strings;
    var l, r := Visit(Literal(value), w.context, w.glob), Visit(Property(property), w.context, w.glob);
    assert l == VisitLiteral(value);
    assert Visit(Binary(Literal(value), op, Property(property)), w.context, w.glob)
        == if l.Err? || r.Err? then Err else VisitBinary(l.value, op, r.value, w.context);
    assert Visit(Compare(property, op, value), w.context, w.glob)
        == if l.Err? || r.Err? then Err else VisitBinary(r.value, op, l.value, w.context);
  }

  /** The operators each kind of literal accepts. */
  predicate Comparable(property: string, op: BinaryOperator, value: Value, w: World) {
    match value
    case Str(_) =>
      op in [Equals, NotEquals]
      || (Lower(property) != "project" && op in [Contains, ContainsCs, StartsWith, StartsWithCs, EndsWith, EndsWithCs])
    case Null => op in [Equals, NotEquals] && Lower(property) != "project"
    case Bool(_) => op in [Equals, NotEquals] && Lower(property) != "project" && IsFlag(property, w)
    case Tuple(items) => op in [In, InCs] && AllStrings(items)
    case Other(_) => false
  }

  /**
   Exactly these comparisons compile: of a known field or `project`, with an operator the literal
   accepts. Orderings and arithmetic never do.
   */
  lemma CompilesIff(property: string, op: BinaryOperator, value: Value, e: Event, w: World)
    ensures Denote(Compare(property, op, value), e, w).Some?
            <==> (Lower(property) == "project" || IsField(property, w)) && Comparable(property, op, value, w)
  {
    hide FieldFor, Lower, Eval, VisitColumn, VisitBinary, Visit, Denote, Outcome;
    if VisitLiteral(value).Err? || (Lower(property) != "project" && !IsField(property, w)) {
      NoSubject(property, op, value, e, w);
    } else if Lower(property) == "project" {
      DenoteProject(property, op, value, e, w);
      ProjectCompiles(op, value, e, w);
    } else {
      DenoteCompare(property, op, value, e, w);
      ColumnCompiles(TheField(property, w), op, value, e, w);
    }
  }

  lemma ProjectCompiles(op: BinaryOperator, value: Value, e: Event, w: World)
    requires VisitLiteral(value).Ok?
    ensures Outcome(VisitBinary(ProjectNode, op, VisitLiteral(value).value, w.context), e, w).Some?
            <==> if value.Str? then op in [Equals, NotEquals] else value.Tuple? && op in [In, InCs]
  {
    hide Membership, Eval, Strings;
  }

  lemma ColumnCompiles(f: Field, op: BinaryOperator, value: Value, e: Event, w: World)
    requires VisitLiteral(value).Ok?
    ensures Outcome(VisitColumn(f, op, VisitLiteral(value).value, w.context), e, w).Some?
            <==> match value
                 case Str(_) =>
                   op in [Equals, NotEquals, Contains, ContainsCs, StartsWith, StartsWithCs, EndsWith, EndsWithCs]
                 case Null => op in [Equals, NotEquals]
                 case Bool(_) => op in [Equals, NotEquals] && f.boolean
                 case Tuple(_) => op in [In, InCs]
                 case Other(_) => false
  {
    hide SourceIn, StringEq, StringNeq, NullTest, Eval, Strings, Lower;
  }

  lemma NoSubject(property: string, op: BinaryOperator, value: Value, e: Event, w: World)
    requires VisitLiteral(value).Err? || (Lower(property) != "project" && !IsField(property, w))
    ensures Denote(Compare(property, op, value), e, w) == None
  {
    hide FieldFor, Lower, Eval, VisitBinary;
    assert Visit(Literal(value), w.context, w.glob) == VisitLiteral(value);
    assert Visit(Compare(property, op, value), w.context, w.glob) == Err;
  }

  // --------------------------------------------------------------------------- vocabularies

  /** In a vocabulary, the name stands for the nullable string column. */
  predicate Reads(fields: FieldSet, name: string, column: string) {
    FieldFor(fields, name) == Some(Field(column, false))
  }

  lemma SharedVocabulary(fields: FieldSet)
    ensures Reads(fields, "source", "source") && Reads(fields, "browser", "ua_browser")
    ensures Reads(fields, "version", "ua_version") && Reads(fields, "os", "ua_os") && Reads(fields, "device", "ua_device")
  {
  }

  lemma DashboardVocabulary()
    ensures Reads(Dashboard, "path", "pathname") && Reads(Dashboard, "referrer", "referrer_host")
    ensures Reads(Dashboard, "country", "country") && Reads(Dashboard, "language", "language")
    ensures Reads(Dashboard, "utm_source", "utm_source") && Reads(Dashboard, "utm_medium", "utm_medium")
    ensures Reads(Dashboard, "utm_campaign", "utm_campaign") && Reads(Dashboard, "event", "event_name")
  {
  }

  lemma ExceptionsVocabulary()
    ensures Reads(Exceptions, "app", "source") && Reads(Exceptions, "app_version", "app_version")
    ensures Reads(Exceptions, "type", "exc_type") && Reads(Exceptions, "message", "exc_message")
    ensures FieldFor(Exceptions, "handled") == Some(Field("exc_handled", true))
  {
  }

  /** There are no other fields, and the flag is one of the exceptions only. */
  lemma NoOtherFields(fields: FieldSet, name: string)
    ensures FieldFor(fields, name).Some?
            <==> || name in ["source", "browser", "version", "os", "device"]
                 || (fields == Dashboard && name in ["path", "referrer", "country", "language"])
                 || (fields == Dashboard && name in ["utm_source", "utm_medium", "utm_campaign", "event"])
                 || (fields == Exceptions && name in ["app", "app_version", "type", "message", "handled"])
    ensures FieldFor(fields, name).Some? && FieldFor(fields, name).value.boolean
            <==> fields == Exceptions && name == "handled"
  {
  }

  /** The four columns an event holds on its own; the others are looked up by name, and a missing one is null. */
  lemma CellOf(e: Event, column: string)
    ensures Cell(e, "source") == Some(e.source)
    ensures Cell(e, "exc_type") == e.excType && Cell(e, "exc_message") == e.excMessage
    ensures Cell(e, "kind") == Some(match e.kind
                                    case PageLoad => "page_load"
                                    case PageUnload => "page_unload"
                                    case Custom => "custom"
                                    case Pixel => "pixel"
                                    case Exception => "exception")
    ensures column !in ["source", "exc_type", "exc_message", "kind"] ==>
              Cell(e, column) == if column in e.dims then Some(e.dims[column]) else None
  {
  }

  // ---------------------------------------------------------------------------- connectives

  /** A conjunction keeps what both sides keep, a disjunction what either keeps, and neither keeps anything new. */
  lemma ConnectivesKeep(l: Expr, r: Expr, e: Event, w: World)
    requires Denote(l, e, w).Some? && Denote(r, e, w).Some?
    ensures Keeps(Logical(l, And, r), e, w) <==> Keeps(l, e, w) && Keeps(r, e, w)
    ensures Keeps(Logical(l, Or, r), e, w) <==> Keeps(l, e, w) || Keeps(r, e, w)
    ensures Keeps(Not(l), e, w) <==> Denote(l, e, w) == Some(False)
    ensures Keeps(Not(Logical(l, And, r)), e, w) <==> Keeps(Not(l), e, w) || Keeps(Not(r), e, w)
    ensures Keeps(Not(Logical(l, Or, r)), e, w) <==> Keeps(Not(l), e, w) && Keeps(Not(r), e, w)
  {
    hide Denote;
    DenoteLogical(l, And, r, e, w);
    DenoteLogical(l, Or, r, e, w);
    DenoteNot(l, e, w);
    DenoteNot(r, e, w);
    DenoteNot(Logical(l, And, r), e, w);
    DenoteNot(Logical(l, Or, r), e, w);
  }
}
