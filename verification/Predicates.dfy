/**
 The agent's compiler from filter expressions to column predicates (agent/src/analytics/filter.rs),
 and the three-valued logic polars evaluates them in.
 */
module Predicates {
  import opened Wrappers
  import opened Events
  import opened Seqs
  import opened FilterSyntax

  // ------------------------------------------------------------------- Kleene logic

  datatype Tri = True | False | Unknown

  function TriOf(b: bool): Tri { if b then True else False }

  function NotK(a: Tri): Tri {
    match a
    case True => False
    case False => True
    case Unknown => Unknown
  }

  function AndK(a: Tri, b: Tri): Tri {
    if a == False || b == False then False
    else if a == True && b == True then True
    else Unknown
  }

  function OrK(a: Tri, b: Tri): Tri { NotK(AndK(NotK(a), NotK(b))) }

  // ---------------------------------------------------------------------- predicates

  function LowerChar(c: char): char {
    if 'A' <= c <= 'Z' then (c as int + 32) as char else c
  }

  /** ASCII lower-casing. */
  function Lower(s: string): string { Map(LowerChar, s) }

  datatype Affix = Anywhere | Prefix | Suffix

  /** The polars expressions the compiler builds. */
  datatype Pred =
    | Const(b: bool)
    | IsNull(column: string)
    | Eq(column: string, folded: bool, value: string)
    | IsIn(column: string, folded: bool, values: seq<string>)
    | Has(column: string, folded: bool, affix: Affix, needle: string)
    | Regex(column: string, text: string)
    | HandledIs(flag: bool)
    | HandledIsNull
    | PNot(p: Pred)
    | PAnd(p: Pred, q: Pred)
    | POr(p: Pred, q: Pred)

  /** The `kind` column participates like any other string column, but is never null. */
  function Cell(e: Event, column: string): Option<string> {
    if column == "kind" then Some(KindName(e.kind)) else Column(e, column)
  }

  function Fold(folded: bool, s: string): string { if folded then Lower(s) else s }

  predicate Fits(affix: Affix, text: string, needle: string) {
    match affix
    case Anywhere => exists i :: 0 <= i <= |text| && needle <= text[i..]
    case Prefix => needle <= text
    case Suffix => |needle| <= |text| && text[|text| - |needle|..] == needle
  }

  /** What regular-expression search answers; the expression engine itself is not part of the model. */
  type Matcher = (string, string) -> bool

  /** Null operands make comparisons, membership and string tests unknown. */
  function Eval(p: Pred, e: Event, rx: Matcher): Tri {
    match p
    case Const(b) => TriOf(b)
    case IsNull(column) => TriOf(Cell(e, column).None?)
    case Eq(column, folded, value) =>
      var cell := Cell(e, column);
      if cell.None? then Unknown else TriOf(Fold(folded, cell.value) == value)
    case IsIn(column, folded, values) =>
      var cell := Cell(e, column);
      if cell.None? then Unknown else TriOf(Fold(folded, cell.value) in values)
    case Has(column, folded, affix, needle) =>
      var cell := Cell(e, column);
      if cell.None? then Unknown else TriOf(Fits(affix, Fold(folded, cell.value), needle))
    case Regex(column, text) =>
      var cell := Cell(e, column);
      if cell.None? then Unknown else TriOf(rx(cell.value, text))
    case HandledIs(value) => TriOf(e.excHandled.GetOr(false) == value)
    case HandledIsNull => TriOf(e.excHandled.None?)
    case PNot(q) => NotK(Eval(q, e, rx))
    case PAnd(q, r) => AndK(Eval(q, e, rx), Eval(r, e, rx))
    case POr(q, r) => OrK(Eval(q, e, rx), Eval(r, e, rx))
  }

  // ------------------------------------------------------------------------ compiling

  datatype FieldSet = Dashboard | Exceptions

  datatype Field = Field(column: string, boolean: bool)

  function FieldFor(fields: FieldSet, property: string): Option<Field> {
    if property == "source" then Some(Field("source", false))
    else if property == "browser" then Some(Field("ua_browser", false))
    else if property == "version" then Some(Field("ua_version", false))
    else if property == "os" then Some(Field("ua_os", false))
    else if property == "device" then Some(Field("ua_device", false))
    else
      match fields
      case Dashboard =>
        if property == "path" then Some(Field("pathname", false))
        else if property == "referrer" then Some(Field("referrer_host", false))
        else if property == "country" then Some(Field("country", false))
        else if property == "language" then Some(Field("language", false))
        else if property == "utm_source" then Some(Field("utm_source", false))
        else if property == "utm_medium" then Some(Field("utm_medium", false))
        else if property == "utm_campaign" then Some(Field("utm_campaign", false))
        else if property == "event" then Some(Field("event_name", false))
        else None
      case Exceptions =>
        if property == "app" then Some(Field("source", false))
        else if property == "app_version" then Some(Field("app_version", false))
        else if property == "type" then Some(Field("exc_type", false))
        else if property == "message" then Some(Field("exc_message", false))
        else if property == "handled" then Some(Field("exc_handled", true))
        else None
  }

  datatype Node =
    | Predicate(pred: Pred)
    | ColumnNode(field: Field)
    | ProjectNode
    | StrNode(s: string)
    | BoolNode(b: bool)
    | ListNode(items: seq<string>)
    | NullNode

  /** The endpoint's vocabulary and the source URIs of each project name. */
  datatype Context = Context(fields: FieldSet, projectSources: string -> seq<string>)

  function Present(column: string): Pred { PAnd(PNot(IsNull(column)), PNot(Eq(column, false, ""))) }

  function IntoPredicate(node: Node): Result<Pred> {
    match node
    case Predicate(p) => Ok(p)
    case ColumnNode(field) => if field.boolean then Ok(HandledIs(true)) else Ok(Present(field.column))
    case BoolNode(b) => Ok(Const(b))
    case _ => Err
  }

  function Flatten(lists: seq<seq<string>>): seq<string> {
    if lists == [] then [] else lists[0] + Flatten(lists[1..])
  }

  function Membership(names: seq<string>, context: Context): Pred {
    IsIn("source", false, Flatten(Map(context.projectSources, names)))
  }

  predicate HasScheme(value: string) { exists i :: 0 <= i <= |value| && "://" <= value[i..] }

  /** The canonical URIs a source name may be stored as. */
  function SourceForms(value: string): seq<string> {
    var v := Lower(value);
    if HasScheme(v) then [v] else ["https://" + v, "app://" + v, "pixel://" + v, v]
  }

  function SourceIn(values: seq<string>): Pred {
    IsIn("source", true, Flatten(Map(SourceForms, values)))
  }

  function StringEq(field: Field, value: string, context: Context): Pred {
    if field.boolean then HandledIs(Lower(value) == "true")
    else if value == "" then
      var absent := POr(IsNull(field.column), Eq(field.column, false, ""));
      var eventKinds := POr(Eq("kind", false, "pixel"), Eq("kind", false, "custom"));
      match context.fields
      case Dashboard =>
        if field.column == "event_name" then PAnd(absent, eventKinds) else PAnd(absent, PNot(eventKinds))
      case Exceptions => absent
    else if field.column == "source" then SourceIn([value])
    else Eq(field.column, true, Lower(value))
  }

  function NullTest(field: Field): Pred { if field.boolean then HandledIsNull else IsNull(field.column) }

  /** Inequality: rows without the dimension differ from every value but the empty one. */
  function StringNeq(field: Field, value: string, context: Context): Pred {
    if value == "" then Present(field.column) else POr(PNot(StringEq(field, value, context)), NullTest(field))
  }

  function VisitLiteral(value: Value): Result<Node> {
    match value
    case Null => Ok(NullNode)
    case Bool(b) => Ok(BoolNode(b))
    case Str(s) => Ok(StrNode(s))
    case Tuple(items) => if AllStrings(items) then Ok(ListNode(Strings(items))) else Err
    case Other(_) => Err
  }

  predicate AllStrings(items: seq<Value>) { forall i :: 0 <= i < |items| ==> items[i].Str? }

  function Strings(items: seq<Value>): seq<string>
    requires AllStrings(items)
  {
    seq(|items|, i requires 0 <= i < |items| => items[i].s)
  }

  predicate CaseSensitive(op: BinaryOperator) {
    op.ContainsCs? || op.InCs? || op.StartsWithCs? || op.EndsWithCs?
  }

  /** `visit_binary` once both operands are folded; literals on the left are swapped to the right. */
  function VisitBinary(left: Node, op: BinaryOperator, right: Node, context: Context): Result<Node> {
    var swap := left.StrNode? || left.ListNode? || left.NullNode? || left.BoolNode?;
    var subject, object_ := if swap then right else left, if swap then left else right;
    match subject
    case ProjectNode =>
      if op.Equals? && object_.StrNode? then Ok(Predicate(Membership([object_.s], context)))
      else if op.NotEquals? && object_.StrNode? then Ok(Predicate(PNot(Membership([object_.s], context))))
      else if (op.In? || op.InCs?) && object_.ListNode? then Ok(Predicate(Membership(object_.items, context)))
      else Err
    case ColumnNode(field) => VisitColumn(field, op, object_, context)
    case _ => Err
  }

  function VisitColumn(field: Field, op: BinaryOperator, object_: Node, context: Context): Result<Node> {
    var folded := !CaseSensitive(op);
    match object_
    case StrNode(value) =>
      if op.Equals? then Ok(Predicate(StringEq(field, value, context)))
      else if op.NotEquals? then Ok(Predicate(StringNeq(field, value, context)))
      else if op.Contains? || op.ContainsCs? then
        Ok(Predicate(Has(field.column, folded, Anywhere, Fold(folded, value))))
      else if op.StartsWith? || op.StartsWithCs? then
        Ok(Predicate(Has(field.column, folded, Prefix, Fold(folded, value))))
      else if op.EndsWith? || op.EndsWithCs? then
        Ok(Predicate(Has(field.column, folded, Suffix, Fold(folded, value))))
      else Err
    case NullNode =>
      if op.Equals? then Ok(Predicate(NullTest(field)))
      else if op.NotEquals? then Ok(Predicate(PNot(NullTest(field))))
      else Err
    case BoolNode(value) =>
      if field.boolean && op.Equals? then Ok(Predicate(HandledIs(value)))
      else if field.boolean && op.NotEquals? then Ok(Predicate(PNot(HandledIs(value))))
      else Err
    case ListNode(values) =>
      if op.In? || op.InCs? then
        if field.column == "source" then Ok(Predicate(SourceIn(values)))
        else Ok(Predicate(IsIn(field.column, folded, Map((v: string) => Fold(folded, v), values))))
      else Err
    case _ => Err
  }

  /** The fold over the syntax tree. */
  function Visit(expr: Expr, context: Context, glob: (string, bool) -> string): Result<Node>
    decreases expr, 0
  {
    match expr
    case Literal(value) => VisitLiteral(value)
    case Property(name) =>
      var property := Lower(name);
      if property == "project" then Ok(ProjectNode)
      else
        var field := FieldFor(context.fields, property);
        if field.None? then Err else Ok(ColumnNode(field.value))
    case Call(_, _) => Err
    case Binary(left, op, right) =>
      var l, r := Visit(left, context, glob), Visit(right, context, glob);
      if l.Err? || r.Err? then Err else VisitBinary(l.value, op, r.value, context)
    case Logical(left, lop, right) =>
      var l, r := Compile(left, context, glob), Compile(right, context, glob);
      if l.Err? || r.Err? then Err
      else Ok(Predicate(if lop.And? then PAnd(l.value, r.value) else POr(l.value, r.value)))
    case Not(operand) =>
      var p := Compile(operand, context, glob);
      if p.Err? then Err else Ok(Predicate(PNot(p.value)))
    case Like(left, caseSensitive, pattern) =>
      var l := Visit(left, context, glob);
      if l.Err? || !l.value.ColumnNode? then Err
      else Ok(Predicate(Regex(l.value.field.column, glob(pattern, caseSensitive))))
    case Matches(left, pattern) =>
      var l := Visit(left, context, glob);
      if l.Err? || !l.value.ColumnNode? then Err else Ok(Predicate(Regex(l.value.field.column, pattern)))
  }

  function Compile(expr: Expr, context: Context, glob: (string, bool) -> string): Result<Pred>
    decreases expr, 1
  {
    var node := Visit(expr, context, glob);
    if node.Err? then Err else IntoPredicate(node.value)
  }

  /** Everything outside the expression that decides which rows it keeps. */
  datatype World = World(context: Context, glob: (string, bool) -> string, rx: Matcher)

  /** The value of an expression on a row, or `None` when it does not compile. */
  function Denote(expr: Expr, e: Event, w: World): Option<Tri> {
    var p := Compile(expr, w.context, w.glob);
    if p.Err? then None else Some(Eval(p.value, e, w.rx))
  }

  /** `LazyFrame::filter` keeps the rows on which the predicate is true, not unknown. */
  predicate Keeps(expr: Expr, e: Event, w: World) { Denote(expr, e, w) == Some(True) }

  // ------------------------------------------------------------- what comparisons mean

  function Compare(property: string, op: BinaryOperator, value: Value): Expr {
    Binary(Property(property), op, Literal(value))
  }

  predicate IsField(property: string, w: World) {
    Lower(property) != "project" && FieldFor(w.context.fields, Lower(property)).Some?
  }

  function TheField(property: string, w: World): Field
    requires IsField(property, w)
  {
    FieldFor(w.context.fields, Lower(property)).value
  }

  function Outcome(node: Result<Node>, e: Event, w: World): Option<Tri> {
    if node.Err? || IntoPredicate(node.value).Err? then None
    else Some(Eval(IntoPredicate(node.value).value, e, w.rx))
  }

  lemma DenoteCompare(property: string, op: BinaryOperator, value: Value, e: Event, w: World)
    requires IsField(property, w) && VisitLiteral(value).Ok?
    ensures Denote(Compare(property, op, value), e, w)
         == Outcome(VisitColumn(TheField(property, w), op, VisitLiteral(value).value, w.context), e, w)
  {
    hide FieldFor, VisitColumn, Lower, Eval;
    assert Visit(Property(property), w.context, w.glob) == Ok(ColumnNode(TheField(property, w)));
    assert Visit(Literal(value), w.context, w.glob) == VisitLiteral(value);
    assert Visit(Compare(property, op, value), w.context, w.glob)
        == VisitColumn(TheField(property, w), op, VisitLiteral(value).value, w.context);
  }

  /** Every row is kept by exactly one of `f == v` and `f != v`. */
  ghost predicate Partitions(property: string, value: string, w: World) {
    forall e: Event :: Keeps(Compare(property, Equals, Str(value)), e, w)
                       <==> !Keeps(Compare(property, NotEquals, Str(value)), e, w)
  }

  /**
   `f == v` and `f != v` split every frame in two exactly when `v` is non-empty or the frame is the
   exceptions one; for the boolean field, exactly when the string is some casing of "true".
   */
  lemma EqualityPartitionsIff(property: string, value: string, w: World)
    requires IsField(property, w) && (TheField(property, w).boolean ==> value != "")
    ensures Partitions(property, value, w)
            <==> if TheField(property, w).boolean then Lower(value) == "true"
                 else value != "" || w.context.fields == Exceptions
  {
    hide FieldFor, Lower, Keeps;
    var f := TheField(property, w);
    forall e: Event
      ensures Keeps(Compare(property, Equals, Str(value)), e, w)
              <==> Eval(StringEq(f, value, w.context), e, w.rx) == True
      ensures Keeps(Compare(property, NotEquals, Str(value)), e, w)
              <==> Eval(StringNeq(f, value, w.context), e, w.rx) == True
    {
      KeepsComparison(property, value, e, w);
    }
    forall e: Event | f.boolean || value != "" || w.context.fields == Exceptions
      ensures !f.boolean ==>
                (Keeps(Compare(property, Equals, Str(value)), e, w)
                 <==> !Keeps(Compare(property, NotEquals, Str(value)), e, w))
      ensures f.boolean && Lower(value) == "true" ==>
                (Keeps(Compare(property, Equals, Str(value)), e, w)
                 <==> !Keeps(Compare(property, NotEquals, Str(value)), e, w))
    {
      if f.boolean {
        EvalHandled(f, value, e, w);
      } else if value == "" {
        EvalSentinel(f.column, e, w);
      } else {
        EvalStringEq(f, value, e, w);
      }
    }
    if f.boolean {
      var blank := BlankRow(Exception, "https://a");
      EvalHandled(f, value, blank, w);
      assert Keeps(Compare(property, NotEquals, Str(value)), blank, w);
    } else if value == "" && w.context.fields == Dashboard {
      var odd := BlankRow(if f.column == "event_name" then PageLoad else Pixel, "");
      BlankCell(property, w, odd);
      EvalSentinel(f.column, odd, w);
      assert !Keeps(Compare(property, NotEquals, Str(value)), odd, w);
      assert !Keeps(Compare(property, Equals, Str(value)), odd, w);
    }
  }

  predicate Absent(column: string, e: Event) { Cell(e, column).None? || Cell(e, column).value == "" }

  predicate IsEvent(e: Event) { e.kind == Pixel || e.kind == Custom }

  /** What the empty-string comparisons mean on a row. */
  lemma EvalSentinel(column: string, e: Event, w: World)
    ensures Eval(Present(column), e, w.rx) == TriOf(!Absent(column, e))
    ensures Eval(StringEq(Field(column, false), "", w.context), e, w.rx)
         == TriOf(Absent(column, e)
                  && (w.context.fields == Dashboard ==> (column == "event_name" <==> IsEvent(e))))
  {
    hide Column;
    var isNull, isEmpty := IsNull(column), Eq(column, false, "");
    assert Eval(POr(isNull, isEmpty), e, w.rx) == TriOf(Absent(column, e));
    assert Eval(PNot(isNull), e, w.rx) == TriOf(Cell(e, column).Some?);
    assert Eval(PNot(isEmpty), e, w.rx)
        == if Cell(e, column).None? then Unknown else TriOf(Cell(e, column).value != "");
    var pixel, custom := Eq("kind", false, "pixel"), Eq("kind", false, "custom");
    assert Eval(pixel, e, w.rx) == TriOf(e.kind == Pixel);
    assert Eval(custom, e, w.rx) == TriOf(e.kind == Custom);
    assert Eval(POr(pixel, custom), e, w.rx) == TriOf(IsEvent(e));
    assert Eval(PNot(POr(pixel, custom)), e, w.rx) == TriOf(!IsEvent(e));
  }

  /** A comparison with a non-empty string is unknown exactly on null. */
  lemma EvalStringEq(f: Field, value: string, e: Event, w: World)
    requires !f.boolean && value != ""
    ensures Eval(StringEq(f, value, w.context), e, w.rx) == Unknown <==> Cell(e, f.column).None?
    ensures var eq := Eval(StringEq(f, value, w.context), e, w.rx);
            Eval(POr(PNot(StringEq(f, value, w.context)), NullTest(f)), e, w.rx) == TriOf(eq != True)
  {
  }

  lemma EvalHandled(f: Field, value: string, e: Event, w: World)
    requires f.boolean
    ensures var eq := e.excHandled.GetOr(false) == (Lower(value) == "true");
            && Eval(StringEq(f, value, w.context), e, w.rx) == TriOf(eq)
            && Eval(POr(PNot(StringEq(f, value, w.context)), NullTest(f)), e, w.rx) == TriOf(!eq || e.excHandled.None?)
  {
  }

  lemma BlankCell(property: string, w: World, e: Event)
    requires IsField(property, w) && !TheField(property, w).boolean
    requires e == BlankRow(e.kind, "")
    ensures Cell(e, TheField(property, w).column) == if TheField(property, w).column == "source" then Some("") else None
  {
  }

  lemma KeepsComparison(property: string, value: string, e: Event, w: World)
    requires IsField(property, w)
    ensures var f := TheField(property, w);
            && (Keeps(Compare(property, Equals, Str(value)), e, w)
                <==> Eval(StringEq(f, value, w.context), e, w.rx) == True)
            && (Keeps(Compare(property, NotEquals, Str(value)), e, w)
                <==> Eval(StringNeq(f, value, w.context), e, w.rx) == True)
  {
    hide FieldFor, Lower, Eval, StringEq;
    DenoteCompare(property, Equals, Str(value), e, w);
    DenoteCompare(property, NotEquals, Str(value), e, w);
  }

  // --------------------------------------------------------------- membership as `||`

  /** A subject that equality and membership accept: a string field, or `project`. */
  predicate IsSubject(property: string, w: World) {
    Lower(property) == "project" || (IsField(property, w) && !TheField(property, w).boolean)
  }

  function SubjectColumn(property: string, w: World): string
    requires IsSubject(property, w)
  {
    if Lower(property) == "project" then "source" else TheField(property, w).column
  }

  /** Whether a non-null cell satisfies `property == value`. */
  predicate Selects(property: string, value: string, cell: string, w: World)
    requires IsSubject(property, w)
  {
    if Lower(property) == "project" then cell in w.context.projectSources(value)
    else if TheField(property, w).column == "source" then Lower(cell) in SourceForms(value)
    else Lower(cell) == Lower(value)
  }

  function ListOf(values: seq<string>): Value { Tuple(seq(|values|, i requires 0 <= i < |values| => Str(values[i]))) }

  function OrChain(property: string, values: seq<string>): Expr
    requires values != []
  {
    if |values| == 1 then Compare(property, Equals, Str(values[0]))
    else Logical(OrChain(property, values[..|values| - 1]), Or, Compare(property, Equals, Str(values[|values| - 1])))
  }

  function Answer(cell: Option<string>, b: bool): Option<Tri> {
    Some(if cell.None? then Unknown else TriOf(b))
  }

  lemma DenoteProject(property: string, op: BinaryOperator, value: Value, e: Event, w: World)
    requires Lower(property) == "project" && VisitLiteral(value).Ok?
    ensures Denote(Compare(property, op, value), e, w)
         == Outcome(VisitBinary(ProjectNode, op, VisitLiteral(value).value, w.context), e, w)
  {
    hide FieldFor, VisitBinary, Lower, Eval;
    assert Visit(Property(property), w.context, w.glob) == Ok(ProjectNode);
    assert Visit(Literal(value), w.context, w.glob) == VisitLiteral(value);
    assert Visit(Compare(property, op, value), w.context, w.glob)
        == VisitBinary(ProjectNode, op, VisitLiteral(value).value, w.context);
  }

  lemma {:induction false} FlattenHas(lists: seq<seq<string>>, x: string)
    ensures x in Flatten(lists) <==> exists i :: 0 <= i < |lists| && x in lists[i]
  {
    if lists != [] {
      FlattenHas(lists[1..], x);
      if i :| 0 <= i < |lists| && x in lists[i] {
        if i > 0 {
          assert x in lists[1..][i - 1];
        }
      }
      if i :| 0 <= i < |lists[1..]| && x in lists[1..][i] {
        assert x in lists[i + 1];
      }
    }
  }

  lemma FlattenMapHas(f: string -> seq<string>, values: seq<string>, x: string)
    ensures x in Flatten(Map(f, values)) <==> exists v :: v in values && x in f(v)
  {
    FlattenHas(Map(f, values), x);
    if i :| 0 <= i < |values| && x in Map(f, values)[i] {
      assert values[i] in values;
    }
    if v :| v in values && x in f(v) {
      var i :| 0 <= i < |values| && values[i] == v;
      assert x in Map(f, values)[i];
    }
  }

  /** The empty string on a string field asks for absence, on the dashboard only for rows that could have a value. */
  predicate AbsenceHolds(column: string, e: Event, w: World) {
    Absent(column, e) && (w.context.fields == Dashboard ==> (column == "event_name" <==> IsEvent(e)))
  }

  predicate AsksForAbsence(property: string, value: string) { value == "" && Lower(property) != "project" }

  /** The value of an equality on a row. */
  lemma EqMeans(property: string, value: string, e: Event, w: World)
    requires IsSubject(property, w)
    ensures var cell := Cell(e, SubjectColumn(property, w));
            Denote(Compare(property, Equals, Str(value)), e, w) ==
            if AsksForAbsence(property, value) then Some(TriOf(AbsenceHolds(SubjectColumn(property, w), e, w)))
            else Answer(cell, cell.Some? && Selects(property, value, cell.value, w))
  {
    hide FieldFor, Lower, Column, SourceForms, Visit, Flatten;
    var cell := Cell(e, SubjectColumn(property, w));
    if Lower(property) == "project" {
      DenoteProject(property, Equals, Str(value), e, w);
      if cell.Some? {
        FlattenMapHas(w.context.projectSources, [value], cell.value);
      }
    } else {
      DenoteCompare(property, Equals, Str(value), e, w);
      if value == "" {
        var f := TheField(property, w);
        assert f == Field(f.column, false);
        EvalSentinel(f.column, e, w);
      } else if cell.Some? {
        FlattenMapHas(SourceForms, [value], Lower(cell.value));
      }
    }
  }

  lemma InMeans(property: string, values: seq<string>, e: Event, w: World)
    requires IsSubject(property, w)
    ensures var cell := Cell(e, SubjectColumn(property, w));
            Denote(Compare(property, In, ListOf(values)), e, w) ==
            Answer(cell, cell.Some? && exists v :: v in values && Selects(property, v, cell.value, w))
  {
    hide FieldFor, Lower, Column, SourceForms, Visit, Flatten;
    var cell := Cell(e, SubjectColumn(property, w));
    assert Strings(ListOf(values).items) == values;
    if Lower(property) == "project" {
      DenoteProject(property, In, ListOf(values), e, w);
      if cell.Some? {
        FlattenMapHas(w.context.projectSources, values, cell.value);
      }
    } else {
      DenoteCompare(property, In, ListOf(values), e, w);
      if cell.Some? {
        if TheField(property, w).column == "source" {
          FlattenMapHas(SourceForms, values, Lower(cell.value));
        } else {
          FoldedMember(values, cell.value);
        }
      }
    }
  }

  lemma FoldedMember(values: seq<string>, cell: string)
    ensures Lower(cell) in Map((v: string) => Fold(true, v), values) <==> exists v :: v in values && Lower(cell) == Lower(v)
  {
  }

  /** A connective compiles when both sides do, and combines their values. */
  lemma DenoteLogical(l: Expr, lop: LogicalOperator, r: Expr, e: Event, w: World)
    ensures Denote(Logical(l, lop, r), e, w)
         == if Denote(l, e, w).None? || Denote(r, e, w).None? then None
            else if lop == Or then Some(OrK(Denote(l, e, w).value, Denote(r, e, w).value))
            else Some(AndK(Denote(l, e, w).value, Denote(r, e, w).value))
  {
    hide Compile, Eval;
    var lp, rp := Compile(l, w.context, w.glob), Compile(r, w.context, w.glob);
    var x := Logical(l, lop, r);
    assert Visit(x, w.context, w.glob)
        == if lp.Err? || rp.Err? then Err
           else Ok(Predicate(if lop.And? then PAnd(lp.value, rp.value) else POr(lp.value, rp.value)));
    CompilePredicate(x, w);
    if lp.Ok? && rp.Ok? {
      EvalAnd(lp.value, rp.value, e, w);
      EvalOr(lp.value, rp.value, e, w);
    }
  }

  lemma EvalNot(p: Pred, e: Event, w: World)
    ensures Eval(PNot(p), e, w.rx) == NotK(Eval(p, e, w.rx))
  {
    hide Cell, Fits, Fold, AndK, OrK, NotK, TriOf, Column, Lower;
  }

  lemma EvalAnd(p: Pred, q: Pred, e: Event, w: World)
    ensures Eval(PAnd(p, q), e, w.rx) == AndK(Eval(p, e, w.rx), Eval(q, e, w.rx))
  {
    hide Cell, Fits, Fold, AndK, OrK, NotK, TriOf, Column, Lower;
  }

  lemma EvalOr(p: Pred, q: Pred, e: Event, w: World)
    ensures Eval(POr(p, q), e, w.rx) == OrK(Eval(p, e, w.rx), Eval(q, e, w.rx))
  {
    hide Cell, Fits, Fold, AndK, OrK, NotK, TriOf, Column, Lower;
  }

  /** Some value of the list that is not a question for absence. */
  predicate Names(property: string, v: string, values: seq<string>) {
    v in values && !AsksForAbsence(property, v)
  }

  /** The value of a chain of equalities on a row. */
  ghost function ChainAnswer(property: string, values: seq<string>, e: Event, w: World): Option<Tri>
    requires IsSubject(property, w)
  {
    var column := SubjectColumn(property, w);
    var cell := Cell(e, column);
    if "" in values && AsksForAbsence(property, "") && AbsenceHolds(column, e, w) then Some(True)
    else if cell.Some? then Some(TriOf(exists v :: Names(property, v, values) && Selects(property, v, cell.value, w)))
    else if exists v :: Names(property, v, values) then Some(Unknown)
    else Some(False)
  }

  lemma NamesSnoc(property: string, front: seq<string>, last: string)
    ensures forall v :: Names(property, v, front + [last])
                        <==> Names(property, v, front) || (v == last && !AsksForAbsence(property, v))
    ensures "" in front + [last] <==> "" in front || last == ""
  {
  }

  lemma {:induction false} OrChainMeans(property: string, values: seq<string>, e: Event, w: World)
    requires IsSubject(property, w) && values != []
    ensures Denote(OrChain(property, values), e, w) == ChainAnswer(property, values, e, w)
  {
    hide FieldFor, Lower, Column, Selects, Denote, SubjectColumn, IsSubject, AbsenceHolds, AsksForAbsence, Cell;
    var cell := Cell(e, SubjectColumn(property, w));
    var front, last := values[..|values| - 1], values[|values| - 1];
    assert values == front + [last];
    NamesSnoc(property, front, last);
    EqMeans(property, last, e, w);
    if |values| == 1 {
      assert front == [];
      assert AsksForAbsence(property, last) ==> last == "" by { AbsenceIsBlank(property, last); }
    } else {
      OrChainMeans(property, front, e, w);
      DenoteLogical(OrChain(property, front), Or, Compare(property, Equals, Str(last)), e, w);
      assert AsksForAbsence(property, last) ==> last == "" by { AbsenceIsBlank(property, last); }
    }
  }

  lemma AbsenceIsBlank(property: string, v: string)
    ensures AsksForAbsence(property, v) ==> v == ""
  {
  }

  /** Membership and disjunction have the same value on every row. */
  ghost predicate Interchangeable(property: string, values: seq<string>, w: World)
    requires values != []
  {
    forall e: Event :: Denote(Compare(property, In, ListOf(values)), e, w) == Denote(OrChain(property, values), e, w)
  }

  /** The list names every bare scheme, which is what the empty string would stand for. */
  predicate NamesAllSchemes(values: seq<string>) {
    forall scheme :: scheme in ["https://", "app://", "pixel://"] ==> exists v :: v in values && Lower(v) == scheme
  }

  /** A list without a question for absence; or one for `source` of an exception where asking makes no difference. */
  predicate ListsNoAbsence(property: string, values: seq<string>, w: World)
    requires IsSubject(property, w)
  {
    || "" !in values || Lower(property) == "project"
    || (SubjectColumn(property, w) == "source" && w.context.fields == Exceptions && NamesAllSchemes(values))
  }

  lemma SameWithoutBlank(property: string, values: seq<string>, e: Event, w: World)
    requires IsSubject(property, w) && values != [] && ("" !in values || Lower(property) == "project")
    ensures Denote(Compare(property, In, ListOf(values)), e, w) == Denote(OrChain(property, values), e, w)
  {
    hide FieldFor, Lower, Column, Selects, Denote, SubjectColumn, IsSubject, OrChain, AbsenceHolds;
    InMeans(property, values, e, w);
    OrChainMeans(property, values, e, w);
    assert forall v :: Names(property, v, values) <==> v in values;
    assert values[0] in values;
  }

  lemma BareSchemes(v: string, s: string)
    requires v != "" && s in ["https://", "app://", "pixel://"]
    ensures s in SourceForms(v) <==> Lower(v) == s
  {
    var l := Lower(v);
    assert s[|s| - 3..] == "://" && "://" <= s[|s| - 3..];
    assert "https://"[0] == 'h' && "app://"[0] == 'a' && "pixel://"[0] == 'p';
    assert forall p: string :: p in ["https://", "app://", "pixel://"] ==> (p + l)[0] == p[0] && |p + l| > |p|;
  }

  lemma BlankForms()
    ensures SourceForms("") == ["https://", "app://", "pixel://", ""]
    ensures forall v: string :: v != "" ==> "" !in SourceForms(v)
  {
    assert Lower("") == "" && !HasScheme("");
    assert "https://" + "" == "https://" && "app://" + "" == "app://" && "pixel://" + "" == "pixel://";
  }

  lemma NoLower(s: string)
    requires s in ["https://", "app://", "pixel://", ""]
    ensures Lower(s) == s
  {
  }

  /** On exceptions, `source` is absent exactly when it is the empty string. */
  lemma SourceOfException(property: string, values: seq<string>, e: Event, w: World)
    requires IsSubject(property, w) && Lower(property) != "project" && "" in values
    requires SubjectColumn(property, w) == "source" && w.context.fields == Exceptions
    requires Lower(e.source) in ["https://", "app://", "pixel://"] ==> exists v :: v in values && Lower(v) == Lower(e.source)
    ensures Denote(Compare(property, In, ListOf(values)), e, w) == Denote(OrChain(property, values), e, w)
  {
    hide FieldFor, Lower, Denote, OrChain, SourceForms, Visit;
    InMeans(property, values, e, w);
    OrChainMeans(property, values, e, w);
    BlankForms();
    assert Cell(e, "source") == Some(e.source);
    LowerBlank(e.source);
    LowerBlank("");
    if Lower(e.source) in ["https://", "app://", "pixel://"] {
      var v :| v in values && Lower(v) == Lower(e.source);
      LowerBlank(v);
      BareSchemes(v, Lower(e.source));
      assert Names(property, v, values);
    } else if v :| v in values && Selects(property, v, e.source, w) {
      assert v != "" ==> Names(property, v, values);
    }
  }

  lemma LowerBlank(s: string)
    ensures Lower(s) == "" <==> s == ""
  {
  }

  /** A row on which asking for absence says yes and membership does not know. */
  lemma NullRowDiffers(property: string, values: seq<string>, w: World) returns (e: Event)
    requires IsSubject(property, w) && Lower(property) != "project" && "" in values
    requires SubjectColumn(property, w) != "source"
    ensures Denote(Compare(property, In, ListOf(values)), e, w) != Denote(OrChain(property, values), e, w)
  {
    hide FieldFor, Lower, Denote, OrChain;
    var column := SubjectColumn(property, w);
    e := BlankRow(if column == "event_name" then Pixel else PageLoad, "");
    BlankCell(property, w, e);
    InMeans(property, values, e, w);
    OrChainMeans(property, values, e, w);
  }

  /** A row on which membership says yes and asking for absence, a page-view question, says no. */
  lemma PixelRowDiffers(property: string, values: seq<string>, w: World) returns (e: Event)
    requires IsSubject(property, w) && Lower(property) != "project" && "" in values
    requires SubjectColumn(property, w) == "source" && w.context.fields == Dashboard
    ensures Denote(Compare(property, In, ListOf(values)), e, w) != Denote(OrChain(property, values), e, w)
  {
    hide FieldFor, Lower, Denote, OrChain, SourceForms;
    e := BlankRow(Pixel, "");
    InMeans(property, values, e, w);
    OrChainMeans(property, values, e, w);
    BlankForms();
    LowerBlank("");
    assert Cell(e, "source") == Some("");
    assert Selects(property, "", "", w);
    assert !exists v :: Names(property, v, values) && Selects(property, v, "", w);
  }

  /** A bare scheme, which the empty string stands for and no other value names. */
  lemma SchemeRowDiffers(property: string, values: seq<string>, w: World, s: string) returns (e: Event)
    requires IsSubject(property, w) && Lower(property) != "project" && "" in values
    requires SubjectColumn(property, w) == "source" && w.context.fields == Exceptions
    requires s in ["https://", "app://", "pixel://"] && forall v :: v in values ==> Lower(v) != s
    ensures Denote(Compare(property, In, ListOf(values)), e, w) != Denote(OrChain(property, values), e, w)
  {
    NoLower(s);
    hide FieldFor, Lower, Denote, OrChain, SourceForms;
    e := BlankRow(Exception, s);
    InMeans(property, values, e, w);
    OrChainMeans(property, values, e, w);
    BlankForms();
    assert Cell(e, "source") == Some(s);
    assert Selects(property, "", s, w);
    forall v | Names(property, v, values) ensures !Selects(property, v, s, w) {
      BareSchemes(v, s);
    }
  }

  /**
   Membership is the disjunction of equalities on every row, null rows included, for every string
   field, for `source` with its scheme expansion and for `project`, exactly when the list asks for
   no absence: in a list the empty string is an ordinary value, in an equality it is not.
   */
  lemma MembershipIsDisjunctionIff(property: string, values: seq<string>, w: World)
    requires IsSubject(property, w) && values != []
    ensures Interchangeable(property, values, w) <==> ListsNoAbsence(property, values, w)
  {
    hide FieldFor, Lower, Denote, OrChain, SourceForms, ListOf, IsSubject, SubjectColumn;
    if "" !in values || Lower(property) == "project" {
      forall e: Event
        ensures Denote(Compare(property, In, ListOf(values)), e, w) == Denote(OrChain(property, values), e, w)
      {
        SameWithoutBlank(property, values, e, w);
      }
    } else if SubjectColumn(property, w) != "source" {
      var e := NullRowDiffers(property, values, w);
    } else if w.context.fields == Dashboard {
      var e := PixelRowDiffers(property, values, w);
    } else if NamesAllSchemes(values) {
      forall e: Event
        ensures Denote(Compare(property, In, ListOf(values)), e, w) == Denote(OrChain(property, values), e, w)
      {
        SourceOfException(property, values, e, w);
      }
    } else {
      var s :| s in ["https://", "app://", "pixel://"] && forall v :: v in values ==> Lower(v) != s;
      var e := SchemeRowDiffers(property, values, w, s);
    }
  }

  /** `f != v` keeps exactly the rows `!(f == v)` keeps and, besides, the rows where `f` is null. */
  lemma NotEqualsKeepsNulls(property: string, value: string, e: Event, w: World)
    requires IsField(property, w) && !TheField(property, w).boolean && value != ""
    ensures Keeps(Compare(property, NotEquals, Str(value)), e, w)
            <==> Keeps(Not(Compare(property, Equals, Str(value))), e, w)
                 || Cell(e, TheField(property, w).column).None?
    ensures Keeps(Not(Compare(property, Equals, Str(value))), e, w) ==> Cell(e, TheField(property, w).column).Some?
  {
    hide FieldFor, Lower, Column, Denote, StringEq;
    KeepsComparison(property, value, e, w);
    DenoteCompare(property, Equals, Str(value), e, w);
    EvalStringEq(TheField(property, w), value, e, w);
    DenoteNot(Compare(property, Equals, Str(value)), e, w);
  }

  lemma DenoteNot(l: Expr, e: Event, w: World)
    ensures Denote(Not(l), e, w) == if Denote(l, e, w).None? then None else Some(NotK(Denote(l, e, w).value))
  {
    hide Compile, Eval;
    var lp := Compile(l, w.context, w.glob);
    assert Visit(Not(l), w.context, w.glob) == if lp.Err? then Err else Ok(Predicate(PNot(lp.value)));
    CompilePredicate(Not(l), w);
    if lp.Ok? {
      EvalNot(lp.value, e, w);
    }
  }

  lemma CompilePredicate(x: Expr, w: World)
    requires Visit(x, w.context, w.glob).Ok? ==> Visit(x, w.context, w.glob).value.Predicate?
    ensures Compile(x, w.context, w.glob)
         == if Visit(x, w.context, w.glob).Err? then Err else Ok(Visit(x, w.context, w.glob).value.pred)
  {
  }
}
