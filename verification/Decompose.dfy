/**
 The query bar (ui/src/filters.rs): an expression is split into chips and an advanced remainder,
 printed again, and re-parsed. Its meaning is the one the agent compiles (module `Predicates`).
 */
module Decompose {
  import opened Wrappers
  import opened Seqs
  import opened FilterSyntax
  import opened Predicates

  datatype Dim =
    | Project | Source | Path | Referrer | Country | Language | Browser | Version | Os | Device
    | UtmSource | UtmMedium | UtmCampaign | AppVersion | EventName

  function Param(dim: Dim): string {
    match dim
    case Project => "project"
    case Source => "source"
    case Path => "path"
    case Referrer => "referrer"
    case Country => "country"
    case Language => "language"
    case Browser => "browser"
    case Version => "version"
    case Os => "os"
    case Device => "device"
    case UtmSource => "utm_source"
    case UtmMedium => "utm_medium"
    case UtmCampaign => "utm_campaign"
    case AppVersion => "app_version"
    case EventName => "event"
  }

  const ALL := [
    Project, Source, Path, Referrer, Country, Language, Browser, Version, Os, Device,
    UtmSource, UtmMedium, UtmCampaign, AppVersion, EventName]

  /** `Dim::from_param`: the first dimension with that field name. */
  function FromParam(param: string): Option<Dim> { FindDim(param, ALL) }

  function FindDim(param: string, dims: seq<Dim>): Option<Dim> {
    if dims == [] then None
    else if Param(dims[0]) == param then Some(dims[0])
    else FindDim(param, dims[1..])
  }

  datatype Piece = Term(dim: Dim, value: string) | Advanced(text: seq<Token>)

  /** A chip: `field == "value"` over a known dimension, in that order. */
  predicate IsChip(e: Expr) {
    && e.Binary? && e.op == Equals && e.left.Property?
    && e.right.Literal? && e.right.value.Str?
    && FromParam(Lower(e.left.name)).Some?
  }

  function ChipDim(e: Expr): Dim
    requires IsChip(e)
  {
    FromParam(Lower(e.left.name)).value
  }

  predicate IsOr(e: Expr) { e.Logical? && e.lop == Or }

  /** The text an advanced conjunct is kept as; the sides of `||` are printed without parentheses. */
  function AdvancedText(e: Expr): seq<Token> {
    if IsOr(e) then Print(e.left) + [LOp(Or)] + Print(e.right) else Print(e)
  }

  /** `Decomposer` */
  function Pieces(e: Expr): seq<Piece> {
    if e.Logical? && e.lop == And then Pieces(e.left) + Pieces(e.right)
    else [PieceOf(e)]
  }

  function PieceOf(e: Expr): Piece {
    if IsChip(e) then Term(ChipDim(e), e.right.value.s) else Advanced(AdvancedText(e))
  }

  datatype Query = Query(terms: seq<(Dim, string)>, advanced: Option<seq<Token>>)

  function Retain(terms: seq<(Dim, string)>, dim: Dim): seq<(Dim, string)> {
    Filter((t: (Dim, string)) => t.0 != dim, terms)
  }

  function TermsOf(pieces: seq<Piece>): seq<(Dim, string)> {
    if pieces == [] then []
    else
      var front, last := TermsOf(pieces[..|pieces| - 1]), pieces[|pieces| - 1];
      if last.Term? then Retain(front, last.dim) + [(last.dim, last.value)] else front
  }

  function AdvancedOf(pieces: seq<Piece>): seq<seq<Token>> {
    if pieces == [] then []
    else
      var front, last := AdvancedOf(pieces[..|pieces| - 1]), pieces[|pieces| - 1];
      if last.Advanced? then front + [last.text] else front
  }

  /** `parts.join(" && ")` */
  function Join(parts: seq<seq<Token>>): seq<Token> {
    if parts == [] then []
    else if |parts| == 1 then parts[0]
    else Join(parts[..|parts| - 1]) + [LOp(And)] + parts[|parts| - 1]
  }

  function Assemble(pieces: seq<Piece>): Query {
    var advanced := AdvancedOf(pieces);
    Query(TermsOf(pieces), if advanced == [] then None else Some(Join(advanced)))
  }

  /** What `Query::parse` returns. */
  function QueryOf(text: seq<Token>): Query {
    if text == [] then Query([], None)
    else
      match Parse(text)
      case None => Query([], Some(text))
      case Some(e) => Assemble(Pieces(e))
  }

  /** `Query::parse` */
  method ParseQuery(text: seq<Token>) returns (query: Query)
    ensures query == QueryOf(text)
  {
    if text == [] {
      return Query([], None);
    }
    var parsed := Parse(text);
    if parsed.None? {
      return Query([], Some(text));
    }
    var pieces := Pieces(parsed.value);
    var terms: seq<(Dim, string)>, advanced: seq<seq<Token>> := [], [];
    for i := 0 to |pieces|
      invariant terms == TermsOf(pieces[..i])
      invariant advanced == AdvancedOf(pieces[..i])
    {
      Take(pieces, i);
      match pieces[i] {
        case Term(dim, value) =>
          terms := Retain(terms, dim);
          terms := terms + [(dim, value)];
        case Advanced(text) =>
          advanced := advanced + [text];
      }
    }
    TakeAll(pieces);
    query := Query(terms, if advanced != [] then Some(Join(advanced)) else None);
  }

  function TermText(term: (Dim, string)): seq<Token> { [Word(Param(term.0)), Op(Equals), Lit(Str(term.1))] }

  /** `Query::to_expression` */
  function ToExpression(q: Query): seq<Token> {
    var parts := Map(TermText, q.terms);
    if q.advanced.None? || q.advanced.value == [] then Join(parts)
    else if parts == [] then q.advanced.value
    else Join(parts + [[LParen] + q.advanced.value + [RParen]])
  }
}
