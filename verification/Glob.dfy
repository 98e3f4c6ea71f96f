/** `glob_regex` (agent/src/analytics/filter.rs): a glob rendered as the text of an anchored regex. */
module Glob {
  import opened Wrappers
  import opened Events
  import opened Seqs
  import opened FilterSyntax
  import opened Predicates

  predicate IsMeta(c: char) {
    c == '\\' || c == '.' || c == '+' || c == '(' || c == ')' || c == '[' || c == ']'
    || c == '{' || c == '}' || c == '^' || c == '$' || c == '|'
  }

  /** The regex text of one pattern character. */
  function CharText(c: char): string {
    if c == '*' then ".*" else if c == '?' then "." else if IsMeta(c) then ['\\', c] else [c]
  }

  function BodyText(pattern: string): string {
    if pattern == "" then "" else BodyText(pattern[..|pattern| - 1]) + CharText(pattern[|pattern| - 1])
  }

  function RegexText(pattern: string, caseSensitive: bool): string {
    (if caseSensitive then "" else "(?i)") + "^" + BodyText(pattern) + "$"
  }

  lemma BodyLast(pattern: string)
    requires pattern != ""
    ensures BodyText(pattern) == BodyText(pattern[..|pattern| - 1]) + CharText(pattern[|pattern| - 1])
  {
  }

  lemma NoBody()
    ensures BodyText("") == ""
  {
  }

  lemma BodyGrows(head: string, pattern: string, i: nat)
    requires i < |pattern|
    ensures head + BodyText(pattern[..i + 1]) == (head + BodyText(pattern[..i])) + CharText(pattern[i])
  {
    hide BodyText, CharText;
    BodyLast(pattern[..i + 1]);
    Take(pattern, i);
  }

  method GlobRegex(pattern: string, caseSensitive: bool) returns (regex: string)
    ensures regex == RegexText(pattern, caseSensitive)
  {
    regex := "";
    if !caseSensitive {
      regex := regex + "(?i)";
    }
    regex := regex + "^";
    hide BodyText, IsMeta;
    ghost var head := regex;
    NoBody();
    for i := 0 to |pattern|
      invariant regex == head + BodyText(pattern[..i])
    {
      BodyGrows(head, pattern, i);
      ghost var before := regex;
      var c := pattern[i];
      match c {
        case '*' => regex := regex + ".*";
        case '?' => regex := regex + ".";
        case _ =>
          if IsMeta(c) {
            regex := regex + "\\";
            regex := regex + [c];
          } else {
            regex := regex + [c];
          }
      }
      assert regex == before + CharText(c);
    }
    TakeAll(pattern);
    regex := regex + "$";
  }

  // ------------------------------------------------------- the regex syntax it is read by

  datatype Atom = Char(c: char) | Any | AnyRun

  datatype Compiled = Compiled(foldCase: bool, atoms: seq<Atom>)

  /** The characters with a meaning of their own in the syntax of the Rust regex crate, outside classes. */
  const RESERVED := "\\.+*?()|[]{}^$"

  /** Atoms up to the final `$`: escapes, `.`, `.*`, and characters without a meaning of their own. */
  function ReadAtoms(s: string): Option<seq<Atom>> {
    if s == "$" then Some([])
    else if s == "" then None
    else if s[0] == '\\' then
      if |s| >= 2 && s[1] in RESERVED then Prepend(Char(s[1]), ReadAtoms(s[2..])) else None
    else if s[0] == '.' then
      if |s| >= 2 && s[1] == '*' then Prepend(AnyRun, ReadAtoms(s[2..])) else Prepend(Any, ReadAtoms(s[1..]))
    else if s[0] in RESERVED then None
    else Prepend(Char(s[0]), ReadAtoms(s[1..]))
  }

  function Prepend(a: Atom, rest: Option<seq<Atom>>): Option<seq<Atom>> {
    if rest.None? then None else Some([a] + rest.value)
  }

  /** An optional `(?i)` flag, then `^`, atoms and `$`. */
  function ReadRegex(s: string): Option<Compiled> {
    var folded := "(?i)" <= s;
    var t := if folded then s[4..] else s;
    if t == "" || t[0] != '^' then None
    else
      var atoms := ReadAtoms(t[1..]);
      if atoms.None? then None else Some(Compiled(folded, atoms.value))
  }

  predicate SameChar(folded: bool, a: char, b: char) {
    if folded then LowerChar(a) == LowerChar(b) else a == b
  }

  /** `.` matches any character but a line feed. */
  predicate MatchAtoms(folded: bool, atoms: seq<Atom>, s: string)
    decreases |atoms| + |s|
  {
    if atoms == [] then s == ""
    else
      match atoms[0]
      case Char(c) => s != "" && SameChar(folded, c, s[0]) && MatchAtoms(folded, atoms[1..], s[1..])
      case Any => s != "" && s[0] != '\n' && MatchAtoms(folded, atoms[1..], s[1..])
      case AnyRun =>
        || MatchAtoms(folded, atoms[1..], s)
        || (s != "" && s[0] != '\n' && MatchAtoms(folded, atoms, s[1..]))
  }

  predicate RegexAccepts(regex: Compiled, s: string) { MatchAtoms(regex.foldCase, regex.atoms, s) }

  // --------------------------------------------------------------------- what globs mean

  /** `*` stands for any string, `?` for any one character, everything else for itself. */
  ghost predicate GlobAccepts(pattern: string, caseSensitive: bool, s: string) {
    if pattern == "" then s == ""
    else if pattern[0] == '*' then exists i :: 0 <= i <= |s| && GlobAccepts(pattern[1..], caseSensitive, s[i..])
    else if pattern[0] == '?' then s != "" && GlobAccepts(pattern[1..], caseSensitive, s[1..])
    else s != "" && SameChar(!caseSensitive, pattern[0], s[0]) && GlobAccepts(pattern[1..], caseSensitive, s[1..])
  }

  function AtomFor(c: char): Atom {
    if c == '*' then AnyRun else if c == '?' then Any else Char(c)
  }

  lemma {:induction false} BodyFront(pattern: string)
    requires pattern != ""
    ensures BodyText(pattern) == CharText(pattern[0]) + BodyText(pattern[1..])
  {
    hide CharText, BodyText;
    var n := |pattern| - 1;
    BodyLast(pattern);
    if n == 0 {
      assert pattern[..0] == "" && pattern[1..] == "";
      NoBody();
    } else {
      var tail := pattern[1..];
      BodyFront(pattern[..n]);
      assert pattern[..n][1..] == tail[..n - 1] && tail[n - 1] == pattern[n];
      BodyLast(tail);
    }
  }

  lemma CharReads(c: char, rest: string)
    requires rest != "" && rest[0] != '*'
    ensures ReadAtoms(CharText(c) + rest) == Prepend(AtomFor(c), ReadAtoms(rest))
  {
  }

  lemma CharStart(c: char)
    ensures CharText(c) != "" && CharText(c)[0] != '*'
  {
  }

  /** Whatever characters the pattern holds, the emitted text reads back as one atom per character. */
  lemma {:induction false} BodyReads(pattern: string)
    ensures ReadAtoms(BodyText(pattern) + "$") == Some(Map(AtomFor, pattern))
  {
    hide CharText, AtomFor, ReadAtoms;
    if pattern == "" {
      assert BodyText(pattern) + "$" == "$";
      EndReads();
    } else {
      var c, tail := pattern[0], pattern[1..];
      BodyFront(pattern);
      BodyReads(tail);
      var rest := BodyText(tail) + "$";
      if tail != "" {
        BodyFront(tail);
        CharStart(tail[0]);
        assert rest[0] == CharText(tail[0])[0];
      }
      CharReads(c, rest);
      assert BodyText(pattern) + "$" == CharText(c) + rest;
      assert [AtomFor(c)] + Map(AtomFor, tail) == Map(AtomFor, pattern);
    }
  }

  lemma EndReads()
    ensures ReadAtoms("$") == Some([])
  {
  }

  lemma FlagReads(body: string)
    ensures "(?i)" <= "(?i)" + ("^" + body) && ("(?i)" + ("^" + body))[4..] == "^" + body
    ensures !("(?i)" <= "^" + body) && ("^" + body)[1..] == body
  {
    assert "(?i)"[0] == '(' && ("^" + body)[0] == '^';
  }

  lemma TextReads(pattern: string, caseSensitive: bool)
    ensures ReadRegex(RegexText(pattern, caseSensitive)) == Some(Compiled(!caseSensitive, Map(AtomFor, pattern)))
  {
    hide ReadAtoms, BodyText;
    BodyReads(pattern);
    var body := BodyText(pattern) + "$";
    FlagReads(body);
    if caseSensitive {
      assert RegexText(pattern, caseSensitive) == "^" + body;
    } else {
      assert RegexText(pattern, caseSensitive) == "(?i)" + ("^" + body);
    }
  }

  predicate OneLine(s: string) { '\n' !in s }

  lemma {:induction false} RunMatches(folded: bool, atoms: seq<Atom>, s: string)
    requires atoms != [] && atoms[0] == AnyRun && OneLine(s)
    ensures MatchAtoms(folded, atoms, s) <==> exists i :: 0 <= i <= |s| && MatchAtoms(folded, atoms[1..], s[i..])
    decreases |s|
  {
    assert s[0..] == s;
    if s != "" {
      RunMatches(folded, atoms, s[1..]);
      if i :| 0 <= i <= |s| && MatchAtoms(folded, atoms[1..], s[i..]) {
        if i > 0 {
          assert s[1..][i - 1..] == s[i..];
        }
      }
      if i :| 0 <= i <= |s[1..]| && MatchAtoms(folded, atoms[1..], s[1..][i..]) {
        assert s[1..][i..] == s[i + 1..];
      }
    }
  }

  lemma {:induction false} AtomsMatchGlob(pattern: string, caseSensitive: bool, s: string)
    requires OneLine(s)
    ensures MatchAtoms(!caseSensitive, Map(AtomFor, pattern), s) <==> GlobAccepts(pattern, caseSensitive, s)
    decreases |pattern|
  {
    if pattern != "" {
      var tail := pattern[1..];
      var atoms := Map(AtomFor, pattern);
      assert atoms[1..] == Map(AtomFor, tail);
      if pattern[0] == '*' {
        RunMatches(!caseSensitive, atoms, s);
        forall i | 0 <= i <= |s|
          ensures MatchAtoms(!caseSensitive, atoms[1..], s[i..]) <==> GlobAccepts(tail, caseSensitive, s[i..])
        {
          AtomsMatchGlob(tail, caseSensitive, s[i..]);
        }
      } else if s != "" {
        AtomsMatchGlob(tail, caseSensitive, s[1..]);
      }
    }
  }

  /**
   For every pattern, regex metacharacters included, the emitted text is a well-formed regex that
   accepts exactly the one-line strings the glob accepts.
   */
  lemma GlobRegexIsGlob(pattern: string, caseSensitive: bool, s: string)
    requires OneLine(s)
    ensures ReadRegex(RegexText(pattern, caseSensitive)).Some?
    ensures RegexAccepts(ReadRegex(RegexText(pattern, caseSensitive)).value, s) <==> GlobAccepts(pattern, caseSensitive, s)
  {
    TextReads(pattern, caseSensitive);
    AtomsMatchGlob(pattern, caseSensitive, s);
  }

  // ----------------------------------------------------------------------- line feeds

  function LineFeeds(s: string): nat {
    if s == "" then 0 else (if s[0] == '\n' then 1 else 0) + LineFeeds(s[1..])
  }

  function Literals(atoms: seq<Atom>): nat {
    if atoms == [] then 0 else (if atoms[0] == Char('\n') then 1 else 0) + Literals(atoms[1..])
  }

  predicate IsWildcard(c: char) { c == '*' || c == '?' }

  predicate HasWildcard(pattern: string) { exists i :: 0 <= i < |pattern| && IsWildcard(pattern[i]) }

  /** A regex of this kind consumes line feeds only through its own literal ones. */
  lemma {:induction false} MatchCountsLineFeeds(folded: bool, atoms: seq<Atom>, s: string)
    requires MatchAtoms(folded, atoms, s)
    ensures LineFeeds(s) == Literals(atoms)
    decreases |atoms| + |s|
  {
    if atoms != [] {
      if atoms[0] == AnyRun && !MatchAtoms(folded, atoms[1..], s) {
        MatchCountsLineFeeds(folded, atoms, s[1..]);
      } else if atoms[0] == AnyRun {
        MatchCountsLineFeeds(folded, atoms[1..], s);
      } else {
        MatchCountsLineFeeds(folded, atoms[1..], s[1..]);
      }
    }
  }

  /** The string the pattern accepts when every wildcard stands for one line feed. */
  function LineFeedFor(c: char): char { if IsWildcard(c) then '\n' else c }

  lemma {:induction false} GlobAcceptsLineFeeds(pattern: string, caseSensitive: bool)
    ensures GlobAccepts(pattern, caseSensitive, Map(LineFeedFor, pattern))
    ensures LineFeeds(Map(LineFeedFor, pattern)) >= Literals(Map(AtomFor, pattern))
    ensures HasWildcard(pattern) ==> LineFeeds(Map(LineFeedFor, pattern)) > Literals(Map(AtomFor, pattern))
  {
    if pattern != "" {
      var tail := pattern[1..];
      var s, atoms := Map(LineFeedFor, pattern), Map(AtomFor, pattern);
      GlobAcceptsLineFeeds(tail, caseSensitive);
      assert s[1..] == Map(LineFeedFor, tail) && atoms[1..] == Map(AtomFor, tail);
      if HasWildcard(pattern) && !IsWildcard(pattern[0]) {
        var i :| 0 <= i < |pattern| && IsWildcard(pattern[i]);
        assert IsWildcard(tail[i - 1]);
      }
    }
  }

  lemma NoWildcardLater(pattern: string)
    requires !HasWildcard(pattern) && pattern != ""
    ensures !HasWildcard(pattern[1..])
  {
    forall i | 0 <= i < |pattern[1..]| ensures !IsWildcard(pattern[1..][i]) {
      assert !IsWildcard(pattern[i + 1]);
    }
  }

  lemma {:induction false} PlainMatches(pattern: string, caseSensitive: bool, s: string)
    requires !HasWildcard(pattern)
    ensures MatchAtoms(!caseSensitive, Map(AtomFor, pattern), s) <==> GlobAccepts(pattern, caseSensitive, s)
  {
    if pattern != "" {
      var tail := pattern[1..];
      assert !IsWildcard(pattern[0]);
      assert Map(AtomFor, pattern)[1..] == Map(AtomFor, tail);
      NoWildcardLater(pattern);
      if s != "" {
        PlainMatches(tail, caseSensitive, s[1..]);
      }
    }
  }

  /** On strings with line feeds, regex and glob agree exactly when the pattern has no wildcard. */
  lemma AgreesEverywhereIff(pattern: string, caseSensitive: bool)
    ensures ReadRegex(RegexText(pattern, caseSensitive)).Some?
    ensures (forall s :: RegexAccepts(ReadRegex(RegexText(pattern, caseSensitive)).value, s)
                         <==> GlobAccepts(pattern, caseSensitive, s))
            <==> !HasWildcard(pattern)
  {
    TextReads(pattern, caseSensitive);
    var regex := ReadRegex(RegexText(pattern, caseSensitive)).value;
    if HasWildcard(pattern) {
      var s := Map(LineFeedFor, pattern);
      GlobAcceptsLineFeeds(pattern, caseSensitive);
      if RegexAccepts(regex, s) {
        MatchCountsLineFeeds(!caseSensitive, regex.atoms, s);
      }
      assert !(RegexAccepts(regex, s) <==> GlobAccepts(pattern, caseSensitive, s));
    } else {
      forall s: string ensures RegexAccepts(regex, s) <==> GlobAccepts(pattern, caseSensitive, s) {
        PlainMatches(pattern, caseSensitive, s);
      }
    }
  }

  // ---------------------------------------------------------------------------- common globs

  /** A literal text and `*` is a prefix test; a literal text and `?` asks for exactly one more character. */
  lemma {:induction false} PrefixGlobs(literal: string, caseSensitive: bool, s: string)
    requires !HasWildcard(literal)
    ensures GlobAccepts(literal + "*", caseSensitive, s)
            <==> |literal| <= |s| && forall i :: 0 <= i < |literal| ==> SameChar(!caseSensitive, literal[i], s[i])
    ensures GlobAccepts(literal + "?", caseSensitive, s)
            <==> |literal| + 1 == |s| && forall i :: 0 <= i < |literal| ==> SameChar(!caseSensitive, literal[i], s[i])
  {
    if literal == "" {
      assert "" + "*" == "*" && "" + "?" == "?" && "*"[1..] == "" && "?"[1..] == "";
      assert s[|s|..] == "";
      assert GlobAccepts("", caseSensitive, s[|s|..]);
    } else {
      assert (literal + "*")[1..] == literal[1..] + "*" && (literal + "?")[1..] == literal[1..] + "?";
      assert !IsWildcard(literal[0]);
      NoWildcardLater(literal);
      if s != "" {
        PrefixGlobs(literal[1..], caseSensitive, s[1..]);
        if |literal| <= |s| {
          SplitFirst(literal, !caseSensitive, s);
        }
      }
    }
  }

  lemma SplitFirst(a: string, folded: bool, s: string)
    requires a != "" && s != "" && |a| <= |s|
    ensures (forall i :: 0 <= i < |a| ==> SameChar(folded, a[i], s[i]))
            <==> SameChar(folded, a[0], s[0]) && forall i :: 0 <= i < |a[1..]| ==> SameChar(folded, a[1..][i], s[1..][i])
  {
    if SameChar(folded, a[0], s[0]) && forall i :: 0 <= i < |a[1..]| ==> SameChar(folded, a[1..][i], s[1..][i]) {
      forall i | 0 <= i < |a| ensures SameChar(folded, a[i], s[i]) {
        assert i > 0 ==> a[i] == a[1..][i - 1] && s[i] == s[1..][i - 1];
      }
    }
  }

  // ------------------------------------------------------------------------- what `like` keeps

  /** Regex search for the texts the translation emits. */
  predicate Search(s: string, text: string) {
    var regex := ReadRegex(text);
    regex.Some? && RegexAccepts(regex.value, s)
  }

  /** The compiler with this translation and this search. */
  function GlobWorld(context: Context): World {
    World(context, (pattern: string, caseSensitive: bool) => RegexText(pattern, caseSensitive),
          (s: string, text: string) => Search(s, text))
  }

  /**
   `f like pattern` is unknown on null, and otherwise keeps exactly the values the glob accepts: the
   one-line ones for every pattern, and all of them for a pattern without wildcards.
   */
  lemma LikeMeans(property: string, pattern: string, caseSensitive: bool, e: Event, context: Context)
    requires IsField(property, GlobWorld(context)) && !TheField(property, GlobWorld(context)).boolean
    ensures var w := GlobWorld(context);
            var cell := Cell(e, TheField(property, w).column);
            && (cell.None? ==> Denote(Like(Property(property), caseSensitive, pattern), e, w) == Some(Unknown))
            && (cell.Some? && (OneLine(cell.value) || !HasWildcard(pattern)) ==>
                  (Keeps(Like(Property(property), caseSensitive, pattern), e, w)
                   <==> GlobAccepts(pattern, caseSensitive, cell.value)))
  {
    hide FieldFor, Lower, RegexText, ReadRegex, GlobAccepts, MatchAtoms, Cell, HasWildcard;
    var w := GlobWorld(context);
    var column := TheField(property, w).column;
    assert Visit(Property(property), context, w.glob) == Ok(ColumnNode(TheField(property, w)));
    assert Visit(Like(Property(property), caseSensitive, pattern), context, w.glob)
        == Ok(Predicate(Regex(column, RegexText(pattern, caseSensitive))));
    var cell := Cell(e, column);
    if cell.Some? && OneLine(cell.value) {
      GlobRegexIsGlob(pattern, caseSensitive, cell.value);
    }
    AgreesEverywhereIff(pattern, caseSensitive);
  }
}
