/** The text-normalization stages behind exception fingerprints (agent/src/ingest/normalize.rs), over ASCII text. */
module Normalize {
  import opened Wrappers
  import opened Predicates

  // ---------------------------------------------------------------------- characters

  predicate IsLetter(c: char) { 'a' <= c <= 'z' || 'A' <= c <= 'Z' }

  predicate IsDigit(c: char) { '0' <= c <= '9' }

  predicate IsHex(c: char) { IsDigit(c) || 'a' <= c <= 'f' || 'A' <= c <= 'F' }

  predicate IsSpace(c: char) { c == ' ' || ('\t' <= c <= '\r') }

  predicate IsTerminator(c: char) {
    c in {' ', '\t', '\n', '\r', ')', ']', '}', '>', '"', '\'', '`', ',', ';'}
  }

  predicate IsSeparator(c: char) { c == '/' || c == '\\' }

  predicate IsPathChar(c: char) {
    IsLetter(c) || IsDigit(c) || c in {'.', '_', '-', '~', '@', '+', '$'}
  }

  predicate IsRunChar(c: char) { IsPathChar(c) || IsSeparator(c) }

  predicate IsTokenChar(c: char) { IsLetter(c) || IsDigit(c) || c == '-' || c == '_' }

  predicate All(p: char -> bool, s: string) { forall i :: 0 <= i < |s| ==> p(s[i]) }

  /** Length of the leading run of characters that satisfy `p`. */
  function Span(p: char -> bool, s: string): (n: nat)
    ensures n <= |s| && All(p, s[..n])
    ensures n < |s| ==> !p(s[n])
  {
    if s == "" || !p(s[0]) then 0
    else
      var n := 1 + Span(p, s[1..]);
      assert forall i :: 0 < i < n ==> s[..n][i] == s[1..][..n - 1][i - 1];
      n
  }

  /** A run that ends inside `a`, or at its end before a character that stops it. */
  lemma {:induction false} SpanConcat(p: char -> bool, a: string, b: string)
    ensures Span(p, a + b) == if Span(p, a) < |a| then Span(p, a) else |a| + Span(p, b)
  {
    if a == "" {
      assert a + b == b;
    } else {
      assert (a + b)[1..] == a[1..] + b;
      SpanConcat(p, a[1..], b);
    }
  }

  lemma {:induction false} SpanAll(p: char -> bool, s: string)
    requires All(p, s)
    ensures Span(p, s) == |s|
  {
  }

  /** Where a scan for the end of a run stops. */
  lemma SpanExact(p: char -> bool, s: string, from: nat, to: nat)
    requires from <= to <= |s| && All(p, s[from..to]) && (to < |s| ==> !p(s[to]))
    ensures Span(p, s[from..]) == to - from
  {
    assert s[from..] == s[from..to] + s[to..];
    SpanAll(p, s[from..to]);
    SpanConcat(p, s[from..to], s[to..]);
  }

  lemma AllSnoc(p: char -> bool, s: string, from: nat, to: nat)
    requires from <= to < |s| && All(p, s[from..to]) && p(s[to])
    ensures All(p, s[from..to + 1])
  {
    assert s[from..to + 1] == s[from..to] + [s[to]];
  }

  // ----------------------------------------------------------------------- DropQuery

  /** The text before the first `?`. */
  function DropQuery(s: string): string { s[..Span(c => c != '?', s)] }

  // ----------------------------------------------------------------------- StripUrls

  /** The length of the URL at the start of the text, if one is there. */
  function UrlLength(s: string): (r: Option<nat>)
    ensures r.Some? ==> 0 < r.value <= |s|
  {
    var k := Span(IsLetter, s);
    if k == 0 || |s| <= k + 2 then None
    else if s[k] != ':' || s[k + 1] != '/' || s[k + 2] != '/' then None
    else Some(k + 3 + Span(c => !IsTerminator(c), s[k + 3..]))
  }

  function StripUrls(s: string): string {
    if s == "" then ""
    else
      var url := UrlLength(s);
      if url.Some? then StripUrls(s[url.value..]) else [s[0]] + StripUrls(s[1..])
  }

  method UrlEnd(chars: string, start: nat) returns (r: Option<nat>)
    requires start <= |chars|
    ensures r == (if UrlLength(chars[start..]).None? then None else Some(start + UrlLength(chars[start..]).value))
  {
    hide IsTerminator, IsLetter, Span, All;
    var schemeEnd := start;
    Nothing(IsLetter, chars, start);
    while schemeEnd < |chars| && IsLetter(chars[schemeEnd])
      invariant start <= schemeEnd <= |chars| && All(IsLetter, chars[start..schemeEnd])
    {
      AllSnoc(IsLetter, chars, start, schemeEnd);
      schemeEnd := schemeEnd + 1;
    }
    SpanExact(IsLetter, chars, start, schemeEnd);
    if schemeEnd == start || |chars| <= schemeEnd + 2 {
      return None;
    }
    if chars[schemeEnd] != ':' || chars[schemeEnd + 1] != '/' || chars[schemeEnd + 2] != '/' {
      return None;
    }
    var end := schemeEnd + 3;
    var inUrl := c => !IsTerminator(c);
    Nothing(inUrl, chars, end);
    while end < |chars| && !IsTerminator(chars[end])
      invariant schemeEnd + 3 <= end <= |chars| && All(inUrl, chars[schemeEnd + 3..end])
    {
      AllSnoc(inUrl, chars, schemeEnd + 3, end);
      end := end + 1;
    }
    SpanExact(inUrl, chars, schemeEnd + 3, end);
    UrlBody(chars, start, schemeEnd - start);
    return Some(end);
  }

  lemma Nothing(p: char -> bool, s: string, i: nat)
    requires i <= |s|
    ensures All(p, s[i..i])
  {
  }

  lemma UrlBody(chars: string, start: nat, k: nat)
    requires start <= |chars| && start + k + 3 <= |chars| && k > 0 && Span(IsLetter, chars[start..]) == k
    requires chars[start + k] == ':' && chars[start + k + 1] == '/' && chars[start + k + 2] == '/'
    ensures UrlLength(chars[start..]) == Some(k + 3 + Span(c => !IsTerminator(c), chars[start + k + 3..]))
  {
    hide IsTerminator, IsLetter, Span;
    assert chars[start..][k + 3..] == chars[start + k + 3..];
  }

  predicate ContainsScheme(s: string) { exists i :: 0 <= i <= |s| && "://" <= s[i..] }

  method StripUrlsLoop(input: string) returns (out: string)
    ensures out == StripUrls(input)
  {
    if !ContainsScheme(input) {
      NoSchemeIsClean(input);
      CleanIsFixed(input);
      return input;
    }
    hide UrlLength, StripUrls;
    out := "";
    var i := 0;
    NoUrls();
    while i < |input|
      invariant i <= |input|
      invariant out + StripUrls(input[i..]) == StripUrls(input)
    {
      StripStep(input, i);
      var end := UrlEnd(input, i);
      if end.Some? {
        i := end.value;
      } else {
        Grow(out, [input[i]], StripUrls(input[i + 1..]));
        out := out + [input[i]];
        i := i + 1;
      }
    }
  }

  lemma Grow(out: string, x: string, rest: string)
    ensures out + (x + rest) == (out + x) + rest
  {
  }

  lemma NoUrls()
    ensures StripUrls("") == ""
  {
  }

  lemma StripStep(input: string, i: nat)
    requires i < |input|
    ensures var url := UrlLength(input[i..]);
            StripUrls(input[i..]) ==
            if url.Some? then StripUrls(input[i + url.value..]) else [input[i]] + StripUrls(input[i + 1..])
  {
    hide UrlLength;
    var url := UrlLength(input[i..]);
    assert input[i..][1..] == input[i + 1..];
    assert url.Some? ==> input[i..][url.value..] == input[i + url.value..];
  }

  /** A letter directly followed by `://`. */
  predicate UrlAt(s: string, i: nat) {
    i + 4 <= |s| && IsLetter(s[i]) && s[i + 1..i + 4] == "://"
  }

  predicate Clean(s: string) { forall i :: 0 <= i < |s| ==> !UrlAt(s, i) }

  lemma NoSchemeIsClean(s: string)
    requires !ContainsScheme(s)
    ensures Clean(s)
  {
    forall i | 0 <= i < |s| ensures !UrlAt(s, i) {
      if i + 4 <= |s| {
        assert s[i + 1..][..3] == s[i + 1..i + 4];
        assert !("://" <= s[i + 1..]);
      }
    }
  }

  lemma {:induction false} CleanIsFixed(s: string)
    requires Clean(s)
    ensures StripUrls(s) == s
  {
    hide UrlLength, Clean;
    if s != "" {
      CleanHasNoUrl(s);
      CleanTail(s);
      CleanIsFixed(s[1..]);
    }
  }

  lemma CleanHasNoUrl(s: string)
    requires Clean(s)
    ensures UrlLength(s).None?
  {
    var k := Span(IsLetter, s);
    if k > 0 && k + 3 <= |s| {
      assert s[..k][k - 1] == s[k - 1];
      assert !UrlAt(s, k - 1);
      assert s[k..k + 3] == [s[k], s[k + 1], s[k + 2]];
    }
  }

  lemma CleanTail(s: string)
    requires Clean(s) && s != ""
    ensures Clean(s[1..])
  {
    hide IsLetter;
    forall i | 0 <= i < |s[1..]| ensures !UrlAt(s[1..], i) {
      assert !UrlAt(s, i + 1);
      assert i + 4 <= |s[1..]| ==> s[1..][i + 1..i + 4] == s[i + 2..i + 5];
    }
  }

  /** Output that does not start with a terminator starts with the kept first character. */
  lemma HeadKept(s: string)
    requires StripUrls(s) != "" && !IsTerminator(StripUrls(s)[0])
    ensures s != "" && UrlLength(s).None? && StripUrls(s) == [s[0]] + StripUrls(s[1..])
  {
  }

  /** No URL survives: the output has no letter directly followed by `://`. */
  lemma {:induction false} StripUrlsIsClean(s: string)
    ensures Clean(StripUrls(s))
    decreases |s|
  {
    hide UrlLength, IsLetter;
    if s != "" {
      if UrlLength(s).Some? {
        StripUrlsIsClean(s[UrlLength(s).value..]);
      } else {
        var tail, out := StripUrls(s[1..]), StripUrls(s);
        StripUrlsIsClean(s[1..]);
        forall i | 0 <= i < |out| ensures !UrlAt(out, i) {
          if i > 0 && i + 4 <= |out| {
            assert out[i + 1..i + 4] == tail[i..i + 3];
            assert !UrlAt(tail, i - 1);
          } else if i == 0 && |out| >= 4 {
            assert out[1..4] == tail[..3];
            if tail[..3] == "://" {
              SchemeKept(s[1..]);
              LetterBeforeScheme(s);
            }
          }
        }
      }
    }
  }

  lemma LetterBeforeScheme(s: string)
    requires UrlLength(s).None? && |s| >= 4 && s[1..][..3] == "://"
    ensures !IsLetter(s[0])
  {
    assert s[1] == s[1..][..3][0] && s[2] == s[1..][..3][1] && s[3] == s[1..][..3][2];
    assert Span(IsLetter, s[1..]) == 0;
  }

  lemma SchemeKept(s: string)
    requires |StripUrls(s)| >= 3 && StripUrls(s)[..3] == "://"
    ensures |s| >= 3 && s[..3] == "://"
  {
    hide UrlLength;
    var out := StripUrls(s);
    assert out[0] == out[..3][0] && out[1] == out[..3][1] && out[2] == out[..3][2];
    HeadKept(s);
    assert out[1..] == StripUrls(s[1..]);
    HeadKept(s[1..]);
    assert s[1..][1..] == s[2..];
    assert out[2..] == StripUrls(s[2..]);
    HeadKept(s[2..]);
  }

  /** Stripping URLs twice is stripping them once. */
  lemma StripUrlsIdempotent(s: string)
    ensures StripUrls(StripUrls(s)) == StripUrls(s)
  {
    StripUrlsIsClean(s);
    CleanIsFixed(StripUrls(s));
  }

  // ------------------------------------------------------------------- rewriting of runs

  /** Replace every maximal run of `p` characters by its image, and keep all other characters. */
  function RewriteRuns(p: char -> bool, f: string -> string, s: string): string
    decreases |s|
  {
    if s == "" then ""
    else if p(s[0]) then f(s[..Span(p, s)]) + RewriteRuns(p, f, s[Span(p, s)..])
    else [s[0]] + RewriteRuns(p, f, s[1..])
  }

  lemma RunInFront(p: char -> bool, a: string, d: char, b: string)
    requires !p(d) && a != "" && p(a[0])
    ensures 0 < Span(p, a) == Span(p, a + [d] + b)
  {
    assert a + [d] + b == a + ([d] + b);
    SpanConcat(p, a, [d] + b);
  }

  /** Runs do not cross a delimiter. */
  lemma {:induction false} RunsSplit(p: char -> bool, f: string -> string, a: string, d: char, b: string)
    requires !p(d)
    ensures RewriteRuns(p, f, a + [d] + b) == RewriteRuns(p, f, a) + [d] + RewriteRuns(p, f, b)
    decreases |a|
  {
    hide RewriteRuns, Span, All;
    var s := a + [d] + b;
    if a == "" {
      assert s[1..] == b;
      CharStep(p, f, s);
      NoText(p, f);
    } else if p(a[0]) {
      var n := Span(p, a);
      RunInFront(p, a, d, b);
      RunStep(p, f, a);
      RunStep(p, f, s);
      assert s[..n] == a[..n] && s[n..] == a[n..] + [d] + b;
      RunsSplit(p, f, a[n..], d, b);
    } else {
      CharStep(p, f, a);
      CharStep(p, f, s);
      assert s[1..] == a[1..] + [d] + b;
      RunsSplit(p, f, a[1..], d, b);
    }
  }

  lemma RunStep(p: char -> bool, f: string -> string, s: string)
    requires s != "" && p(s[0])
    ensures 0 < Span(p, s) && RewriteRuns(p, f, s) == f(s[..Span(p, s)]) + RewriteRuns(p, f, s[Span(p, s)..])
  {
  }

  lemma CharStep(p: char -> bool, f: string -> string, s: string)
    requires s != "" && !p(s[0])
    ensures RewriteRuns(p, f, s) == [s[0]] + RewriteRuns(p, f, s[1..])
  {
  }

  lemma NoText(p: char -> bool, f: string -> string)
    ensures RewriteRuns(p, f, "") == ""
  {
  }

  lemma DelimiterKept(p: char -> bool, f: string -> string, s: string, i: nat)
    requires i < |s| && !p(s[i])
    ensures RewriteRuns(p, f, s[i..]) == [s[i]] + RewriteRuns(p, f, s[i + 1..])
    ensures StopsRun(p, s[i..])
  {
  }

  predicate StopsRun(p: char -> bool, s: string) { s == "" || !p(s[0]) }

  lemma RunThenRest(p: char -> bool, f: string -> string, run: string, rest: string)
    requires run != "" && All(p, run) && StopsRun(p, rest)
    ensures RewriteRuns(p, f, run + rest) == f(run) + RewriteRuns(p, f, rest)
  {
    SpanAll(p, run);
    SpanConcat(p, run, rest);
    assert (run + rest)[..|run|] == run && (run + rest)[|run|..] == rest;
  }

  /** The rewritten rest still stops a run. */
  lemma RestStops(p: char -> bool, f: string -> string, rest: string)
    requires StopsRun(p, rest)
    ensures StopsRun(p, RewriteRuns(p, f, rest))
  {
  }

  /** Rewriting is idempotent when images are runs themselves and rewriting one again changes nothing. */
  lemma {:induction false} RewriteIdempotent(p: char -> bool, f: string -> string, s: string)
    requires forall run :: run != "" && All(p, run) ==> f(run) != "" && All(p, f(run)) && f(f(run)) == f(run)
    ensures RewriteRuns(p, f, RewriteRuns(p, f, s)) == RewriteRuns(p, f, s)
    decreases |s|
  {
    if s != "" {
      if p(s[0]) {
        var n := Span(p, s);
        var run, rest := s[..n], s[n..];
        RewriteIdempotent(p, f, rest);
        RestStops(p, f, rest);
        assert run != "" && All(p, run);
        RunThenRest(p, f, f(run), RewriteRuns(p, f, rest));
      } else {
        RewriteIdempotent(p, f, s[1..]);
        assert ([s[0]] + RewriteRuns(p, f, s[1..]))[1..] == RewriteRuns(p, f, s[1..]);
      }
    }
  }

  // ------------------------------------------------------------------- NormalizePaths

  function Separators(s: string): nat {
    if s == "" then 0 else (if IsSeparator(s[0]) then 1 else 0) + Separators(s[1..])
  }

  function TrimSeparators(path: string): string {
    if path != "" && IsSeparator(path[|path| - 1]) then TrimSeparators(path[..|path| - 1]) else path
  }

  /** The text after the last separator. */
  function AfterLast(path: string): string {
    if path == "" || IsSeparator(path[|path| - 1]) then ""
    else AfterLast(path[..|path| - 1]) + [path[|path| - 1]]
  }

  /** The last non-empty segment, or the whole text when every segment is empty. */
  function Basename(path: string): string {
    if TrimSeparators(path) == "" then path else AfterLast(TrimSeparators(path))
  }

  predicate LooksLikePath(run: string) {
    Separators(run) >= 2 || (Separators(run) == 1 && '.' in Basename(run))
  }

  function Shorten(run: string): string { if LooksLikePath(run) then Basename(run) else run }

  function NormalizePaths(s: string): string { RewriteRuns(IsRunChar, Shorten, s) }

  method NormalizePathsLoop(input: string) returns (out: string)
    ensures out == NormalizePaths(input)
  {
    if '/' !in input && '\\' !in input {
      NoSeparators(input);
      return input;
    }
    hide IsRunChar, Shorten, NormalizePaths, All;
    out := "";
    var i := 0;
    assert NormalizePaths("") == "" by { NoPaths(); }
    while i < |input|
      invariant i <= |input|
      invariant out + NormalizePaths(input[i..]) == NormalizePaths(input)
    {
      if IsRunChar(input[i]) {
        var start := i;
        Nothing(IsRunChar, input, i);
        while i < |input| && IsRunChar(input[i])
          invariant start <= i <= |input| && All(IsRunChar, input[start..i])
          invariant i == start ==> IsRunChar(input[i])
        {
          AllSnoc(IsRunChar, input, start, i);
          i := i + 1;
        }
        RunShortened(input, start, i);
        Grow(out, Shorten(input[start..i]), NormalizePaths(input[i..]));
        out := out + Shorten(input[start..i]);
      } else {
        CharacterKept(input, i);
        Grow(out, [input[i]], NormalizePaths(input[i + 1..]));
        out := out + [input[i]];
        i := i + 1;
      }
    }
  }

  lemma NoPaths()
    ensures NormalizePaths("") == ""
  {
  }

  lemma RunShortened(input: string, start: nat, i: nat)
    requires start < i <= |input| && All(IsRunChar, input[start..i]) && StopsRun(IsRunChar, input[i..])
    ensures NormalizePaths(input[start..]) == Shorten(input[start..i]) + NormalizePaths(input[i..])
  {
    hide IsRunChar, Shorten, RewriteRuns, All, StopsRun;
    assert input[start..] == input[start..i] + input[i..];
    RunThenRest(IsRunChar, Shorten, input[start..i], input[i..]);
  }

  lemma CharacterKept(input: string, i: nat)
    requires i < |input| && !IsRunChar(input[i])
    ensures NormalizePaths(input[i..]) == [input[i]] + NormalizePaths(input[i + 1..])
  {
    hide IsRunChar, Shorten, RewriteRuns;
    DelimiterKept(IsRunChar, Shorten, input, i);
  }

  lemma {:induction false} NoneToCount(s: string)
    requires '/' !in s && '\\' !in s
    ensures Separators(s) == 0
  {
    if s != "" {
      NoneToCount(s[1..]);
    }
  }

  lemma {:induction false} NoSeparators(s: string)
    requires '/' !in s && '\\' !in s
    ensures NormalizePaths(s) == s
    decreases |s|
  {
    hide IsRunChar, Basename;
    if s != "" {
      if IsRunChar(s[0]) {
        var n := Span(IsRunChar, s);
        NoneToCount(s[..n]);
        NoSeparators(s[n..]);
        assert s == s[..n] + s[n..];
      } else {
        NoSeparators(s[1..]);
      }
    }
  }

  lemma {:induction false} SeparatorsConcat(a: string, b: string)
    ensures Separators(a + b) == Separators(a) + Separators(b)
  {
    if a == "" {
      assert a + b == b;
    } else {
      assert (a + b)[1..] == a[1..] + b;
      SeparatorsConcat(a[1..], b);
    }
  }

  lemma {:induction false} NoSeparatorsCount(s: string)
    ensures Separators(s) == 0 <==> All(c => !IsSeparator(c), s)
  {
    var p := c => !IsSeparator(c);
    if s != "" {
      NoSeparatorsCount(s[1..]);
      if All(p, s) {
        assert All(p, s[1..]);
        assert p(s[0]);
      }
      if Separators(s) == 0 {
        forall i | 0 <= i < |s| ensures p(s[i]) {
          assert i > 0 ==> s[i] == s[1..][i - 1];
        }
      }
    }
  }

  lemma LastIsNone(name: string)
    requires name != "" && Separators(name) == 0
    ensures Separators(name[..|name| - 1]) == 0 && !IsSeparator(name[|name| - 1])
  {
    var front, last := name[..|name| - 1], name[|name| - 1];
    assert name == front + [last];
    SeparatorsConcat(front, [last]);
  }

  /** A prefix that ends in a separator, or is empty, does not reach into what follows the last one. */
  lemma {:induction false} AfterLastConcat(dir: string, name: string)
    requires Separators(name) == 0
    ensures AfterLast(dir + name) == AfterLast(dir) + name
  {
    if name == "" {
      assert dir + name == dir;
    } else {
      var front, last := name[..|name| - 1], name[|name| - 1];
      LastIsNone(name);
      AfterLastConcat(dir, front);
      hide IsSeparator, Separators;
      assert (dir + name)[..|dir + name| - 1] == dir + front && (dir + name)[|dir + name| - 1] == last;
      assert AfterLast(dir + name) == (AfterLast(dir) + front) + [last];
      assert front + [last] == name;
    }
  }

  /** The basename of `dir + name` is `name`. */
  lemma BasenameOf(dir: string, name: string)
    requires dir != "" && IsSeparator(dir[|dir| - 1])
    requires name != "" && Separators(name) == 0
    ensures Basename(dir + name) == name
  {
    var path := dir + name;
    var front, last := name[..|name| - 1], name[|name| - 1];
    assert name == front + [last];
    SeparatorsConcat(front, [last]);
    assert path[|path| - 1] == last;
    AfterLastConcat(dir, name);
  }

  lemma {:induction false} AfterLastHasNone(path: string)
    ensures Separators(AfterLast(path)) == 0
    ensures forall c :: c in AfterLast(path) ==> c in path
  {
    if path != "" && !IsSeparator(path[|path| - 1]) {
      var front := path[..|path| - 1];
      AfterLastHasNone(front);
      SeparatorsConcat(AfterLast(front), [path[|path| - 1]]);
    }
  }

  lemma {:induction false} TrimKeeps(path: string)
    ensures forall c :: c in TrimSeparators(path) ==> c in path
    ensures TrimSeparators(path) != "" ==> !IsSeparator(TrimSeparators(path)[|TrimSeparators(path)| - 1])
    ensures TrimSeparators(path) == "" ==> Separators(path) == |path|
  {
    if path != "" && IsSeparator(path[|path| - 1]) {
      var front := path[..|path| - 1];
      TrimKeeps(front);
      assert path == front + [path[|path| - 1]];
      SeparatorsConcat(front, [path[|path| - 1]]);
    }
  }

  /** A shortened run is again a run, and shortening it again changes nothing. */
  lemma ShortenStable(run: string)
    requires run != "" && All(IsRunChar, run)
    ensures Shorten(run) != "" && All(IsRunChar, Shorten(run)) && Shorten(Shorten(run)) == Shorten(run)
  {
    if LooksLikePath(run) {
      var trimmed := TrimSeparators(run);
      TrimKeeps(run);
      if trimmed != "" {
        AfterLastHasNone(trimmed);
        var name := AfterLast(trimmed);
        forall i | 0 <= i < |name| ensures IsRunChar(name[i]) {
          assert name[i] in name;
          assert name[i] in run;
        }
      }
    }
  }

  /** Reducing paths to basenames twice is doing it once. */
  lemma NormalizePathsIdempotent(s: string)
    ensures NormalizePaths(NormalizePaths(s)) == NormalizePaths(s)
  {
    forall run: string | run != "" && All(IsRunChar, run)
      ensures Shorten(run) != "" && All(IsRunChar, Shorten(run)) && Shorten(Shorten(run)) == Shorten(run)
    {
      ShortenStable(run);
    }
    RewriteIdempotent(IsRunChar, Shorten, s);
  }

  // ------------------------------------------------------------------ token classifiers

  function Lowercase(s: string): string { Lower(s) }

  /** The 8-4-4-4-12 text form (section 4 of RFC 9562). */
  predicate IsUuid(token: string) {
    |token| == 36
    && forall i :: 0 <= i < 36 ==> if i in {8, 13, 18, 23} then token[i] == '-' else IsHex(token[i])
  }

  predicate IsHexAddress(token: string) {
    "0x" <= token && |token| > 2 && All(IsHex, token[2..])
  }

  predicate IsHexHash(token: string) {
    |token| >= 10 && All(IsHex, token) && exists i :: 0 <= i < |token| && IsDigit(token[i])
  }

  function Uuid(token: string): string { if IsUuid(token) then "<uuid>" else token }

  function Address(token: string): string { if IsHexAddress(token) then "<addr>" else token }

  function Hash(token: string): string { if IsHexHash(token) then "<hash>" else token }

  function MapTokens(f: string -> string, s: string): string { RewriteRuns(IsTokenChar, f, s) }

  /** One pass over the characters that remembers where the current token started. */
  method MapTokensLoop(f: string -> string, input: string) returns (out: string)
    ensures out == MapTokens(f, input)
  {
    hide IsTokenChar, All, Span, RewriteRuns;
    out := "";
    Nothing(IsTokenChar, input, 0);
    var tokenStart: Option<nat> := None;
    ghost var from := 0;
    for i := 0 to |input|
      invariant from <= i && (tokenStart == if from < i then Some(from) else None)
      invariant All(IsTokenChar, input[from..i])
      invariant out + MapTokens(f, input[from..]) == MapTokens(f, input)
    {
      var c := input[i];
      if IsTokenChar(c) {
        AllSnoc(IsTokenChar, input, from, i);
        if tokenStart.None? {
          tokenStart := Some(i);
        }
        continue;
      }
      DelimiterKept(IsTokenChar, f, input, i);
      if tokenStart.Some? {
        var token := input[tokenStart.value..i];
        RunThenRest(IsTokenChar, f, token, input[i..]);
        assert input[from..] == token + input[i..];
        out := out + f(token);
        tokenStart := None;
      }
      Grow(out, [c], MapTokens(f, input[i + 1..]));
      out := out + [c];
      from := i + 1;
      Nothing(IsTokenChar, input, from);
    }
    NoText(IsTokenChar, f);
    if tokenStart.Some? {
      var token := input[tokenStart.value..];
      assert token == input[from..|input|];
      RunThenRest(IsTokenChar, f, token, "");
      assert token + "" == token == input[from..];
      out := out + f(token);
    }
  }

  // ----------------------------------------------------------- digits and whitespace

  function StripDigits(s: string): string {
    if s == "" then "" else (if IsDigit(s[0]) then "" else [s[0]]) + StripDigits(s[1..])
  }

  function Words(s: string): seq<string>
    decreases |s|
  {
    if s == "" then []
    else if IsSpace(s[0]) then Words(s[1..])
    else
      var n := Span(c => !IsSpace(c), s);
      [s[..n]] + Words(s[n..])
  }

  function JoinWords(words: seq<string>): string {
    if words == [] then ""
    else if |words| == 1 then words[0]
    else words[0] + " " + JoinWords(words[1..])
  }

  function CollapseWhitespace(s: string): string { JoinWords(Words(s)) }

  /** FRAME_PIPELINE */
  function FramePipeline(s: string): string {
    var structural := NormalizePaths(StripUrls(DropQuery(s)));
    var tokens := MapTokens(Hash, MapTokens(Address, MapTokens(Uuid, Lowercase(structural))));
    CollapseWhitespace(StripDigits(tokens))
  }

  /** MESSAGE_PIPELINE */
  function MessagePipeline(s: string): string {
    var tokens := MapTokens(Hash, MapTokens(Address, MapTokens(Uuid, Lowercase(StripUrls(s)))));
    CollapseWhitespace(StripDigits(tokens))
  }
}
