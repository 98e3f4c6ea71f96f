/** What the frame pipeline and the fingerprint cannot see: line numbers, build directories, recursion depth. */
module Frames {
  import opened Wrappers
  import opened Normalize

  // ---------------------------------------------------------------------- line numbers

  predicate Digits(n: string) { n != "" && All(IsDigit, n) }

  /** Text that cannot prolong the number's token. */
  predicate Tail(b: string) { b == "" || !IsTokenChar(b[0]) }

  function Numbered(a: string, n: string, b: string): string { a + ":" + n + b }

  /** Equal texts, or texts that differ only in the number after a colon. */
  ghost predicate Alike(x: string, y: string, n: string, m: string) {
    x == y || exists a, b :: Tail(b) && x == Numbered(a, n, b) && y == Numbered(a, m, b)
  }

  lemma AlikeNumbered(a: string, b: string, n: string, m: string)
    requires Tail(b)
    ensures Alike(Numbered(a, n, b), Numbered(a, m, b), n, m)
  {
  }

  lemma NumberedCons(c: string, a: string, n: string, b: string)
    ensures c + Numbered(a, n, b) == Numbered(c + a, n, b)
  {
  }

  lemma AlikeCons(c: string, x: string, y: string, n: string, m: string)
    requires Alike(x, y, n, m)
    ensures Alike(c + x, c + y, n, m)
  {
    hide Tail, Numbered;
    if x != y {
      var a, b :| Tail(b) && x == Numbered(a, n, b) && y == Numbered(a, m, b);
      NumberedCons(c, a, n, b);
      NumberedCons(c, a, m, b);
    }
  }

  lemma QueryStage(a: string, n: string, m: string, b: string)
    requires Digits(n) && Digits(m) && Tail(b)
    ensures Alike(DropQuery(Numbered(a, n, b)), DropQuery(Numbered(a, m, b)), n, m)
  {
    hide Digits, IsTokenChar;
    var p := c => c != '?';
    DropQueryOf(a, n, b);
    DropQueryOf(a, m, b);
    if Span(p, a) == |a| {
      var b' := b[..Span(p, b)];
      assert Tail(b') by { assert b' == "" || b'[0] == b[0]; }
      AlikeNumbered(a, b', n, m);
    }
  }

  lemma DropQueryOf(a: string, n: string, b: string)
    requires Digits(n)
    ensures var p := c => c != '?';
            DropQuery(Numbered(a, n, b)) ==
            if Span(p, a) < |a| then a[..Span(p, a)] else Numbered(a, n, b[..Span(p, b)])
  {
    var p := c => c != '?';
    var s := Numbered(a, n, b);
    assert s == a + (":" + n + b);
    assert ":" + n + b == (":" + n) + b;
    assert All(p, ":" + n) by {
      forall i | 0 <= i < |":" + n| ensures p((":" + n)[i]) {
        assert i > 0 ==> IsDigit(n[i - 1]);
      }
    }
    SpanAll(p, ":" + n);
    SpanConcat(p, ":" + n, b);
    SpanConcat(p, a, ":" + n + b);
    if Span(p, a) == |a| {
      assert s[..|a| + 1 + |n| + Span(p, b)] == Numbered(a, n, b[..Span(p, b)]);
    }
  }

  lemma DigitStarts(s: string)
    requires s != "" && IsDigit(s[0])
    ensures UrlLength(s).None?
  {
  }

  lemma {:induction false} DigitsPass(n: string, b: string)
    requires All(IsDigit, n)
    ensures StripUrls(n + b) == n + StripUrls(b)
  {
    hide UrlLength, StripUrls;
    if n == "" {
      assert n + b == b;
    } else {
      assert (n + b)[1..] == n[1..] + b && (n + b)[..1] == n[..1];
      assert IsDigit(n[0]);
      DigitStarts(n + b);
      StripPlain(n + b);
      DigitsPass(n[1..], b);
    }
  }

  lemma TailKept(b: string)
    requires Tail(b)
    ensures Tail(StripUrls(b))
  {
  }

  /** Whether a URL starts the text, and whether it reaches past `a`. */
  predicate StartsUrl(a: string) {
    var k := Span(IsLetter, a);
    k > 0 && k + 3 <= |a| && a[k] == ':' && a[k + 1] == '/' && a[k + 2] == '/'
  }

  function UrlBodyIn(a: string): nat
    requires StartsUrl(a)
  {
    Span(c => !IsTerminator(c), a[Span(IsLetter, a) + 3..])
  }

  predicate UrlEndsIn(a: string)
    requires StartsUrl(a)
  {
    Span(IsLetter, a) + 3 + UrlBodyIn(a) < |a|
  }

  /** No URL starts where none starts in `a`: a following colon and digit cannot complete a scheme. */
  lemma NoUrlAcross(a: string, n: string, b: string)
    requires a != "" && Digits(n) && !StartsUrl(a)
    ensures UrlLength(Numbered(a, n, b)).None?
  {
    hide IsLetter;
    var k := Span(IsLetter, a);
    var more := ":" + n + b;
    assert Numbered(a, n, b) == a + more;
    SpanConcat(IsLetter, a, more);
    assert Span(IsLetter, more) == 0 by { ColonIsNoLetter(more); }
    assert more[0] == ':' && more[1] == n[0] && IsDigit(n[0]);
  }

  lemma ColonIsNoLetter(s: string)
    requires s != "" && s[0] == ':'
    ensures Span(IsLetter, s) == 0
  {
  }

  lemma NumberInUrl(n: string, b: string)
    requires Digits(n)
    ensures var inUrl := c => !IsTerminator(c);
            Span(inUrl, ":" + n + b) == 1 + |n| + Span(inUrl, b)
  {
    var inUrl := c => !IsTerminator(c);
    assert ":" + n + b == (":" + n) + b;
    assert All(inUrl, ":" + n) by {
      forall i | 0 <= i < |":" + n| ensures inUrl((":" + n)[i]) {
        assert i > 0 ==> IsDigit(n[i - 1]);
      }
    }
    SpanAll(inUrl, ":" + n);
    SpanConcat(inUrl, ":" + n, b);
  }

  /** A URL that starts in `a` ends there, or swallows the number and goes on into `b`. */
  lemma UrlAcross(a: string, n: string, b: string)
    requires Digits(n) && StartsUrl(a)
    ensures UrlLength(Numbered(a, n, b))
         == Some(if UrlEndsIn(a) then Span(IsLetter, a) + 3 + UrlBodyIn(a)
                 else |a| + 1 + |n| + Span(c => !IsTerminator(c), b))
  {
    hide IsLetter, IsTerminator, Digits, Span, All;
    var k := Span(IsLetter, a);
    var inUrl := c => !IsTerminator(c);
    var more := ":" + n + b;
    var s := Numbered(a, n, b);
    assert s == a + more;
    SpanConcat(IsLetter, a, more);
    assert s[k + 3..] == a[k + 3..] + more;
    SpanConcat(inUrl, a[k + 3..], more);
    NumberInUrl(n, b);
    assert UrlLength(s) == Some(k + 3 + Span(inUrl, s[k + 3..]));
  }

  lemma NumberedFrom(a: string, n: string, b: string, i: nat)
    requires i <= |a|
    ensures Numbered(a, n, b)[i..] == Numbered(a[i..], n, b)
  {
  }

  lemma NumberedPast(a: string, n: string, b: string, i: nat)
    requires i <= |b|
    ensures Numbered(a, n, b)[|a| + 1 + |n| + i..] == b[i..]
  {
  }

  lemma StripAfterUrl(s: string, end: nat)
    requires UrlLength(s) == Some(end)
    ensures StripUrls(s) == StripUrls(s[end..])
  {
  }

  lemma StripPlain(s: string)
    requires s != "" && UrlLength(s).None?
    ensures StripUrls(s) == s[..1] + StripUrls(s[1..])
  {
  }

  lemma {:induction false} UrlStage(a: string, n: string, m: string, b: string)
    requires Digits(n) && Digits(m) && Tail(b)
    ensures Alike(StripUrls(Numbered(a, n, b)), StripUrls(Numbered(a, m, b)), n, m)
    decreases |a|
  {
    hide UrlLength, IsTerminator, IsTokenChar, IsLetter, StripUrls, Digits, Alike, Tail, StartsUrl;
    var x, y := Numbered(a, n, b), Numbered(a, m, b);
    if a == "" {
      ColonPasses(n, b);
      ColonPasses(m, b);
      TailKept(b);
      AlikeNumbered("", StripUrls(b), n, m);
    } else if !StartsUrl(a) {
      NoUrlAcross(a, n, b);
      NoUrlAcross(a, m, b);
      StripPlain(x);
      StripPlain(y);
      assert x[..1] == a[..1] == y[..1];
      NumberedFrom(a, n, b, 1);
      NumberedFrom(a, m, b, 1);
      UrlStage(a[1..], n, m, b);
      AlikeCons(a[..1], StripUrls(x[1..]), StripUrls(y[1..]), n, m);
    } else {
      UrlAcross(a, n, b);
      UrlAcross(a, m, b);
      StripAfterUrl(x, UrlLength(x).value);
      StripAfterUrl(y, UrlLength(y).value);
      if UrlEndsIn(a) {
        var end := Span(IsLetter, a) + 3 + UrlBodyIn(a);
        NumberedFrom(a, n, b, end);
        NumberedFrom(a, m, b, end);
        UrlStage(a[end..], n, m, b);
      } else {
        NumberedPast(a, n, b, Span(c => !IsTerminator(c), b));
        NumberedPast(a, m, b, Span(c => !IsTerminator(c), b));
        SameAlike(StripUrls(x), n, m);
      }
    }
  }

  lemma SameAlike(x: string, n: string, m: string)
    ensures Alike(x, x, n, m)
  {
  }

  lemma ColonStarts(s: string)
    requires s != "" && s[0] == ':'
    ensures UrlLength(s).None?
  {
  }

  lemma ColonPasses(n: string, b: string)
    requires Digits(n)
    ensures StripUrls(Numbered("", n, b)) == Numbered("", n, StripUrls(b))
  {
    hide UrlLength, StripUrls;
    var s := Numbered("", n, b);
    assert s[1..] == n + b && s[..1] == ":";
    ColonStarts(s);
    StripPlain(s);
    DigitsPass(n, b);
    assert ":" + (n + StripUrls(b)) == Numbered("", n, StripUrls(b));
  }

  // The number in the paths stage: it heads a run of path characters.

  lemma {:induction false} TrimAfter(n: string, q: string)
    requires n != "" && Separators(n) == 0
    ensures TrimSeparators(n + q) == n + TrimSeparators(q)
  {
    if q == "" {
      assert n + q == n;
      NoSeparatorsCount(n);
    } else if IsSeparator(q[|q| - 1]) {
      assert (n + q)[..|n + q| - 1] == n + q[..|q| - 1];
      TrimAfter(n, q[..|q| - 1]);
    }
  }

  lemma {:induction false} AfterLastAcross(n: string, t: string)
    requires Separators(n) == 0
    ensures AfterLast(n + t) == if Separators(t) > 0 then AfterLast(t) else n + t
    ensures Separators(t) == 0 ==> AfterLast(t) == t
  {
    if t == "" {
      AfterLastConcat("", n);
      assert "" + n == n && n + t == n;
    } else {
      var front, last := t[..|t| - 1], t[|t| - 1];
      assert t == front + [last];
      SeparatorsConcat(front, [last]);
      assert (n + t)[..|n + t| - 1] == n + front;
      AfterLastAcross(n, front);
    }
  }

  lemma DigitsAreNoSeparators(n: string)
    requires All(IsDigit, n)
    ensures Separators(n) == 0 && '.' !in n
  {
  }

  /** Shortening a run headed by a number either keeps it at the head, or drops it whatever it is. */
  lemma ShortenHead(n: string, q: string)
    requires Digits(n)
    ensures var t := TrimSeparators(q);
            Shorten(n + q) ==
            if Separators(q) >= 2 || (Separators(q) == 1 && '.' in (if Separators(t) > 0 then AfterLast(t) else t))
            then (if Separators(t) > 0 then AfterLast(t) else n + t)
            else n + q
  {
    hide IsSeparator;
    var t := TrimSeparators(q);
    DigitsAreNoSeparators(n);
    TrimAfter(n, q);
    AfterLastAcross(n, t);
    SeparatorsConcat(n, q);
    assert '.' in n + t <==> '.' in t;
  }

  lemma TrimIsPrefix(q: string)
    ensures TrimSeparators(q) <= q
  {
  }

  /** The number's run, and the text after it. */
  lemma NumberRun(n: string, b: string)
    requires Digits(n)
    ensures var q := b[..Span(IsRunChar, b)];
            var rest := b[Span(IsRunChar, b)..];
            NormalizePaths(n + b) == Shorten(n + q) + NormalizePaths(rest) && StopsRun(IsRunChar, rest)
  {
    hide Shorten, IsRunChar;
    var q, rest := b[..Span(IsRunChar, b)], b[Span(IsRunChar, b)..];
    assert n + b == (n + q) + rest;
    assert All(IsRunChar, n + q) by {
      forall i | 0 <= i < |n + q| ensures IsRunChar((n + q)[i]) {
        if i < |n| {
          assert IsDigit(n[i]);
          DigitIsRunChar(n[i]);
        } else {
          assert (n + q)[i] == q[i - |n|];
        }
      }
    }
    RunThenRest(IsRunChar, Shorten, n + q, rest);
  }

  lemma DigitIsRunChar(c: char)
    requires IsDigit(c)
    ensures IsRunChar(c)
  {
  }

  lemma TailOfParts(b: string, r: string, rest: string)
    requires Tail(b) && r <= b && StopsRun(IsRunChar, rest)
    ensures Tail(r + rest)
  {
  }

  /** What follows the number in its shortened run, when the number stays. */
  lemma HeadedRun(n: string, m: string, q: string)
    requires Digits(n) && Digits(m)
    ensures Shorten(n + q) == Shorten(m + q)
            || exists r :: r <= q && Shorten(n + q) == n + r && Shorten(m + q) == m + r
  {
    hide Shorten, Digits;
    ShortenHead(n, q);
    ShortenHead(m, q);
    TrimIsPrefix(q);
  }

  lemma PathStage(a: string, n: string, m: string, b: string)
    requires Digits(n) && Digits(m) && Tail(b)
    ensures Alike(NormalizePaths(Numbered(a, n, b)), NormalizePaths(Numbered(a, m, b)), n, m)
  {
    hide IsRunChar, Shorten, Tail, Digits, NormalizePaths, Alike;
    var q, rest := b[..Span(IsRunChar, b)], b[Span(IsRunChar, b)..];
    var a', rest' := NormalizePaths(a), NormalizePaths(rest);
    ColonSplits(a, n, b);
    ColonSplits(a, m, b);
    NumberRun(n, b);
    NumberRun(m, b);
    NormalizedRest(rest);
    HeadedRun(n, m, q);
    if Shorten(n + q) == Shorten(m + q) {
      SameAlike(NormalizePaths(Numbered(a, n, b)), n, m);
    } else {
      var r :| r <= q && Shorten(n + q) == n + r && Shorten(m + q) == m + r;
      TailOfParts(b, r, rest');
      Rehead(a', n, r, rest');
      Rehead(a', m, r, rest');
      AlikeNumbered(a', r + rest', n, m);
    }
  }

  lemma Rehead(a: string, n: string, r: string, rest: string)
    ensures a + ":" + ((n + r) + rest) == Numbered(a, n, r + rest)
  {
    assert (n + r) + rest == n + (r + rest);
  }

  lemma NormalizedRest(rest: string)
    requires StopsRun(IsRunChar, rest)
    ensures StopsRun(IsRunChar, NormalizePaths(rest))
  {
  }

  lemma ColonSplits(a: string, n: string, b: string)
    ensures NormalizePaths(Numbered(a, n, b)) == NormalizePaths(a) + ":" + NormalizePaths(n + b)
  {
    hide Shorten;
    assert Numbered(a, n, b) == a + [':'] + (n + b);
    RunsSplit(IsRunChar, Shorten, a, ':', n + b);
  }

  lemma LowerStage(a: string, n: string, b: string)
    requires Digits(n) && Tail(b)
    ensures Lowercase(Numbered(a, n, b)) == Numbered(Lowercase(a), n, Lowercase(b)) && Tail(Lowercase(b))
  {
  }

  /** Between a colon and a non-token character the number is a token of its own. */
  lemma TokenStage(f: string -> string, a: string, n: string, b: string)
    requires Digits(n) && Tail(b)
    ensures MapTokens(f, Numbered(a, n, b)) == MapTokens(f, a) + ":" + (f(n) + MapTokens(f, b))
    ensures Tail(MapTokens(f, b))
  {
    assert Numbered(a, n, b) == a + [':'] + (n + b);
    RunsSplit(IsTokenChar, f, a, ':', n + b);
    assert All(IsTokenChar, n) by {
      forall i | 0 <= i < |n| ensures IsTokenChar(n[i]) {
        assert IsDigit(n[i]);
      }
    }
    RunThenRest(IsTokenChar, f, n, b);
    RestStops(IsTokenChar, f, b);
  }

  /** A number is no UUID and no address, and is a hash exactly from ten digits on. */
  lemma NumberClass(n: string)
    requires Digits(n)
    ensures Uuid(n) == n && Address(n) == n && Hash(n) == if |n| >= 10 then "<hash>" else n
  {
    assert IsDigit(n[0]);
    if |n| >= 2 {
      assert IsDigit(n[1]);
    }
    if |n| == 36 {
      assert IsDigit(n[8]);
    }
    forall i | 0 <= i < |n| ensures IsHex(n[i]) {
      assert IsDigit(n[i]);
    }
  }

  lemma {:induction false} DigitsConcat(a: string, b: string)
    ensures StripDigits(a + b) == StripDigits(a) + StripDigits(b)
  {
    if a == "" {
      assert a + b == b;
    } else {
      assert (a + b)[1..] == a[1..] + b;
      DigitsConcat(a[1..], b);
    }
  }

  lemma {:induction false} DigitsVanish(n: string)
    requires All(IsDigit, n)
    ensures StripDigits(n) == ""
  {
    if n != "" {
      assert IsDigit(n[0]) && All(IsDigit, n[1..]);
      DigitsVanish(n[1..]);
    }
  }

  /** The token stages and digit stripping on a text that still holds its number. */
  function TokenStages(s: string): string {
    StripDigits(MapTokens(Hash, MapTokens(Address, MapTokens(Uuid, Lowercase(s)))))
  }

  lemma TokenStagesOf(a: string, n: string, b: string)
    requires Digits(n) && Tail(b)
    ensures TokenStages(Numbered(a, n, b))
         == TokenStages(a) + ":" + (if |n| >= 10 then "<hash>" else "") + TokenStages(b)
  {
    hide IsTokenChar, MapTokens, Uuid, Address, Hash, Digits;
    var a1, b1 := Lowercase(a), Lowercase(b);
    var a2, b2 := MapTokens(Uuid, a1), MapTokens(Uuid, b1);
    var a3, b3 := MapTokens(Address, a2), MapTokens(Address, b2);
    NumberClass(n);
    LowerStage(a, n, b);
    TokenStage(Uuid, a1, n, b1);
    assert a2 + ":" + (n + b2) == Numbered(a2, n, b2);
    TokenStage(Address, a2, n, b2);
    assert a3 + ":" + (n + b3) == Numbered(a3, n, b3);
    TokenStage(Hash, a3, n, b3);
    StripNumber(MapTokens(Hash, a3), n, MapTokens(Hash, b3));
  }

  lemma StripNumber(a: string, k: string, b: string)
    requires Digits(k)
    ensures StripDigits(a + ":" + (Hash(k) + b))
         == StripDigits(a) + ":" + (if |k| >= 10 then "<hash>" else "") + StripDigits(b)
  {
    NumberClass(k);
    hide Hash, StripDigits;
    DigitsConcat(a + ":", Hash(k) + b);
    DigitsConcat(a, ":");
    DigitsConcat(Hash(k), b);
    DigitsVanish(k);
    NoDigits();
  }

  lemma NoDigits()
    ensures StripDigits(":") == ":" && StripDigits("<hash>") == "<hash>"
  {
  }

  lemma TokenStagesBlind(x: string, y: string, n: string, m: string)
    requires Digits(n) && Digits(m) && (|n| >= 10) == (|m| >= 10) && Alike(x, y, n, m)
    ensures TokenStages(x) == TokenStages(y)
  {
    hide TokenStages, Digits;
    if x != y {
      var a, b :| Tail(b) && x == Numbered(a, n, b) && y == Numbered(a, m, b);
      TokenStagesOf(a, n, b);
      TokenStagesOf(a, m, b);
    }
  }

  lemma StructuralBlind(a: string, n: string, m: string, b: string)
    requires Digits(n) && Digits(m) && Tail(b)
    ensures var x, y := DropQuery(Numbered(a, n, b)), DropQuery(Numbered(a, m, b));
            Alike(NormalizePaths(StripUrls(x)), NormalizePaths(StripUrls(y)), n, m)
  {
    hide Digits, Tail, DropQuery, StripUrls, NormalizePaths, Numbered;
    var x, y := DropQuery(Numbered(a, n, b)), DropQuery(Numbered(a, m, b));
    QueryStage(a, n, m, b);
    if x != y {
      var a1, b1 :| Tail(b1) && x == Numbered(a1, n, b1) && y == Numbered(a1, m, b1);
      UrlStage(a1, n, m, b1);
      if StripUrls(x) != StripUrls(y) {
        var a2, b2 :| Tail(b2) && StripUrls(x) == Numbered(a2, n, b2) && StripUrls(y) == Numbered(a2, m, b2);
        PathStage(a2, n, m, b2);
      }
    }
  }

  /**
   The nine stages together cannot tell two line numbers apart, whatever surrounds them, as long as
   the number's token ends with it and both numbers are short (up to nine digits) or both are long.
   */
  lemma LineNumberBlind(before: string, n: string, m: string, after: string)
    requires Digits(n) && Digits(m) && Tail(after) && (|n| >= 10) == (|m| >= 10)
    ensures FramePipeline(Numbered(before, n, after)) == FramePipeline(Numbered(before, m, after))
  {
    hide Digits, Tail, DropQuery, StripUrls, NormalizePaths, Numbered, Alike, TokenStages, CollapseWhitespace, FramePipeline;
    StructuralBlind(before, n, m, after);
    var x := NormalizePaths(StripUrls(DropQuery(Numbered(before, n, after))));
    var y := NormalizePaths(StripUrls(DropQuery(Numbered(before, m, after))));
    TokenStagesBlind(x, y, n, m);
    PipelineStages(Numbered(before, n, after));
    PipelineStages(Numbered(before, m, after));
  }

  /** A number on its own shows where the line is drawn. */
  lemma NumberAlone(n: string)
    requires Digits(n)
    ensures FramePipeline(Numbered("", n, "")) == if |n| >= 10 then ":<hash>" else ":"
  {
    hide StripUrls, NormalizePaths, TokenStages, DropQuery, Digits, CollapseWhitespace;
    var s := Numbered("", n, "");
    DropQueryOf("", n, "");
    assert DropQuery(s) == s;
    ColonPasses(n, "");
    assert StripUrls(s) == s by { NothingToStrip(); }
    PathFree(n);
    TokenStagesAlone(n);
    PipelineStages(s);
    OneColon();
    assert ":" + "" == ":" && ":" + "<hash>" == ":<hash>";
  }

  lemma OneColon()
    ensures CollapseWhitespace(":") == ":" && CollapseWhitespace(":<hash>") == ":<hash>"
  {
    hide Words, CollapseWhitespace;
    OneWord(":");
    OneWord(":<hash>");
  }

  lemma PipelineStages(s: string)
    ensures FramePipeline(s) == CollapseWhitespace(TokenStages(NormalizePaths(StripUrls(DropQuery(s)))))
  {
  }

  lemma NothingToStrip()
    ensures StripUrls("") == ""
  {
  }

  lemma PathFree(n: string)
    requires Digits(n)
    ensures NormalizePaths(Numbered("", n, "")) == Numbered("", n, "")
  {
    var s := Numbered("", n, "");
    forall i | 0 <= i < |s| ensures s[i] != '/' && s[i] != '\\' {
      assert i > 0 ==> IsDigit(n[i - 1]);
    }
    NoSeparators(s);
  }

  lemma TokenStagesAlone(n: string)
    requires Digits(n)
    ensures TokenStages(Numbered("", n, "")) == ":" + (if |n| >= 10 then "<hash>" else "")
  {
    hide MapTokens, Uuid, Address, Hash, Digits, StripDigits;
    NumberClass(n);
    LowerStage("", n, "");
    assert Lowercase("") == "";
    NoText(IsTokenChar, Uuid);
    NoText(IsTokenChar, Address);
    NoText(IsTokenChar, Hash);
    assert MapTokens(Uuid, "") == "" && MapTokens(Address, "") == "" && MapTokens(Hash, "") == "" by { NoTokens(); }
    assert "" + ":" + (n + "") == Numbered("", n, "");
    TokenStage(Uuid, "", n, "");
    TokenStage(Address, "", n, "");
    TokenStage(Hash, "", n, "");
    StripNumber("", n, "");
    assert StripDigits("") == "" by { NoDigitsAtAll(); }
  }

  lemma NoDigitsAtAll()
    ensures StripDigits("") == ""
  {
  }

  lemma NoTokens()
    ensures MapTokens(Uuid, "") == "" && MapTokens(Address, "") == "" && MapTokens(Hash, "") == ""
  {
  }

  lemma OneWord(s: string)
    requires s != "" && All(c => !IsSpace(c), s)
    ensures CollapseWhitespace(s) == s
  {
    SpanAll(c => !IsSpace(c), s);
    assert s[..|s|] == s && s[|s|..] == "";
    assert Words(s) == [s];
  }

  ghost predicate Indistinguishable(n: string, m: string) {
    forall before, after :: Tail(after) ==>
                              FramePipeline(Numbered(before, n, after)) == FramePipeline(Numbered(before, m, after))
  }

  /** Two numbers are indistinguishable in every frame exactly when both or neither reach ten digits. */
  lemma LineNumberBlindIff(n: string, m: string)
    requires Digits(n) && Digits(m)
    ensures Indistinguishable(n, m) <==> (|n| >= 10) == (|m| >= 10)
  {
    hide FramePipeline, Digits;
    if (|n| >= 10) == (|m| >= 10) {
      forall before, after | Tail(after)
        ensures FramePipeline(Numbered(before, n, after)) == FramePipeline(Numbered(before, m, after))
      {
        LineNumberBlind(before, n, m, after);
      }
    } else {
      NumberAlone(n);
      NumberAlone(m);
    }
  }
}
