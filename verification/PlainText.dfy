/** What normalization keeps, and what it cuts out exactly: plain text, URLs, query strings, case. */
module PlainText {
  import opened Wrappers
  import opened Seqs
  import opened Predicates
  import opened Normalize
  import opened Frames
  import opened Tokens

  // ---------------------------------------------------------------------- plain text is kept

  /** No digit, capital, question mark, separator, or blank other than the space. */
  predicate PlainChar(c: char) {
    !IsDigit(c) && !('A' <= c <= 'Z') && c != '?' && !IsSeparator(c) && (IsSpace(c) ==> c == ' ')
  }

  predicate SingleSpaced(s: string) {
    s == "" || (s[0] != ' ' && s[|s| - 1] != ' ' && forall i :: 0 < i < |s| ==> !(s[i - 1] == ' ' && s[i] == ' '))
  }

  predicate HoldsUuid(s: string) { exists i, j :: 0 <= i <= j <= |s| && IsUuid(s[i..j]) }

  predicate Plain(s: string) { All(PlainChar, s) && SingleSpaced(s) && !HoldsUuid(s) }

  lemma {:induction false} NothingMapped(f: string -> string, s: string)
    requires forall i, j :: 0 <= i < j <= |s| ==> f(s[i..j]) == s[i..j]
    ensures MapTokens(f, s) == s
    decreases |s|
  {
    hide IsTokenChar;
    if s != "" {
      var n := if IsTokenChar(s[0]) then Span(IsTokenChar, s) else 1;
      var rest := s[n..];
      forall i, j | 0 <= i < j <= |rest| ensures f(rest[i..j]) == rest[i..j] {
        assert rest[i..j] == s[n + i..n + j];
      }
      NothingMapped(f, rest);
      assert s == s[..n] + rest && s[..n] == s[0..n];
    }
  }

  lemma PlainTokens(s: string)
    requires All(PlainChar, s) && !HoldsUuid(s)
    ensures MapTokens(Uuid, s) == s && MapTokens(Address, s) == s && MapTokens(Hash, s) == s
  {
    hide IsUuid, MapTokens;
    forall i, j | 0 <= i < j <= |s|
      ensures Uuid(s[i..j]) == s[i..j] && Address(s[i..j]) == s[i..j] && Hash(s[i..j]) == s[i..j]
    {
      var t := s[i..j];
      forall k | 0 <= k < |t| ensures !IsDigit(t[k]) {
        assert t[k] == s[i + k];
      }
      assert IsUuid(t) ==> HoldsUuid(s);
      assert IsDigit('0') && t[0] != '0';
    }
    NothingMapped(Uuid, s);
    NothingMapped(Address, s);
    NothingMapped(Hash, s);
  }

  lemma FirstGap(s: string, n: nat)
    requires SingleSpaced(s) && n < |s| && s[n] == ' '
    ensures n + 1 < |s| && SingleSpaced(s[n + 1..]) && s == s[..n] + " " + s[n + 1..]
  {
    var rest := s[n + 1..];
    assert rest[0] == s[n + 1] && rest[|rest| - 1] == s[|s| - 1];
    forall i | 0 < i < |rest| ensures !(rest[i - 1] == ' ' && rest[i] == ' ') {
      assert rest[i] == s[n + 1 + i] && rest[i - 1] == s[n + i];
    }
  }

  lemma WordsFrom(s: string)
    requires s != "" && !IsSpace(s[0])
    ensures var n := Span(c => !IsSpace(c), s);
            0 < n && if n == |s| then Words(s) == [s] else IsSpace(s[n]) && Words(s) == [s[..n]] + Words(s[n + 1..])
  {
    hide IsSpace;
    var n := Span(c => !IsSpace(c), s);
    if n == |s| {
      assert s[n..] == "" && s[..n] == s;
    } else {
      assert s[n..][0] == s[n] && s[n..][1..] == s[n + 1..];
    }
  }

  lemma FirstWord(s: string)
    requires SingleSpaced(s) && All(c => IsSpace(c) ==> c == ' ', s) && s != ""
    ensures var n := Span(c => !IsSpace(c), s);
            0 < n && if n == |s| then Words(s) == [s]
                     else n + 1 < |s| && SingleSpaced(s[n + 1..]) && s == s[..n] + " " + s[n + 1..]
                          && Words(s) == [s[..n]] + Words(s[n + 1..])
  {
    hide Words, Span;
    var n := Span(c => !IsSpace(c), s);
    WordsFrom(s);
    if n < |s| {
      FirstGap(s, n);
    }
  }

  lemma {:induction false} SingleSpacedKept(s: string)
    requires SingleSpaced(s) && All(c => IsSpace(c) ==> c == ' ', s)
    ensures CollapseWhitespace(s) == s && (s != "" ==> Words(s) != [])
    decreases |s|
  {
    hide Words, IsSpace, SingleSpaced;
    if s == "" {
      assert Words("") == [] by { NoWords(); }
    } else {
      FirstWord(s);
      var n := Span(c => !IsSpace(c), s);
      if n < |s| {
        var rest := s[n + 1..];
        SingleSpacedKept(rest);
        assert ([s[..n]] + Words(rest))[1..] == Words(rest);
      }
    }
  }

  lemma NoWords()
    ensures Words("") == []
  {
  }

  lemma PlainStructure(s: string)
    requires All(PlainChar, s)
    ensures DropQuery(s) == s && StripUrls(s) == s && NormalizePaths(s) == s && Lower(s) == s && StripDigits(s) == s
  {
    SpanAll(c => c != '?', s);
    forall i | 0 <= i < |s| ensures !UrlAt(s, i) {
      assert i + 4 <= |s| ==> s[i + 1..i + 4][1] == s[i + 2] && s[i + 2] != '/';
    }
    CleanIsFixed(s);
    NoSeparators(s);
    NothingStripped(s);
  }

  /** Plain, single-spaced text without a UUID is kept as it is: frames and messages that differ there stay apart. */
  lemma PlainKept(s: string)
    requires Plain(s)
    ensures FramePipeline(s) == s && MessagePipeline(s) == s
  {
    hide DropQuery, StripUrls, NormalizePaths, Lower, MapTokens, StripDigits, CollapseWhitespace, HoldsUuid, PlainChar;
    PlainStructure(s);
    PlainTokens(s);
    assert All(c => IsSpace(c) ==> c == ' ', s) by {
      forall i | 0 <= i < |s| ensures IsSpace(s[i]) ==> s[i] == ' ' {
        PlainBlank(s[i]);
      }
    }
    SingleSpacedKept(s);
  }

  lemma PlainBlank(c: char)
    ensures PlainChar(c) && IsSpace(c) ==> c == ' '
  {
  }

  // ------------------------------------------------------------------------------ blanks

  /** Any run of blanks separates words, and nothing else does. */
  lemma {:induction false} BlanksSeparate(a: string, blanks: string, b: string)
    requires blanks != "" && All(IsSpace, blanks)
    ensures Words(a + blanks + b) == Words(a) + Words(b)
    decreases |a|
  {
    hide IsSpace, Words;
    var s := a + blanks + b;
    if a == "" {
      assert s == blanks + b;
      NoWords();
      BlanksFirst(blanks, b);
      assert [] + Words(b) == Words(b);
    } else if IsSpace(a[0]) {
      BlankStep(a);
      BlankStep(s);
      assert s[1..] == a[1..] + blanks + b;
      BlanksSeparate(a[1..], blanks, b);
    } else {
      var n := Span(c => !IsSpace(c), a);
      WordStep(a);
      WordStep(s);
      WordEnds(a, blanks, b);
      assert s[..n] == a[..n] && s[n..] == a[n..] + blanks + b;
      BlanksSeparate(a[n..], blanks, b);
      assert [a[..n]] + (Words(a[n..]) + Words(b)) == [a[..n]] + Words(a[n..]) + Words(b);
    }
  }

  /** A word does not reach over blanks. */
  lemma WordEnds(a: string, blanks: string, b: string)
    requires blanks != "" && All(IsSpace, blanks)
    ensures Span(c => !IsSpace(c), a + blanks + b) == Span(c => !IsSpace(c), a)
  {
    hide IsSpace;
    var p := c => !IsSpace(c);
    var more := blanks + b;
    assert a + blanks + b == a + more && more[0] == blanks[0];
    StopsAtOnce(p, more);
    SpanConcat(p, a, more);
  }

  lemma BlankStep(s: string)
    requires s != "" && IsSpace(s[0])
    ensures Words(s) == Words(s[1..])
  {
  }

  lemma WordStep(s: string)
    requires s != "" && !IsSpace(s[0])
    ensures var n := Span(c => !IsSpace(c), s); 0 < n && Words(s) == [s[..n]] + Words(s[n..])
  {
  }

  lemma StopsAtOnce(p: char -> bool, s: string)
    requires s == "" || !p(s[0])
    ensures Span(p, s) == 0
  {
  }

  lemma {:induction false} BlanksFirst(blanks: string, b: string)
    requires All(IsSpace, blanks)
    ensures Words(blanks + b) == Words(b)
  {
    hide IsSpace, Words;
    if blanks == "" {
      assert blanks + b == b;
    } else {
      BlankStep(blanks + b);
      assert (blanks + b)[1..] == blanks[1..] + b;
      BlanksFirst(blanks[1..], b);
    }
  }

  /** How text is spaced does not show once blanks are collapsed, and outer blanks leave nothing. */
  lemma SpacingBlind(a: string, b: string, blanks: string, others: string)
    requires blanks != "" && All(IsSpace, blanks) && others != "" && All(IsSpace, others)
    ensures CollapseWhitespace(a + blanks + b) == CollapseWhitespace(a + others + b)
    ensures CollapseWhitespace(blanks + b) == CollapseWhitespace(b) == CollapseWhitespace(b + blanks)
  {
    hide Words, IsSpace;
    BlanksSeparate(a, blanks, b);
    BlanksSeparate(a, others, b);
    BlanksFirst(blanks, b);
    BlanksSeparate(b, blanks, "");
    NoWords();
    assert b + blanks + "" == b + blanks && Words(b) + [] == Words(b);
  }

  // -------------------------------------------------------------------- what is cut out exactly

  /** A query string goes from its question mark on, and nothing else does. */
  lemma QueryDropped(a: string, b: string)
    requires '?' !in a
    ensures DropQuery(a + "?" + b) == a && DropQuery(a) == a
  {
    var p := c => c != '?';
    assert a + "?" + b == a + ("?" + b);
    SpanAll(p, a);
    SpanConcat(p, a, "?" + b);
  }

  /** The characters a URL ends before. */
  const CLOSERS := " \t\n\r)]}>\"'`,;"

  lemma UrlLengthIs(s: string)
    ensures UrlLength(s) == if StartsUrl(s) then Some(Span(IsLetter, s) + 3 + UrlBodyIn(s)) else None
  {
    hide IsLetter, IsTerminator;
  }

  /** A URL's extent: letters, `://`, and everything up to a closing character. */
  lemma UrlExtent(scheme: string, body: string, b: string)
    requires scheme != "" && All(IsLetter, scheme)
    requires (forall c :: c in body ==> c !in CLOSERS) && (b != "" ==> b[0] in CLOSERS)
    ensures UrlLength(scheme + "://" + body + b) == Some(|scheme + "://" + body|)
  {
    hide IsLetter, IsTerminator, Span, All, UrlLength;
    var s, k, rest := scheme + "://" + body + b, |scheme|, "://" + body + b;
    assert s == scheme + rest && rest[0] == ':' && rest[1] == '/' && rest[2] == '/';
    SpanAll(IsLetter, scheme);
    SpanConcat(IsLetter, scheme, rest);
    ColonIsNoLetter(rest);
    assert s[k] == ':' && s[k + 1] == '/' && s[k + 2] == '/';
    assert s[k + 3..] == body + b;
    BodySpan(body, b);
    UrlLengthIs(s);
  }

  lemma Closers(c: char)
    ensures c in CLOSERS <==> IsTerminator(c)
  {
  }

  lemma BodySpan(body: string, b: string)
    requires (forall c :: c in body ==> c !in CLOSERS) && (b != "" ==> b[0] in CLOSERS)
    ensures Span(c => !IsTerminator(c), body + b) == |body|
  {
    hide IsTerminator;
    var inUrl := c => !IsTerminator(c);
    forall i | 0 <= i < |body| ensures inUrl(body[i]) {
      assert body[i] in body;
      Closers(body[i]);
    }
    SpanAll(inUrl, body);
    SpanConcat(inUrl, body, b);
    if b != "" {
      Closers(b[0]);
    }
  }

  /** A URL is cut out of the text around it, in front of which no letter and no other scheme stands. */
  lemma {:induction false} UrlCut(a: string, scheme: string, body: string, b: string)
    requires scheme != "" && All(IsLetter, scheme)
    requires (forall c :: c in body ==> c !in CLOSERS) && (b != "" ==> b[0] in CLOSERS)
    requires !ContainsScheme(a) && (a == "" || !IsLetter(a[|a| - 1]))
    ensures StripUrls(a + (scheme + "://" + body) + b) == a + StripUrls(b)
    decreases |a|
  {
    hide UrlLength, IsLetter, All, StripUrls, ContainsScheme;
    var url := scheme + "://" + body;
    var s := a + url + b;
    if a == "" {
      assert s == url + b;
      UrlExtent(scheme, body, b);
      StripAfterUrl(s, |url|);
      assert s[|url|..] == b;
    } else {
      NoUrlYet(a, scheme, "://" + body + b);
      assert s == a + scheme + ("://" + body + b);
      StripPlain(s);
      assert s[..1] == a[..1] && s[1..] == a[1..] + url + b;
      SchemeBeyond(a);
      UrlCut(a[1..], scheme, body, b);
    }
  }

  lemma SchemeBeyond(a: string)
    requires a != "" && !ContainsScheme(a)
    ensures !ContainsScheme(a[1..])
  {
    forall i | 0 <= i <= |a[1..]| ensures !("://" <= a[1..][i..]) {
      assert a[i + 1..] == a[1..][i..];
    }
  }

  lemma NoUrlYet(a: string, scheme: string, rest: string)
    requires a != "" && !ContainsScheme(a) && !IsLetter(a[|a| - 1]) && scheme != "" && All(IsLetter, scheme)
    ensures UrlLength(a + scheme + rest).None?
  {
    hide IsLetter, ContainsScheme;
    var k := Span(IsLetter, a);
    var s := a + (scheme + rest);
    assert s == a + scheme + rest;
    SpanConcat(IsLetter, a, scheme + rest);
    EndsBefore(IsLetter, a);
    assert s[|a|] == scheme[0] != '/' by { LetterIsNoSlash(scheme[0]); }
    NoSchemeAt(a, k);
  }

  lemma EndsBefore(p: char -> bool, a: string)
    requires a != "" && !p(a[|a| - 1])
    ensures Span(p, a) < |a|
  {
  }

  lemma LetterIsNoSlash(c: char)
    requires IsLetter(c)
    ensures c != '/'
  {
  }

  lemma NoSchemeAt(a: string, k: nat)
    requires !ContainsScheme(a) && k <= |a|
    ensures k + 3 <= |a| ==> !(a[k] == ':' && a[k + 1] == '/' && a[k + 2] == '/')
  {
    assert !("://" <= a[k..]);
  }

  // ------------------------------------------------------------------------------------ case

  lemma LowerClass(c: char)
    ensures IsLetter(LowerChar(c)) == IsLetter(c) && IsTerminator(LowerChar(c)) == IsTerminator(c)
    ensures IsRunChar(LowerChar(c)) == IsRunChar(c) && IsSeparator(LowerChar(c)) == IsSeparator(c)
    ensures !IsLetter(c) ==> LowerChar(c) == c
    ensures LowerChar(c) in ['?', ':', '/', '.'] <==> c in ['?', ':', '/', '.']
  {
  }

  lemma LowerConcat(a: string, b: string)
    ensures Lower(a + b) == Lower(a) + Lower(b)
  {
  }

  lemma LowerParts(s: string, n: nat)
    requires n <= |s|
    ensures Lower(s)[..n] == Lower(s[..n]) && Lower(s)[n..] == Lower(s[n..])
  {
  }

  lemma {:induction false} LowerSpan(p: char -> bool, s: string)
    requires forall c :: p(LowerChar(c)) == p(c)
    ensures Span(p, Lower(s)) == Span(p, s)
  {
    if s != "" {
      LowerParts(s, 1);
      assert p(Lower(s)[0]) == p(s[0]);
      LowerSpan(p, s[1..]);
    }
  }

  lemma QueryLower(s: string)
    ensures DropQuery(Lower(s)) == Lower(DropQuery(s))
  {
    hide Lower;
    var p := c => c != '?';
    forall c: char ensures p(LowerChar(c)) == p(c) {
      LowerClass(c);
    }
    LowerSpan(p, s);
    LowerParts(s, Span(p, s));
  }

  lemma StartsLower(s: string)
    ensures Span(IsLetter, Lower(s)) == Span(IsLetter, s) && StartsUrl(Lower(s)) == StartsUrl(s)
  {
    hide IsLetter, LowerChar;
    forall c: char ensures IsLetter(LowerChar(c)) == IsLetter(c) {
      LowerClass(c);
    }
    LowerSpan(IsLetter, s);
    var k := Span(IsLetter, s);
    if k + 3 <= |s| {
      SameMark(s[k], ':');
      SameMark(s[k + 1], '/');
      SameMark(s[k + 2], '/');
    }
  }

  lemma UrlLower(s: string)
    ensures UrlLength(Lower(s)) == UrlLength(s)
  {
    hide IsTerminator, IsLetter, LowerChar, UrlLength, StartsUrl, Lower;
    StartsLower(s);
    UrlLengthIs(s);
    UrlLengthIs(Lower(s));
    if StartsUrl(s) {
      var inUrl := c => !IsTerminator(c);
      forall c: char ensures inUrl(LowerChar(c)) == inUrl(c) {
        LowerClass(c);
      }
      var k := Span(IsLetter, s);
      LowerParts(s, k + 3);
      LowerSpan(inUrl, s[k + 3..]);
    }
  }

  lemma SameMark(c: char, mark: char)
    requires mark in [':', '/']
    ensures LowerChar(c) == mark <==> c == mark
  {
  }

  lemma {:induction false} UrlsLower(s: string)
    ensures StripUrls(Lower(s)) == Lower(StripUrls(s))
    decreases |s|
  {
    hide UrlLength, LowerChar;
    if s != "" {
      UrlLower(s);
      if UrlLength(s).Some? {
        var n := UrlLength(s).value;
        LowerParts(s, n);
        UrlsLower(s[n..]);
      } else {
        LowerParts(s, 1);
        UrlsLower(s[1..]);
        LowerConcat([s[0]], StripUrls(s[1..]));
        assert Lower(s)[..1] == Lower([s[0]]) == [Lower(s)[0]];
      }
    }
  }

  lemma {:induction false} SeparatorsLower(s: string)
    ensures Separators(Lower(s)) == Separators(s)
  {
    hide LowerChar, IsSeparator;
    if s != "" {
      LowerClass(s[0]);
      LowerParts(s, 1);
      SeparatorsLower(s[1..]);
    }
  }

  lemma {:induction false} BasenameParts(s: string)
    ensures TrimSeparators(Lower(s)) == Lower(TrimSeparators(s)) && AfterLast(Lower(s)) == Lower(AfterLast(s))
  {
    hide LowerChar, IsSeparator;
    if s != "" {
      var n := |s| - 1;
      LowerClass(s[n]);
      LowerParts(s, n);
      BasenameParts(s[..n]);
      LowerConcat(AfterLast(s[..n]), [s[n]]);
    }
  }

  lemma ShortenLower(s: string)
    ensures Shorten(Lower(s)) == Lower(Shorten(s))
  {
    hide LowerChar, TrimSeparators, AfterLast, Separators;
    SeparatorsLower(s);
    BasenameParts(s);
    BasenameParts(TrimSeparators(s));
    assert Lower("") == "";
    DotLower(Basename(s));
  }

  lemma DotLower(s: string)
    ensures '.' in Lower(s) <==> '.' in s
  {
    forall i | 0 <= i < |s| ensures Lower(s)[i] == '.' <==> s[i] == '.' {
      LowerClass(s[i]);
    }
    assert '.' in s ==> exists i :: 0 <= i < |s| && s[i] == '.';
  }

  lemma {:induction false} PathsLower(s: string)
    ensures NormalizePaths(Lower(s)) == Lower(NormalizePaths(s))
    decreases |s|
  {
    hide LowerChar, IsRunChar, Shorten;
    if s != "" {
      LowerClass(s[0]);
      if IsRunChar(s[0]) {
        forall c: char ensures IsRunChar(LowerChar(c)) == IsRunChar(c) {
          LowerClass(c);
        }
        LowerSpan(IsRunChar, s);
        var n := Span(IsRunChar, s);
        LowerParts(s, n);
        ShortenLower(s[..n]);
        PathsLower(s[n..]);
        LowerConcat(Shorten(s[..n]), NormalizePaths(s[n..]));
      } else {
        LowerParts(s, 1);
        PathsLower(s[1..]);
        LowerConcat([s[0]], NormalizePaths(s[1..]));
        assert Lower(s)[..1] == Lower([s[0]]) == [Lower(s)[0]];
      }
    }
  }

  /** Texts that differ in the case of their letters have one image. */
  lemma CaseBlind(s: string, t: string)
    requires Lower(s) == Lower(t)
    ensures FramePipeline(s) == FramePipeline(t) && MessagePipeline(s) == MessagePipeline(t)
  {
    hide StripUrls, NormalizePaths, DropQuery, Lower, MapTokens, StripDigits, CollapseWhitespace;
    QueryLower(s);
    QueryLower(t);
    UrlsLower(DropQuery(s));
    UrlsLower(DropQuery(t));
    PathsLower(StripUrls(DropQuery(s)));
    PathsLower(StripUrls(DropQuery(t)));
    UrlsLower(s);
    UrlsLower(t);
  }
}
