/** Which tokens of a frame or message the normalization cannot tell apart: ids, addresses, hashes and numbers. */
module Tokens {
  import opened Wrappers
  import opened Predicates
  import opened Normalize
  import opened Frames
  import opened BuildPaths

  predicate Token(t: string) { t != "" && All(IsTokenChar, t) }

  /** Text that a following token does not prolong. */
  predicate Lead(a: string) { a == "" || !IsTokenChar(a[|a| - 1]) }

  /** Between these two a token stands on its own. */
  predicate Delimits(a: string, b: string) { Lead(a) && Tail(b) }

  /** Equal texts, or texts that differ only in the token between delimiters. */
  ghost predicate Swapped(x: string, y: string, u: string, v: string) {
    x == y || exists a, b :: Delimits(a, b) && x == a + u + b && y == a + v + b
  }

  lemma SwappedIn(a: string, b: string, u: string, v: string)
    requires Delimits(a, b)
    ensures Swapped(a + u + b, a + v + b, u, v)
  {
  }

  lemma SameSwapped(x: string, u: string, v: string)
    ensures Swapped(x, x, u, v)
  {
  }

  lemma TokenIsRun(t: string)
    requires Token(t)
    ensures All(IsRunChar, t) && Separators(t) == 0 && '.' !in t && t[0] != '/' && !IsSeparator(t[|t| - 1])
  {
    forall i | 0 <= i < |t| ensures IsRunChar(t[i]) && !IsSeparator(t[i]) && t[i] != '.' {
      assert IsTokenChar(t[i]);
    }
    NoSeparatorsCount(t);
  }

  // --------------------------------------------------------------------------- query and URLs

  lemma QueryKeepsToken(a: string, u: string, v: string, b: string)
    requires Delimits(a, b) && Token(u) && Token(v)
    ensures (DropQuery(a + u + b) == DropQuery(a + v + b))
            || exists b' :: b' <= b && DropQuery(a + u + b) == a + u + b' && DropQuery(a + v + b) == a + v + b'
  {
    hide IsRunChar, IsTokenChar;
    TokenIsRun(u);
    TokenIsRun(v);
    DropQueryRun(a, u, b);
    DropQueryRun(a, v, b);
  }

  /** A token passes through URL stripping when no `://` follows it. */
  lemma {:induction false} TokenPasses(t: string, b: string)
    requires All(IsTokenChar, t) && Tail(b) && !("://" <= b)
    ensures StripUrls(t + b) == t + StripUrls(b)
  {
    hide UrlLength;
    if t == "" {
      assert t + b == b;
    } else {
      NoUrlInToken(t, b);
      StripPlain(t + b);
      assert (t + b)[1..] == t[1..] + b && (t + b)[..1] == t[..1];
      TokenPasses(t[1..], b);
    }
  }

  lemma NoUrlInToken(t: string, b: string)
    requires t != "" && All(IsTokenChar, t) && Tail(b) && !("://" <= b)
    ensures UrlLength(t + b).None?
  {
    var k := Span(IsLetter, t);
    SpanConcat(IsLetter, t, b);
    if k < |t| {
      assert IsTokenChar(t[k]);
    } else {
      assert |b| >= 3 ==> b[..3] == [b[0], b[1], b[2]];
    }
  }

  /** No URL starts in `a` and runs into a token. */
  lemma NoUrlBeforeToken(a: string, t: string, b: string)
    requires a != "" && Lead(a) && !StartsUrl(a) && Token(t)
    ensures UrlLength(a + t + b).None?
  {
    hide IsLetter, IsTokenChar;
    TokenIsRun(t);
    LetterIsToken(a);
    var s := a + (t + b);
    assert a + t + b == s && s[|a|] == t[0];
    SpanConcat(IsLetter, a, t + b);
  }

  lemma LetterIsToken(a: string)
    requires a != "" && Lead(a)
    ensures Span(IsLetter, a) < |a|
  {
  }

  lemma PlainStep(a: string, t: string, b: string)
    requires a != "" && Lead(a) && !StartsUrl(a) && Token(t)
    ensures StripUrls(a + t + b) == a[..1] + StripUrls(a[1..] + t + b)
  {
    hide UrlLength, IsTokenChar, StripUrls, StartsUrl, All;
    var s := a + t + b;
    NoUrlBeforeToken(a, t, b);
    StripPlain(s);
    assert s[..1] == a[..1] && s[1..] == a[1..] + t + b;
  }

  lemma {:induction false} TokenThroughUrls(a: string, u: string, v: string, b: string)
    requires Delimits(a, b) && Token(u) && Token(v) && !("://" <= b)
    ensures var x, y := StripUrls(a + u + b), StripUrls(a + v + b);
            x == y || exists p :: SameLast(p, a) && x == p + u + StripUrls(b) && y == p + v + StripUrls(b)
    decreases |a|
  {
    hide UrlLength, IsTerminator, IsTokenChar, IsLetter, StripUrls, StartsUrl, All, UrlEndsIn, UrlBodyIn;
    assert All(IsRunChar, u) && All(IsRunChar, v) by { TokenIsRun(u); TokenIsRun(v); }
    if a == "" {
      assert a + u + b == u + b && a + v + b == v + b;
      TokenPasses(u, b);
      TokenPasses(v, b);
      assert StripUrls(a + u + b) == "" + u + StripUrls(b) && StripUrls(a + v + b) == "" + v + StripUrls(b);
      assert SameLast("", "");
    } else if !StartsUrl(a) {
      PlainStep(a, u, b);
      PlainStep(a, v, b);
      TokenThroughUrls(a[1..], u, v, b);
      var x, y := StripUrls(a[1..] + u + b), StripUrls(a[1..] + v + b);
      if x != y {
        var p :| SameLast(p, a[1..]) && x == p + u + StripUrls(b) && y == p + v + StripUrls(b);
        assert a[..1] + x == (a[..1] + p) + u + StripUrls(b) && a[..1] + y == (a[..1] + p) + v + StripUrls(b);
        assert SameLast(a[..1] + p, a);
      }
    } else if UrlEndsIn(a) {
      RunBeyond(a, u, b);
      RunBeyond(a, v, b);
      TokenThroughUrls(a[Span(IsLetter, a) + 3 + UrlBodyIn(a)..], u, v, b);
    } else {
      RunSwallowed(a, u, b);
      RunSwallowed(a, v, b);
    }
  }

  // ------------------------------------------------------------------------------------ paths

  lemma {:induction false} TrimBehind(h: string, q: string)
    requires h != "" && !IsSeparator(h[|h| - 1])
    ensures TrimSeparators(h + q) == h + TrimSeparators(q)
  {
    if q == "" {
      assert h + q == h;
    } else if IsSeparator(q[|q| - 1]) {
      assert (h + q)[..|h + q| - 1] == h + q[..|q| - 1];
      TrimBehind(h, q[..|q| - 1]);
    }
  }

  lemma {:induction false} AfterLastBehind(h: string, t: string)
    requires Separators(t) > 0
    ensures AfterLast(h + t) == AfterLast(t)
  {
    var front, last := t[..|t| - 1], t[|t| - 1];
    assert t == front + [last];
    SeparatorsConcat(front, [last]);
    assert (h + t)[..|h + t| - 1] == h + front;
    if !IsSeparator(last) {
      AfterLastBehind(h, front);
    }
  }

  /** What follows the last separator keeps the end of the text. */
  lemma AfterLastEnds(r: string)
    ensures var q := AfterLast(r); q == "" || (r != "" && q[|q| - 1] == r[|r| - 1])
  {
  }

  /** The basename of a run around a token: the token's own segment, or a later one. */
  lemma BasenameAround(r: string, t: string, q: string)
    requires Token(t)
    ensures var rest := TrimSeparators(q);
            Basename(r + t + q) == if Separators(rest) > 0 then AfterLast(rest) else AfterLast(r) + t + rest
  {
    hide IsSeparator, IsTokenChar, AfterLast, TrimSeparators, Separators;
    TokenIsRun(t);
    var rest := TrimSeparators(q);
    TrimBehind(r + t, q);
    if Separators(rest) > 0 {
      AfterLastBehind(r + t, rest);
    } else {
      SeparatorsConcat(t, rest);
      AfterLastConcat(r, t + rest);
      assert r + t + rest == r + (t + rest);
      assert AfterLast(r) + (t + rest) == AfterLast(r) + t + rest;
    }
  }

  /** Shortening the run around a token keeps the token in place, or drops it whatever it is. */
  lemma ShortenAround(r: string, u: string, v: string, q: string)
    requires Token(u) && Token(v)
    ensures Shorten(r + u + q) == Shorten(r + v + q)
            || exists r', q' :: && (r' == "" || (r != "" && r'[|r'| - 1] == r[|r| - 1])) && q' <= q
                                && Shorten(r + u + q) == r' + u + q' && Shorten(r + v + q) == r' + v + q'
  {
    hide IsSeparator, IsTokenChar, AfterLast, TrimSeparators, Separators, Basename;
    TokenIsRun(u);
    TokenIsRun(v);
    SeparatorsConcat(r + u, q);
    SeparatorsConcat(r, u);
    SeparatorsConcat(r + v, q);
    SeparatorsConcat(r, v);
    BasenameAround(r, u, q);
    BasenameAround(r, v, q);
    var rest := TrimSeparators(q);
    TrimIsPrefix(q);
    AfterLastEnds(r);
    assert '.' in AfterLast(r) + u + rest <==> '.' in AfterLast(r) || '.' in rest;
    assert '.' in AfterLast(r) + v + rest <==> '.' in AfterLast(r) || '.' in rest;
  }

  /** The run characters at the end of a text. */
  function RunBefore(a: string): (n: nat)
    ensures n <= |a| && All(IsRunChar, a[n..]) && EndsRun(a[..n])
  {
    if a == "" || !IsRunChar(a[|a| - 1]) then |a|
    else
      var n := RunBefore(a[..|a| - 1]);
      assert a[n..] == a[..|a| - 1][n..] + [a[|a| - 1]];
      assert a[..n] == a[..|a| - 1][..n];
      n
  }

  lemma RunAround(a: string, t: string, b: string)
    requires Token(t)
    ensures var i, j := RunBefore(a), Span(IsRunChar, b);
            && All(IsRunChar, a[i..] + t + b[..j]) && Surrounds(a[..i], b[j..])
            && NormalizePaths(a + t + b) == NormalizePaths(a[..i]) + Shorten(a[i..] + t + b[..j]) + NormalizePaths(b[j..])
  {
    hide IsRunChar, Shorten, NormalizePaths, All;
    var i, j := RunBefore(a), Span(IsRunChar, b);
    var w := a[i..] + t + b[..j];
    TokenIsRun(t);
    AllConcat(IsRunChar, a[i..], t);
    AllConcat(IsRunChar, a[i..] + t, b[..j]);
    Cut(a, i, t, b, j);
    RunReduced(a[..i], w, b[j..]);
  }

  lemma AllConcat(p: char -> bool, a: string, b: string)
    requires All(p, a) && All(p, b)
    ensures All(p, a + b)
  {
  }

  lemma Cut(a: string, i: nat, t: string, b: string, j: nat)
    requires i <= |a| && j <= |b|
    ensures a + t + b == a[..i] + (a[i..] + t + b[..j]) + b[j..]
  {
  }

  lemma PathEnds(p: string)
    requires EndsRun(p)
    ensures var n := NormalizePaths(p); EndsRun(n)
  {
    hide IsRunChar, Shorten, RewriteRuns;
    if p == "" {
      NoText(IsRunChar, Shorten);
    } else {
      var front, c := p[..|p| - 1], p[|p| - 1];
      assert p == front + [c] + "";
      RunsSplit(IsRunChar, Shorten, front, c, "");
      NoText(IsRunChar, Shorten);
    }
  }

  lemma TokenThroughPaths(a: string, u: string, v: string, b: string)
    requires Delimits(a, b) && Token(u) && Token(v)
    ensures Swapped(NormalizePaths(a + u + b), NormalizePaths(a + v + b), u, v)
  {
    hide IsRunChar, IsTokenChar, Shorten, NormalizePaths, Swapped, All;
    var i, j := RunBefore(a), Span(IsRunChar, b);
    var r, q := a[i..], b[..j];
    var front, back := NormalizePaths(a[..i]), NormalizePaths(b[j..]);
    RunAround(a, u, b);
    RunAround(a, v, b);
    ShortenAround(r, u, v, q);
    PathEnds(a[..i]);
    NormalizedRest(b[j..]);
    if Shorten(r + u + q) == Shorten(r + v + q) {
      SameSwapped(NormalizePaths(a + u + b), u, v);
    } else {
      var r', q' :| && (r' == "" || (r != "" && r'[|r'| - 1] == r[|r| - 1])) && q' <= q
                    && Shorten(r + u + q) == r' + u + q' && Shorten(r + v + q) == r' + v + q';
      assert q' <= b by { PrefixOfPrefix(q', b, j); }
      TailOfParts(b, q', back);
      LeadOfParts(front, r', a);
      Reassociate(front, r', u, q', back);
      Reassociate(front, r', v, q', back);
      SwappedIn(front + r', q' + back, u, v);
    }
  }

  lemma PrefixOfPrefix(q: string, b: string, j: nat)
    requires j <= |b| && q <= b[..j]
    ensures q <= b
  {
  }

  lemma Reassociate(front: string, r: string, t: string, q: string, back: string)
    ensures front + (r + t + q) + back == (front + r) + t + (q + back)
  {
  }

  lemma LeadOfParts(front: string, r: string, a: string)
    requires EndsRun(front) && Lead(a) && (r == "" || (a != "" && r[|r| - 1] == a[|a| - 1]))
    ensures Lead(front + r)
  {
  }

  // ----------------------------------------------------------------------------- token stages

  lemma LeadKept(f: string -> string, a: string)
    requires Lead(a)
    ensures Lead(MapTokens(f, a))
  {
    hide IsTokenChar, RewriteRuns;
    NoText(IsTokenChar, f);
    if a != "" {
      var front, c := a[..|a| - 1], a[|a| - 1];
      assert a == front + [c] + "";
      RunsSplit(IsTokenChar, f, front, c, "");
    }
  }

  /** Between delimiters the token alone decides. */
  lemma TokenMapped(f: string -> string, a: string, t: string, b: string)
    requires Delimits(a, b) && Token(t)
    ensures MapTokens(f, a + t + b) == MapTokens(f, a) + f(t) + MapTokens(f, b)
    ensures Delimits(MapTokens(f, a), MapTokens(f, b))
  {
    hide IsTokenChar, RewriteRuns, All;
    RunThenRest(IsTokenChar, f, t, b);
    RestStops(IsTokenChar, f, b);
    LeadKept(f, a);
    NoText(IsTokenChar, f);
    if a == "" {
      assert a + t + b == t + b;
    } else {
      var front, c := a[..|a| - 1], a[|a| - 1];
      assert a == front + [c] + "";
      assert a + t + b == front + [c] + (t + b);
      RunsSplit(IsTokenChar, f, front, c, t + b);
      RunsSplit(IsTokenChar, f, front, c, "");
    }
  }

  /** A placeholder is a word between angle brackets, and the word is what a stage sees of it. */
  lemma PlaceholderKept(f: string -> string, a: string, word: string, b: string)
    requires Delimits(a, b) && Token(word) && f(word) == word
    ensures MapTokens(f, a + ("<" + word + ">") + b) == MapTokens(f, a) + ("<" + word + ">") + MapTokens(f, b)
    ensures Delimits(MapTokens(f, a), MapTokens(f, b))
  {
    hide RewriteRuns, All;
    assert !IsTokenChar('<') && !IsTokenChar('>');
    hide IsTokenChar;
    RunsSplit(IsTokenChar, f, a, '<', word + [">"[0]] + b);
    RunsSplit(IsTokenChar, f, word, '>', b);
    RunThenRest(IsTokenChar, f, word, "");
    NoText(IsTokenChar, f);
    RestStops(IsTokenChar, f, b);
    LeadKept(f, a);
    assert a + ("<" + word + ">") + b == a + ['<'] + (word + ['>'] + b);
    assert word + "" == word && f(word) + "" == word;
    assert MapTokens(f, a) + ['<'] + (word + ['>'] + MapTokens(f, b))
        == MapTokens(f, a) + ("<" + word + ">") + MapTokens(f, b);
  }

  predicate IsPlaceholder(m: string) { m in ["<uuid>", "<addr>", "<hash>"] }

  /** One stage on a token, or on the placeholder an earlier stage left. */
  lemma StageOn(f: string -> string, a: string, m: string, b: string)
    requires f == Uuid || f == Address || f == Hash
    requires Delimits(a, b) && (Token(m) || IsPlaceholder(m))
    ensures MapTokens(f, a + m + b) == MapTokens(f, a) + f(m) + MapTokens(f, b)
    ensures Delimits(MapTokens(f, a), MapTokens(f, b))
    ensures Token(f(m)) || IsPlaceholder(f(m))
  {
    Placeholders(m);
    hide Uuid, Address, Hash, Token, Delimits, MapTokens;
    if IsPlaceholder(m) {
      PlaceholderKept(f, a, m[1..5], b);
    } else {
      TokenMapped(f, a, m, b);
    }
  }

  lemma Placeholders(m: string)
    ensures IsPlaceholder(m) ==> && Token(m[1..5]) && m == "<" + m[1..5] + ">"
                                 && Uuid(m) == Address(m) == Hash(m) == m
                                 && Uuid(m[1..5]) == Address(m[1..5]) == Hash(m[1..5]) == m[1..5]
    ensures Uuid(m) == m || IsPlaceholder(Uuid(m))
    ensures Address(m) == m || IsPlaceholder(Address(m))
    ensures Hash(m) == m || IsPlaceholder(Hash(m))
  {
    if IsPlaceholder(m) {
      var word := if m == "<uuid>" then "uuid" else if m == "<addr>" then "addr" else "hash";
      assert m[1..5] == word && m == "<" + word + ">";
      assert !IsHex('<') && m[0] == '<';
    }
  }

  /** What is left of a token: its class, or its letters in lower case. */
  function TokenImage(t: string): string {
    var l := Lower(t);
    if IsUuid(l) then "<uuid>"
    else if IsHexAddress(l) then "<addr>"
    else if IsHexHash(l) then "<hash>"
    else StripDigits(l)
  }

  lemma ImageOf(t: string)
    ensures StripDigits(Hash(Address(Uuid(Lower(t))))) == TokenImage(t)
  {
    hide IsUuid, IsHexAddress, IsHexHash, StripDigits, Lower;
    PlaceholderClass("<uuid>");
    PlaceholderClass("<addr>");
    PlaceholdersHaveNoDigits();
  }

  lemma PlaceholderClass(m: string)
    requires IsPlaceholder(m)
    ensures !IsUuid(m) && !IsHexAddress(m) && !IsHexHash(m)
  {
    assert !IsHex(m[0]);
  }

  lemma PlaceholdersHaveNoDigits()
    ensures StripDigits("<uuid>") == "<uuid>" && StripDigits("<addr>") == "<addr>" && StripDigits("<hash>") == "<hash>"
  {
    hide StripDigits;
    NothingStripped("<uuid>");
    NothingStripped("<addr>");
    NothingStripped("<hash>");
  }

  lemma {:induction false} NothingStripped(s: string)
    requires All(c => !IsDigit(c), s)
    ensures StripDigits(s) == s
  {
    if s != "" {
      NothingStripped(s[1..]);
    }
  }

  lemma LowerParts(a: string, t: string, b: string)
    requires Delimits(a, b) && Token(t)
    ensures Lower(a + t + b) == Lower(a) + Lower(t) + Lower(b)
    ensures Delimits(Lower(a), Lower(b)) && Token(Lower(t))
  {
  }

  /** Between delimiters the token stages turn a token into its image, and leave the rest to itself. */
  lemma StagesOn(a: string, t: string, b: string)
    requires Delimits(a, b) && Token(t)
    ensures TokenStages(a + t + b) == TokenStages(a) + TokenImage(t) + TokenStages(b)
  {
    hide Delimits, Token, MapTokens, Uuid, Address, Hash, StripDigits, TokenImage, Lower;
    LowerParts(a, t, b);
    var a1, b1, m1 := Lower(a), Lower(b), Lower(t);
    StageOn(Uuid, a1, m1, b1);
    var a2, b2 := MapTokens(Uuid, a1), MapTokens(Uuid, b1);
    StageOn(Address, a2, Uuid(m1), b2);
    var a3, b3 := MapTokens(Address, a2), MapTokens(Address, b2);
    StageOn(Hash, a3, Address(Uuid(m1)), b3);
    var a4, b4, m4 := MapTokens(Hash, a3), MapTokens(Hash, b3), Hash(Address(Uuid(m1)));
    DigitsConcat(a4 + m4, b4);
    DigitsConcat(a4, m4);
    ImageOf(t);
  }

  // -------------------------------------------------------------------------------- pipelines

  lemma StagesBlind(x: string, y: string, u: string, v: string)
    requires Token(u) && Token(v) && TokenImage(u) == TokenImage(v) && Swapped(x, y, u, v)
    ensures TokenStages(x) == TokenStages(y)
  {
    hide TokenStages, Token, TokenImage, Delimits;
    if x != y {
      var a, b :| Delimits(a, b) && x == a + u + b && y == a + v + b;
      StagesOn(a, u, b);
      StagesOn(a, v, b);
    }
  }

  lemma UrlsSwap(a: string, u: string, v: string, b: string)
    requires Delimits(a, b) && Token(u) && Token(v) && !("://" <= b)
    ensures Swapped(StripUrls(a + u + b), StripUrls(a + v + b), u, v)
  {
    hide StripUrls, Token, IsTokenChar;
    TokenThroughUrls(a, u, v, b);
    TailKept(b);
    var x, y, b' := StripUrls(a + u + b), StripUrls(a + v + b), StripUrls(b);
    if x != y {
      var p :| SameLast(p, a) && x == p + u + b' && y == p + v + b';
      SwappedIn(p, b', u, v);
    }
  }

  lemma TailOfPrefix(b: string, p: string)
    requires p <= b && Tail(b) && !("://" <= b)
    ensures Tail(p) && !("://" <= p)
  {
  }

  lemma StructureSwaps(a: string, u: string, v: string, b: string)
    requires Delimits(a, b) && Token(u) && Token(v) && !("://" <= b)
    ensures Swapped(NormalizePaths(StripUrls(DropQuery(a + u + b))), NormalizePaths(StripUrls(DropQuery(a + v + b))), u, v)
  {
    hide NormalizePaths, StripUrls, DropQuery, Token, Tail, Lead;
    QueryKeepsToken(a, u, v, b);
    var x, y := DropQuery(a + u + b), DropQuery(a + v + b);
    if x != y {
      var b' :| b' <= b && x == a + u + b' && y == a + v + b';
      TailOfPrefix(b, b');
      UrlsSwap(a, u, v, b');
      if StripUrls(x) != StripUrls(y) {
        var p, q :| Delimits(p, q) && StripUrls(x) == p + u + q && StripUrls(y) == p + v + q;
        TokenThroughPaths(p, u, v, q);
      }
    }
  }

  lemma MessageStages(s: string)
    ensures MessagePipeline(s) == CollapseWhitespace(TokenStages(StripUrls(s)))
  {
  }

  /** Tokens of one class, or of the same letters, are interchangeable wherever they stand delimited. */
  lemma TokenBlind(a: string, u: string, v: string, b: string)
    requires Delimits(a, b) && Token(u) && Token(v) && !("://" <= b) && TokenImage(u) == TokenImage(v)
    ensures FramePipeline(a + u + b) == FramePipeline(a + v + b)
    ensures MessagePipeline(a + u + b) == MessagePipeline(a + v + b)
  {
    hide FramePipeline, MessagePipeline, TokenStages, NormalizePaths, StripUrls, DropQuery, Token, TokenImage, Delimits,
         Swapped, CollapseWhitespace;
    var x, y := a + u + b, a + v + b;
    StructureSwaps(a, u, v, b);
    StagesBlind(NormalizePaths(StripUrls(DropQuery(x))), NormalizePaths(StripUrls(DropQuery(y))), u, v);
    PipelineStages(x);
    PipelineStages(y);
    UrlsSwap(a, u, v, b);
    StagesBlind(StripUrls(x), StripUrls(y), u, v);
    MessageStages(x);
    MessageStages(y);
  }

  /** A token on its own becomes its image. */
  lemma TokenAlone(t: string)
    requires Token(t)
    ensures FramePipeline(t) == TokenImage(t) == MessagePipeline(t)
  {
    hide IsTokenChar, TokenStages, StripUrls, NormalizePaths, TokenImage, CollapseWhitespace;
    TokenIsRun(t);
    NoQueryIn(t);
    TokenPasses(t, "");
    NothingToStrip();
    assert t + "" == t;
    NoSeparatorsCount(t);
    assert NormalizePaths(t) == t by { WithoutPaths(t); }
    StagesOn("", t, "");
    assert TokenStages("") == "" by { NoStages(); }
    assert "" + t + "" == t && "" + TokenImage(t) + "" == TokenImage(t);
    ImageIsWord(t);
    PipelineStages(t);
    MessageStages(t);
  }

  lemma NoQueryIn(t: string)
    requires Token(t)
    ensures DropQuery(t) == t
  {
    var p := c => c != '?';
    assert All(p, t) by {
      forall i | 0 <= i < |t| ensures p(t[i]) {
        assert IsTokenChar(t[i]);
      }
    }
    SpanAll(p, t);
  }

  lemma WithoutPaths(t: string)
    requires Separators(t) == 0
    ensures NormalizePaths(t) == t
  {
    NoSeparatorsCount(t);
    var p := c => !IsSeparator(c);
    forall c | c in t ensures c != '/' && c != '\\' {
      var i :| 0 <= i < |t| && t[i] == c;
      assert p(t[i]);
    }
    NoSeparators(t);
  }

  lemma NoStages()
    ensures TokenStages("") == ""
  {
    NoTokens();
  }

  lemma ImageIsWord(t: string)
    requires Token(t)
    ensures CollapseWhitespace(TokenImage(t)) == TokenImage(t)
  {
    hide IsUuid, IsHexAddress, IsHexHash;
    var image := TokenImage(t);
    assert All(c => !IsSpace(c), image) by {
      LowerParts("", t, "");
      StrippedChars(Lower(t));
      assert "" + t + "" == t;
    }
    if image == "" {
      assert Words("") == [];
    } else {
      OneWord(image);
    }
  }

  lemma {:induction false} StrippedChars(s: string)
    requires All(IsTokenChar, s)
    ensures All(c => !IsSpace(c), StripDigits(s))
  {
    if s != "" {
      assert All(IsTokenChar, s[1..]);
      StrippedChars(s[1..]);
    }
  }

  /** Two tokens fill a gap alike in every frame. */
  ghost predicate Interchange(u: string, v: string) {
    forall a, b :: Delimits(a, b) && !("://" <= b) ==> FramePipeline(a + u + b) == FramePipeline(a + v + b)
  }

  /**
   The nine stages cannot tell two delimited tokens apart exactly when both are UUIDs, both are 0x
   addresses, both are hashes, or neither is any of these and they differ in case and digits only.
   */
  lemma TokenBlindIff(u: string, v: string)
    requires Token(u) && Token(v)
    ensures Interchange(u, v) <==> TokenImage(u) == TokenImage(v)
  {
    hide FramePipeline, Token, TokenImage, Delimits;
    if TokenImage(u) == TokenImage(v) {
      forall a, b | Delimits(a, b) && !("://" <= b) ensures FramePipeline(a + u + b) == FramePipeline(a + v + b) {
        TokenBlind(a, u, v, b);
      }
    }
    if Interchange(u, v) {
      ImagesSeen(u, v);
    }
  }

  lemma ImagesSeen(u: string, v: string)
    requires Token(u) && Token(v) && Interchange(u, v)
    ensures TokenImage(u) == TokenImage(v)
  {
    hide FramePipeline, Token, TokenImage, Delimits, Interchange;
    AloneDelimited();
    InGap("", u, v, "");
    assert "" + u + "" == u && "" + v + "" == v;
    TokenAlone(u);
    TokenAlone(v);
  }

  lemma InGap(a: string, u: string, v: string, b: string)
    requires Interchange(u, v) && Delimits(a, b) && !("://" <= b)
    ensures FramePipeline(a + u + b) == FramePipeline(a + v + b)
  {
    hide FramePipeline, Delimits;
  }

  lemma AloneDelimited()
    ensures Delimits("", "") && !("://" <= "")
  {
  }

  // -------------------------------------------------------------------------------- the shapes

  lemma CharacterClasses(c: char)
    ensures IsDigit(c) <==> c in "0123456789"
    ensures IsHex(c) <==> c in "0123456789abcdefABCDEF"
    ensures IsTokenChar(c) <==> 'a' <= c <= 'z' || 'A' <= c <= 'Z' || c in "0123456789-_"
    ensures IsPathChar(c) <==> 'a' <= c <= 'z' || 'A' <= c <= 'Z' || c in "0123456789._-~@+$"
    ensures IsRunChar(c) <==> IsPathChar(c) || c in "/\\"
    ensures IsSpace(c) <==> c == ' ' || 9 <= c as int <= 13
  {
  }

  predicate HexOf(t: string, n: nat) { |t| == n && All(IsHex, t) }

  /** Groups of eight, four, four, four and twelve hex digits, joined by dashes. */
  lemma UuidShape(t: string)
    ensures IsUuid(t) <==> exists a, b, c, d, e :: && HexOf(a, 8) && HexOf(b, 4) && HexOf(c, 4) && HexOf(d, 4)
                                                   && HexOf(e, 12) && t == a + "-" + b + "-" + c + "-" + d + "-" + e
  {
    if IsUuid(t) {
      var a, b, c, d, e := t[..8], t[9..13], t[14..18], t[19..23], t[24..];
      UuidParts(t);
      assert t == a + "-" + b + "-" + c + "-" + d + "-" + e;
    }
    if a, b, c, d, e :| && HexOf(a, 8) && HexOf(b, 4) && HexOf(c, 4) && HexOf(d, 4) && HexOf(e, 12)
                        && t == a + "-" + b + "-" + c + "-" + d + "-" + e {
      UuidWhole(a, b, c, d, e);
    }
  }

  lemma UuidParts(t: string)
    requires IsUuid(t)
    ensures HexOf(t[..8], 8) && HexOf(t[9..13], 4) && HexOf(t[14..18], 4) && HexOf(t[19..23], 4) && HexOf(t[24..], 12)
    ensures t[8] == t[13] == t[18] == t[23] == '-'
  {
  }

  lemma UuidWhole(a: string, b: string, c: string, d: string, e: string)
    requires HexOf(a, 8) && HexOf(b, 4) && HexOf(c, 4) && HexOf(d, 4) && HexOf(e, 12)
    ensures IsUuid(a + "-" + b + "-" + c + "-" + d + "-" + e)
  {
  }

  /** `0x` and at least one hex digit. */
  lemma AddressShape(t: string)
    ensures IsHexAddress(t) <==> exists digits :: digits != "" && All(IsHex, digits) && t == "0x" + digits
  {
    if IsHexAddress(t) {
      assert t == "0x" + t[2..];
    }
    if digits :| digits != "" && All(IsHex, digits) && t == "0x" + digits {
      assert t[2..] == digits;
    }
  }
}
