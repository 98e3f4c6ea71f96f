/** Where the code was built does not show in a frame: directories are reduced to file names. */
module BuildPaths {
  import opened Wrappers
  import opened Normalize
  import opened Frames

  predicate Directory(d: string) { d != "" && All(IsRunChar, d) && IsSeparator(d[|d| - 1]) }

  predicate FileName(name: string) { name != "" && All(IsPathChar, name) }

  /** Enough of a path for its directory to be dropped. */
  predicate Droppable(d: string, name: string) { '.' in name || Separators(d) >= 2 }

  predicate EndsRun(a: string) { a == "" || !IsRunChar(a[|a| - 1]) }

  /** Neither the text before the path nor the text after it makes the path part of a new URL. */
  predicate NoNewUrl(a: string, d: string, b: string) {
    (a == "" || a[|a| - 1] != ':' || !("//" <= d)) && !("://" <= b)
  }

  predicate Surrounds(a: string, b: string) { EndsRun(a) && StopsRun(IsRunChar, b) }

  lemma {:induction false} PathCharsNoSeparators(name: string)
    requires All(IsPathChar, name)
    ensures Separators(name) == 0 && All(IsRunChar, name)
  {
    NoSeparatorsCount(name);
    forall i | 0 <= i < |name| ensures !IsSeparator(name[i]) && IsRunChar(name[i]) {
      assert IsPathChar(name[i]);
    }
  }

  /** A directory and a file name shorten to the file name, whatever the directory. */
  lemma ShortenDrops(d: string, name: string)
    requires Directory(d) && FileName(name) && Droppable(d, name)
    ensures Shorten(d + name) == name && All(IsRunChar, d + name)
    ensures ("//" <= d + name) == ("//" <= d)
  {
    PathCharsNoSeparators(name);
    BasenameOf(d, name);
    SeparatorsConcat(d, name);
    NoSeparatorsCount(d);
    var p := c => !IsSeparator(c);
    assert !p(d[|d| - 1]);
    forall i | 0 <= i < |d + name| ensures IsRunChar((d + name)[i]) {
      if i >= |d| {
        assert (d + name)[i] == name[i - |d|];
      }
    }
    NoSeparatorsCount(name);
    if |d| == 1 {
      assert p(name[0]) && (d + name)[1] == name[0];
    }
  }

  lemma DirectoryRun(d: string, name: string)
    requires Directory(d) && FileName(name)
    ensures All(IsRunChar, d + name) && d + name != ""
  {
    PathCharsNoSeparators(name);
    forall i | 0 <= i < |d + name| ensures IsRunChar((d + name)[i]) {
      assert (d + name)[i] == if i < |d| then d[i] else name[i - |d|];
    }
  }

  /** A single directory before a name without a dot is no path to the code, and stays. */
  lemma ShortenKeeps(d: string, name: string)
    requires Directory(d) && FileName(name) && !Droppable(d, name)
    ensures Shorten(d + name) == d + name
  {
    PathCharsNoSeparators(name);
    BasenameOf(d, name);
    SeparatorsConcat(d, name);
  }

  lemma Cancel(a: string, x: string, y: string, b: string)
    ensures a + x + b == a + y + b <==> x == y
  {
    if |x| == |y| {
      assert (a + x + b)[|a|..|a| + |x|] == x && (a + y + b)[|a|..|a| + |y|] == y;
    } else {
      assert |a + x + b| != |a + y + b|;
    }
  }

  /** The text of a run passes through URL stripping when no `://` follows it. */
  lemma {:induction false} RunPasses(w: string, b: string)
    requires All(IsRunChar, w) && StopsRun(IsRunChar, b) && !("://" <= b)
    ensures StripUrls(w + b) == w + StripUrls(b)
  {
    hide UrlLength;
    if w == "" {
      assert w + b == b;
    } else {
      NoUrlInRun(w, b);
      StripPlain(w + b);
      assert (w + b)[1..] == w[1..] + b && (w + b)[..1] == w[..1];
      RunPasses(w[1..], b);
    }
  }

  lemma NoUrlInRun(w: string, b: string)
    requires w != "" && All(IsRunChar, w) && StopsRun(IsRunChar, b) && !("://" <= b)
    ensures UrlLength(w + b).None?
  {
    var k := Span(IsLetter, w);
    SpanConcat(IsLetter, w, b);
    if k < |w| {
      assert IsRunChar(w[k]);
    } else {
      assert |b| >= 3 ==> b[..3] == [b[0], b[1], b[2]];
    }
  }

  lemma StopKept(b: string)
    requires StopsRun(IsRunChar, b)
    ensures StopsRun(IsRunChar, StripUrls(b))
  {
  }

  /** Equal, or still differing only in the runs `v` and `w`, behind the last character of `a`. */
  ghost predicate SameBut(x: string, y: string, a: string, v: string, w: string) {
    x == y || exists p, b :: StopsRun(IsRunChar, b) && x == p + v + b && y == p + w + b && SameLast(p, a)
  }

  predicate SameLast(p: string, a: string) {
    if a == "" then p == "" else p != "" && p[|p| - 1] == a[|a| - 1]
  }

  lemma SameButCons(c: string, x: string, y: string, a: string, v: string, w: string)
    requires |c| == 1 && SameBut(x, y, a, v, w)
    ensures SameBut(c + x, c + y, c + a, v, w)
  {
    hide IsRunChar;
    if x != y {
      var p, b :| StopsRun(IsRunChar, b) && x == p + v + b && y == p + w + b && SameLast(p, a);
      assert c + x == (c + p) + v + b && c + y == (c + p) + w + b;
      assert SameLast(c + p, c + a);
    }
  }

  lemma NoSlashesAhead(w: string, b: string)
    requires w != "" && All(IsRunChar, w) && !("//" <= w) && StopsRun(IsRunChar, b)
    ensures !("//" <= w + b)
  {
    if |w| == 1 {
      assert (w + b)[1..] == b;
    } else {
      assert (w + b)[..2] == w[..2];
    }
  }

  lemma LettersStopBefore(a: string)
    requires a != "" && EndsRun(a)
    ensures Span(IsLetter, a) < |a| && a[|a| - 1] != '/'
  {
  }

  /** No URL starts in `a` and runs into a path run. */
  lemma NoUrlBefore(a: string, w: string, b: string)
    requires a != "" && EndsRun(a) && !StartsUrl(a)
    requires w != "" && All(IsRunChar, w) && (a[|a| - 1] != ':' || !("//" <= w))
    requires StopsRun(IsRunChar, b)
    ensures UrlLength(a + w + b).None?
  {
    hide IsLetter, IsRunChar, All;
    var k := Span(IsLetter, a);
    assert a + w + b == a + (w + b);
    SpanConcat(IsLetter, a, w + b);
    LettersStopBefore(a);
    if k + 1 == |a| && |w + b| >= 2 {
      var s := a + (w + b);
      assert s[k + 1] == (w + b)[0] && s[k + 2] == (w + b)[1];
      if !("//" <= w) {
        NoSlashesAhead(w, b);
      }
    }
  }

  lemma RunInUrl(w: string, b: string)
    requires All(IsRunChar, w)
    ensures var inUrl := c => !IsTerminator(c); Span(inUrl, w + b) == |w| + Span(inUrl, b)
  {
    var inUrl := c => !IsTerminator(c);
    assert All(inUrl, w) by {
      forall i | 0 <= i < |w| ensures inUrl(w[i]) {
        assert IsRunChar(w[i]);
      }
    }
    SpanAll(inUrl, w);
    SpanConcat(inUrl, w, b);
  }

  /** A URL that starts in `a` ends there, or swallows the run and goes on into `b`. */
  lemma UrlOverRun(a: string, w: string, b: string)
    requires All(IsRunChar, w) && StartsUrl(a)
    ensures UrlLength(a + w + b)
         == Some(if UrlEndsIn(a) then Span(IsLetter, a) + 3 + UrlBodyIn(a)
                 else |a| + |w| + Span(c => !IsTerminator(c), b))
  {
    hide IsLetter, IsTerminator, IsRunChar, All, Span;
    var k := Span(IsLetter, a);
    var inUrl := c => !IsTerminator(c);
    var s := a + w + b;
    assert s == a + (w + b);
    SpanConcat(IsLetter, a, w + b);
    assert s[k + 3..] == a[k + 3..] + (w + b);
    SpanConcat(inUrl, a[k + 3..], w + b);
    RunInUrl(w, b);
    assert UrlLength(s) == Some(k + 3 + Span(inUrl, s[k + 3..]));
  }

  lemma UrlStageAlone(v: string, w: string, b: string)
    requires StopsRun(IsRunChar, b) && !("://" <= b) && All(IsRunChar, v) && All(IsRunChar, w)
    ensures SameBut(StripUrls("" + v + b), StripUrls("" + w + b), "", v, w)
  {
    hide UrlLength, IsRunChar, StripUrls, All;
    RunPasses(v, b);
    RunPasses(w, b);
    StopKept(b);
    assert "" + v + b == v + b && "" + w + b == w + b;
    assert StripUrls(v + b) == "" + v + StripUrls(b) && StripUrls(w + b) == "" + w + StripUrls(b);
    assert SameLast("", "");
  }

  /** A URL that starts in `a` and does not end there takes both runs away. */
  lemma RunSwallowed(a: string, w: string, b: string)
    requires All(IsRunChar, w) && StartsUrl(a) && !UrlEndsIn(a)
    ensures StripUrls(a + w + b) == StripUrls(b[Span(c => !IsTerminator(c), b)..])
  {
    hide UrlLength, IsTerminator, IsRunChar, IsLetter, StripUrls, All;
    var s := a + w + b;
    UrlOverRun(a, w, b);
    StripAfterUrl(s, UrlLength(s).value);
    var n := Span(c => !IsTerminator(c), b);
    assert s[|a| + |w| + n..] == b[n..];
  }

  lemma RunBeyond(a: string, w: string, b: string)
    requires All(IsRunChar, w) && StartsUrl(a) && UrlEndsIn(a)
    ensures var end := Span(IsLetter, a) + 3 + UrlBodyIn(a);
            0 < end < |a| && StripUrls(a + w + b) == StripUrls(a[end..] + w + b)
  {
    hide UrlLength, IsTerminator, IsRunChar, IsLetter, StripUrls, All;
    var s := a + w + b;
    UrlOverRun(a, w, b);
    StripAfterUrl(s, UrlLength(s).value);
    var end := Span(IsLetter, a) + 3 + UrlBodyIn(a);
    assert s[end..] == a[end..] + w + b;
  }

  lemma PlainBefore(a: string, w: string, b: string)
    requires a != "" && EndsRun(a) && !StartsUrl(a)
    requires w != "" && All(IsRunChar, w) && (a[|a| - 1] != ':' || !("//" <= w))
    requires StopsRun(IsRunChar, b)
    ensures StripUrls(a + w + b) == a[..1] + StripUrls(a[1..] + w + b)
  {
    hide UrlLength, IsTerminator, IsRunChar, IsLetter, StripUrls, StartsUrl, All;
    var s := a + w + b;
    NoUrlBefore(a, w, b);
    StripPlain(s);
    assert s[..1] == a[..1] && s[1..] == a[1..] + w + b;
  }

  lemma {:induction false} RunThroughUrls(a: string, v: string, w: string, b: string)
    requires Surrounds(a, b) && !("://" <= b)
    requires v != "" && w != "" && All(IsRunChar, v) && All(IsRunChar, w)
    requires a == "" || a[|a| - 1] != ':' || !("//" <= v || "//" <= w)
    ensures SameBut(StripUrls(a + v + b), StripUrls(a + w + b), a, v, w)
    decreases |a|
  {
    hide UrlLength, IsTerminator, IsRunChar, IsLetter, StripUrls, StartsUrl, All, SameBut, UrlEndsIn, UrlBodyIn;
    if a == "" {
      UrlStageAlone(v, w, b);
    } else if !StartsUrl(a) {
      PlainBefore(a, v, b);
      PlainBefore(a, w, b);
      RunThroughUrls(a[1..], v, w, b);
      SameButCons(a[..1], StripUrls(a[1..] + v + b), StripUrls(a[1..] + w + b), a[1..], v, w);
      assert a[..1] + a[1..] == a;
    } else if UrlEndsIn(a) {
      RunBeyond(a, v, b);
      RunBeyond(a, w, b);
      var end := Span(IsLetter, a) + 3 + UrlBodyIn(a);
      RunThroughUrls(a[end..], v, w, b);
      SameButSuffix(StripUrls(a + v + b), StripUrls(a + w + b), a, end, v, w);
    } else {
      RunSwallowed(a, v, b);
      RunSwallowed(a, w, b);
      SameButEqual(StripUrls(a + v + b), a, v, w);
    }
  }

  lemma SameButEqual(x: string, a: string, v: string, w: string)
    ensures SameBut(x, x, a, v, w)
  {
  }

  lemma SameButSuffix(x: string, y: string, a: string, i: nat, v: string, w: string)
    requires i < |a| && SameBut(x, y, a[i..], v, w)
    ensures SameBut(x, y, a, v, w)
  {
  }

  /** Paths are reduced in place: between delimiters, the run alone decides. */
  lemma RunReduced(p: string, w: string, b: string)
    requires Surrounds(p, b) && w != "" && All(IsRunChar, w)
    ensures NormalizePaths(p + w + b) == NormalizePaths(p) + Shorten(w) + NormalizePaths(b)
  {
    hide IsRunChar, Shorten, RewriteRuns, All;
    RunThenRest(IsRunChar, Shorten, w, b);
    if p == "" {
      assert p + w + b == w + b;
      NoText(IsRunChar, Shorten);
    } else {
      var front, c := p[..|p| - 1], p[|p| - 1];
      assert p == front + [c] + "";
      assert p + w + b == front + [c] + (w + b);
      RunsSplit(IsRunChar, Shorten, front, c, w + b);
      RunsSplit(IsRunChar, Shorten, front, c, "");
      NoText(IsRunChar, Shorten);
    }
  }

  lemma DropQueryRun(a: string, w: string, b: string)
    requires All(IsRunChar, w)
    ensures var p := c => c != '?';
            DropQuery(a + w + b) ==
            if Span(p, a) < |a| then a[..Span(p, a)] else a + w + b[..Span(p, b)]
  {
    var p := c => c != '?';
    assert a + w + b == a + (w + b);
    assert All(p, w) by {
      forall i | 0 <= i < |w| ensures p(w[i]) {
        assert IsRunChar(w[i]);
      }
    }
    SpanAll(p, w);
    SpanConcat(p, w, b);
    SpanConcat(p, a, w + b);
  }

  /** `normalize_paths` gives the same text for any two directories of one file. */
  lemma DirectoryDropped(a: string, d: string, e: string, name: string, b: string)
    requires Surrounds(a, b) && Directory(d) && Directory(e) && FileName(name)
    requires Droppable(d, name) && Droppable(e, name)
    ensures NormalizePaths(a + (d + name) + b) == NormalizePaths(a) + name + NormalizePaths(b)
    ensures NormalizePaths(a + (d + name) + b) == NormalizePaths(a + (e + name) + b)
  {
    hide Shorten, NormalizePaths;
    ShortenDrops(d, name);
    ShortenDrops(e, name);
    RunReduced(a, d + name, b);
    RunReduced(a, e + name, b);
  }

  /** Exactly which pairs of directories `normalize_paths` cannot tell apart in front of a file name. */
  lemma DirectoryDroppedIff(a: string, d: string, e: string, name: string, b: string)
    requires Surrounds(a, b) && Directory(d) && Directory(e) && FileName(name)
    ensures NormalizePaths(a + (d + name) + b) == NormalizePaths(a + (e + name) + b)
            <==> (Droppable(d, name) && Droppable(e, name)) || d == e
  {
    hide Shorten, NormalizePaths, Droppable, IsRunChar, All;
    DirectoryRun(d, name);
    DirectoryRun(e, name);
    RunReduced(a, d + name, b);
    RunReduced(a, e + name, b);
    Cancel(NormalizePaths(a), Shorten(d + name), Shorten(e + name), NormalizePaths(b));
    Cancel("", d, e, name);
    assert "" + d + name == d + name && "" + e + name == e + name;
    Shortened(d, name);
    Shortened(e, name);
  }

  lemma Shortened(d: string, name: string)
    requires Directory(d) && FileName(name)
    ensures Shorten(d + name) == (if Droppable(d, name) then name else d + name) && |d + name| > |name|
  {
    hide Shorten;
    if Droppable(d, name) {
      ShortenDrops(d, name);
    } else {
      ShortenKeeps(d, name);
    }
  }

  lemma RunThroughPaths(x: string, y: string, a: string, d: string, e: string, name: string)
    requires EndsRun(a) && SameBut(x, y, a, d + name, e + name)
    requires Directory(d) && Directory(e) && FileName(name) && Droppable(d, name) && Droppable(e, name)
    ensures NormalizePaths(x) == NormalizePaths(y)
  {
    hide NormalizePaths, Directory, FileName, Droppable, IsRunChar;
    if x != y {
      var p, b :| StopsRun(IsRunChar, b) && x == p + (d + name) + b && y == p + (e + name) + b && SameLast(p, a);
      DirectoryDropped(p, d, e, name, b);
    }
  }

  /**
   The whole frame pipeline gives one result for a file wherever it was built, as long as the path
   stands between non-path characters and is not turned into a URL by a scheme in front of it.
   */
  lemma BuildDirectoryBlind(a: string, d: string, e: string, name: string, b: string)
    requires Surrounds(a, b) && Directory(d) && Directory(e) && FileName(name)
    requires Droppable(d, name) && Droppable(e, name) && NoNewUrl(a, d, b) && NoNewUrl(a, e, b)
    ensures FramePipeline(a + (d + name) + b) == FramePipeline(a + (e + name) + b)
  {
    hide DropQuery, StripUrls, NormalizePaths, Droppable, FramePipeline, TokenStages, CollapseWhitespace, All, IsRunChar;
    ShortenDrops(d, name);
    ShortenDrops(e, name);
    DropQueryRun(a, d + name, b);
    DropQueryRun(a, e + name, b);
    var p := c => c != '?';
    var x, y := DropQuery(a + (d + name) + b), DropQuery(a + (e + name) + b);
    if Span(p, a) == |a| {
      var b' := b[..Span(p, b)];
      PrefixSurrounds(b, Span(p, b));
      RunThroughUrls(a, d + name, e + name, b');
      RunThroughPaths(StripUrls(x), StripUrls(y), a, d, e, name);
    }
    PipelineStages(a + (d + name) + b);
    PipelineStages(a + (e + name) + b);
  }

  lemma PrefixSurrounds(b: string, n: nat)
    requires n <= |b| && StopsRun(IsRunChar, b) && !("://" <= b)
    ensures StopsRun(IsRunChar, b[..n]) && !("://" <= b[..n])
  {
  }
}
