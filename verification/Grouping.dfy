/** What the grouping fingerprint tells apart (agent/src/ingest/exception.rs). */
module Grouping {
  import opened Wrappers
  import Seqs
  import opened Predicates
  import opened Normalize
  import opened Frames
  import opened Tokens
  import opened PlainText
  import opened Fingerprint

  // ------------------------------------------------------------------------- images are lines

  lemma {:induction false} WordsAreWords(s: string)
    ensures forall i :: 0 <= i < |Words(s)| ==> Words(s)[i] != "" && All(c => !IsSpace(c), Words(s)[i])
    decreases |s|
  {
    hide IsSpace;
    if s != "" {
      if IsSpace(s[0]) {
        WordsAreWords(s[1..]);
      } else {
        var n := Span(c => !IsSpace(c), s);
        WordsAreWords(s[n..]);
      }
    }
  }

  lemma {:induction false} JoinedIsOneLine(words: seq<string>)
    requires forall i :: 0 <= i < |words| ==> All(c => !IsSpace(c), words[i])
    ensures OneLine(JoinWords(words))
  {
    if words != [] {
      var word := words[0];
      forall i | 0 <= i < |word| ensures word[i] != '\n' {
        assert !IsSpace(word[i]);
      }
      if |words| > 1 {
        JoinedIsOneLine(words[1..]);
      }
    }
  }

  /** Collapsed text is one line, so frames and message images are. */
  lemma CollapsedIsOneLine(s: string)
    ensures OneLine(CollapseWhitespace(s))
  {
    hide Words;
    WordsAreWords(s);
    JoinedIsOneLine(Words(s));
  }

  lemma {:induction false} NormalizedAreLines(lines: seq<string>)
    ensures forall i :: 0 <= i < |Normalized(lines)| ==> OneLine(Normalized(lines)[i]) && Normalized(lines)[i] != ""
  {
    hide Trim, OneLine, FramePipeline;
    if lines != [] {
      NormalizedAreLines(lines[1..]);
      var line := Trim(lines[0]);
      assert OneLine(FramePipeline(line)) by { FrameIsOneLine(line); }
    }
  }

  lemma FrameIsOneLine(line: string)
    ensures OneLine(FramePipeline(line)) && OneLine(MessagePipeline(line))
  {
    hide OneLine, StripDigits, MapTokens, CollapseWhitespace, Lowercase, StripUrls, NormalizePaths, DropQuery;
    var structural := NormalizePaths(StripUrls(DropQuery(line)));
    CollapsedIsOneLine(StripDigits(MapTokens(Hash, MapTokens(Address, MapTokens(Uuid, Lowercase(structural))))));
    CollapsedIsOneLine(StripDigits(MapTokens(Hash, MapTokens(Address, MapTokens(Uuid, Lowercase(StripUrls(line)))))));
  }

  lemma {:induction false} DedupKeeps(s: seq<string>)
    ensures forall x :: x in Seqs.Dedup(s) ==> x in s
  {
    if |s| > 1 {
      DedupKeeps(s[..|s| - 1]);
    }
  }

  predicate AllLines(lines: seq<string>) { forall i :: 0 <= i < |lines| ==> OneLine(lines[i]) }

  lemma FramesAreLines(stack: string)
    ensures AllLines(StackFrames(stack)) && "" !in StackFrames(stack)
  {
    hide Lines, Normalized, OneLine;
    var frames := Normalized(Lines(stack));
    NormalizedAreLines(Lines(stack));
    DedupKeeps(frames);
    forall i | 0 <= i < |StackFrames(stack)| ensures OneLine(StackFrames(stack)[i]) && StackFrames(stack)[i] != "" {
      assert StackFrames(stack)[i] in frames;
    }
  }

  // ------------------------------------------------------------------------ texts of lines

  lemma LineHead(line: string, rest: string)
    requires OneLine(line)
    ensures Span(c => c != '\n', line + "\n" + rest) == |line| && Span(c => c != '\n', line) == |line|
  {
    var p := c => c != '\n';
    assert line + "\n" + rest == line + ("\n" + rest);
    SpanAll(p, line);
    SpanConcat(p, line, "\n" + rest);
    NewLineFirst(rest);
    assert ['\n'] + rest == "\n" + rest;
  }

  lemma FirstLines(a: string, x: string, b: string, y: string)
    requires OneLine(a) && OneLine(b) && a + "\n" + x == b + "\n" + y
    ensures a == b && x == y
  {
    hide OneLine, Span;
    LineHead(a, x);
    LineHead(b, y);
    var text := a + "\n" + x;
    assert text[..|a|] == a && text[..|b|] == b && text[|a| + 1..] == x && text[|b| + 1..] == y;
  }

  lemma OpenLine(a: string, x: string, m: string)
    requires OneLine(a) && OneLine(m)
    ensures a + "\n" + x != m
  {
    hide OneLine, Span;
    LineHead(a, x);
    LineHead(m, "");
  }

  lemma JoinUnfolds(xs: seq<string>, m: string)
    requires xs != []
    ensures JoinFrames(xs) + m == xs[0] + "\n" + (JoinFrames(xs[1..]) + m)
  {
  }

  /** Lines, each closed by a newline, and a last open one are all recovered from the text. */
  lemma {:induction false} LinesRecovered(xs: seq<string>, m: string, ys: seq<string>, n: string)
    requires AllLines(xs) && AllLines(ys) && OneLine(m) && OneLine(n)
    requires JoinFrames(xs) + m == JoinFrames(ys) + n
    ensures xs == ys && m == n
    decreases |xs|
  {
    hide OneLine, JoinFrames;
    if xs != [] {
      JoinUnfolds(xs, m);
    }
    if ys != [] {
      JoinUnfolds(ys, n);
    }
    if xs == [] || ys == [] {
      NoFrames(m);
      NoFrames(n);
      if xs != [] {
        OpenLine(xs[0], JoinFrames(xs[1..]) + m, n);
      } else if ys != [] {
        OpenLine(ys[0], JoinFrames(ys[1..]) + n, m);
      }
    } else {
      FirstLines(xs[0], JoinFrames(xs[1..]) + m, ys[0], JoinFrames(ys[1..]) + n);
      LinesRecovered(xs[1..], m, ys[1..], n);
      assert xs == [xs[0]] + xs[1..] && ys == [ys[0]] + ys[1..];
    }
  }

  lemma NoFrames(m: string)
    ensures JoinFrames([]) + m == m
  {
    assert "" + m == m;
  }

  // --------------------------------------------------------------------------- what groups

  /** No two texts share a hash. */
  ghost predicate Perfect(h: Hasher) {
    && (forall a, b :: h.digest(a) == h.digest(b) ==> a == b)
    && (forall a, b :: h.short(a) == h.short(b) ==> a == b)
  }

  /** What a report groups by: its type, and the first five frames or, without a stack, the message's first visible line. */
  datatype Basis = Basis(excType: string, frames: seq<string>, summary: string)

  function BasisOf(excType: string, message: string, stack: Option<string>): Basis {
    var visible := stack.Some? && Trim(stack.value) != "";
    var frames := if visible then StackFrames(stack.value) else [];
    Basis(Lower(Trim(excType)),
          if |frames| > 5 then frames[..5] else frames,
          if visible then "" else MessagePipeline(SummaryLine(message)))
  }

  /** The text that is hashed for it. */
  function BasisText(b: Basis): string { JoinFrames([b.excType] + b.frames) + b.summary }

  lemma FingerprintOfBasis(excType: string, message: string, stack: Option<string>, over: Option<string>, h: Hasher)
    requires Trim(over.GetOr("")) == ""
    ensures FingerprintOf(excType, message, stack, over, h) == h.short(h.digest(BasisText(BasisOf(excType, message, stack))))
  {
    hide StackFrames, Lower, MessagePipeline, SummaryLine, Trim;
    assert Trim("") == "" by { BlankTrims(); }
    var b := BasisOf(excType, message, stack);
    assert ([b.excType] + b.frames)[1..] == b.frames;
    assert BasisText(b) == (b.excType + "\n" + JoinFrames(b.frames)) + b.summary;
    if stack.Some? && Trim(stack.value) != "" {
      TrimInvisible(stack.value);
      assert Seqs.Prefix(StackFrames(stack.value), TOP_FRAMES) == b.frames;
      assert BasisText(b) == b.excType + "\n" + JoinFrames(b.frames);
    } else {
      assert BasisText(b) == b.excType + "\n" + b.summary;
    }
  }

  lemma BasisIsLines(excType: string, message: string, stack: Option<string>)
    requires OneLine(Trim(excType))
    ensures var b := BasisOf(excType, message, stack); AllLines([b.excType] + b.frames) && OneLine(b.summary)
  {
    hide StackFrames, MessagePipeline, SummaryLine, Trim;
    var b := BasisOf(excType, message, stack);
    assert OneLine(b.excType) by { LowerIsLine(Trim(excType)); }
    FrameIsOneLine(SummaryLine(message));
    if stack.Some? {
      FramesAreLines(stack.value);
    }
  }

  lemma LowerIsLine(s: string)
    requires OneLine(s)
    ensures OneLine(Lower(s))
  {
  }

  /**
   Two reports without a client override, of one-line types, share a fingerprint exactly when they have
   the same type, up to case and outer blanks, and the same first five frames, or no frames and the
   same image of the message's first visible line.
   */
  lemma SameGroupIff(t1: string, m1: string, s1: Option<string>, o1: Option<string>,
                     t2: string, m2: string, s2: Option<string>, o2: Option<string>, h: Hasher)
    requires Perfect(h) && Trim(o1.GetOr("")) == "" == Trim(o2.GetOr("")) && OneLine(Trim(t1)) && OneLine(Trim(t2))
    ensures FingerprintOf(t1, m1, s1, o1, h) == FingerprintOf(t2, m2, s2, o2, h)
            <==> BasisOf(t1, m1, s1) == BasisOf(t2, m2, s2)
  {
    hide FingerprintOf, BasisOf, OneLine, Trim;
    FingerprintOfBasis(t1, m1, s1, o1, h);
    FingerprintOfBasis(t2, m2, s2, o2, h);
    BasisIsLines(t1, m1, s1);
    BasisIsLines(t2, m2, s2);
    var a, b := BasisOf(t1, m1, s1), BasisOf(t2, m2, s2);
    if BasisText(a) == BasisText(b) {
      LinesRecovered([a.excType] + a.frames, a.summary, [b.excType] + b.frames, b.summary);
      assert ([a.excType] + a.frames)[0] == a.excType && ([b.excType] + b.frames)[0] == b.excType;
      assert ([a.excType] + a.frames)[1..] == a.frames && ([b.excType] + b.frames)[1..] == b.frames;
    }
  }

  /** A client's override decides alone: such reports share a fingerprint exactly when the trimmed overrides are equal. */
  lemma OverrideDecides(t1: string, m1: string, s1: Option<string>, o1: Option<string>,
                        t2: string, m2: string, s2: Option<string>, o2: Option<string>, h: Hasher)
    requires Perfect(h) && Trim(o1.GetOr("")) != "" && Trim(o2.GetOr("")) != ""
    ensures FingerprintOf(t1, m1, s1, o1, h) == FingerprintOf(t2, m2, s2, o2, h)
            <==> Trim(o1.value) == Trim(o2.value)
  {
    hide Trim, StackFrames, MessagePipeline, SummaryLine, Lower;
    assert Trim("") == "" by { BlankTrims(); }
  }

  /** Types of several lines can pass for frames: two different failures, one fingerprint, whatever the hash. */
  lemma LinesOfTypePassForFrames(h: Hasher)
    ensures FingerprintOf("E\nf", "", Some("?"), None, h) == FingerprintOf("E", "", Some("f"), None, h)
    ensures BasisOf("E\nf", "", Some("?")) != BasisOf("E", "", Some("f"))
  {
    hide FingerprintOf, BasisOf, JoinFrames;
    FingerprintOfBasis("E\nf", "", Some("?"), None, h);
    FingerprintOfBasis("E", "", Some("f"), None, h);
    TwoBases();
    JoinUnfolds(["e\nf"], "");
    JoinUnfolds(["e", "f"], "");
    JoinUnfolds(["f"], "");
    assert ["e\nf"][1..] == [] && ["e", "f"][1..] == ["f"] && ["f"][1..] == [];
    NoFrames("");
    assert ["e\nf"] + [] == ["e\nf"] && ["e"] + ["f"] == ["e", "f"];
    assert "e\nf" + "\n" + "" == "e\nf\n" == "e" + "\n" + ("f" + "\n" + "");
  }

  lemma TwoBases()
    ensures BasisOf("E\nf", "", Some("?")) == Basis("e\nf", [], "")
    ensures BasisOf("E", "", Some("f")) == Basis("e", ["f"], "")
    ensures Trim("") == ""
  {
    hide StackFrames, Trim;
    QueryFrame();
    WordFrame();
    BlankTrims();
    Visible("E\nf");
    Visible("E");
    Visible("?");
    Visible("f");
    assert Lower("E\nf") == "e\nf" && Lower("E") == "e";
  }

  lemma Visible(s: string)
    requires s != "" && !IsSpace(s[0]) && !IsSpace(s[|s| - 1])
    ensures Trim(s) == s
  {
  }

  lemma QueryFrame()
    ensures StackFrames("?") == []
  {
    hide Lines, FramePipeline, NormalizePaths, StripUrls;
    LastLine("?");
    QueryDropped("", "");
    assert "" + "?" + "" == "?";
    PipelineStages("?");
    NothingToStrip();
    WithoutPaths("");
    NoStages();
    assert CollapseWhitespace("") == "";
    FrameIs("?");
  }

  lemma WordFrame()
    ensures StackFrames("f") == ["f"]
  {
    hide FramePipeline, StackFrames, Trim, StripDigits;
    LastLine("f");
    FrameIs("f");
    Visible("f");
    TokenAlone("f");
    NothingStripped("f");
    assert Lower("f") == "f";
  }

  // ------------------------------------------------------------------- frames, line by line

  lemma {:induction false} DedupFront(x: string, s: seq<string>)
    ensures Seqs.Dedup([x] + s) == if s != [] && s[0] == x then Seqs.Dedup(s) else [x] + Seqs.Dedup(s)
    ensures s != [] ==> Seqs.Dedup(s) != [] && Seqs.Dedup(s)[0] == s[0]
  {
    hide Seqs.Dedup;
    if |s| <= 1 {
      ShortDedup(x, s);
    } else {
      var front, last := s[..|s| - 1], s[|s| - 1];
      var d, longer := Seqs.Dedup(front), [x] + front;
      assert s == front + [last] && [x] + s == longer + [last];
      DedupFront(x, front);
      Seqs.DedupSnoc(front, last);
      Seqs.DedupSnoc(longer, last);
      assert longer[|longer| - 1] == front[|front| - 1] && s[0] == front[0];
      assert ([x] + d) + [last] == [x] + (d + [last]) && (d + [last])[0] == d[0];
    }
  }

  lemma ShortDedup(x: string, s: seq<string>)
    requires |s| <= 1
    ensures Seqs.Dedup([x] + s) == if s != [] && s[0] == x then Seqs.Dedup(s) else [x] + Seqs.Dedup(s)
    ensures s != [] ==> Seqs.Dedup(s) != [] && Seqs.Dedup(s)[0] == s[0]
  {
    if s != [] {
      assert ([x] + s)[..1] == [x];
    }
  }

  /** A line's frame is its image once trimmed; blank lines and lines without an image have none. */
  lemma FrameIs(line: string)
    ensures FrameOf(line) ==
            if Trim(line) == "" || FramePipeline(Trim(line)) == "" then [] else [FramePipeline(Trim(line))]
  {
    hide FramePipeline, Trim;
    assert Normalized([line][1..]) == [];
  }

  lemma LastLine(line: string)
    requires OneLine(line)
    ensures StackFrames(line) == FrameOf(line)
  {
    hide FramePipeline, Trim;
    SpanAll(c => c != '\n', line);
    if line == "" {
      assert Lines(line) == [] && Normalized([]) == [];
      BlankTrims();
      FrameIs("");
    } else {
      assert Lines(line) == [line];
    }
    AtMostOne(line);
  }

  /** The frames of a stack, from its first line on: a line adds its frame unless the next frame repeats it. */
  lemma FramesByLine(line: string, rest: string)
    requires OneLine(line)
    ensures var frame, more := FrameOf(line), StackFrames(rest);
            StackFrames(line + "\n" + rest) == if frame == [] || frame <= more then more else frame + more
  {
    hide Lines, Normalized, Seqs.Dedup, FrameOf;
    FirstLine(line, rest);
    NormalizedConcat([line], Lines(rest));
    AtMostOne(line);
    var tail := Normalized(Lines(rest));
    assert Normalized([line] + Lines(rest)) == FrameOf(line) + tail by { FrameOfLine(line); }
    if FrameOf(line) == [] {
      assert [] + tail == tail;
    } else {
      DedupFront(FrameOf(line)[0], tail);
      assert FrameOf(line) == [FrameOf(line)[0]];
    }
  }

  lemma FrameOfLine(line: string)
    ensures FrameOf(line) == Normalized([line])
  {
  }

  // ------------------------------------------------------------------------ the summary line

  lemma {:induction false} BlanksTrim(s: string)
    requires All(IsSpace, s)
    ensures Trim(s) == "" && TrimStart(s) == ""
  {
    if s != "" {
      BlanksTrim(s[1..]);
    }
  }

  lemma LinesUnfold(s: string)
    requires s != ""
    ensures var n := Span(c => c != '\n', s); Lines(s) == if n == |s| then [s] else [s[..n]] + Lines(s[n + 1..])
  {
    hide Span, All;
  }

  lemma SkipBlank(line: string, rest: seq<string>)
    requires Trim(line) == ""
    ensures FirstNonBlank([line] + rest) == FirstNonBlank(rest)
  {
    assert ([line] + rest)[1..] == rest;
  }

  lemma {:induction false} BlankLines(s: string, rest: seq<string>)
    requires All(IsSpace, s)
    ensures FirstNonBlank(Lines(s) + rest) == FirstNonBlank(rest)
    decreases |s|
  {
    hide Trim, IsSpace, Lines, FirstNonBlank, Span;
    if s == "" {
      NoLines();
      assert [] + rest == rest;
    } else {
      var n := Span(c => c != '\n', s);
      LinesUnfold(s);
      BlanksTrim(s[..n]);
      if n == |s| {
        assert s[..n] == s;
        SkipBlank(s, rest);
      } else {
        BlankLines(s[n + 1..], rest);
        assert [s[..n]] + Lines(s[n + 1..]) + rest == [s[..n]] + (Lines(s[n + 1..]) + rest);
        SkipBlank(s[..n], Lines(s[n + 1..]) + rest);
      }
    }
  }

  /** A message is summed up by its first line that holds anything but blanks; what follows is context. */
  lemma SummaryIsFirstLine(before: string, line: string, after: string)
    requires All(IsSpace, before) && WholeLines(before) && OneLine(line) && Trim(line) != ""
    requires after == "" || after[0] == '\n'
    ensures SummaryLine(before + line + after) == Trim(line)
  {
    hide Trim, IsSpace, Lines;
    assert before + line + after == before + (line + after);
    LinesConcat(before, line + after);
    BlankLines(before, Lines(line + after));
    assert Lines(line + after) != [] && Lines(line + after)[0] == line by {
      if after == "" {
        assert line + after == line;
        BlankTrims();
        OnlyLine(line);
      } else {
        assert line + after == line + "\n" + after[1..];
        FirstLine(line, after[1..]);
      }
    }
  }

  lemma OnlyLine(line: string)
    requires OneLine(line) && line != ""
    ensures Lines(line) == [line]
  {
    SpanAll(c => c != '\n', line);
  }

  lemma NothingToSum(message: string)
    requires All(IsSpace, message)
    ensures SummaryLine(message) == ""
  {
    BlankLines(message, []);
    assert Lines(message) + [] == Lines(message);
  }

  // ---------------------------------------------------------------------- ids in frames and messages

  lemma TokenTrim(a: string, t: string, b: string)
    requires Token(t)
    ensures Trim(a + t + b) == TrimStart(a) + t + TrimEnd(b)
  {
    assert IsTokenChar(t[0]) && IsTokenChar(t[|t| - 1]);
    TrimAround(a, t, b);
  }

  lemma TokenLine(a: string, t: string, b: string)
    requires OneLine(a) && OneLine(b) && Token(t)
    ensures OneLine(a + t + b)
  {
    forall i | 0 <= i < |t| ensures t[i] != '\n' {
      assert IsTokenChar(t[i]);
    }
  }

  lemma TrimDelimits(a: string, b: string)
    requires Delimits(a, b) && !("://" <= b)
    ensures Delimits(TrimStart(a), TrimEnd(b)) && !("://" <= TrimEnd(b))
  {
    hide IsTokenChar;
    TrimEndPrefix(b);
    TrimStartSuffix(a);
  }

  /** A line's frame ignores ids, addresses and hashes that stand delimited in it. */
  lemma TokenFrame(a: string, u: string, v: string, b: string)
    requires Delimits(a, b) && Token(u) && Token(v) && !("://" <= b) && TokenImage(u) == TokenImage(v)
    ensures FrameOf(a + u + b) == FrameOf(a + v + b) && Trim(a + u + b) != ""
  {
    hide FramePipeline, TokenImage, Delimits, TrimStart, TrimEnd;
    TokenTrim(a, u, b);
    TokenTrim(a, v, b);
    TrimDelimits(a, b);
    TokenBlind(TrimStart(a), u, v, TrimEnd(b));
    SameFrame(a + u + b, a + v + b);
  }

  /** So does the fingerprint of the stack, */
  lemma FingerprintIgnoresIds(excType: string, msg: string, msg': string, over: Option<string>, h: Hasher,
                              before: string, a: string, u: string, i: nat, v: string, j: nat, b: string, after: string)
    requires Trim(over.GetOr("")) == ""
    requires WholeLines(before) && OneLine(a) && OneLine(b) && i > 0 && j > 0
    requires Delimits(a, b) && Token(u) && Token(v) && !("://" <= b) && TokenImage(u) == TokenImage(v)
    ensures FingerprintOf(excType, msg, Some(before + Repeated(a + u + b, i) + after), over, h)
         == FingerprintOf(excType, msg', Some(before + Repeated(a + v + b, j) + after), over, h)
  {
    hide FingerprintOf, FrameOf, Trim, Repeated, TokenImage, Delimits, Token;
    TokenFrame(a, u, v, b);
    TokenFrame(a, v, u, b);
    TokenLine(a, u, b);
    TokenLine(a, v, b);
    FingerprintIgnoresDepth(excType, msg, msg', over, h, before, a + u + b, i, a + v + b, j, after);
  }

  /** and of a report without a stack, in the first visible line of its message, whatever lines follow. */
  lemma MessageIgnoresIds(excType: string, stack: Option<string>, over: Option<string>, h: Hasher,
                          a: string, u: string, v: string, b: string, after: string, after': string)
    requires Trim(over.GetOr("")) == "" == Trim(stack.GetOr("")) && OneLine(a) && OneLine(b)
    requires Delimits(a, b) && Token(u) && Token(v) && !("://" <= b) && TokenImage(u) == TokenImage(v)
    requires (after == "" || after[0] == '\n') && (after' == "" || after'[0] == '\n')
    ensures FingerprintOf(excType, a + u + b + after, stack, over, h)
         == FingerprintOf(excType, a + v + b + after', stack, over, h)
  {
    hide MessagePipeline, FramePipeline, SummaryLine, TokenImage, Delimits, Token, Trim, StackFrames, Lower, TrimStart,
         TrimEnd;
    TokenLine(a, u, b);
    TokenLine(a, v, b);
    TokenTrim(a, u, b);
    TokenTrim(a, v, b);
    TokenFrame(a, u, v, b);
    TokenFrame(a, v, u, b);
    SummaryIsFirstLine("", a + u + b, after);
    SummaryIsFirstLine("", a + v + b, after');
    assert "" + (a + u + b) + after == a + u + b + after && "" + (a + v + b) + after' == a + v + b + after';
    TrimDelimits(a, b);
    TokenBlind(TrimStart(a), u, v, TrimEnd(b));
  }
}
