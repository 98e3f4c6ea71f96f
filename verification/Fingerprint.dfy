/** Frames of a stack and the grouping fingerprint (agent/src/ingest/normalize.rs, agent/src/ingest/exception.rs). */
module Fingerprint {
  import opened Wrappers
  import Seqs
  import opened Predicates
  import opened Normalize
  import opened Frames
  import opened BuildPaths

  const TOP_FRAMES := 5

  // ----------------------------------------------------------------- lines and trimming

  function TrimStart(s: string): string { if s != "" && IsSpace(s[0]) then TrimStart(s[1..]) else s }

  function TrimEnd(s: string): string {
    if s != "" && IsSpace(s[|s| - 1]) then TrimEnd(s[..|s| - 1]) else s
  }

  function Trim(s: string): string { TrimEnd(TrimStart(s)) }

  /** `str::lines`, up to the carriage returns that trimming each line removes anyway. */
  function Lines(s: string): seq<string>
    decreases |s|
  {
    if s == "" then []
    else
      var n := Span(c => c != '\n', s);
      if n == |s| then [s] else [s[..n]] + Lines(s[n + 1..])
  }

  /** Trim, drop blanks, normalize, drop blanks. */
  function Normalized(lines: seq<string>): seq<string> {
    if lines == [] then []
    else
      var frame := FramePipeline(Trim(lines[0]));
      (if Trim(lines[0]) == "" || frame == "" then [] else [frame]) + Normalized(lines[1..])
  }

  function StackFrames(stack: string): seq<string> { Seqs.Dedup(Normalized(Lines(stack))) }

  /** SHA-256 and the truncation to sixteen hex digits are abstract. */
  datatype Hasher = Hasher(digest: string -> string, short: string -> string)

  function JoinFrames(frames: seq<string>): string {
    if frames == [] then "" else frames[0] + "\n" + JoinFrames(frames[1..])
  }

  function FirstNonBlank(lines: seq<string>): string {
    if lines == [] then "" else if Trim(lines[0]) != "" then Trim(lines[0]) else FirstNonBlank(lines[1..])
  }

  /** `summary_line` */
  function SummaryLine(message: string): string { FirstNonBlank(Lines(message)) }

  /** `fingerprint` */
  function FingerprintOf(excType: string, message: string, stack: Option<string>, override_: Option<string>, h: Hasher)
    : string
  {
    var given := Trim(override_.GetOr(""));
    if given != "" then h.short(given)
    else
      var head := Lower(Trim(excType)) + "\n";
      var text := Trim(stack.GetOr(""));
      if text != "" then h.short(h.digest(head + JoinFrames(Seqs.Prefix(StackFrames(text), TOP_FRAMES))))
      else h.short(h.digest(head + MessagePipeline(SummaryLine(message))))
  }

  // ------------------------------------------------------------------- what trimming removes

  lemma {:induction false} TrimStartSnoc(s: string, c: char)
    requires IsSpace(c)
    ensures TrimStart(s + [c]) == if TrimStart(s) == "" then "" else TrimStart(s) + [c]
  {
    if s == "" {
      assert (s + [c])[1..] == "";
    } else if IsSpace(s[0]) {
      assert (s + [c])[1..] == s[1..] + [c];
      TrimStartSnoc(s[1..], c);
    }
  }

  lemma TrimSnoc(s: string, c: char)
    requires IsSpace(c)
    ensures Trim(s + [c]) == Trim(s)
  {
    TrimStartSnoc(s, c);
    var t := TrimStart(s);
    if t != "" {
      assert (t + [c])[..|t|] == t;
    }
  }

  lemma TrimCons(c: char, s: string)
    requires IsSpace(c)
    ensures Trim([c] + s) == Trim(s)
  {
  }

  lemma SpanLine(c: char, s: string)
    requires c != '\n'
    ensures Span(x => x != '\n', [c] + s) == 1 + Span(x => x != '\n', s)
  {
  }

  lemma LeadingSpace(c: char, s: string)
    requires IsSpace(c)
    ensures Normalized(Lines([c] + s)) == Normalized(Lines(s))
  {
    hide FramePipeline, Trim, IsSpace, Span;
    var t := [c] + s;
    var p := x => x != '\n';
    if c == '\n' {
      assert Span(p, t) == 0 by { NewLineFirst(s); }
      assert t[..0] == "" && t[1..] == s;
      assert Lines(t) == [""] + Lines(s);
      assert Trim("") == "" by { BlankTrims(); }
      assert ([""] + Lines(s))[1..] == Lines(s);
    } else {
      SpanLine(c, s);
      var n := Span(p, s);
      if s == "" {
        TrimCons(c, "");
        assert t == [c] + "";
        assert Trim("") == "" by { BlankTrims(); }
        assert Lines(t) == [t];
      } else if n == |s| {
        TrimCons(c, s);
      } else {
        assert t[..n + 1] == [c] + s[..n] && t[n + 2..] == s[n + 1..];
        TrimCons(c, s[..n]);
        assert Lines(t) == [t[..n + 1]] + Lines(t[n + 2..]);
      }
    }
  }

  lemma NewLineFirst(s: string)
    ensures Span(x => x != '\n', ['\n'] + s) == 0
  {
  }

  lemma BlankTrims()
    ensures Trim("") == ""
  {
  }

  lemma LineThenRest(line: string, a: seq<string>, b: seq<string>)
    requires Normalized(a) == Normalized(b)
    ensures Normalized([line] + a) == Normalized([line] + b)
  {
  }

  lemma {:induction false} TrailingSpace(s: string, c: char)
    requires IsSpace(c)
    ensures Normalized(Lines(s + [c])) == Normalized(Lines(s))
    decreases |s|
  {
    hide FramePipeline, Trim, IsSpace, Span, All;
    var t := s + [c];
    var p := x => x != '\n';
    SpanConcat(p, s, [c]);
    var n := Span(p, s);
    if s == "" {
      assert t == [c] + "";
      LeadingSpace(c, "");
    } else if n < |s| {
      assert t[..n] == s[..n] && t[n + 1..] == s[n + 1..] + [c];
      TrailingSpace(s[n + 1..], c);
      LineThenRest(s[..n], Lines(s[n + 1..]), Lines(t[n + 1..]));
    } else if c == '\n' {
      assert Span(p, [c]) == 0 by { NewLineFirst(""); assert ['\n'] + "" == [c]; }
      assert t[..n] == s && t[n + 1..] == "";
      assert Lines(t) == [s] + Lines("") == [s];
    } else {
      SpanLine(c, "");
      assert [c] + "" == [c];
      TrimSnoc(s, c);
      assert Lines(t) == [t] && Lines(s) == [s];
    }
  }

  lemma {:induction false} TrimmedStart(s: string)
    ensures Normalized(Lines(TrimStart(s))) == Normalized(Lines(s))
  {
    hide Lines, Normalized, IsSpace;
    if s != "" && IsSpace(s[0]) {
      TrimmedStart(s[1..]);
      LeadingSpace(s[0], s[1..]);
      assert s == [s[0]] + s[1..];
    }
  }

  lemma {:induction false} TrimmedEnd(s: string)
    ensures Normalized(Lines(TrimEnd(s))) == Normalized(Lines(s))
  {
    hide Lines, Normalized, IsSpace;
    if s != "" && IsSpace(s[|s| - 1]) {
      TrimmedEnd(s[..|s| - 1]);
      TrailingSpace(s[..|s| - 1], s[|s| - 1]);
      assert s == s[..|s| - 1] + [s[|s| - 1]];
    }
  }

  /** Trimming a whole stack changes none of its frames. */
  lemma TrimInvisible(stack: string)
    ensures StackFrames(Trim(stack)) == StackFrames(stack)
  {
    TrimmedStart(stack);
    TrimmedEnd(TrimStart(stack));
  }

  // ------------------------------------------------------------------------ repeated frames

  predicate WholeLines(s: string) { s == "" || s[|s| - 1] == '\n' }

  predicate OneLine(line: string) { All(c => c != '\n', line) }

  lemma FirstLine(line: string, rest: string)
    requires OneLine(line)
    ensures Lines(line + "\n" + rest) == [line] + Lines(rest)
  {
    var p := c => c != '\n';
    var s := line + "\n" + rest;
    assert s == line + ("\n" + rest);
    SpanAll(p, line);
    SpanConcat(p, line, "\n" + rest);
    assert s[..|line|] == line && s[|line| + 1..] == rest;
  }

  /** The first line of text that has a whole one is its own, whatever follows. */
  lemma LineKept(a: string, b: string)
    requires a != "" && WholeLines(a)
    ensures var n := Span(c => c != '\n', a);
            n < |a| && Lines(a) == [a[..n]] + Lines(a[n + 1..]) && Lines(a + b) == [a[..n]] + Lines(a[n + 1..] + b)
  {
    var p := c => c != '\n';
    var n := Span(p, a);
    hide Span, All;
    SpanConcat(p, a, b);
    EndsInLine(a);
    assert (a + b)[..n] == a[..n] && (a + b)[n + 1..] == a[n + 1..] + b;
  }

  lemma EndsInLine(a: string)
    requires a != "" && WholeLines(a)
    ensures Span(c => c != '\n', a) < |a|
  {
  }

  lemma {:induction false} LinesConcat(a: string, b: string)
    requires WholeLines(a)
    ensures Lines(a + b) == Lines(a) + Lines(b)
    decreases |a|
  {
    hide Lines, Span;
    if a == "" {
      assert a + b == b;
      assert Lines("") == [] by { NoLines(); }
    } else {
      LineKept(a, b);
      LinesConcat(a[Span(c => c != '\n', a) + 1..], b);
    }
  }

  lemma NoLines()
    ensures Lines("") == []
  {
  }

  lemma {:induction false} NormalizedConcat(a: seq<string>, b: seq<string>)
    ensures Normalized(a + b) == Normalized(a) + Normalized(b)
  {
    hide FramePipeline, Trim;
    if a == [] {
      assert a + b == b;
    } else {
      assert (a + b)[1..] == a[1..] + b;
      NormalizedConcat(a[1..], b);
    }
  }

  /** The line, `times` times over. */
  function Repeated(line: string, times: nat): string {
    if times == 0 then "" else line + "\n" + Repeated(line, times - 1)
  }

  function FrameOf(line: string): seq<string> { Normalized([line]) }

  function Copies(frame: seq<string>, times: nat): seq<string> {
    if times == 0 then [] else frame + Copies(frame, times - 1)
  }

  lemma {:induction false} RepeatedFrames(line: string, times: nat, rest: string)
    requires OneLine(line)
    ensures Normalized(Lines(Repeated(line, times) + rest)) == Copies(FrameOf(line), times) + Normalized(Lines(rest))
  {
    hide Lines, Normalized;
    if times == 0 {
      assert "" + rest == rest;
    } else {
      var more := Repeated(line, times - 1) + rest;
      assert Repeated(line, times) + rest == line + "\n" + more;
      FirstLine(line, more);
      NormalizedConcat([line], Lines(more));
      RepeatedFrames(line, times - 1, rest);
    }
  }

  lemma {:induction false} CopiesCollapse(before: seq<string>, frame: seq<string>, times: nat, after: seq<string>)
    requires times > 0 && |frame| <= 1
    ensures Seqs.Dedup(before + Copies(frame, times) + after) == Seqs.Dedup(before + frame + after)
  {
    hide Seqs.Dedup;
    if frame == [] {
      NoCopies(times);
    } else if times == 1 {
      assert Copies(frame, 0) == [] && frame + [] == frame;
      assert Copies(frame, 1) == frame + Copies(frame, 0);
    } else {
      var x := frame[0];
      var rest := Copies(frame, times - 2);
      assert frame == [x];
      assert Copies(frame, times - 1) == [x] + rest;
      assert before + Copies(frame, times) + after == before + [x, x] + (rest + after);
      assert before + Copies(frame, times - 1) + after == before + [x] + (rest + after);
      Seqs.DedupIgnoresRepeats(before, x, rest + after);
      CopiesCollapse(before, frame, times - 1, after);
    }
  }

  lemma {:induction false} NoCopies(times: nat)
    ensures Copies([], times) == []
  {
    if times > 0 {
      NoCopies(times - 1);
    }
  }

  /** Two lines that give one frame, in any positive numbers, give one list of frames. */
  lemma FramesIgnoreDepth(before: string, l: string, i: nat, m: string, j: nat, after: string)
    requires WholeLines(before) && OneLine(l) && OneLine(m) && i > 0 && j > 0
    requires FrameOf(l) == FrameOf(m)
    ensures StackFrames(before + Repeated(l, i) + after) == StackFrames(before + Repeated(m, j) + after)
  {
    hide Lines, Repeated, OneLine, FrameOf, Copies;
    FramesWith(before, l, i, after);
    FramesWith(before, m, j, after);
  }

  lemma FramesWith(before: string, l: string, i: nat, after: string)
    requires WholeLines(before) && OneLine(l) && i > 0
    ensures StackFrames(before + Repeated(l, i) + after)
         == Seqs.Dedup(Normalized(Lines(before)) + FrameOf(l) + Normalized(Lines(after)))
  {
    hide Lines, Repeated, OneLine, Normalized, Copies, FrameOf, Seqs.Dedup;
    var rest := Repeated(l, i) + after;
    assert before + Repeated(l, i) + after == before + rest;
    LinesConcat(before, rest);
    NormalizedConcat(Lines(before), Lines(rest));
    RepeatedFrames(l, i, after);
    assert |FrameOf(l)| <= 1 by { AtMostOne(l); }
    CopiesCollapse(Normalized(Lines(before)), FrameOf(l), i, Normalized(Lines(after)));
    assert Normalized(Lines(before)) + (Copies(FrameOf(l), i) + Normalized(Lines(after)))
        == Normalized(Lines(before)) + Copies(FrameOf(l), i) + Normalized(Lines(after));
  }

  lemma AtMostOne(l: string)
    ensures |FrameOf(l)| <= 1
  {
    hide FramePipeline, Trim;
    assert Normalized([l][1..]) == [];
  }

  // --------------------------------------------------------------------------- fingerprints

  /** Some visible text remains when a visible character is in the middle. */
  lemma {:induction false} TrimStartAround(a: string, c: string, b: string)
    requires c != "" && !IsSpace(c[0])
    ensures TrimStart(a + c + b) == TrimStart(a) + c + b
  {
    if a == "" {
      assert a + c + b == c + b;
    } else if IsSpace(a[0]) {
      assert (a + c + b)[1..] == a[1..] + c + b;
      TrimStartAround(a[1..], c, b);
    }
  }

  lemma {:induction false} TrimEndAround(a: string, c: string, b: string)
    requires c != "" && !IsSpace(c[|c| - 1])
    ensures TrimEnd(a + c + b) == a + c + TrimEnd(b)
  {
    if b == "" {
      assert a + c + b == a + c;
    } else if IsSpace(b[|b| - 1]) {
      assert (a + c + b)[..|a + c + b| - 1] == a + c + b[..|b| - 1];
      TrimEndAround(a, c, b[..|b| - 1]);
    }
  }

  /** Trimming stops at text that starts and ends visibly. */
  lemma TrimAround(a: string, c: string, b: string)
    requires c != "" && !IsSpace(c[0]) && !IsSpace(c[|c| - 1])
    ensures Trim(a + c + b) == TrimStart(a) + c + TrimEnd(b)
  {
    TrimStartAround(a, c, b);
    TrimEndAround(TrimStart(a), c, b);
  }

  lemma {:induction false} TrimEndPrefix(b: string)
    ensures TrimEnd(b) <= b
  {
    if b != "" && IsSpace(b[|b| - 1]) {
      TrimEndPrefix(b[..|b| - 1]);
    }
  }

  lemma {:induction false} TrimStartSuffix(a: string)
    ensures TrimStart(a) != "" ==> TrimStart(a)[|TrimStart(a)| - 1] == a[|a| - 1]
  {
    if a != "" && IsSpace(a[0]) {
      TrimStartSuffix(a[1..]);
    }
  }

  lemma SameFrame(l: string, m: string)
    requires (Trim(l) == "") == (Trim(m) == "") && FramePipeline(Trim(l)) == FramePipeline(Trim(m))
    ensures FrameOf(l) == FrameOf(m)
  {
    hide FramePipeline, Trim;
    assert [l][1..] == [] && [m][1..] == [];
  }

  /** A line's frame ignores its line number. */
  lemma NumberedFrame(a: string, n: string, m: string, b: string)
    requires Digits(n) && Digits(m) && Tail(b) && (|n| >= 10) == (|m| >= 10)
    ensures FrameOf(Numbered(a, n, b)) == FrameOf(Numbered(a, m, b))
    ensures Trim(Numbered(a, n, b)) != ""
  {
    hide FramePipeline, IsTokenChar;
    NumberedTrim(a, n, b);
    NumberedTrim(a, m, b);
    TrimEndPrefix(b);
    LineNumberBlind(TrimStart(a), n, m, TrimEnd(b));
    SameFrame(Numbered(a, n, b), Numbered(a, m, b));
  }

  lemma NumberedTrim(a: string, n: string, b: string)
    requires Digits(n)
    ensures Trim(Numbered(a, n, b)) == Numbered(TrimStart(a), n, TrimEnd(b))
  {
    hide Trim, TrimStart, TrimEnd;
    var c := ":" + n;
    assert IsDigit(n[|n| - 1]) && c[|c| - 1] == n[|n| - 1];
    assert Numbered(a, n, b) == a + c + b;
    TrimAround(a, c, b);
    assert Numbered(TrimStart(a), n, TrimEnd(b)) == TrimStart(a) + c + TrimEnd(b);
  }

  /** A line's frame ignores the directory its file was built in. */
  lemma BuiltFrame(a: string, d: string, e: string, name: string, b: string)
    requires Surrounds(a, b) && Directory(d) && Directory(e) && FileName(name)
    requires Droppable(d, name) && Droppable(e, name) && NoNewUrl(a, d, b) && NoNewUrl(a, e, b)
    ensures FrameOf(a + (d + name) + b) == FrameOf(a + (e + name) + b)
    ensures Trim(a + (d + name) + b) != ""
  {
    hide FramePipeline, Droppable, Separators;
    BuiltTrim(a, d, name, b);
    BuiltTrim(a, e, name, b);
    TrimEndPrefix(b);
    TrimStartSuffix(a);
    var b' := TrimEnd(b);
    assert "://" <= b' ==> "://" <= b;
    BuildDirectoryBlind(TrimStart(a), d, e, name, b');
    SameFrame(a + (d + name) + b, a + (e + name) + b);
  }

  lemma BuiltTrim(a: string, d: string, name: string, b: string)
    requires Directory(d) && FileName(name)
    ensures Trim(a + (d + name) + b) == TrimStart(a) + (d + name) + TrimEnd(b)
  {
    var c := d + name;
    assert IsRunChar(d[0]) && c[0] == d[0];
    assert IsPathChar(name[|name| - 1]) && c[|c| - 1] == name[|name| - 1];
    TrimAround(a, c, b);
  }

  /** A stack that holds a visible line is not blank. */
  lemma {:induction false} VisibleStack(before: string, l: string, i: nat, after: string)
    requires i > 0 && Trim(l) != ""
    ensures Trim(before + Repeated(l, i) + after) != ""
  {
    var k := VisibleAt(l);
    var s := before + Repeated(l, i) + after;
    assert s[|before| + k] == l[k];
    var c := [l[k]];
    assert s == s[..|before| + k] + c + s[|before| + k + 1..];
    TrimAround(s[..|before| + k], c, s[|before| + k + 1..]);
  }

  lemma {:induction false} VisibleAt(l: string) returns (k: nat)
    requires Trim(l) != ""
    ensures k < |l| && !IsSpace(l[k])
  {
    if IsSpace(l[0]) {
      assert l == [l[0]] + l[1..];
      TrimCons(l[0], l[1..]);
      k := VisibleAt(l[1..]);
      k := k + 1;
    } else {
      k := 0;
    }
  }

  /**
   Occurrences of one failure group together: without a client override, the fingerprint of a stack
   depends neither on the message nor on how often a line recurs, and two lines that give one frame
   are interchangeable.
   */
  lemma FingerprintIgnoresDepth(excType: string, msg: string, msg': string, over: Option<string>, h: Hasher,
                                before: string, l: string, i: nat, m: string, j: nat, after: string)
    requires Trim(over.GetOr("")) == ""
    requires WholeLines(before) && OneLine(l) && OneLine(m) && i > 0 && j > 0
    requires FrameOf(l) == FrameOf(m) && Trim(l) != "" && Trim(m) != ""
    ensures FingerprintOf(excType, msg, Some(before + Repeated(l, i) + after), over, h)
         == FingerprintOf(excType, msg', Some(before + Repeated(m, j) + after), over, h)
  {
    hide StackFrames, Trim, Repeated, MessagePipeline, Lower;
    var s, t := before + Repeated(l, i) + after, before + Repeated(m, j) + after;
    FramesIgnoreDepth(before, l, i, m, j, after);
    TrimInvisible(s);
    TrimInvisible(t);
    VisibleStack(before, l, i, after);
    VisibleStack(before, m, j, after);
  }

  /** In particular it ignores line numbers and recursion depth. */
  lemma FingerprintIgnoresLineNumbers(excType: string, msg: string, msg': string, over: Option<string>, h: Hasher,
                                      before: string, a: string, n: string, i: nat, m: string, j: nat, b: string,
                                      after: string)
    requires Trim(over.GetOr("")) == ""
    requires WholeLines(before) && OneLine(a) && OneLine(b) && i > 0 && j > 0
    requires Digits(n) && Digits(m) && Tail(b) && (|n| >= 10) == (|m| >= 10)
    ensures FingerprintOf(excType, msg, Some(before + Repeated(Numbered(a, n, b), i) + after), over, h)
         == FingerprintOf(excType, msg', Some(before + Repeated(Numbered(a, m, b), j) + after), over, h)
  {
    hide FingerprintOf, FrameOf, Trim, Repeated;
    NumberedFrame(a, n, m, b);
    NumberedFrame(a, m, n, b);
    NumberedLine(a, n, b);
    NumberedLine(a, m, b);
    FingerprintIgnoresDepth(excType, msg, msg', over, h, before, Numbered(a, n, b), i, Numbered(a, m, b), j, after);
  }

  lemma NumberedLine(a: string, n: string, b: string)
    requires OneLine(a) && OneLine(b) && Digits(n)
    ensures OneLine(Numbered(a, n, b))
  {
  }

  /** And the directory the code was built in. */
  lemma FingerprintIgnoresBuildDirectory(excType: string, msg: string, msg': string, over: Option<string>, h: Hasher,
                                         before: string, a: string, d: string, i: nat, e: string, j: nat,
                                         name: string, b: string, after: string)
    requires Trim(over.GetOr("")) == ""
    requires WholeLines(before) && OneLine(a) && OneLine(b) && i > 0 && j > 0
    requires Surrounds(a, b) && Directory(d) && Directory(e) && FileName(name)
    requires Droppable(d, name) && Droppable(e, name) && NoNewUrl(a, d, b) && NoNewUrl(a, e, b)
    ensures FingerprintOf(excType, msg, Some(before + Repeated(a + (d + name) + b, i) + after), over, h)
         == FingerprintOf(excType, msg', Some(before + Repeated(a + (e + name) + b, j) + after), over, h)
  {
    hide FingerprintOf, FrameOf, Trim, Repeated, Droppable, NoNewUrl;
    BuiltFrame(a, d, e, name, b);
    BuiltFrame(a, e, d, name, b);
    BuiltLine(a, d, name, b);
    BuiltLine(a, e, name, b);
    FingerprintIgnoresDepth(excType, msg, msg', over, h, before, a + (d + name) + b, i, a + (e + name) + b, j, after);
  }

  lemma BuiltLine(a: string, d: string, name: string, b: string)
    requires OneLine(a) && OneLine(b) && Directory(d) && FileName(name)
    ensures OneLine(a + (d + name) + b)
  {
  }
}
