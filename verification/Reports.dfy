/** Stored reports after a regrouping pass: the rules of agent/src/ingest/regroup.rs on the rows of the event store. */
module Reports {
  import opened Wrappers
  import opened Events
  import opened Tables
  import opened Predicates
  import opened Normalize
  import opened Frames
  import opened BuildPaths
  import opened Tokens
  import opened Fingerprint
  import opened Grouping
  import EventMachine
  import EventHistory

  /** The rules of a build: the fingerprint of the stored type, message and stack, without an override. */
  ghost predicate GroupsByFingerprint(remap: Remap, h: Hasher) {
    forall t, m, s :: remap(t, m, s) == FingerprintOf(t, m.GetOr(""), s, None, h)
  }

  /** What `regroup_if_needed` hands down is such a rule. */
  function RulesOf(h: Hasher): Remap {
    (t: string, m: Option<string>, s: Option<string>) => FingerprintOf(t, m.GetOr(""), s, None, h)
  }

  lemma RulesGroup(h: Hasher)
    ensures GroupsByFingerprint(RulesOf(h), h)
  {
  }

  /** The rows of the store, hot and cold, behind step `i`, which stamps the version of a finished pass. */
  ghost predicate AfterPass(trace: seq<EventMachine.Machine>, steps: seq<EventMachine.Step>, rules: EventMachine.Rules,
                            i: nat, rows: seq<Event>, h: Hasher) {
    && EventHistory.IsRun(trace, steps, rules) && i < |steps| && steps[i] == EventMachine.StampVersion
    && GroupsByFingerprint(rules(trace[i].phase.build), h)
    && EventHistory.IsUnion(rows, trace[i + 1].hot, trace[i + 1].cold)
  }

  predicate IsReport(e: Event, rows: seq<Event>) { e in rows && e.kind == Exception }

  function TypeOf(e: Event): string { e.excType.GetOr("") }

  function MessageOf(e: Event): string { e.excMessage.GetOr("") }

  /** After a finished pass every stored report is grouped by its own type, message and stack, whatever grouped it before. */
  lemma GroupedByOwnText(trace: seq<EventMachine.Machine>, steps: seq<EventMachine.Step>, rules: EventMachine.Rules,
                         i: nat, rows: seq<Event>, h: Hasher, e: Event)
    requires AfterPass(trace, steps, rules, i, rows, h) && IsReport(e, rows)
    ensures e.excGroup == Some(FingerprintOf(TypeOf(e), MessageOf(e), e.excStack, None, h))
  {
    hide EventHistory.IsUnion, FingerprintOf, Blank, RegroupTable, RegroupRows;
    var remap := rules(trace[i].phase.build);
    EventHistory.RegroupingCompletes(trace, steps, rules, i, rows);
    assert Regrouped(e, remap) == e;
    assert remap(TypeOf(e), e.excMessage, e.excStack) == FingerprintOf(TypeOf(e), MessageOf(e), e.excStack, None, h);
  }

  /**
   Two stored reports of one-line types are in one group exactly when their types and their first five
   frames agree or, without a stack, their types and the images of their messages' first lines.
   */
  lemma StoredGroupsIff(trace: seq<EventMachine.Machine>, steps: seq<EventMachine.Step>, rules: EventMachine.Rules,
                        i: nat, rows: seq<Event>, h: Hasher, a: Event, b: Event)
    requires AfterPass(trace, steps, rules, i, rows, h) && IsReport(a, rows) && IsReport(b, rows)
    requires Perfect(h) && OneLine(Trim(TypeOf(a))) && OneLine(Trim(TypeOf(b)))
    ensures a.excGroup == b.excGroup
            <==> BasisOf(TypeOf(a), MessageOf(a), a.excStack) == BasisOf(TypeOf(b), MessageOf(b), b.excStack)
  {
    hide AfterPass, FingerprintOf, BasisOf, Trim, OneLine, Perfect;
    GroupedByOwnText(trace, steps, rules, i, rows, h, a);
    GroupedByOwnText(trace, steps, rules, i, rows, h, b);
    NoOverride();
    SameGroupIff(TypeOf(a), MessageOf(a), a.excStack, None, TypeOf(b), MessageOf(b), b.excStack, None, h);
  }

  lemma NoOverride()
    ensures Trim(None.GetOr("")) == ""
  {
    BlankTrims();
  }

  /** A pass has no overrides to go by: the group of a client's override survives it only by a collision of hashes. */
  lemma OverrideKeptIff(trace: seq<EventMachine.Machine>, steps: seq<EventMachine.Step>, rules: EventMachine.Rules,
                        i: nat, rows: seq<Event>, h: Hasher, e: Event, over: string)
    requires AfterPass(trace, steps, rules, i, rows, h) && IsReport(e, rows) && Perfect(h) && Trim(over) != ""
    ensures e.excGroup == Some(FingerprintOf(TypeOf(e), MessageOf(e), e.excStack, Some(over), h))
            <==> Trim(over) == h.digest(BasisText(BasisOf(TypeOf(e), MessageOf(e), e.excStack)))
  {
    hide AfterPass, BasisOf, BasisText, Trim, StackFrames, MessagePipeline, SummaryLine;
    GroupedByOwnText(trace, steps, rules, i, rows, h, e);
    NoOverride();
    FingerprintOfBasis(TypeOf(e), MessageOf(e), e.excStack, None, h);
    assert FingerprintOf(TypeOf(e), MessageOf(e), e.excStack, Some(over), h) == h.short(Trim(over));
  }

  /** Live or archived, reports of one type whose stacks differ in a line number and in depth share a group. */
  lemma LineNumbersShareGroup(trace: seq<EventMachine.Machine>, steps: seq<EventMachine.Step>, rules: EventMachine.Rules,
                              i: nat, rows: seq<Event>, h: Hasher, x: Event, y: Event, before: string,
                              a: string, n: string, depth: nat, m: string, depth': nat, b: string, after: string)
    requires AfterPass(trace, steps, rules, i, rows, h) && IsReport(x, rows) && IsReport(y, rows) && TypeOf(x) == TypeOf(y)
    requires WholeLines(before) && OneLine(a) && OneLine(b) && depth > 0 && depth' > 0
    requires Digits(n) && Digits(m) && Tail(b) && (|n| >= 10) == (|m| >= 10)
    requires x.excStack == Some(before + Repeated(Frames.Numbered(a, n, b), depth) + after)
    requires y.excStack == Some(before + Repeated(Frames.Numbered(a, m, b), depth') + after)
    ensures x.excGroup == y.excGroup
  {
    hide AfterPass, FingerprintOf, Trim, Repeated;
    GroupedByOwnText(trace, steps, rules, i, rows, h, x);
    GroupedByOwnText(trace, steps, rules, i, rows, h, y);
    NoOverride();
    FingerprintIgnoresLineNumbers(TypeOf(x), MessageOf(x), MessageOf(y), None, h, before, a, n, depth, m, depth', b, after);
  }

  /** So do reports whose stacks differ in the directory the code was built in, */
  lemma BuildDirectoriesShareGroup(trace: seq<EventMachine.Machine>, steps: seq<EventMachine.Step>,
                                   rules: EventMachine.Rules, i: nat, rows: seq<Event>, h: Hasher, x: Event, y: Event,
                                   before: string, a: string, d: string, depth: nat, d': string, depth': nat,
                                   name: string, b: string, after: string)
    requires AfterPass(trace, steps, rules, i, rows, h) && IsReport(x, rows) && IsReport(y, rows) && TypeOf(x) == TypeOf(y)
    requires WholeLines(before) && OneLine(a) && OneLine(b) && depth > 0 && depth' > 0
    requires Surrounds(a, b) && Directory(d) && Directory(d') && FileName(name)
    requires Droppable(d, name) && Droppable(d', name) && NoNewUrl(a, d, b) && NoNewUrl(a, d', b)
    requires x.excStack == Some(before + Repeated(a + (d + name) + b, depth) + after)
    requires y.excStack == Some(before + Repeated(a + (d' + name) + b, depth') + after)
    ensures x.excGroup == y.excGroup
  {
    hide AfterPass, FingerprintOf, Trim, Repeated, Droppable, NoNewUrl;
    GroupedByOwnText(trace, steps, rules, i, rows, h, x);
    GroupedByOwnText(trace, steps, rules, i, rows, h, y);
    NoOverride();
    FingerprintIgnoresBuildDirectory(TypeOf(x), MessageOf(x), MessageOf(y), None, h, before, a, d, depth, d', depth',
                                     name, b, after);
  }

  /** or in an id, an address or a hash. */
  lemma IdsShareGroup(trace: seq<EventMachine.Machine>, steps: seq<EventMachine.Step>, rules: EventMachine.Rules,
                      i: nat, rows: seq<Event>, h: Hasher, x: Event, y: Event, before: string,
                      a: string, u: string, depth: nat, v: string, depth': nat, b: string, after: string)
    requires AfterPass(trace, steps, rules, i, rows, h) && IsReport(x, rows) && IsReport(y, rows) && TypeOf(x) == TypeOf(y)
    requires WholeLines(before) && OneLine(a) && OneLine(b) && depth > 0 && depth' > 0
    requires Delimits(a, b) && Token(u) && Token(v) && !("://" <= b) && TokenImage(u) == TokenImage(v)
    requires x.excStack == Some(before + Repeated(a + u + b, depth) + after)
    requires y.excStack == Some(before + Repeated(a + v + b, depth') + after)
    ensures x.excGroup == y.excGroup
  {
    hide AfterPass, FingerprintOf, Trim, Repeated, TokenImage, Token, Delimits;
    GroupedByOwnText(trace, steps, rules, i, rows, h, x);
    GroupedByOwnText(trace, steps, rules, i, rows, h, y);
    NoOverride();
    FingerprintIgnoresIds(TypeOf(x), MessageOf(x), MessageOf(y), None, h, before, a, u, depth, v, depth', b, after);
  }
}
