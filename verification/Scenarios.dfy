/** Runs from an empty store that show where the guarantees of `EventHistory` end. */
module Scenarios {
  import opened Wrappers
  import opened Keys
  import opened Events
  import opened Seqs
  import opened Tables
  import opened Calendar
  import opened EventMachine
  import opened EventHistory

  ghost predicate Stored(s: Machine, e: Event) {
    (exists k :: k in s.hot && s.hot[k] == e) || (exists p :: p in s.cold && e in s.cold[p])
  }

  /** Copies of one number are equal, so de-duplication by row keeps one of each. */
  ghost predicate CopiesAgree(s: Machine) {
    forall a, b :: Stored(s, a) && Stored(s, b) && a.seqNo == b.seqNo ==> a == b
  }

  /** A run through safe starts that ends in `s`. */
  ghost predicate Reaches(trace: seq<Machine>, steps: seq<Step>, rules: Rules, s: Machine) {
    IsRun(trace, steps, rules) && SafeStarts(trace, steps, |steps|) && trace[|steps|] == s
  }

  lemma ExtendRun(trace: seq<Machine>, steps: seq<Step>, rules: Rules, s: Machine, step: Step)
    returns (trace': seq<Machine>, steps': seq<Step>)
    requires Reaches(trace, steps, rules, s) && Enabled(s, step)
    ensures trace' == trace + [Apply(s, step, rules)] && steps' == steps + [step]
    ensures IsRun(trace', steps', rules) && SafeStarts(trace', steps', |steps|)
  {
    hide Apply, Enabled, FalseStart;
    trace', steps' := trace + [Apply(s, step, rules)], steps + [step];
    forall i | 0 <= i < |steps'|
      ensures Enabled(trace'[i], steps'[i]) && trace'[i + 1] == Apply(trace'[i], steps'[i], rules)
    {
      if i < |steps| {
        assert trace'[i] == trace[i] && steps'[i] == steps[i];
      }
    }
    forall i | 0 <= i < |steps| && steps'[i].Boot? ensures !FalseStart(trace'[i], steps'[i].build) {
      assert trace'[i] == trace[i] && steps'[i] == steps[i];
    }
  }

  lemma Extend(trace: seq<Machine>, steps: seq<Step>, rules: Rules, s: Machine, step: Step)
    returns (trace': seq<Machine>, steps': seq<Step>)
    requires Reaches(trace, steps, rules, s) && Enabled(s, step)
    requires step.Boot? ==> !FalseStart(s, step.build)
    ensures trace' == trace + [Apply(s, step, rules)] && steps' == steps + [step]
    ensures Reaches(trace', steps', rules, Apply(s, step, rules)) && |trace'| == |steps'| + 1
  {
    hide Apply, Enabled, FalseStart;
    trace', steps' := ExtendRun(trace, steps, rules, s, step);
    assert trace'[|steps|] == s && steps'[|steps|] == step;
  }

  /** An empty store served by `build`. */
  function Served(build: nat): Machine {
    Machine(map[], 0, build, map[], Serving(build, Idle), 0, map[], None, false)
  }

  /** The first start of any build on an empty store. */
  lemma FirstStart(build: nat, rules: Rules) returns (trace: seq<Machine>, steps: seq<Step>)
    ensures Reaches(trace, steps, rules, Served(build)) && |trace| == |steps| + 1
    ensures build == 0 ==> steps == [Boot(0)]
  {
    trace, steps := [INITIAL], [];
    trace, steps := Extend(trace, steps, rules, INITIAL, Boot(build));
    var s := Apply(INITIAL, Boot(build), rules);
    if build == 0 {
      assert s == Served(0);
    } else {
      trace, steps := Extend(trace, steps, rules, s, RegroupHot);
      s := Apply(s, RegroupHot, rules);
      assert s.hot == map[] && s.phase == RegroupingCold(build, {});
      trace, steps := Extend(trace, steps, rules, s, StampVersion);
      s := Apply(s, StampVersion, rules);
      assert s == Served(build);
    }
  }

  /** One event, number zero, in the hot store. */
  function Holding(build: nat, e: Event): Machine
    requires e.seqNo == 0
  {
    Served(build).(hot := map[KeyFor(e) := e], log := map[0 := e], memSeq := 1, diskSeq := 1)
  }

  lemma OneRow(e: Event)
    requires e.seqNo == 0
    ensures Stamped([e], 0) == [e] && Keyed([e]) == [(KeyFor(e), e)] && Numbered([e]) == [(0, e)]
  {
    hide KeyFor;
  }

  lemma InsertOne<K, V>(k: K, v: V)
    ensures UpdateAll(map[], [(k, v)]) == map[k := v]
  {
    assert [(k, v)][..0] == [];
    assert UpdateAll<K, V>(map[], []) == map[];
  }

  lemma AppendOne(build: nat, e: Event, rules: Rules)
    requires e.seqNo == 0
    ensures Enabled(Served(build), Append([e])) && Apply(Served(build), Append([e]), rules) == Holding(build, e)
  {
    hide KeyFor, Stamped, Keyed, Numbered, UpdateAll;
    OneRow(e);
    InsertOne(KeyFor(e), e);
    InsertOne(0 as u64, e);
  }

  /** The compactor has read that event. */
  function Read(build: nat, e: Event, pairs: seq<(Key, Event)>): Machine
    requires e.seqNo == 0
  {
    Holding(build, e).(phase := Serving(build, Sealing(pairs, {DayOf(e.receivedMs)}, 0)))
  }

  function Cutoff(e: Event): int { Max0(e.receivedMs) + 1 }

  lemma ReadOne(build: nat, e: Event, rules: Rules) returns (pairs: seq<(Key, Event)>)
    requires e.seqNo == 0
    ensures (KeyFor(e), e) in pairs && forall q :: q in pairs ==> q == (KeyFor(e), e)
    ensures var step := ReadWindow(Cutoff(e), 0);
            Enabled(Holding(build, e), step) && Apply(Holding(build, e), step, rules) == Read(build, e, pairs)
  {
    hide KeyFor, EntriesBefore, DayOf;
    var s := Holding(build, e);
    pairs := EntriesBefore(s.hot, Cutoff(e));
    EntriesBeforeExact(s.hot, Cutoff(e), (KeyFor(e), e));
    forall q | q in pairs ensures q == (KeyFor(e), e) {
      EntriesBeforeExact(s.hot, Cutoff(e), q);
    }
    OneDay(pairs, (KeyFor(e), e));
  }

  lemma OneDay(pairs: seq<(Key, Event)>, q: (Key, Event))
    requires q in pairs && forall r :: r in pairs ==> r == q
    ensures DatesOf(pairs) == {DayOf(q.1.receivedMs)}
    ensures forall e :: e in GroupFor(pairs, DayOf(q.1.receivedMs)) <==> e == q.1
    ensures forall k :: k in KeysOf(pairs) <==> k == q.0
  {
    hide DayOf;
    var i :| 0 <= i < |pairs| && pairs[i] == q;
    assert RowsOf(pairs)[i] == q.1 && KeysOf(pairs)[i] == q.0;
    forall e | e in RowsOf(pairs) ensures e == q.1 {
      PairOf(pairs, e);
    }
    forall k | k in KeysOf(pairs) ensures k == q.0 {
      var j :| 0 <= j < |pairs| && KeysOf(pairs)[j] == k;
      assert pairs[j] in pairs;
    }
  }

  function PathOf(e: Event): Path { Path(DayOf(e.receivedMs), 0) }

  /** Its day is archived, and the event is still hot. */
  function Archived(build: nat, e: Event, pairs: seq<(Key, Event)>): Machine
    requires e.seqNo == 0
  {
    Holding(build, e).(phase := Serving(build, Sealing(pairs, {}, 0)),
                       cold := map[PathOf(e) := GroupFor(pairs, DayOf(e.receivedMs))])
  }

  lemma ArchiveOne(build: nat, e: Event, pairs: seq<(Key, Event)>, rules: Rules)
    requires e.seqNo == 0
    ensures var step := SealDay(DayOf(e.receivedMs));
            Enabled(Read(build, e, pairs), step)
            && Apply(Read(build, e, pairs), step, rules) == Archived(build, e, pairs)
  {
    hide DayOf, GroupFor, KeyFor;
    assert {DayOf(e.receivedMs)} - {DayOf(e.receivedMs)} == {};
  }

  /** Any build, any first event: served, appended, read, archived. */
  lemma ToArchived(build: nat, e: Event, rules: Rules)
    returns (trace: seq<Machine>, steps: seq<Step>, pairs: seq<(Key, Event)>)
    requires e.seqNo == 0
    ensures Reaches(trace, steps, rules, Archived(build, e, pairs)) && |trace| == |steps| + 1 >= 3
    ensures trace[|steps| - 1] == Read(build, e, pairs)
    ensures (KeyFor(e), e) in pairs && forall q :: q in pairs ==> q == (KeyFor(e), e)
  {
    hide *;
    trace, steps := FirstStart(build, rules);
    AppendOne(build, e, rules);
    pairs := ReadOne(build, e, rules);
    ArchiveOne(build, e, pairs, rules);
    trace, steps := Extend(trace, steps, rules, Served(build), Append([e]));
    trace, steps := Extend(trace, steps, rules, Holding(build, e), ReadWindow(Cutoff(e), 0));
    trace, steps := Extend(trace, steps, rules, Read(build, e, pairs), SealDay(DayOf(e.receivedMs)));
  }

  // ------------------------------------------------------------------------------ false starts

  /** A newer build's pass was cut off behind its hot half. */
  function CutOff(build: nat, e: Event, pairs: seq<(Key, Event)>, remap: Remap): Machine
    requires e.seqNo == 0
  {
    Archived(build, e, pairs).(phase := Down, hot := RegroupTable(map[KeyFor(e) := e], remap), dirty := true)
  }

  lemma CutOffRun(build: nat, other: nat, e: Event, rules: Rules)
    returns (trace: seq<Machine>, steps: seq<Step>, pairs: seq<(Key, Event)>)
    requires e.seqNo == 0 && other != build
    ensures Reaches(trace, steps, rules, CutOff(build, e, pairs, rules(other)))
    ensures (KeyFor(e), e) in pairs && forall q :: q in pairs ==> q == (KeyFor(e), e)
  {
    hide KeyFor, GroupFor, DayOf, RegroupTable, Reaches;
    trace, steps, pairs := ToArchived(build, e, rules);
    var s := Archived(build, e, pairs);
    trace, steps := Extend(trace, steps, rules, s, Crash);
    var down := Apply(s, Crash, rules);
    trace, steps := Extend(trace, steps, rules, down, Boot(other));
    var up := Apply(down, Boot(other), rules);
    trace, steps := Extend(trace, steps, rules, up, RegroupHot);
    var half := Apply(up, RegroupHot, rules);
    trace, steps := Extend(trace, steps, rules, half, Crash);
    assert Apply(half, Crash, rules) == CutOff(build, e, pairs, rules(other));
  }

  /** The event's own text decides the group under either rule set, and the two disagree. */
  predicate GroupedApart(e: Event, one: Remap, other: Remap) {
    && e.kind == Exception && e.seqNo == 0
    && e == Regrouped(e, one) && e != Regrouped(e, other)
  }

  lemma TwoCopies(build: nat, e: Event, pairs: seq<(Key, Event)>, remap: Remap, rules: Rules)
    requires e.seqNo == 0 && e.kind == Exception && e != Regrouped(e, remap)
    requires (KeyFor(e), e) in pairs && forall q :: q in pairs ==> q == (KeyFor(e), e)
    ensures var s := Apply(CutOff(build, e, pairs, remap), Boot(build), rules);
            s.phase == Serving(build, Idle) && !CopiesAgree(s)
  {
    hide KeyFor, DayOf, GroupFor, Regrouped;
    var s := Apply(CutOff(build, e, pairs, remap), Boot(build), rules);
    OneDay(pairs, (KeyFor(e), e));
    RegroupedErases(e, e, remap);
    assert s.hot[KeyFor(e)] == Regrouped(e, remap);
    assert Stored(s, Regrouped(e, remap));
    assert e in s.cold[PathOf(e)];
    assert Stored(s, e);
  }

  /** From an empty store: two builds take turns, and the first one ends up serving two copies of one event. */
  lemma RollbackServesTwoCopies(build: nat, other: nat, e: Event, rules: Rules)
    returns (trace: seq<Machine>, steps: seq<Step>)
    requires GroupedApart(e, rules(build), rules(other))
    ensures IsRun(trace, steps, rules) && steps != [] && steps[|steps| - 1] == Boot(build)
    ensures SafeStarts(trace, steps, |steps| - 1)
    ensures trace[|steps|].phase == Serving(build, Idle) && !CopiesAgree(trace[|steps|])
  {
    var pairs;
    trace, steps, pairs := CutOffRun(build, other, e, rules);
    TwoCopies(build, e, pairs, rules(other), rules);
    assert Enabled(CutOff(build, e, pairs, rules(other)), Boot(build));
    hide *;
    trace, steps := ExtendRun(trace, steps, rules, CutOff(build, e, pairs, rules(other)), Boot(build));
  }

  /** One such run: build 0 serves an event, build 1 is cut off behind its hot pass, build 0 serves again. */
  lemma RollbackExample() returns (trace: seq<Machine>, steps: seq<Step>, rules: Rules)
    ensures IsRun(trace, steps, rules) && steps != [] && SafeStarts(trace, steps, |steps| - 1)
    ensures trace[|steps|].phase == Serving(0, Idle) && !CopiesAgree(trace[|steps|])
  {
    rules := (build: nat) => (excType: string, message: Option<string>, stack: Option<string>) =>
        if build == 0 then "old" else "new";
    var e := BlankRow(Exception, "https://a").(excType := Some("Error"), excGroup := Some("old"));
    assert Regrouped(e, rules(1)).excGroup == Some("new");
    trace, steps := RollbackServesTwoCopies(0, 1, e, rules);
  }

  /** Whatever happened before, starting `build` on a store in this condition never serves unequal copies. */
  ghost predicate Harmless(dirty: bool, version: nat, build: nat, rules: Rules) {
    forall trace, steps, s: Machine ::
      Reaches(trace, steps, rules, s) && s.phase.Down? && s.dirty == dirty && s.version == version ==>
        var t := Apply(s, Boot(build), rules);
        t.phase.Serving? ==> CopiesAgree(t)
  }

  lemma SafeStartAgrees(trace: seq<Machine>, steps: seq<Step>, rules: Rules, s: Machine, build: nat)
    requires Reaches(trace, steps, rules, s) && s.phase.Down? && !FalseStart(s, build)
    ensures var t := Apply(s, Boot(build), rules); t.phase.Serving? ==> CopiesAgree(t)
  {
    var t := Apply(s, Boot(build), rules);
    var trace', steps' := Extend(trace, steps, rules, s, Boot(build));
    if t.phase.Serving? {
      forall a, b | Stored(t, a) && Stored(t, b) && a.seqNo == b.seqNo ensures a == b {
        AgreesWithLog(trace', steps', rules, t, a);
        AgreesWithLog(trace', steps', rules, t, b);
      }
    }
  }

  lemma AgreesWithLog(trace: seq<Machine>, steps: seq<Step>, rules: Rules, t: Machine, e: Event)
    requires Reaches(trace, steps, rules, t) && t.phase.Serving? && Stored(t, e)
    ensures e.seqNo in t.log && e == t.log[e.seqNo]
  {
    hide KeyFor, DayOf, Blank;
    RunKeeps(trace, steps, rules, |steps|);
    ServingIsClean(trace, steps, rules, |steps|);
    if p :| p in t.cold && e in t.cold[p] {
      assert FileOk(t.cold[p], p.date, t.log, t.dirty);
    }
  }

  /**
   Exactly which starts are harmless. For rules under which some other build groups some exception
   differently, starting `build` keeps copies equal on every store that safe starts can lead to, unless
   the start finds its own version stamped on rows that another build has begun to rewrite.
   */
  lemma HarmlessIff(dirty: bool, version: nat, build: nat, rules: Rules, other: nat, e: Event)
    requires GroupedApart(e, rules(version), rules(other))
    ensures Harmless(dirty, version, build, rules) <==> !(dirty && version == build)
  {
    hide Reaches, Apply, CopiesAgree, Regrouped;
    if dirty && version == build {
      var trace, steps, pairs := CutOffRun(build, other, e, rules);
      TwoCopies(build, e, pairs, rules(other), rules);
      assert Reaches(trace, steps, rules, CutOff(build, e, pairs, rules(other)));
    } else {
      forall trace, steps, s: Machine |
        Reaches(trace, steps, rules, s) && s.phase.Down? && s.dirty == dirty && s.version == version
        ensures var t := Apply(s, Boot(build), rules); t.phase.Serving? ==> CopiesAgree(t)
      {
        SafeStartAgrees(trace, steps, rules, s, build);
      }
    }
  }

  // --------------------------------------------------------------------- rows a query can miss

  /**
   For any first event and any window that holds it: listed after the compactor read it and before it
   is archived, looked up in the hot store after it is deleted there, it is in neither half of the answer.
   */
  lemma QueryMissesArchivedEvent(build: nat, e: Event, rules: Rules, fromMs: int, toMs: int)
    returns (trace: seq<Machine>, steps: seq<Step>, i: nat, j: nat)
    requires e.seqNo == 0 && InWindow(e, fromMs, toMs)
    ensures IsRun(trace, steps, rules) && i <= j < |trace| && Undisturbed(trace, i, j) && SafeStarts(trace, steps, j)
    ensures trace[j].log == map[0 := e] && trace[j].horizon == None
    ensures forall rows :: IsAnswer(rows, Listed(trace[i].cold, fromMs, toMs), trace[j].hot, fromMs, toMs) ==>
                             Unique(rows) == []
  {
    var pairs;
    trace, steps, pairs := ToArchived(build, e, rules);
    i, j := |steps| - 1, |steps| + 1;
    DropOne(build, e, pairs, rules);
    NothingListed(build, e, pairs, fromMs, toMs);
    forall rows | IsAnswer(rows, map[], map[], fromMs, toMs) ensures Unique(rows) == [] {
      NothingFound(rows, fromMs, toMs);
    }
    hide KeyFor, DayOf, GroupFor, DayScanned, Listed, Apply, Remove, IsAnswer, Unique, IsRun, SafeStarts, Enabled;
    trace, steps := Extend(trace, steps, rules, Archived(build, e, pairs), DropSealed);
    assert trace[i] == Read(build, e, pairs) && trace[i + 1] == Archived(build, e, pairs);
    assert trace[j] == Apply(Archived(build, e, pairs), DropSealed, rules);
  }

  lemma DropOne(build: nat, e: Event, pairs: seq<(Key, Event)>, rules: Rules)
    requires e.seqNo == 0 && (KeyFor(e), e) in pairs && forall q :: q in pairs ==> q == (KeyFor(e), e)
    ensures Enabled(Archived(build, e, pairs), DropSealed)
    ensures var t := Apply(Archived(build, e, pairs), DropSealed, rules);
            t.hot == map[] && t.phase.Serving? && t.log == map[0 := e] && t.horizon == None
  {
    hide KeyFor, DayOf, GroupFor;
    OneDay(pairs, (KeyFor(e), e));
  }

  lemma NothingListed(build: nat, e: Event, pairs: seq<(Key, Event)>, fromMs: int, toMs: int)
    requires e.seqNo == 0
    ensures Listed(Read(build, e, pairs).cold, fromMs, toMs) == map[]
  {
    hide KeyFor, DayOf, DayScanned;
  }

  lemma NothingFound(rows: seq<Event>, fromMs: int, toMs: int)
    requires IsAnswer(rows, map[], map[], fromMs, toMs)
    ensures Unique(rows) == []
  {
    assert Unique(rows) != [] ==> Unique(rows)[0] in rows;
  }
}
