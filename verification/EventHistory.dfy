/** What every run of the event store keeps, and what queries see of it. */
module EventHistory {
  import opened Keys
  import opened Events
  import opened Seqs
  import opened Tables
  import opened Calendar
  import opened EventMachine

  /** A run from an empty store: any interleaving of enabled steps, crashes included. */
  ghost predicate IsRun(trace: seq<Machine>, steps: seq<Step>, rules: Rules) {
    && |trace| == |steps| + 1
    && trace[0] == INITIAL
    && forall i :: 0 <= i < |steps| ==>
                     Enabled(trace[i], steps[i]) && trace[i + 1] == Apply(trace[i], steps[i], rules)
  }

  lemma {:induction false} RunKeeps(trace: seq<Machine>, steps: seq<Step>, rules: Rules, i: nat)
    requires IsRun(trace, steps, rules) && i < |trace|
    ensures Inv(trace[i], rules)
  {
    if i > 0 {
      RunKeeps(trace, steps, rules, i - 1);
      StepKeeps(trace[i - 1], steps[i - 1], rules);
    }
  }

  /** Up to state `i`, no binary starts to serve on rows that a cut-off pass of another build rewrote. */
  ghost predicate SafeStarts(trace: seq<Machine>, steps: seq<Step>, i: nat)
    requires i <= |steps| <= |trace|
  {
    forall k :: 0 <= k < i && steps[k].Boot? ==> !FalseStart(trace[k], steps[k].build)
  }

  /** After safe starts, no pass is unfinished while the server runs. */
  lemma {:induction false} ServingIsClean(trace: seq<Machine>, steps: seq<Step>, rules: Rules, i: nat)
    requires IsRun(trace, steps, rules) && i < |trace| && SafeStarts(trace, steps, i)
    ensures trace[i].phase.Serving? ==> !trace[i].dirty
  {
    if i > 0 {
      ServingIsClean(trace, steps, rules, i - 1);
      CleanStep(trace[i - 1], steps[i - 1], rules);
      assert trace[i] == Apply(trace[i - 1], steps[i - 1], rules);
    }
  }

  lemma CleanStep(s: Machine, step: Step, rules: Rules)
    requires Enabled(s, step) && (s.phase.Serving? ==> !s.dirty)
    requires step.Boot? ==> !FalseStart(s, step.build)
    ensures Apply(s, step, rules).phase.Serving? ==> !Apply(s, step, rules).dirty
  {
    hide UpdateAll, EntriesBefore, GroupFor, DatesOf, Remove, RegroupTable, RegroupRows, RegroupLog;
  }

  /** `rows` lists the union of both halves, in any order and with any repetition. */
  ghost predicate IsUnion(rows: seq<Event>, hot: Table, cold: Archive) {
    forall e :: e in rows <==> (exists k :: k in hot && hot[k] == e) || (exists p :: p in cold && e in cold[p])
  }

  /** The numbers of the rows identify their positions. */
  predicate NumbersDistinct(rows: seq<Event>) {
    forall i, j :: 0 <= i < |rows| && 0 <= j < |rows| && rows[i].seqNo == rows[j].seqNo ==> i == j
  }

  lemma UnionIsGenuine(s: Machine, rules: Rules, rows: seq<Event>, e: Event)
    requires Inv(s, rules) && IsUnion(rows, s.hot, s.cold) && e in rows
    ensures Genuine(e, s.log, s.dirty)
  {
    hide KeyFor, DayOf, Blank;
    if p :| p in s.cold && e in s.cold[p] {
      assert FileOk(s.cold[p], p.date, s.log, s.dirty);
    }
  }

  lemma CommittedIsStored(s: Machine, rules: Rules, rows: seq<Event>, n: u64)
    requires Inv(s, rules) && IsUnion(rows, s.hot, s.cold)
    requires n in s.log && Covered(s.horizon, s.log[n].receivedMs)
    ensures HasNumber(rows, n)
  {
    hide KeyFor, DayOf, Blank, Covered;
    if KeyFor(s.log[n]) in s.hot {
      var e := s.hot[KeyFor(s.log[n])];
      SameKey(e, s.log[n]);
      assert e in rows;
    } else {
      var p :| p in s.cold && HasNumber(s.cold[p], n);
      var e :| e in s.cold[p] && e.seqNo == n;
      assert e in rows;
    }
  }

  /**
   In every serving state reached through safe starts the de-duplicated union of hot and cold holds
   committed events only, each number once, and every event that retention was never entitled to remove.
   */
  lemma EveryEventExactlyOnce(trace: seq<Machine>, steps: seq<Step>, rules: Rules, i: nat, rows: seq<Event>)
    requires IsRun(trace, steps, rules) && i < |trace| && trace[i].phase.Serving? && SafeStarts(trace, steps, i)
    requires IsUnion(rows, trace[i].hot, trace[i].cold)
    ensures NumbersDistinct(Unique(rows))
    ensures forall e :: e in Unique(rows) ==> e.seqNo in trace[i].log && e == trace[i].log[e.seqNo]
    ensures forall n :: n in trace[i].log && Covered(trace[i].horizon, trace[i].log[n].receivedMs) ==>
                          trace[i].log[n] in Unique(rows)
  {
    hide IsRun, IsUnion, Unique, Covered;
    var s := trace[i];
    RunKeeps(trace, steps, rules, i);
    ServingIsClean(trace, steps, rules, i);
    forall e | e in Unique(rows) ensures e.seqNo in s.log && e == s.log[e.seqNo] {
      UnionIsGenuine(s, rules, rows, e);
    }
    forall n | n in s.log && Covered(s.horizon, s.log[n].receivedMs) ensures s.log[n] in Unique(rows) {
      CommittedIsStored(s, rules, rows, n);
      var e :| e in rows && e.seqNo == n;
      assert e in Unique(rows);
    }
    forall a, b | 0 <= a < |Unique(rows)| && 0 <= b < |Unique(rows)| && Unique(rows)[a].seqNo == Unique(rows)[b].seqNo
      ensures a == b
    {
      assert Unique(rows)[a] in Unique(rows) && Unique(rows)[b] in Unique(rows);
    }
  }

  /** In every state of every run, whatever builds were started, the same holds up to the exception group. */
  lemma NothingLostOrInvented(trace: seq<Machine>, steps: seq<Step>, rules: Rules, i: nat, rows: seq<Event>)
    requires IsRun(trace, steps, rules) && i < |trace|
    requires IsUnion(rows, trace[i].hot, trace[i].cold)
    ensures forall e :: e in rows ==> e.seqNo in trace[i].log && Blank(e) == Blank(trace[i].log[e.seqNo])
    ensures forall n :: n in trace[i].log && Covered(trace[i].horizon, trace[i].log[n].receivedMs) ==>
                          HasNumber(rows, n)
  {
    hide IsRun, IsUnion, Covered, Blank;
    var s := trace[i];
    RunKeeps(trace, steps, rules, i);
    forall e | e in rows ensures e.seqNo in s.log && Blank(e) == Blank(s.log[e.seqNo]) {
      UnionIsGenuine(s, rules, rows, e);
    }
    forall n | n in s.log && Covered(s.horizon, s.log[n].receivedMs) ensures HasNumber(rows, n) {
      CommittedIsStored(s, rules, rows, n);
    }
  }

  // ------------------------------------------------------------------------- the log

  lemma LogStep(s: Machine, step: Step, rules: Rules, n: u64)
    requires Inv(s, rules) && Enabled(s, step) && n in s.log
    ensures var t := Apply(s, step, rules);
            n in t.log && Blank(t.log[n]) == Blank(s.log[n]) && (step != StampVersion ==> t.log[n] == s.log[n])
  {
    hide KeyFor, Regrouped, Blank, HotOk, ColdOk, NothingLost, DayOf, Expired, Scan;
    match step
    case Append(batch) =>
      AppendIsFresh(s.hot, s.log, s.dirty, batch, s.memSeq);
      UpdateFresh(s.log, Numbered(Stamped(batch, s.memSeq)));
    case StampVersion => RegroupedErases(s.log[n], s.log[n], rules(s.phase.build));
    case _ =>
  }

  /** A committed event stays committed for ever, and only a completed pass may change its group. */
  lemma {:induction false} CommittedForEver(trace: seq<Machine>, steps: seq<Step>, rules: Rules, i: nat, j: nat, n: u64)
    requires IsRun(trace, steps, rules) && i <= j < |trace| && n in trace[i].log
    ensures n in trace[j].log && Blank(trace[j].log[n]) == Blank(trace[i].log[n])
    ensures (forall k :: i <= k < j ==> steps[k] != StampVersion) ==> trace[j].log[n] == trace[i].log[n]
    decreases j
  {
    hide Blank, Apply, Enabled, Inv;
    if i < j {
      CommittedForEver(trace, steps, rules, i, j - 1, n);
      RunKeeps(trace, steps, rules, j - 1);
      LogStep(trace[j - 1], steps[j - 1], rules, n);
    }
  }

  /**
   An append hands out numbers that no event committed earlier in the run ever had, whatever was
   aborted, crashed or reopened in between, and its keys overwrite nothing.
   */
  lemma NumbersNeverReused(trace: seq<Machine>, steps: seq<Step>, rules: Rules, i: nat, j: nat)
    requires IsRun(trace, steps, rules) && i <= j < |steps| && steps[j].Append?
    ensures var rows := Stamped(steps[j].batch, trace[j].memSeq);
            && (forall a :: 0 <= a < |rows| ==> rows[a].seqNo !in trace[i].log && KeyFor(rows[a]) !in trace[j].hot)
            && NumbersDistinct(rows)
  {
    hide KeyFor, Blank, HotOk;
    RunKeeps(trace, steps, rules, j);
    var s := trace[j];
    AppendIsFresh(s.hot, s.log, s.dirty, steps[j].batch, s.memSeq);
    var rows := Stamped(steps[j].batch, s.memSeq);
    forall a | 0 <= a < |rows| ensures rows[a].seqNo !in trace[i].log && KeyFor(rows[a]) !in trace[j].hot {
      assert Keyed(rows)[a].0 !in s.hot;
      if rows[a].seqNo in trace[i].log {
        CommittedForEver(trace, steps, rules, i, j, rows[a].seqNo);
      }
    }
  }

  /** A batch is committed as it was sent, in its order, under consecutive numbers from the counter on. */
  lemma CommitsTheBatch(trace: seq<Machine>, steps: seq<Step>, rules: Rules, j: nat, a: nat)
    requires IsRun(trace, steps, rules) && j < |steps| && steps[j].Append? && a < |steps[j].batch|
    ensures var t, row := trace[j + 1], steps[j].batch[a].(seqNo := trace[j].memSeq + a);
            && row.seqNo in t.log && t.log[row.seqNo] == row
            && KeyFor(row) in t.hot && t.hot[KeyFor(row)] == row
  {
    RunKeeps(trace, steps, rules, j);
    hide Apply, Inv, KeyFor;
    AppendStores(trace[j], steps[j].batch, rules, a);
  }

  lemma AppendStores(s: Machine, batch: seq<Event>, rules: Rules, a: nat)
    requires Inv(s, rules) && Enabled(s, Append(batch)) && a < |batch|
    ensures var t, row := Apply(s, Append(batch), rules), batch[a].(seqNo := s.memSeq + a);
            && row.seqNo in t.log && t.log[row.seqNo] == row
            && KeyFor(row) in t.hot && t.hot[KeyFor(row)] == row
  {
    hide Inv, KeyFor, FreshKeys, UpdateAll, Keyed, Numbered;
    FreshBatch(s, batch, rules);
    BatchIsIn(s.hot, s.log, batch, s.memSeq, a);
  }

  lemma FreshBatch(s: Machine, batch: seq<Event>, rules: Rules)
    requires Inv(s, rules) && s.phase.Serving? && s.memSeq + |batch| < U64_LIMIT
    ensures FreshKeys(s.hot, Keyed(Stamped(batch, s.memSeq))) && FreshKeys(s.log, Numbered(Stamped(batch, s.memSeq)))
  {
    hide KeyFor, HotOk, ColdOk, NothingLost, FreshKeys, Keyed, Numbered, Stamped;
    AppendIsFresh(s.hot, s.log, s.dirty, batch, s.memSeq);
  }

  lemma BatchIsIn(hot: Table, log: map<u64, Event>, batch: seq<Event>, first: u64, a: nat)
    requires first + |batch| < U64_LIMIT && a < |batch|
    requires FreshKeys(hot, Keyed(Stamped(batch, first))) && FreshKeys(log, Numbered(Stamped(batch, first)))
    ensures var rows, n := Stamped(batch, first), batch[a].(seqNo := first + a).seqNo;
            && n in UpdateAll(log, Numbered(rows)) && UpdateAll(log, Numbered(rows))[n] == rows[a]
            && KeyFor(rows[a]) in UpdateAll(hot, Keyed(rows)) && UpdateAll(hot, Keyed(rows))[KeyFor(rows[a])] == rows[a]
  {
    hide KeyFor, FreshKeys, UpdateAll;
    var rows := Stamped(batch, first);
    UpdateFresh(log, Numbered(rows));
    UpdateFresh(hot, Keyed(rows));
    assert Numbered(rows)[a] == (rows[a].seqNo, rows[a]) && Keyed(rows)[a] == (KeyFor(rows[a]), rows[a]);
  }

  // ------------------------------------------------------------------------ regrouping

  /**
   However often the pass was cut off, once the version is stamped every stored row carries the
   group its own text maps to and is otherwise the committed row, copies of a number agree, and a
   further pass would change no table entry and rewrite no file.
   */
  lemma RegroupingCompletes(trace: seq<Machine>, steps: seq<Step>, rules: Rules, i: nat, rows: seq<Event>)
    requires IsRun(trace, steps, rules) && i < |steps| && steps[i] == StampVersion
    requires IsUnion(rows, trace[i + 1].hot, trace[i + 1].cold)
    ensures var remap := rules(trace[i].phase.build);
            && (forall e :: e in rows ==>
                              && Regrouped(e, remap) == e
                              && e.seqNo in trace[i].log && Blank(e) == Blank(trace[i].log[e.seqNo]))
            && (forall a, b :: a in rows && b in rows && a.seqNo == b.seqNo ==> a == b)
            && RegroupTable(trace[i + 1].hot, remap) == trace[i + 1].hot
            && var cold := trace[i + 1].cold;
            forall p :: p in cold ==> RegroupRows(cold[p], remap) == cold[p] && Changed(cold[p], remap) == 0
  {
    hide KeyFor, DayOf, Regrouped, Blank, LogOk, NothingLost, Changed;
    var s, t, remap := trace[i], trace[i + 1], rules(trace[i].phase.build);
    RunKeeps(trace, steps, rules, i);
    RunKeeps(trace, steps, rules, i + 1);
    forall e | e in rows
      ensures Regrouped(e, remap) == e && e.seqNo in s.log && Blank(e) == Blank(s.log[e.seqNo])
      ensures e.seqNo in t.log && e == t.log[e.seqNo]
    {
      UnionIsGenuine(t, rules, rows, e);
      UnionIsGenuine(s, rules, rows, e);
      if p :| p in s.cold && e in s.cold[p] {
        assert AllFixed(s.cold[p], remap);
      }
    }
    forall p | p in t.cold
      ensures RegroupRows(t.cold[p], remap) == t.cold[p] && Changed(t.cold[p], remap) == 0
    {
      assert AllFixed(s.cold[p], remap);
      NothingChanged(t.cold[p], remap);
    }
  }

  // --------------------------------------------------------------------------- queries

  predicate InWindow(e: Event, fromMs: int, toMs: int) { fromMs <= e.receivedMs < toMs }

  /** The files `parquet_files_in_range` finds. */
  function Listed(cold: Archive, fromMs: int, toMs: int): Archive {
    map p | p in cold && DayScanned(p.date, fromMs, toMs) :: cold[p]
  }

  /** `rows` is the filtered union that `combined` de-duplicates. */
  ghost predicate IsAnswer(rows: seq<Event>, listed: Archive, hot: Table, fromMs: int, toMs: int) {
    forall e :: e in rows <==>
                && fromMs <= e.receivedMs < toMs
                && ((exists k :: k in hot && hot[k] == e) || (exists p :: p in listed && e in listed[p]))
  }

  /** Some compaction in steps `i..j` deleted the event from the hot store. */
  ghost predicate DroppedBetween(trace: seq<Machine>, steps: seq<Step>, i: nat, j: nat, e: Event)
    requires i <= j <= |steps| <= |trace|
  {
    exists k :: i <= k < j && steps[k] == DropSealed && trace[k].phase.Serving?
                && trace[k].phase.compactor.Sealing? && KeyFor(e) in KeysOf(trace[k].phase.compactor.pairs)
  }

  /** The server runs throughout. */
  ghost predicate Undisturbed(trace: seq<Machine>, i: nat, j: nat)
    requires i <= j < |trace|
  {
    forall k :: i <= k <= j ==> trace[k].phase.Serving?
  }

  lemma ServingStep(s: Machine, step: Step, rules: Rules, n: u64)
    requires Inv(s, rules) && Enabled(s, step) && s.phase.Serving?
    requires n in Apply(s, step, rules).log
    ensures var t := Apply(s, step, rules);
            && (n in s.log ==> t.log[n] == s.log[n])
            && (n !in s.log ==> KeyFor(t.log[n]) in t.hot)
            && (n in s.log && KeyFor(s.log[n]) in s.hot && KeyFor(s.log[n]) !in t.hot ==>
                  step == DropSealed && KeyFor(s.log[n]) in KeysOf(s.phase.compactor.pairs))
            && (n in s.log && KeyFor(s.log[n]) !in s.hot ==> KeyFor(t.log[n]) !in t.hot)
            && (step == DropSealed && n in s.log && KeyFor(s.log[n]) in KeysOf(s.phase.compactor.pairs) ==>
                  KeyFor(t.log[n]) !in t.hot)
  {
    hide KeyFor, Blank, DayOf, Scan, ColdOk, NothingLost, HotOk, LogOk, UpdateAll, Keyed, Numbered;
    if step.Append? {
      ServingAppend(s, step.batch, rules, n);
    }
  }

  lemma ServingAppend(s: Machine, batch: seq<Event>, rules: Rules, n: u64)
    requires Inv(s, rules) && Enabled(s, Append(batch))
    requires n in Apply(s, Append(batch), rules).log
    ensures var t := Apply(s, Append(batch), rules);
            && (n in s.log ==> t.log[n] == s.log[n])
            && (n !in s.log ==> KeyFor(t.log[n]) in t.hot)
            && (n in s.log ==> (KeyFor(s.log[n]) in s.hot <==> KeyFor(t.log[n]) in t.hot))
  {
    hide KeyFor, Blank, HotOk, ColdOk, NothingLost, UpdateAll, Stamped, FreshKeys;
    var rows := Stamped(batch, s.memSeq);
    AppendIsFresh(s.hot, s.log, s.dirty, batch, s.memSeq);
    AppendExtendsLog(s.hot, s.log, rows);
    AppendKeeps(s.hot, s.log, s.dirty, rows);
    if n in s.log && KeyFor(s.log[n]) !in s.hot {
      AppendSeparates(s.hot, s.log, rows, n);
    }
  }

  /** A batch brings no row of an earlier number into the hot table. */
  lemma AppendSeparates(hot: Table, log: map<u64, Event>, rows: seq<Event>, n: u64)
    requires FreshKeys(hot, Keyed(rows)) && FreshKeys(log, Numbered(rows))
    requires n in log && log[n].seqNo == n && KeyFor(log[n]) !in hot
    ensures KeyFor(log[n]) !in UpdateAll(hot, Keyed(rows))
  {
    hide KeyFor, UpdateAll;
    UpdateFresh(hot, Keyed(rows));
    forall i | 0 <= i < |Keyed(rows)| ensures Keyed(rows)[i].0 != KeyFor(log[n]) {
      assert Numbered(rows)[i].0 == rows[i].seqNo;
      if KeyFor(rows[i]) == KeyFor(log[n]) {
        SameKey(rows[i], log[n]);
      }
    }
  }

  /** Compaction deletes only what was committed before. */
  lemma DroppedWasCommitted(s: Machine, rules: Rules, e: Event)
    requires Inv(s, rules) && s.phase.Serving? && s.phase.compactor.Sealing?
    requires KeyFor(e) in KeysOf(s.phase.compactor.pairs)
    ensures e.seqNo in s.log
  {
    hide KeyFor, Blank, DayOf, ColdOk, NothingLost;
    var pairs := s.phase.compactor.pairs;
    var i :| 0 <= i < |pairs| && KeysOf(pairs)[i] == KeyFor(e);
    assert pairs[i] in pairs;
    SameKey(s.hot[pairs[i].0], e);
  }

  /** How a committed event leaves the hot store while the server runs. */
  lemma {:induction false} WhereItWent(trace: seq<Machine>, steps: seq<Step>, rules: Rules, i: nat, j: nat, n: u64)
    requires IsRun(trace, steps, rules) && i <= j < |trace| && Undisturbed(trace, i, j)
    requires n in trace[j].log && Covered(trace[i].horizon, trace[j].log[n].receivedMs)
    ensures KeyFor(trace[j].log[n]) in trace[j].hot
            || InCold(trace[i].cold, n)
            || DroppedBetween(trace, steps, i, j, trace[j].log[n])
    ensures DroppedBetween(trace, steps, i, j, trace[j].log[n]) ==> KeyFor(trace[j].log[n]) !in trace[j].hot
    decreases j
  {
    hide KeyFor, Inv, Covered, Apply, KeysOf;
    if i == j {
      RunKeeps(trace, steps, rules, i);
      NothingLostAt(trace[i], rules, n);
    } else {
      RunKeeps(trace, steps, rules, j - 1);
      ServingStep(trace[j - 1], steps[j - 1], rules, n);
      var e := trace[j].log[n];
      RunKeeps(trace, steps, rules, j);
      assert e.seqNo == n by { LogNumber(trace[j], rules, n); }
      if n in trace[j - 1].log {
        WhereItWent(trace, steps, rules, i, j - 1, n);
        if DroppedBetween(trace, steps, i, j - 1, e) {
          var k :| i <= k < j - 1 && steps[k] == DropSealed && trace[k].phase.Serving?
                   && trace[k].phase.compactor.Sealing? && KeyFor(e) in KeysOf(trace[k].phase.compactor.pairs);
          assert DroppedBetween(trace, steps, i, j, e);
        }
      } else {
        NewIsNotDropped(trace, steps, rules, i, j, e);
      }
    }
  }

  /** What is committed in the last step was not deleted before. */
  lemma NewIsNotDropped(trace: seq<Machine>, steps: seq<Step>, rules: Rules, i: nat, j: nat, e: Event)
    requires IsRun(trace, steps, rules) && i < j < |trace| && e.seqNo !in trace[j - 1].log
    ensures !DroppedBetween(trace, steps, i, j, e)
  {
    hide KeyFor, Inv, Apply, KeysOf;
    if DroppedBetween(trace, steps, i, j, e) {
      var k :| i <= k < j && steps[k] == DropSealed && trace[k].phase.Serving?
               && trace[k].phase.compactor.Sealing? && KeyFor(e) in KeysOf(trace[k].phase.compactor.pairs);
      RunKeeps(trace, steps, rules, k);
      DroppedWasCommitted(trace[k], rules, e);
      CommittedForEver(trace, steps, rules, k, j - 1, e.seqNo);
      assert false;
    }
  }

  lemma LogNumber(s: Machine, rules: Rules, n: u64)
    requires Inv(s, rules) && n in s.log
    ensures s.log[n].seqNo == n
  {
  }

  lemma NothingLostAt(s: Machine, rules: Rules, n: u64)
    requires Inv(s, rules) && n in s.log && Covered(s.horizon, s.log[n].receivedMs)
    ensures KeyFor(s.log[n]) in s.hot || InCold(s.cold, n)
  {
  }

  /** Pruning by day keeps every archived row of the window. */
  lemma ListingFinds(s: Machine, rules: Rules, fromMs: int, toMs: int, n: u64)
    requires Inv(s, rules) && Representable(fromMs) && Representable(toMs)
    requires n in s.log && InWindow(s.log[n], fromMs, toMs) && InCold(s.cold, n) && !s.dirty
    ensures exists p :: p in Listed(s.cold, fromMs, toMs) && s.log[n] in Listed(s.cold, fromMs, toMs)[p]
  {
    hide KeyFor, DayOf, Blank, DayScanned, HotOk, NothingLost;
    var p :| p in s.cold && HasNumber(s.cold[p], n);
    var e :| e in s.cold[p] && e.seqNo == n;
    assert FileOk(s.cold[p], p.date, s.log, s.dirty);
    PruningIsComplete(e.receivedMs, fromMs, toMs);
    assert p in Listed(s.cold, fromMs, toMs);
  }

  /** A row of the answer is a committed event of the window at the time of the hot read. */
  lemma AnswerIsCommitted(trace: seq<Machine>, steps: seq<Step>, rules: Rules, i: nat, j: nat,
                          fromMs: int, toMs: int, rows: seq<Event>, e: Event)
    requires IsRun(trace, steps, rules) && i <= j < |trace| && Undisturbed(trace, i, j)
    requires SafeStarts(trace, steps, j)
    requires IsAnswer(rows, Listed(trace[i].cold, fromMs, toMs), trace[j].hot, fromMs, toMs) && e in rows
    ensures InWindow(e, fromMs, toMs) && e.seqNo in trace[j].log && e == trace[j].log[e.seqNo]
  {
    hide KeyFor, DayOf, Blank, DayScanned, NothingLost, IsRun;
    RunKeeps(trace, steps, rules, i);
    RunKeeps(trace, steps, rules, j);
    ServingIsClean(trace, steps, rules, i);
    ServingIsClean(trace, steps, rules, j);
    if p :| p in Listed(trace[i].cold, fromMs, toMs) && e in Listed(trace[i].cold, fromMs, toMs)[p] {
      assert FileOk(trace[i].cold[p], p.date, trace[i].log, false);
      CommittedWhileServing(trace, steps, rules, i, j, e.seqNo);
    }
  }

  /** A committed event of the window is missing exactly when compaction took it from hot behind the listing. */
  lemma AnswerMisses(trace: seq<Machine>, steps: seq<Step>, rules: Rules, i: nat, j: nat,
                     fromMs: int, toMs: int, rows: seq<Event>, n: u64)
    requires IsRun(trace, steps, rules) && i <= j < |trace| && Undisturbed(trace, i, j)
    requires SafeStarts(trace, steps, j)
    requires Representable(fromMs) && Representable(toMs)
    requires IsAnswer(rows, Listed(trace[i].cold, fromMs, toMs), trace[j].hot, fromMs, toMs)
    requires n in trace[j].log && InWindow(trace[j].log[n], fromMs, toMs)
    requires Covered(trace[i].horizon, trace[j].log[n].receivedMs)
    ensures trace[j].log[n] in rows <==>
            !(DroppedBetween(trace, steps, i, j, trace[j].log[n]) && !InCold(trace[i].cold, n))
  {
    hide KeyFor, DayOf, Blank, DayScanned, NothingLost, Apply, Enabled, DroppedBetween, Covered, Listed, PhaseOk;
    RunKeeps(trace, steps, rules, i);
    RunKeeps(trace, steps, rules, j);
    WhereItWent(trace, steps, rules, i, j, n);
    var e := trace[j].log[n];
    LogNumber(trace[j], rules, n);
    if KeyFor(e) in trace[j].hot {
      SameKey(trace[j].hot[KeyFor(e)], e);
      ServingIsClean(trace, steps, rules, j);
      assert trace[j].hot[KeyFor(e)] == e;
    }
    if InCold(trace[i].cold, n) {
      ServingIsClean(trace, steps, rules, i);
      ArchivedIsCommitted(trace[i], rules, n);
      CommittedWhileServing(trace, steps, rules, i, j, n);
      ListingFinds(trace[i], rules, fromMs, toMs, n);
    }
    if e in rows && DroppedBetween(trace, steps, i, j, e) && !InCold(trace[i].cold, n) {
      if k :| k in trace[j].hot && trace[j].hot[k] == e {
        assert false;
      } else {
        var p :| p in Listed(trace[i].cold, fromMs, toMs) && e in Listed(trace[i].cold, fromMs, toMs)[p];
        ListedIsCold(trace[i].cold, fromMs, toMs, p, e);
      }
      assert false;
    }
  }

  lemma ListedIsCold(cold: Archive, fromMs: int, toMs: int, p: Path, e: Event)
    requires p in Listed(cold, fromMs, toMs) && e in Listed(cold, fromMs, toMs)[p]
    ensures InCold(cold, e.seqNo)
  {
    assert HasNumber(cold[p], e.seqNo);
  }

  lemma ArchivedIsCommitted(s: Machine, rules: Rules, n: u64)
    requires Inv(s, rules) && InCold(s.cold, n)
    ensures n in s.log
  {
    var p :| p in s.cold && HasNumber(s.cold[p], n);
    assert FileOk(s.cold[p], p.date, s.log, s.dirty);
  }

  lemma CommittedWhileServing(trace: seq<Machine>, steps: seq<Step>, rules: Rules, i: nat, j: nat, n: u64)
    requires IsRun(trace, steps, rules) && i <= j < |trace| && Undisturbed(trace, i, j)
    requires n in trace[i].log
    ensures n in trace[j].log && trace[j].log[n] == trace[i].log[n]
  {
    hide Apply, Blank;
    forall k | i <= k < j ensures steps[k] != StampVersion {
      assert Enabled(trace[k], steps[k]);
    }
    CommittedForEver(trace, steps, rules, i, j, n);
  }

  /**
   A query that lists the archive in state `i` and reads the hot store in state `j`, with any
   compaction, retention and appends in between, returns each number at most once and committed events only; an
   event of its window is missing exactly when a compaction deleted it after archiving it behind the
   listing, so the answer is complete whenever no deletion commits in between.
   */
  lemma QueryDuringCompaction(trace: seq<Machine>, steps: seq<Step>, rules: Rules, i: nat, j: nat,
                              fromMs: int, toMs: int, rows: seq<Event>)
    requires IsRun(trace, steps, rules) && i <= j < |trace| && Undisturbed(trace, i, j)
    requires SafeStarts(trace, steps, j)
    requires Representable(fromMs) && Representable(toMs)
    requires IsAnswer(rows, Listed(trace[i].cold, fromMs, toMs), trace[j].hot, fromMs, toMs)
    ensures NumbersDistinct(Unique(rows))
    ensures forall e :: e in Unique(rows) ==>
                          InWindow(e, fromMs, toMs) && e.seqNo in trace[j].log && e == trace[j].log[e.seqNo]
    ensures forall n :: n in trace[j].log && InWindow(trace[j].log[n], fromMs, toMs)
                        && Covered(trace[i].horizon, trace[j].log[n].receivedMs) ==>
                          (trace[j].log[n] in Unique(rows) <==>
                           !(DroppedBetween(trace, steps, i, j, trace[j].log[n]) && !InCold(trace[i].cold, n)))
    ensures (forall k :: i <= k < j ==> steps[k] != DropSealed) ==>
              forall n :: n in trace[j].log && InWindow(trace[j].log[n], fromMs, toMs)
                          && Covered(trace[i].horizon, trace[j].log[n].receivedMs) ==>
                            trace[j].log[n] in Unique(rows)
  {
    hide Apply, Enabled, IsAnswer, Listed, Covered, Undisturbed, Representable, Unique, InWindow, KeyFor, KeysOf;
    forall e | e in Unique(rows)
      ensures InWindow(e, fromMs, toMs) && e.seqNo in trace[j].log && e == trace[j].log[e.seqNo]
    {
      AnswerIsCommitted(trace, steps, rules, i, j, fromMs, toMs, rows, e);
    }
    forall a, b | 0 <= a < |Unique(rows)| && 0 <= b < |Unique(rows)| && Unique(rows)[a].seqNo == Unique(rows)[b].seqNo
      ensures a == b
    {
      assert Unique(rows)[a] in Unique(rows) && Unique(rows)[b] in Unique(rows);
    }
    forall n | n in trace[j].log && InWindow(trace[j].log[n], fromMs, toMs)
               && Covered(trace[i].horizon, trace[j].log[n].receivedMs)
      ensures trace[j].log[n] in Unique(rows) <==>
              !(DroppedBetween(trace, steps, i, j, trace[j].log[n]) && !InCold(trace[i].cold, n))
    {
      AnswerMisses(trace, steps, rules, i, j, fromMs, toMs, rows, n);
    }
  }
}
