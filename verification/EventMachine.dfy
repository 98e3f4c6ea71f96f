/**
 The crash-tolerant event store as a step machine: the redb hot store, the Parquet archive, the
 writer, the compactor, retention, and the start-up regrouping pass, with a crash enabled everywhere.
 A redb transaction and a tmp-then-rename file write are single steps.
 */
module EventMachine {
  import opened Wrappers
  import opened Keys
  import opened Events
  import opened Seqs
  import opened Tables
  import opened Calendar

  /** `YYYY/MM/DD/events-<stamp>.parquet` */
  datatype Path = Path(date: Date, stamp: int)

  type Archive = map<Path, seq<Event>>

  /** The program counter of `compact_window`: what was read and which days are still to be written. */
  datatype Compactor = Idle | Sealing(pairs: seq<(Key, Event)>, todo: set<Date>, stamp: int)

  /** The program counter of the process; `build` is the FINGERPRINT_VERSION of the running binary. */
  datatype Phase =
    | Down
    | RegroupingHot(build: nat)
    | RegroupingCold(build: nat, todo: set<Path>)
    | Serving(build: nat, compactor: Compactor)

  datatype Machine = Machine(
    // durable
    hot: Table, diskSeq: u64, version: nat, cold: Archive,
    // in the process
    phase: Phase, memSeq: u64,
    // history: committed events by number, the retention horizon, and whether a regrouping pass
    // was begun and not yet stamped
    log: map<u64, Event>, horizon: Option<int>, dirty: bool)

  datatype Step =
    | Boot(build: nat)
    | RegroupHot
    | RegroupFile(path: Path)
    | StampVersion
    | Append(batch: seq<Event>)
    | AppendFails(used: nat)
    | ReadWindow(cutoffMs: int, stamp: int)
    | SealDay(date: Date)
    | CompactionFails
    | DropSealed
    | Expire(path: Path, cutoffMs: int)
    | Crash

  /** The regrouping rules shipped with each build. */
  type Rules = nat -> Remap

  const U64_LIMIT := 0x1_0000_0000_0000_0000

  const INITIAL := Machine(map[], 0, 0, map[], Down, 0, map[], None, false)

  function DatesOf(pairs: seq<(Key, Event)>): set<Date> {
    set e | e in RowsOf(pairs) :: DayOf(e.receivedMs)
  }

  function GroupFor(pairs: seq<(Key, Event)>, date: Date): seq<Event> {
    Filter((e: Event) => DayOf(e.receivedMs) == date, RowsOf(pairs))
  }

  function Numbered(rows: seq<Event>): seq<(u64, Event)> {
    seq(|rows|, i requires 0 <= i < |rows| => (rows[i].seqNo, rows[i]))
  }

  predicate FreshStamp(cold: Archive, stamp: int) { forall p :: p in cold ==> p.stamp != stamp }

  ghost predicate Enabled(s: Machine, step: Step) {
    match step
    case Boot(_) => s.phase.Down?
    case RegroupHot => s.phase.RegroupingHot?
    case RegroupFile(path) => s.phase.RegroupingCold? && path in s.phase.todo && path in s.cold
    case StampVersion => s.phase.RegroupingCold? && s.phase.todo == {}
    case Append(batch) => s.phase.Serving? && batch != [] && s.memSeq + |batch| < U64_LIMIT
    case AppendFails(used) => s.phase.Serving? && s.memSeq + used < U64_LIMIT
    case ReadWindow(_, stamp) => s.phase.Serving? && s.phase.compactor.Idle? && FreshStamp(s.cold, stamp)
    case SealDay(date) => s.phase.Serving? && s.phase.compactor.Sealing? && date in s.phase.compactor.todo
    case CompactionFails => s.phase.Serving? && s.phase.compactor.Sealing?
    case DropSealed => s.phase.Serving? && s.phase.compactor.Sealing? && s.phase.compactor.todo == {}
    case Expire(path, cutoffMs) =>
      s.phase.Serving? && s.phase.compactor.Idle? && path in s.cold && Expired(path.date, cutoffMs)
    case Crash => !s.phase.Down?
  }

  ghost function Apply(s: Machine, step: Step, rules: Rules): Machine
    requires Enabled(s, step)
  {
    match step
    case Boot(build) =>
      s.(memSeq := s.diskSeq,
         phase := if s.version == build then Serving(build, Idle) else RegroupingHot(build))
    case RegroupHot =>
      s.(hot := RegroupTable(s.hot, rules(s.phase.build)), dirty := true,
         phase := RegroupingCold(s.phase.build, s.cold.Keys))
    case RegroupFile(path) =>
      s.(cold := s.cold[path := RegroupRows(s.cold[path], rules(s.phase.build))],
         phase := RegroupingCold(s.phase.build, s.phase.todo - {path}))
    case StampVersion =>
      s.(version := s.phase.build, dirty := false, phase := Serving(s.phase.build, Idle),
         log := RegroupLog(s.log, rules(s.phase.build)))
    case Append(batch) =>
      var rows := Stamped(batch, s.memSeq);
      var next := s.memSeq + |batch|;
      s.(hot := UpdateAll(s.hot, Keyed(rows)), log := UpdateAll(s.log, Numbered(rows)),
         memSeq := next, diskSeq := next)
    case AppendFails(used) => s.(memSeq := s.memSeq + used)
    case ReadWindow(cutoffMs, stamp) =>
      var pairs := EntriesBefore(s.hot, cutoffMs);
      if pairs == [] then s
      else s.(phase := s.phase.(compactor := Sealing(pairs, DatesOf(pairs), stamp)))
    case SealDay(date) =>
      var c := s.phase.compactor;
      s.(cold := s.cold[Path(date, c.stamp) := GroupFor(c.pairs, date)],
         phase := s.phase.(compactor := c.(todo := c.todo - {date})))
    case CompactionFails => s.(phase := s.phase.(compactor := Idle))
    case DropSealed =>
      s.(hot := Remove(s.hot, KeysOf(s.phase.compactor.pairs)),
         phase := s.phase.(compactor := Idle))
    case Expire(path, cutoffMs) =>
      s.(cold := s.cold - {path}, horizon := Some(Raise(s.horizon, cutoffMs + 999)))
    case Crash => s.(phase := Down)
  }

  function RegroupLog(log: map<u64, Event>, remap: Remap): map<u64, Event> {
    map n | n in log :: Regrouped(log[n], remap)
  }

  function Raise(horizon: Option<int>, to: int): int {
    if horizon.Some? && horizon.value > to then horizon.value else to
  }

  /**
   A start that serves at once although a pass of another build was cut off: the binary finds its own
   version stamped, on rows that the other build has already begun to rewrite.
   */
  predicate FalseStart(s: Machine, build: nat) { s.dirty && s.version == build }

  // ---------------------------------------------------------------------- invariant

  type Log = map<u64, Event>

  /** A stored row is its committed event, up to the exception group while a pass is unfinished. */
  predicate Genuine(e: Event, log: Log, dirty: bool) {
    && e.seqNo in log
    && Blank(e) == Blank(log[e.seqNo])
    && (!dirty ==> e == log[e.seqNo])
  }

  predicate HotOk(hot: Table, log: Log, dirty: bool) {
    forall k :: k in hot ==> k == KeyFor(hot[k]) && Genuine(hot[k], log, dirty)
  }

  predicate FileOk(rows: seq<Event>, date: Date, log: Log, dirty: bool) {
    forall e :: e in rows ==> DayOf(e.receivedMs) == date && Genuine(e, log, dirty)
  }

  predicate ColdOk(cold: Archive, log: Log, dirty: bool) {
    forall p :: p in cold ==> FileOk(cold[p], p.date, log, dirty)
  }

  /** Every committed number is below the persisted counter. */
  predicate LogOk(log: Log, diskSeq: u64) {
    forall n :: n in log ==> log[n].seqNo == n && n < diskSeq
  }

  predicate HasNumber(rows: seq<Event>, n: u64) { exists e :: e in rows && e.seqNo == n }

  predicate InCold(cold: Archive, n: u64) { exists p :: p in cold && HasNumber(cold[p], n) }

  /** Retention has never been entitled to remove an event received at `t`. */
  predicate Covered(horizon: Option<int>, t: int) {
    horizon.None? || (Representable(t) && t >= horizon.value)
  }

  predicate NothingLost(hot: Table, cold: Archive, log: Log, horizon: Option<int>) {
    forall n :: n in log && Covered(horizon, log[n].receivedMs) ==>
                  KeyFor(log[n]) in hot || InCold(cold, n)
  }

  predicate Sealed(cold: Archive, e: Event, stamp: int) {
    Path(DayOf(e.receivedMs), stamp) in cold && e in cold[Path(DayOf(e.receivedMs), stamp)]
  }

  /** What was read is still hot, and each row is already archived unless its day is still to do. */
  predicate CompactorOk(hot: Table, cold: Archive, c: Compactor) {
    c.Sealing? ==>
      && (forall q :: q in c.pairs ==>
                        && q.0 in hot && hot[q.0] == q.1
                        && (DayOf(q.1.receivedMs) in c.todo || Sealed(cold, q.1, c.stamp)))
      && (forall d :: d in c.todo ==> Path(d, c.stamp) !in cold)
  }

  ghost predicate AllFixed(rows: seq<Event>, remap: Remap) {
    forall e :: e in rows ==> Regrouped(e, remap) == e
  }

  ghost predicate HotFixed(hot: Table, remap: Remap) {
    forall k :: k in hot ==> Regrouped(hot[k], remap) == hot[k]
  }

  ghost predicate ColdFixed(cold: Archive, todo: set<Path>, remap: Remap) {
    forall p :: p in cold && p !in todo ==> AllFixed(cold[p], remap)
  }

  ghost predicate PhaseOk(s: Machine, rules: Rules) {
    && (s.phase.Down? || s.diskSeq <= s.memSeq)
    && match s.phase
       case Down => true
       case RegroupingHot(build) => s.version != build
       case RegroupingCold(build, todo) =>
         && s.version != build && s.dirty
         && HotFixed(s.hot, rules(build)) && ColdFixed(s.cold, todo, rules(build))
       case Serving(build, c) => s.version == build && CompactorOk(s.hot, s.cold, c)
  }

  ghost predicate Inv(s: Machine, rules: Rules) {
    && HotOk(s.hot, s.log, s.dirty)
    && ColdOk(s.cold, s.log, s.dirty)
    && LogOk(s.log, s.diskSeq)
    && NothingLost(s.hot, s.cold, s.log, s.horizon)
    && PhaseOk(s, rules)
  }

  // -------------------------------------------------------------- the regrouping pass

  /** The hot pass keeps keys and identities, and afterwards a second pass would change nothing. */
  lemma HotPass(hot: Table, log: Log, dirty: bool, remap: Remap)
    requires HotOk(hot, log, dirty)
    ensures HotOk(RegroupTable(hot, remap), log, true)
    ensures HotFixed(RegroupTable(hot, remap), remap)
  {
    hide KeyFor, Regrouped, Blank;
    forall k | k in hot
      ensures k == KeyFor(Regrouped(hot[k], remap)) && Genuine(Regrouped(hot[k], remap), log, true)
           && Regrouped(Regrouped(hot[k], remap), remap) == Regrouped(hot[k], remap)
    {
      RegroupedErases(hot[k], log[hot[k].seqNo], remap);
      RegroupedErases(hot[k], hot[k], remap);
      RegroupedErases(Regrouped(hot[k], remap), hot[k], remap);
    }
  }

  lemma RegroupHotKeeps(s: Machine, rules: Rules)
    requires Inv(s, rules) && Enabled(s, RegroupHot)
    ensures Inv(Apply(s, RegroupHot, rules), rules)
  {
    hide HotOk, HotFixed, KeyFor, DayOf, Regrouped, Blank, Covered, InCold;
    HotPass(s.hot, s.log, s.dirty, rules(s.phase.build));
    assert ColdOk(s.cold, s.log, true) by {
      hide HotOk, HotFixed, KeyFor, DayOf, Regrouped, Blank, NothingLost;
      forall p | p in s.cold ensures FileOk(s.cold[p], p.date, s.log, true) {
        assert FileOk(s.cold[p], p.date, s.log, s.dirty);
      }
    }
  }

  /** Rewriting a file keeps its day and its numbers, and afterwards it is a fixed point. */
  lemma FilePass(rows: seq<Event>, date: Date, log: Log, dirty: bool, remap: Remap)
    requires FileOk(rows, date, log, dirty)
    ensures FileOk(RegroupRows(rows, remap), date, log, true)
    ensures AllFixed(RegroupRows(rows, remap), remap)
    ensures forall n :: HasNumber(rows, n) ==> HasNumber(RegroupRows(rows, remap), n)
  {
    hide DayOf, Regrouped, Blank;
    var rows' := RegroupRows(rows, remap);
    forall e | e in rows'
      ensures DayOf(e.receivedMs) == date && Genuine(e, log, true) && Regrouped(e, remap) == e
    {
      var i :| 0 <= i < |rows| && rows'[i] == e;
      assert rows[i] in rows;
      RegroupedErases(rows[i], log[rows[i].seqNo], remap);
      RegroupedErases(rows[i], rows[i], remap);
      RegroupedErases(e, rows[i], remap);
    }
    forall n | HasNumber(rows, n) ensures HasNumber(rows', n) {
      var e :| e in rows && e.seqNo == n;
      var i :| 0 <= i < |rows| && rows[i] == e;
      RegroupedErases(e, e, remap);
      assert rows'[i] in rows';
    }
  }

  lemma ReplaceFile(cold: Archive, path: Path, rows: seq<Event>)
    requires path in cold ==> forall n :: HasNumber(cold[path], n) ==> HasNumber(rows, n)
    ensures forall n :: InCold(cold, n) ==> InCold(cold[path := rows], n)
  {
    forall n | InCold(cold, n) ensures InCold(cold[path := rows], n) {
      var p :| p in cold && HasNumber(cold[p], n);
      assert p in cold[path := rows];
    }
  }

  lemma RegroupFileKeeps(s: Machine, path: Path, rules: Rules)
    requires Inv(s, rules) && Enabled(s, RegroupFile(path))
    ensures Inv(Apply(s, RegroupFile(path), rules), rules)
  {
    hide HotOk, FileOk, LogOk, HotFixed, AllFixed, HasNumber, RegroupRows, KeyFor;
    var remap := rules(s.phase.build);
    FilePass(s.cold[path], path.date, s.log, s.dirty, remap);
    ReplaceFile(s.cold, path, RegroupRows(s.cold[path], remap));
  }

  /** When every copy is a fixed point, all copies agree with the regrouped log. */
  lemma PassCompletes(hot: Table, cold: Archive, log: Log, remap: Remap)
    requires HotOk(hot, log, true) && ColdOk(cold, log, true)
    requires HotFixed(hot, remap) && ColdFixed(cold, {}, remap)
    ensures HotOk(hot, RegroupLog(log, remap), false)
    ensures ColdOk(cold, RegroupLog(log, remap), false)
  {
    hide KeyFor, DayOf, Regrouped, Blank;
    forall e | Genuine(e, log, true) && Regrouped(e, remap) == e
      ensures Genuine(e, RegroupLog(log, remap), false)
    {
      RegroupedErases(e, log[e.seqNo], remap);
    }
    forall p | p in cold ensures FileOk(cold[p], p.date, RegroupLog(log, remap), false) {
      assert AllFixed(cold[p], remap);
    }
  }

  lemma RegroupLogKeeps(hot: Table, cold: Archive, log: Log, horizon: Option<int>, diskSeq: u64, remap: Remap)
    requires LogOk(log, diskSeq) && NothingLost(hot, cold, log, horizon)
    ensures LogOk(RegroupLog(log, remap), diskSeq)
    ensures NothingLost(hot, cold, RegroupLog(log, remap), horizon)
  {
  }

  // ------------------------------------------------------------------------ appending

  /** A batch lands in the table and the log under new keys and new numbers. */
  lemma AppendIsFresh(hot: Table, log: Log, dirty: bool, batch: seq<Event>, first: u64)
    requires HotOk(hot, log, dirty) && LogOk(log, first) && first + |batch| < U64_LIMIT
    ensures FreshKeys(hot, Keyed(Stamped(batch, first)))
    ensures FreshKeys(log, Numbered(Stamped(batch, first)))
  {
    hide KeyFor;
    StampedFresh(hot, batch, first);
  }

  lemma AppendExtendsLog(hot: Table, log: Log, rows: seq<Event>)
    requires FreshKeys(hot, Keyed(rows)) && FreshKeys(log, Numbered(rows))
    ensures forall n :: n in log ==> n in UpdateAll(log, Numbered(rows)) && UpdateAll(log, Numbered(rows))[n] == log[n]
    ensures forall n :: n in UpdateAll(log, Numbered(rows)) && n !in log ==>
                          && UpdateAll(log, Numbered(rows))[n] in rows
                          && UpdateAll(log, Numbered(rows))[n].seqNo == n
                          && KeyFor(UpdateAll(log, Numbered(rows))[n]) in UpdateAll(hot, Keyed(rows))
  {
    hide KeyFor, UpdateAll, FreshKeys;
    UpdateFresh(hot, Keyed(rows));
    UpdateFresh(log, Numbered(rows));
    var hot', log' := UpdateAll(hot, Keyed(rows)), UpdateAll(log, Numbered(rows));
    forall n | n in log' && n !in log
      ensures log'[n] in rows && log'[n].seqNo == n && KeyFor(log'[n]) in hot'
    {
      var i :| 0 <= i < |Numbered(rows)| && Numbered(rows)[i].0 == n;
      assert Keyed(rows)[i].0 in hot';
    }
  }

  lemma AppendKeeps(hot: Table, log: Log, dirty: bool, rows: seq<Event>)
    requires HotOk(hot, log, dirty)
    requires FreshKeys(hot, Keyed(rows)) && FreshKeys(log, Numbered(rows))
    ensures HotOk(UpdateAll(hot, Keyed(rows)), UpdateAll(log, Numbered(rows)), dirty)
    ensures forall k :: k in hot ==> k in UpdateAll(hot, Keyed(rows)) && UpdateAll(hot, Keyed(rows))[k] == hot[k]
  {
    hide KeyFor, Blank, UpdateAll, FreshKeys;
    UpdateFresh(hot, Keyed(rows));
    UpdateFresh(log, Numbered(rows));
    var hot', log' := UpdateAll(hot, Keyed(rows)), UpdateAll(log, Numbered(rows));
    forall k | k in hot' ensures k == KeyFor(hot'[k]) && Genuine(hot'[k], log', dirty) {
      if k !in hot {
        var i :| 0 <= i < |Keyed(rows)| && Keyed(rows)[i].0 == k;
        assert Numbered(rows)[i].0 in log';
      }
    }
  }

  lemma AppendLogOk(log: Log, log': Log, rows: seq<Event>, first: u64, diskSeq: u64, next: u64)
    requires LogOk(log, diskSeq) && diskSeq <= first && next == first + |rows|
    requires forall n :: n in log' ==> (n in log && log'[n] == log[n]) || (log'[n] in rows && log'[n].seqNo == n)
    requires forall i :: 0 <= i < |rows| ==> rows[i].seqNo == first + i
    ensures LogOk(log', next)
  {
    forall n | n in log' ensures log'[n].seqNo == n && n < next {
      if log'[n] in rows {
        var i :| 0 <= i < |rows| && rows[i] == log'[n];
      }
    }
  }

  lemma LogOkLater(log: Log, diskSeq: u64, later: u64)
    requires LogOk(log, diskSeq) && diskSeq <= later
    ensures LogOk(log, later)
  {
  }

  lemma ColdOkInLaterLog(cold: Archive, log: Log, log': Log, dirty: bool)
    requires ColdOk(cold, log, dirty) && forall n :: n in log ==> n in log' && log'[n] == log[n]
    ensures ColdOk(cold, log', dirty)
  {
    hide DayOf, Blank;
  }

  lemma AppendStepKeeps(s: Machine, batch: seq<Event>, rules: Rules)
    requires Inv(s, rules) && Enabled(s, Append(batch))
    ensures Inv(Apply(s, Append(batch), rules), rules)
  {
    hide HotOk, ColdOk, LogOk, KeyFor, DayOf, Keyed, Numbered, FreshKeys, UpdateAll, InCold, Sealed, Covered;
    var rows := Stamped(batch, s.memSeq);
    var log' := UpdateAll(s.log, Numbered(rows));
    LogOkLater(s.log, s.diskSeq, s.memSeq);
    AppendIsFresh(s.hot, s.log, s.dirty, batch, s.memSeq);
    AppendExtendsLog(s.hot, s.log, rows);
    AppendKeeps(s.hot, s.log, s.dirty, rows);
    ColdOkInLaterLog(s.cold, s.log, log', s.dirty);
    AppendLogOk(s.log, log', rows, s.memSeq, s.diskSeq, s.memSeq + |batch|);
  }

  // ------------------------------------------------------------ compaction and retention

  lemma RowOf(pairs: seq<(Key, Event)>, q: (Key, Event))
    requires q in pairs
    ensures q.1 in RowsOf(pairs)
  {
  }

  lemma PairOf(pairs: seq<(Key, Event)>, e: Event)
    requires e in RowsOf(pairs)
    ensures exists q :: q in pairs && q.1 == e
  {
  }

  lemma ReadWindowKeeps(hot: Table, cold: Archive, cutoffMs: int, stamp: int)
    requires FreshStamp(cold, stamp)
    ensures var pairs := EntriesBefore(hot, cutoffMs);
            CompactorOk(hot, cold, Sealing(pairs, DatesOf(pairs), stamp))
  {
  }

  /** Writing a day archives its rows and disturbs nothing else. */
  lemma SealDayKeeps(hot: Table, cold: Archive, log: Log, dirty: bool, c: Compactor, date: Date)
    requires HotOk(hot, log, dirty) && c.Sealing? && date in c.todo && CompactorOk(hot, cold, c)
    ensures FileOk(GroupFor(c.pairs, date), date, log, dirty)
    ensures CompactorOk(hot, cold[Path(date, c.stamp) := GroupFor(c.pairs, date)], c.(todo := c.todo - {date}))
  {
    hide DayOf, RowsOf, KeyFor, Blank;
    forall e | e in GroupFor(c.pairs, date) ensures DayOf(e.receivedMs) == date && Genuine(e, log, dirty) {
      PairOf(c.pairs, e);
    }
    forall q | q in c.pairs && DayOf(q.1.receivedMs) == date ensures q.1 in GroupFor(c.pairs, date) {
      RowOf(c.pairs, q);
    }
  }

  /** Once every day is written, each key about to be deleted has its row in the archive. */
  lemma DropSealedKeeps(hot: Table, cold: Archive, log: Log, horizon: Option<int>, diskSeq: u64, c: Compactor)
    requires LogOk(log, diskSeq) && NothingLost(hot, cold, log, horizon)
    requires c.Sealing? && c.todo == {} && CompactorOk(hot, cold, c)
    requires forall k :: k in hot ==> k == KeyFor(hot[k])
    ensures NothingLost(Remove(hot, KeysOf(c.pairs)), cold, log, horizon)
  {
    hide KeyFor, DayOf, Covered;
    forall n | n in log && KeyFor(log[n]) in KeysOf(c.pairs) ensures InCold(cold, n) {
      var i :| 0 <= i < |c.pairs| && KeysOf(c.pairs)[i] == KeyFor(log[n]);
      var q := c.pairs[i];
      assert q in c.pairs;
      SameKey(q.1, log[n]);
      assert Sealed(cold, q.1, c.stamp);
      assert HasNumber(cold[Path(DayOf(q.1.receivedMs), c.stamp)], n);
    }
  }

  lemma GenuineTime(e: Event, log: Log, dirty: bool)
    requires Genuine(e, log, dirty)
    ensures e.receivedMs == log[e.seqNo].receivedMs
  {
  }

  /** Dropping an expired file loses no event that retention must keep. */
  lemma ExpireKeeps(hot: Table, cold: Archive, log: Log, dirty: bool, horizon: Option<int>, path: Path, cutoffMs: int)
    requires ColdOk(cold, log, dirty) && NothingLost(hot, cold, log, horizon)
    requires path in cold && Expired(path.date, cutoffMs)
    ensures NothingLost(hot, cold - {path}, log, Some(Raise(horizon, cutoffMs + 999)))
  {
    hide KeyFor, DayOf, Expired, Representable, Blank;
    forall n | n in log && Covered(Some(Raise(horizon, cutoffMs + 999)), log[n].receivedMs) && InCold(cold, n)
      ensures InCold(cold - {path}, n)
    {
      var p :| p in cold && HasNumber(cold[p], n);
      var e :| e in cold[p] && e.seqNo == n;
      assert FileOk(cold[p], p.date, log, dirty);
      GenuineTime(e, log, dirty);
      if p == path {
        RetentionGrace(e.receivedMs, cutoffMs);
      }
      assert p in cold - {path};
    }
  }

  // ------------------------------------------------------------------------- one step

  lemma CompactionStepKeeps(s: Machine, step: Step, rules: Rules)
    requires Inv(s, rules) && Enabled(s, step)
    requires step.ReadWindow? || step.SealDay? || step.DropSealed? || step.Expire? || step.CompactionFails?
    ensures Inv(Apply(s, step, rules), rules)
  {
    hide KeyFor, DayOf, Genuine, FileOk, Covered, LogOk, HasNumber, EntriesBefore, RowsOf, DatesOf, GroupFor, Sealed,
      Remove, KeysOf, Representable, Expired;
    match step
    case ReadWindow(cutoffMs, stamp) => ReadWindowKeeps(s.hot, s.cold, cutoffMs, stamp);
    case SealDay(date) =>
      var c := s.phase.compactor;
      SealDayKeeps(s.hot, s.cold, s.log, s.dirty, c, date);
      ReplaceFile(s.cold, Path(date, c.stamp), GroupFor(c.pairs, date));
    case DropSealed =>
      DropSealedKeeps(s.hot, s.cold, s.log, s.horizon, s.diskSeq, s.phase.compactor);
      RemoveKeeps(s.hot, s.log, s.dirty, KeysOf(s.phase.compactor.pairs));
    case Expire(path, cutoffMs) => ExpireKeeps(s.hot, s.cold, s.log, s.dirty, s.horizon, path, cutoffMs);
    case CompactionFails =>
  }

  lemma RemoveKeeps(hot: Table, log: Log, dirty: bool, keys: seq<Key>)
    requires HotOk(hot, log, dirty)
    ensures HotOk(Remove(hot, keys), log, dirty)
  {
  }

  lemma StepKeeps(s: Machine, step: Step, rules: Rules)
    requires Inv(s, rules) && Enabled(s, step)
    ensures Inv(Apply(s, step, rules), rules)
  {
    hide HotOk, ColdOk, LogOk, NothingLost, HotFixed, RegroupTable, RegroupLog;
    match step
    case RegroupHot => RegroupHotKeeps(s, rules);
    case RegroupFile(path) => RegroupFileKeeps(s, path, rules);
    case StampVersion =>
      PassCompletes(s.hot, s.cold, s.log, rules(s.phase.build));
      RegroupLogKeeps(s.hot, s.cold, s.log, s.horizon, s.diskSeq, rules(s.phase.build));
    case Append(batch) => AppendStepKeeps(s, batch, rules);
    case Boot(_) =>
    case AppendFails(_) =>
    case Crash =>
    case _ => CompactionStepKeeps(s, step, rules);
  }
}
