/** The compactor's and the regrouping pass's own loops, and how they refine the steps of the machine. */
module Compaction {
  import opened Wrappers
  import opened Keys
  import opened Events
  import opened Seqs
  import opened Tables
  import opened HotStore
  import opened Calendar
  import opened EventMachine
  import opened Refinement

  /** The partition directory. */
  class Disk {
    var files: Archive

    constructor (files: Archive)
      ensures this.files == files
    {
      this.files := files;
    }
  }

  /** Position of a date in the `BTreeMap` order of (year, month, day). */
  function Rank(d: Date): int { if ValidDate(d) then DayNumber(d) else 0 }

  lemma DatesRanked(pairs: seq<(Key, Event)>)
    ensures Injective(DatesOf(pairs), (d: Date) => Rank(d))
  {
  }

  /** The days `by_date` iterates over, oldest first. */
  function DaysOf(pairs: seq<(Key, Event)>): (days: seq<Date>)
    ensures forall d :: d in days <==> d in DatesOf(pairs)
  {
    DatesRanked(pairs);
    Ascending(DatesOf(pairs), (d: Date) => Rank(d))
  }

  lemma DaysDistinct(pairs: seq<(Key, Event)>)
    ensures NoDuplicates(DaysOf(pairs))
  {
    DatesRanked(pairs);
    AscendingIncreases(DatesOf(pairs), (d: Date) => Rank(d));
  }

  function WriteDays(files: Archive, pairs: seq<(Key, Event)>, days: seq<Date>, stamp: int): Archive {
    if days == [] then files
    else
      WriteDays(files, pairs, days[..|days| - 1], stamp)
        [Path(days[|days| - 1], stamp) := GroupFor(pairs, days[|days| - 1])]
  }

  function CountDays(pairs: seq<(Key, Event)>, days: seq<Date>): nat {
    if days == [] then 0
    else CountDays(pairs, days[..|days| - 1]) + |GroupFor(pairs, days[|days| - 1])|
  }

  lemma GroupSnoc(pairs: seq<(Key, Event)>, q: (Key, Event), date: Date)
    ensures GroupFor(pairs + [q], date)
         == if DayOf(q.1.receivedMs) == date then GroupFor(pairs, date) + [q.1] else GroupFor(pairs, date)
  {
    hide DayOf;
    assert RowsOf(pairs + [q]) == RowsOf(pairs) + [q.1];
    FilterSnoc((e: Event) => DayOf(e.receivedMs) == date, RowsOf(pairs), q.1);
  }

  lemma {:induction false} CountSnoc(pairs: seq<(Key, Event)>, q: (Key, Event), days: seq<Date>)
    requires NoDuplicates(days)
    ensures CountDays(pairs + [q], days) == CountDays(pairs, days) + if DayOf(q.1.receivedMs) in days then 1 else 0
  {
    hide DayOf, GroupFor;
    if days != [] {
      var front, last := days[..|days| - 1], days[|days| - 1];
      CountSnoc(pairs, q, front);
      GroupSnoc(pairs, q, last);
      assert days == front + [last];
      assert last !in front;
    }
  }

  /** Grouping by day neither drops nor duplicates a row. */
  lemma {:induction false} CountAll(pairs: seq<(Key, Event)>, days: seq<Date>)
    requires NoDuplicates(days) && forall q :: q in pairs ==> DayOf(q.1.receivedMs) in days
    ensures CountDays(pairs, days) == |pairs|
  {
    hide DayOf;
    if pairs == [] {
      CountNone(days);
    } else {
      var front, last := pairs[..|pairs| - 1], pairs[|pairs| - 1];
      assert pairs == front + [last];
      CountAll(front, days);
      CountSnoc(front, last, days);
    }
  }

  lemma {:induction false} CountNone(days: seq<Date>)
    ensures CountDays([], days) == 0
  {
    if days != [] {
      CountNone(days[..|days| - 1]);
    }
  }

  lemma DateListed(pairs: seq<(Key, Event)>, q: (Key, Event))
    requires q in pairs
    ensures DayOf(q.1.receivedMs) in DatesOf(pairs)
  {
  }

  predicate Grouped(byDate: map<Date, seq<Event>>, pairs: seq<(Key, Event)>) {
    byDate.Keys == DatesOf(pairs) && forall d :: d in byDate ==> byDate[d] == GroupFor(pairs, d)
  }

  /** `by_date.entry(date).or_default().push(event)` */
  function PushInto(byDate: map<Date, seq<Event>>, date: Date, event: Event): map<Date, seq<Event>> {
    byDate[date := (if date in byDate then byDate[date] else []) + [event]]
  }

  lemma EmptyGroup(pairs: seq<(Key, Event)>, date: Date)
    requires date !in DatesOf(pairs)
    ensures GroupFor(pairs, date) == []
  {
    hide DayOf;
    if GroupFor(pairs, date) != [] {
      HasFirst(GroupFor(pairs, date));
    }
  }

  lemma OneMoreDate(pairs: seq<(Key, Event)>, q: (Key, Event))
    ensures DatesOf(pairs + [q]) == DatesOf(pairs) + {DayOf(q.1.receivedMs)}
  {
    hide DayOf;
    assert RowsOf(pairs + [q]) == RowsOf(pairs) + [q.1];
  }

  lemma PushGroups(byDate: map<Date, seq<Event>>, pairs: seq<(Key, Event)>, q: (Key, Event))
    requires Grouped(byDate, pairs)
    ensures Grouped(PushInto(byDate, DayOf(q.1.receivedMs), q.1), pairs + [q])
  {
    var date := DayOf(q.1.receivedMs);
    hide DayOf, GroupFor, DatesOf;
    OneMoreDate(pairs, q);
    if date !in byDate {
      EmptyGroup(pairs, date);
    }
    forall d ensures GroupFor(pairs + [q], d) == if date == d then GroupFor(pairs, d) + [q.1] else GroupFor(pairs, d) {
      GroupSnoc(pairs, q, d);
    }
  }

  /** Collect the keys and group the rows by day. */
  method GroupByDate(pairs: seq<(Key, Event)>) returns (keys: seq<Key>, byDate: map<Date, seq<Event>>)
    ensures keys == KeysOf(pairs) && Grouped(byDate, pairs)
  {
    hide DayOf, Grouped;
    keys, byDate := [], map[];
    assert Grouped(byDate, []) by { NothingGrouped(); }
    for i := 0 to |pairs|
      invariant keys == KeysOf(pairs[..i])
      invariant Grouped(byDate, pairs[..i])
    {
      var (key, event) := pairs[i];
      Take(pairs, i);
      PushGroups(byDate, pairs[..i], pairs[i]);
      keys := keys + [key];
      byDate := PushInto(byDate, DayOf(event.receivedMs), event);
    }
    TakeAll(pairs);
  }

  lemma NothingGrouped()
    ensures Grouped(map[], [])
  {
  }

  function WrittenDays(pairs: seq<(Key, Event)>, writeFault: Fault): seq<Date> {
    if writeFault.At? then Prefix(DaysOf(pairs), writeFault.op) else DaysOf(pairs)
  }

  /** Whether a write error stops the run: faults past the last day never happen. */
  predicate WriteFails(pairs: seq<(Key, Event)>, writeFault: Fault) {
    writeFault.At? && writeFault.op < |DaysOf(pairs)|
  }

  lemma NoDays()
    ensures DaysOf([]) == []
  {
  }

  lemma CountStart(pairs: seq<(Key, Event)>)
    ensures CountDays(pairs, []) == 0
  {
  }

  lemma CountStep(pairs: seq<(Key, Event)>, days: seq<Date>, i: nat)
    requires i < |days|
    ensures CountDays(pairs, days[..i + 1]) == CountDays(pairs, days[..i]) + |GroupFor(pairs, days[i])|
  {
    hide GroupFor;
    Take(days, i);
  }

  /** Read the keys, write one file per day, delete exactly those keys. */
  method CompactWindow(store: Store, disk: Disk, cutoffMs: int, stamp: int, writeFault: Fault, deleteFault: Fault)
    returns (r: Result<nat>)
    modifies store`events, disk
    ensures var pairs := EntriesBefore(old(store.events), cutoffMs);
            && (r.Err? <==> pairs != [] && (WriteFails(pairs, writeFault)
                                            || (deleteFault.At? && deleteFault.op <= |pairs| + 1)))
            && disk.files == WriteDays(old(disk.files), pairs, WrittenDays(pairs, writeFault), stamp)
            && store.events == (if r.Ok? then Remove(old(store.events), KeysOf(pairs)) else old(store.events))
            && (r.Ok? ==> r.value == |pairs|)
  {
    hide DayOf, GroupFor, EntriesBefore, DaysOf, CountDays;
    var pairs := store.EventsBeforeWithKeys(cutoffMs);
    if pairs == [] {
      NoDays();
      assert Remove(store.events, KeysOf(pairs)) == store.events;
      return Ok(0);
    }
    var keys, byDate := GroupByDate(pairs);
    var days := DaysOf(pairs);
    DaysDistinct(pairs);
    var total := 0;
    CountStart(pairs);
    for i := 0 to |days|
      invariant store.events == old(store.events)
      invariant disk.files == WriteDays(old(disk.files), pairs, days[..i], stamp)
      invariant total == CountDays(pairs, days[..i])
      invariant writeFault.At? ==> i <= writeFault.op
    {
      Take(days, i);
      assert days[i] in days;
      if writeFault == At(i) {
        return Err;
      }
      disk.files := disk.files[Path(days[i], stamp) := byDate[days[i]]];
      CountStep(pairs, days, i);
      total := total + |byDate[days[i]]|;
    }
    TakeAll(days);
    forall q | q in pairs ensures DayOf(q.1.receivedMs) in days {
      DateListed(pairs, q);
    }
    CountAll(pairs, days);
    var deleted := store.DeleteKeys(keys, deleteFault);
    return if deleted.Ok? then Ok(total) else Err;
  }

  /** The files retention gets rid of: those of ended days whose removal the file system does not refuse. */
  function Removable(files: Archive, cutoffMs: int, stuck: set<Path>): set<Path> {
    set p | p in files && Expired(p.date, cutoffMs) && p !in stuck
  }

  /**
   `enforce_retention`: drop every day directory that ended before the cutoff. A removal that fails,
   for the files in `stuck`, is ignored and tried again by the next run.
   */
  method EnforceRetention(disk: Disk, cutoffMs: int, stuck: set<Path>)
    modifies disk
    ensures disk.files == old(disk.files) - Removable(old(disk.files), cutoffMs, stuck)
  {
    hide Expired;
    var todo := disk.files.Keys;
    while todo != {}
      invariant todo <= old(disk.files.Keys)
      invariant disk.files == old(disk.files) - (Removable(old(disk.files), cutoffMs, stuck) - todo)
      decreases todo
    {
      var path :| path in todo;
      if Expired(path.date, cutoffMs) && path !in stuck {
        disk.files := disk.files - {path};
      }
      todo := todo - {path};
    }
  }

  // ----------------------------------------------------------------- refinement of steps

  function SealSteps(days: seq<Date>): seq<Step> { seq(|days|, i requires 0 <= i < |days| => SealDay(days[i])) }

  function Without(todo: set<Date>, days: seq<Date>): set<Date> { set d | d in todo && d !in days }

  lemma {:induction false} SealingSteps(s: Machine, days: seq<Date>, rules: Rules)
    requires s.phase.Serving? && s.phase.compactor.Sealing? && NoDuplicates(days)
    requires forall d :: d in days ==> d in s.phase.compactor.todo
    ensures var c := s.phase.compactor;
            Leads(s, SealSteps(days), rules,
                  s.(cold := WriteDays(s.cold, c.pairs, days, c.stamp),
                     phase := s.phase.(compactor := c.(todo := Without(c.todo, days)))))
  {
    hide GroupFor;
    var c := s.phase.compactor;
    if days == [] {
      assert Without(c.todo, days) == c.todo;
    } else {
      var front, last := days[..|days| - 1], days[|days| - 1];
      assert days == front + [last];
      assert last !in front;
      SealingSteps(s, front, rules);
      var m := s.(cold := WriteDays(s.cold, c.pairs, front, c.stamp),
                  phase := s.phase.(compactor := c.(todo := Without(c.todo, front))));
      var t := Apply(m, SealDay(last), rules);
      assert Without(c.todo, front) - {last} == Without(c.todo, days);
      LeadsThen(s, SealSteps(front), rules, m, SealDay(last));
      assert SealSteps(days) == SealSteps(front) + [SealDay(last)];
    }
  }

  /**
   The loop of `compact_window` refines the machine: under a fresh stamp, a run that succeeds is the
   steps read, seal every day, drop; a run stopped by an error is read, seal the days it reached, give up.
   Its effect on the hot table and on the archive is theirs.
   */
  lemma CompactWindowRefines(s: Machine, cutoffMs: int, stamp: int, writeFault: Fault, ok: bool, rules: Rules)
    requires s.phase.Serving? && s.phase.compactor.Idle? && FreshStamp(s.cold, stamp)
    requires ok ==> !WriteFails(EntriesBefore(s.hot, cutoffMs), writeFault)
    requires EntriesBefore(s.hot, cutoffMs) != []
    ensures var pairs := EntriesBefore(s.hot, cutoffMs);
            var days := WrittenDays(pairs, writeFault);
            Leads(s, [ReadWindow(cutoffMs, stamp)] + (SealSteps(days) + [if ok then DropSealed else CompactionFails]), rules,
                  s.(cold := WriteDays(s.cold, pairs, days, stamp),
                     hot := if ok then Remove(s.hot, KeysOf(pairs)) else s.hot))
  {
    hide EntriesBefore, GroupFor, WriteDays, DatesOf, DaysOf, FreshStamp, Leads, Remove, DayOf;
    var pairs := EntriesBefore(s.hot, cutoffMs);
    var days := WrittenDays(pairs, writeFault);
    DaysDistinct(pairs);
    var m := s.(phase := s.phase.(compactor := Sealing(pairs, DatesOf(pairs), stamp)));
    SealingSteps(m, days, rules);
    var m' := m.(cold := WriteDays(m.cold, pairs, days, stamp),
                 phase := m.phase.(compactor := m.phase.compactor.(todo := Without(DatesOf(pairs), days))));
    if ok {
      assert Without(DatesOf(pairs), days) == {};
    }
    LeadsThen(m, SealSteps(days), rules, m', if ok then DropSealed else CompactionFails);
    assert Apply(s, ReadWindow(cutoffMs, stamp), rules) == m;
    LeadsAfter(s, ReadWindow(cutoffMs, stamp), SealSteps(days) + [if ok then DropSealed else CompactionFails], rules,
               Apply(m', if ok then DropSealed else CompactionFails, rules));
  }

  function ExpireSteps(paths: seq<Path>, cutoffMs: int): seq<Step> {
    seq(|paths|, i requires 0 <= i < |paths| => Expire(paths[i], cutoffMs))
  }

  function ToSet(paths: seq<Path>): set<Path> { set p | p in paths }

  function WithoutFiles(s: Machine, paths: seq<Path>, cutoffMs: int): Machine {
    s.(cold := s.cold - ToSet(paths),
       horizon := if paths == [] then s.horizon else Some(Raise(s.horizon, cutoffMs + 999)))
  }

  lemma OneMoreExpired(s: Machine, front: seq<Path>, last: Path, cutoffMs: int, rules: Rules)
    requires s.phase.Serving? && s.phase.compactor.Idle? && last !in front
    requires last in s.cold && Expired(last.date, cutoffMs)
    ensures var m := WithoutFiles(s, front, cutoffMs);
            && Enabled(m, Expire(last, cutoffMs))
            && Apply(m, Expire(last, cutoffMs), rules) == WithoutFiles(s, front + [last], cutoffMs)
  {
    hide Expired;
    assert s.cold - ToSet(front) - {last} == s.cold - ToSet(front + [last]);
  }

  /** Retention is the machine steps that expire its files one after another, in the order the walk finds them. */
  lemma {:induction false} RetentionRefines(s: Machine, paths: seq<Path>, cutoffMs: int, rules: Rules)
    requires s.phase.Serving? && s.phase.compactor.Idle? && NoDuplicates(paths)
    requires forall p :: p in paths ==> p in s.cold && Expired(p.date, cutoffMs)
    ensures Leads(s, ExpireSteps(paths, cutoffMs), rules, WithoutFiles(s, paths, cutoffMs))
  {
    hide Expired, Leads, WithoutFiles, Apply, Enabled;
    if paths == [] {
      assert s.cold - ToSet(paths) == s.cold;
      assert WithoutFiles(s, paths, cutoffMs) == s by { NoneExpired(s, cutoffMs); }
      NoSteps(s, rules);
    } else {
      var front, last := paths[..|paths| - 1], paths[|paths| - 1];
      assert paths == front + [last];
      assert last !in front;
      RetentionRefines(s, front, cutoffMs, rules);
      OneMoreExpired(s, front, last, cutoffMs, rules);
      LeadsThen(s, ExpireSteps(front, cutoffMs), rules, WithoutFiles(s, front, cutoffMs), Expire(last, cutoffMs));
      assert ExpireSteps(paths, cutoffMs) == ExpireSteps(front, cutoffMs) + [Expire(last, cutoffMs)];
    }
  }

  lemma NoneExpired(s: Machine, cutoffMs: int)
    ensures WithoutFiles(s, [], cutoffMs) == s
  {
    assert s.cold - ToSet([]) == s.cold;
  }
}
