/** The start-up regrouping pass (agent/src/ingest/regroup.rs, agent/src/store/regroup.rs, agent/src/store/parquet.rs). */
module Regrouping {
  import opened Wrappers
  import opened Keys
  import opened Events
  import opened Seqs
  import opened Tables
  import opened HotStore
  import opened EventMachine
  import opened Compaction
  import opened Refinement

  /** The archive after the files in `done` were rewritten. */
  function RegroupFiles(files: Archive, done: set<Path>, remap: Remap): Archive {
    map p | p in files :: if p in done then RegroupRows(files[p], remap) else files[p]
  }

  function Groups(rows: seq<Event>): seq<Option<string>> { Map((e: Event) => e.excGroup, rows) }

  function WithGroups(rows: seq<Event>, groups: seq<Option<string>>): seq<Event>
    requires |groups| == |rows|
  {
    seq(|rows|, i requires 0 <= i < |rows| => rows[i].(excGroup := groups[i]))
  }

  lemma GroupsDecide(rows: seq<Event>, remap: Remap)
    ensures WithGroups(rows, Groups(RegroupRows(rows, remap))) == RegroupRows(rows, remap)
  {
  }

  lemma GroupStep(rows: seq<Event>, i: nat, remap: Remap)
    requires i < |rows|
    ensures Changed(rows[..i + 1], remap) == Changed(rows[..i], remap) + if ChangesGroup(rows[i], remap) then 1 else 0
    ensures Groups(RegroupRows(rows, remap))[i] == Regrouped(rows[i], remap).excGroup
  {
    Take(rows, i);
  }

  /** Recompute the `exc_group` column row by row; keep the file as it is when nothing changed. */
  method RegroupPartition(rows: seq<Event>, remap: Remap) returns (rewritten: seq<Event>, changed: nat)
    ensures rewritten == RegroupRows(rows, remap) && changed == Changed(rows, remap)
    ensures changed == 0 <==> rewritten == rows
  {
    hide Changed, RegroupRows;
    ghost var target := Groups(RegroupRows(rows, remap));
    NothingChanged(rows, remap);
    changed := 0;
    var newGroups: seq<Option<string>> := [];
    assert changed == Changed(rows[..0], remap) by { NoneChanged(rows, remap); }
    for i := 0 to |rows|
      invariant newGroups == target[..i] && changed == Changed(rows[..i], remap)
    {
      GroupStep(rows, i, remap);
      var e := rows[i];
      if e.kind == Exception {
        var group := remap(e.excType.GetOr(""), e.excMessage, e.excStack);
        if e.excGroup != Some(group) {
          changed := changed + 1;
        }
        newGroups := newGroups + [Some(group)];
      } else {
        newGroups := newGroups + [e.excGroup];
      }
    }
    TakeAll(rows);
    TakeAll(target);
    if changed == 0 {
      return rows, 0;
    }
    GroupsDecide(rows, remap);
    rewritten := WithGroups(rows, newGroups);
  }

  lemma NoneChanged(rows: seq<Event>, remap: Remap)
    ensures Changed(rows[..0], remap) == 0
  {
  }

  /** Rewrite every partition, one atomic file at a time, in the order the directory walk finds them. */
  method RegroupColdExceptions(disk: Disk, remap: Remap, fault: Fault) returns (r: Result<nat>, ghost done: set<Path>)
    modifies disk
    ensures done <= old(disk.files.Keys) && disk.files == RegroupFiles(old(disk.files), done, remap)
    ensures r.Ok? ==> done == old(disk.files.Keys) && (r.value == 0 <==> disk.files == old(disk.files))
    ensures fault == NoFault ==> r.Ok?
  {
    hide RegroupRows;
    var todo := disk.files.Keys;
    done := {};
    var total, visited := 0, 0;
    while todo != {}
      invariant todo + done == old(disk.files.Keys) && todo * done == {}
      invariant disk.files == RegroupFiles(old(disk.files), done, remap)
      invariant total == 0 <==> disk.files == old(disk.files)
      decreases todo
    {
      if fault == At(visited) {
        return Err, done;
      }
      var path :| path in todo;
      var rows := disk.files[path];
      var rewritten, changed := RegroupPartition(rows, remap);
      if changed > 0 {
        disk.files := disk.files[path := rewritten];
        assert disk.files[path] != old(disk.files)[path];
      }
      total := total + changed;
      visited := visited + 1;
      todo, done := todo - {path}, done + {path};
    }
    return Ok(total), done;
  }

  /**
   `regroup_if_needed`: hot pass, cold pass, version stamp last. An interrupted pass leaves the old
   version in place, so the next start repeats it.
   */
  method RegroupIfNeeded(store: Store, disk: Disk, build: nat, remap: Remap,
                         hotFault: Fault, coldFault: Fault, stampFault: Fault)
    returns (r: Result<()>, ghost done: set<Path>)
    requires build < Pow256(4)
    modifies store`events, store`meta, disk
    ensures old(VersionIn(store.meta)) == build ==>
              r.Ok? && store.events == old(store.events) && store.meta == old(store.meta) && disk.files == old(disk.files)
    ensures old(VersionIn(store.meta)) != build ==>
              && done <= old(disk.files.Keys) && disk.files == RegroupFiles(old(disk.files), done, remap)
              && (store.events == old(store.events) ||  store.events == RegroupTable(old(store.events), remap))
              && (done != {} ==> store.events == RegroupTable(old(store.events), remap))
              && (r.Err? ==> store.meta == old(store.meta))
              && (r.Ok? ==>
                    && store.events == RegroupTable(old(store.events), remap) && done == old(disk.files.Keys)
                    && VersionIn(store.meta) == build && NextSeqIn(store.meta) == old(NextSeqIn(store.meta)))
    ensures hotFault == coldFault == stampFault == NoFault ==> r.Ok?
  {
    hide RegroupTable, RegroupRows;
    done := {};
    assert RegroupFiles(disk.files, {}, remap) == disk.files;
    var applied := store.FingerprintVersion();
    if applied == build {
      return Ok(()), {};
    }
    var hot := store.RegroupHotExceptions(remap, hotFault);
    if hot.Err? {
      return Err, {};
    }
    var cold;
    cold, done := RegroupColdExceptions(disk, remap, coldFault);
    if cold.Err? {
      return Err, done;
    }
    var stamped := store.SetFingerprintVersion(build, stampFault);
    return stamped, done;
  }

  // ----------------------------------------------------------------- refinement of steps

  function FileSteps(paths: seq<Path>): seq<Step> { seq(|paths|, i requires 0 <= i < |paths| => RegroupFile(paths[i])) }

  lemma {:induction false} FilePassSteps(s: Machine, paths: seq<Path>, rules: Rules)
    requires s.phase.RegroupingCold? && NoDuplicates(paths)
    requires forall p :: p in paths ==> p in s.phase.todo && p in s.cold
    ensures Leads(s, FileSteps(paths), rules,
                  s.(cold := RegroupFiles(s.cold, ToSet(paths), rules(s.phase.build)),
                     phase := s.phase.(todo := s.phase.todo - ToSet(paths))))
  {
    hide RegroupRows, RegroupFiles, Leads, Enabled, Apply;
    var remap := rules(s.phase.build);
    if paths == [] {
      NoFileSteps(s, rules);
    } else {
      var front, last := paths[..|paths| - 1], paths[|paths| - 1];
      assert paths == front + [last];
      assert last !in front;
      FilePassSteps(s, front, rules);
      var m := s.(cold := RegroupFiles(s.cold, ToSet(front), remap),
                  phase := s.phase.(todo := s.phase.todo - ToSet(front)));
      OneMoreFile(s, m, front, last, rules);
      LeadsThen(s, FileSteps(front), rules, m, RegroupFile(last));
      assert FileSteps(paths) == FileSteps(front) + [RegroupFile(last)];
    }
  }

  lemma NoFileSteps(s: Machine, rules: Rules)
    requires s.phase.RegroupingCold?
    ensures Leads(s, FileSteps([]), rules,
                  s.(cold := RegroupFiles(s.cold, ToSet([]), rules(s.phase.build)),
                     phase := s.phase.(todo := s.phase.todo - ToSet([]))))
  {
  }

  lemma OneMoreFile(s: Machine, m: Machine, front: seq<Path>, last: Path, rules: Rules)
    requires s.phase.RegroupingCold? && last !in front && last in s.phase.todo && last in s.cold
    requires var remap := rules(s.phase.build);
             m == s.(cold := RegroupFiles(s.cold, ToSet(front), remap),
                     phase := s.phase.(todo := s.phase.todo - ToSet(front)))
    ensures Enabled(m, RegroupFile(last))
    ensures var remap := rules(s.phase.build);
            Apply(m, RegroupFile(last), rules) ==
            s.(cold := RegroupFiles(s.cold, ToSet(front + [last]), remap),
               phase := s.phase.(todo := s.phase.todo - ToSet(front + [last])))
  {
    hide RegroupRows;
    var remap := rules(s.phase.build);
    assert ToSet(front + [last]) == ToSet(front) + {last};
    assert RegroupFiles(s.cold, ToSet(front + [last]), remap) == m.cold[last := RegroupRows(m.cold[last], remap)];
    assert m.phase.todo - {last} == s.phase.todo - ToSet(front + [last]);
  }

  /** The uninterrupted pass is the steps hot pass, every file, version stamp, and has their effect. */
  lemma RegroupRefines(s: Machine, paths: seq<Path>, rules: Rules)
    requires s.phase.RegroupingHot? && NoDuplicates(paths) && ToSet(paths) == s.cold.Keys
    ensures exists t :: Leads(s, [RegroupHot] + (FileSteps(paths) + [StampVersion]), rules, t)
                        && t.hot == RegroupTable(s.hot, rules(s.phase.build))
                        && t.cold == RegroupFiles(s.cold, s.cold.Keys, rules(s.phase.build))
                        && t.version == s.phase.build && t.phase == Serving(s.phase.build, Idle)
  {
    hide RegroupRows, RegroupTable, RegroupLog, Leads;
    var m := Apply(s, RegroupHot, rules);
    FilePassSteps(m, paths, rules);
    var m' := m.(cold := RegroupFiles(m.cold, ToSet(paths), rules(m.phase.build)),
                 phase := m.phase.(todo := m.phase.todo - ToSet(paths)));
    var t := Apply(m', StampVersion, rules);
    LeadsThen(m, FileSteps(paths), rules, m', StampVersion);
    LeadsAfter(s, RegroupHot, FileSteps(paths) + [StampVersion], rules, t);
  }

  /** A pass cut off behind its hot half and some files is those steps and a crash; the version stays. */
  lemma CutOffPassRefines(s: Machine, paths: seq<Path>, rules: Rules)
    requires s.phase.RegroupingHot? && NoDuplicates(paths) && ToSet(paths) <= s.cold.Keys
    ensures exists t :: Leads(s, [RegroupHot] + (FileSteps(paths) + [Crash]), rules, t)
                        && t.hot == RegroupTable(s.hot, rules(s.phase.build))
                        && t.cold == RegroupFiles(s.cold, ToSet(paths), rules(s.phase.build))
                        && t.version == s.version && t.phase.Down? && t.dirty
  {
    hide RegroupRows, RegroupTable, RegroupLog, Leads;
    var m := Apply(s, RegroupHot, rules);
    forall p | p in paths ensures p in m.phase.todo && p in m.cold {
      assert p in ToSet(paths);
    }
    FilePassSteps(m, paths, rules);
    var m' := m.(cold := RegroupFiles(m.cold, ToSet(paths), rules(m.phase.build)),
                 phase := m.phase.(todo := m.phase.todo - ToSet(paths)));
    var t := Apply(m', Crash, rules);
    LeadsThen(m, FileSteps(paths), rules, m', Crash);
    LeadsAfter(s, RegroupHot, FileSteps(paths) + [Crash], rules, t);
  }
}
