/** The row source of every statistic: the de-duplicated union of archive and hot store. */
module Query {
  import opened Events
  import opened Seqs
  import opened Tables
  import opened HotStore
  import opened Calendar
  import opened EventHistory
  import opened Compaction

  /** Open the day directories of the range one after another, then append the hot rows and filter. */
  method Combined(disk: Disk, store: Store, fromMs: int, toMs: int) returns (rows: seq<Event>)
    ensures exists union :: IsAnswer(union, Listed(disk.files, fromMs, toMs), store.events, fromMs, toMs)
                            && rows == Unique(union)
  {
    hide DayScanned, Unique;
    var frames: seq<Event> := [];
    var todo := disk.files.Keys;
    ghost var listed := Listed(disk.files, fromMs, toMs);
    while todo != {}
      invariant todo <= disk.files.Keys
      invariant forall e :: e in frames <==> exists p :: p in listed && p !in todo && e in listed[p]
      decreases todo
    {
      var path :| path in todo;
      ghost var before := frames;
      if DayScanned(path.date, fromMs, toMs) {
        frames := frames + disk.files[path];
        forall e ensures e in frames <==> e in before || e in listed[path] {}
      }
      ghost var left := todo - {path};
      forall e ensures e in frames <==> exists p :: p in listed && p !in left && e in listed[p] {
        if e in before {
          var p :| p in listed && p !in todo && e in listed[p];
          assert p !in left;
        }
        if p :| p in listed && p !in left && e in listed[p] {
          assert p == path || p !in todo;
        }
      }
      todo := todo - {path};
    }
    var hotRows := store.AllEvents();
    ghost var cold := frames;
    frames := frames + hotRows;
    forall e ensures e in frames <==> (exists k :: k in store.events && store.events[k] == e)
                                      || (exists p :: p in listed && e in listed[p]) {
      RowsExact(store.events, e);
      assert e in frames <==> e in cold || e in hotRows;
    }
    var union := Filter((e: Event) => InWindow(e, fromMs, toMs), frames);
    rows := Unique(union);
    assert IsAnswer(union, listed, store.events, fromMs, toMs);
  }
}
