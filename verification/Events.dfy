/** The stored event (agent/src/store/event.rs) and the recomputation of its exception group. */
module Events {
  import opened Wrappers
  import opened Keys

  datatype EventKind = PageLoad | PageUnload | Custom | Pixel | Exception

  /** `EventKind::as_str`, the value of the `kind` column. */
  function KindName(kind: EventKind): string {
    match kind
    case PageLoad => "page_load"
    case PageUnload => "page_unload"
    case Custom => "custom"
    case Pixel => "pixel"
    case Exception => "exception"
  }

  /** `dims` holds the remaining nullable string columns by name; a missing name is null. */
  datatype Event = Event(
    createdMs: i64,
    receivedMs: i64,
    seqNo: u64,
    kind: EventKind,
    source: string,
    isUniqueUser: bool,
    isUniquePage: bool,
    durationMs: Option<int>,
    dims: map<string, string>,
    excType: Option<string>,
    excMessage: Option<string>,
    excStack: Option<string>,
    excGroup: Option<string>,
    excHandled: Option<bool>)

  /** A row with the given kind on which every nullable column is null. */
  function BlankRow(kind: EventKind, source: string): Event {
    Event(0, 0, 0, kind, source, false, false, None, map[], None, None, None, None, None)
  }

  function KeyFor(e: Event): Key { KeyOf(e.receivedMs, e.seqNo) }

  /** Recomputes a group id from (type, message, stack). */
  type Remap = (string, Option<string>, Option<string>) -> string

  function Regrouped(e: Event, remap: Remap): Event {
    if e.kind == Exception then
      e.(excGroup := Some(remap(e.excType.GetOr(""), e.excMessage, e.excStack)))
    else
      e
  }

  /** Everything about a row that regrouping cannot touch. */
  function Blank(e: Event): Event {
    if e.kind == Exception then e.(excGroup := None) else e
  }

  /** Regrouping depends only on, and preserves, the untouchable part: it erases earlier groupings. */
  lemma RegroupedErases(a: Event, b: Event, remap: Remap)
    requires Blank(a) == Blank(b)
    ensures Regrouped(a, remap) == Regrouped(b, remap)
    ensures Blank(Regrouped(a, remap)) == Blank(b)
    ensures KeyFor(Regrouped(a, remap)) == KeyFor(a) == KeyFor(b)
    ensures Regrouped(a, remap).seqNo == a.seqNo == b.seqNo
    ensures Regrouped(a, remap).receivedMs == a.receivedMs == b.receivedMs
  {
    assert a == Blank(a).(excGroup := a.excGroup);
    assert b == Blank(b).(excGroup := b.excGroup);
  }

  lemma SameKey(a: Event, b: Event)
    requires KeyFor(a) == KeyFor(b)
    ensures a.seqNo == b.seqNo
  {
    KeyInjective(a.receivedMs, a.seqNo, b.receivedMs, b.seqNo);
  }

  /** A nullable string column of the event frame, by its Parquet name. */
  function Column(e: Event, name: string): Option<string> {
    if name == "source" then Some(e.source)
    else if name == "exc_type" then e.excType
    else if name == "exc_message" then e.excMessage
    else if name in e.dims then Some(e.dims[name])
    else None
  }
}
