/** The redb hot store (agent/src/store/events.rs, agent/src/store/regroup.rs, agent/src/store/mod.rs). */
module Tables {
  import opened Keys
  import opened Events
  import opened Seqs

  /** The committed contents of the `events` table. */
  type Table = map<Key, Event>

  function Stamped(batch: seq<Event>, first: u64): (r: seq<Event>)
    requires first + |batch| < 0x1_0000_0000_0000_0000
    ensures |r| == |batch|
    ensures forall i :: 0 <= i < |batch| ==> r[i] == batch[i].(seqNo := first + i)
  {
    seq(|batch|, i requires 0 <= i < |batch| => batch[i].(seqNo := first + i))
  }

  /** The table entries of a batch of stamped rows. */
  function Keyed(rows: seq<Event>): seq<(Key, Event)> {
    seq(|rows|, i requires 0 <= i < |rows| => (KeyFor(rows[i]), rows[i]))
  }

  /** Inserting a stamped batch row by row. */
  lemma KeyedStamped(t: Table, batch: seq<Event>, first: u64, i: nat)
    requires first + |batch| < 0x1_0000_0000_0000_0000 && i < |batch|
    ensures var pairs := Keyed(Stamped(batch, first));
            var row := batch[i].(seqNo := first + i);
            && |pairs| == |batch|
            && UpdateAll(t, pairs[..0]) == t
            && UpdateAll(t, pairs[..i + 1]) == UpdateAll(t, pairs[..i])[KeyFor(row) := row]
  {
    hide KeyFor;
    Take(Keyed(Stamped(batch, first)), i);
  }

  function Remove(t: Table, keys: seq<Key>): Table {
    map k | k in t && k !in keys :: t[k]
  }

  function Number(k: Key): nat { FromBe(k.bytes) }

  predicate InKeyOrder(pairs: seq<(Key, Event)>) {
    forall i, j :: 0 <= i < j < |pairs| ==> Number(pairs[i].0) < Number(pairs[j].0)
  }

  /** `pairs` is what `table.iter()` yields: every entry, in byte order of the keys. */
  ghost predicate IsScan(pairs: seq<(Key, Event)>, t: Table) {
    && InKeyOrder(pairs)
    && (forall p: (Key, Event) :: p in pairs <==> p.0 in t && t[p.0] == p.1)
  }

  ghost function Scan(t: Table): (pairs: seq<(Key, Event)>)
    ensures IsScan(pairs, t)
  {
    ScanExists(t);
    var pairs :| IsScan(pairs, t);
    pairs
  }

  function Listing(t: Table): seq<(Key, Event)>
  {
    KeysInjective(t.Keys);
    var rank := (k: Key) => Number(k);
    var keys := Ascending(t.Keys, rank);
    seq(|keys|, i requires 0 <= i < |keys| => (keys[i], t[keys[i]]))
  }

  lemma KeysInjective(keys: set<Key>)
    ensures Injective(keys, (k: Key) => Number(k))
  {
    forall x: Key, y: Key | Number(x) == Number(y) ensures x == y {
      ByteOrderIsNumeric(x.bytes, y.bytes);
    }
  }

  lemma ListingIsScan(t: Table)
    ensures IsScan(Listing(t), t)
  {
    KeysInjective(t.Keys);
    var rank := (k: Key) => Number(k);
    var keys := Ascending(t.Keys, rank);
    AscendingIncreases(t.Keys, rank);
    forall i, j | 0 <= i < j < |keys| ensures Number(keys[i]) < Number(keys[j]) {
      assert rank(keys[i]) < rank(keys[j]);
    }
    forall p: (Key, Event) | p.0 in t && t[p.0] == p.1 ensures p in Listing(t) {
      var i :| 0 <= i < |keys| && keys[i] == p.0;
      assert Listing(t)[i] == p;
    }
  }

  lemma ScanExists(t: Table)
    ensures exists pairs :: IsScan(pairs, t)
  {
    ListingIsScan(t);
  }

  lemma HeadsAgree(a: seq<(Key, Event)>, b: seq<(Key, Event)>, t: Table)
    requires IsScan(a, t) && IsScan(b, t) && a != []
    ensures b != [] && a[0] == b[0]
  {
  }

  lemma {:induction false} ScanUnique(a: seq<(Key, Event)>, b: seq<(Key, Event)>, t: Table)
    requires IsScan(a, t) && IsScan(b, t)
    ensures a == b
  {
    if a == [] {
      if b != [] { HeadsAgree(b, a, t); }
    } else {
      HeadsAgree(a, b, t);
      var rest := map k | k in t && k != a[0].0 :: t[k];
      TailIsScan(a, t, rest);
      TailIsScan(b, t, rest);
      ScanUnique(a[1..], b[1..], rest);
      assert a == [a[0]] + a[1..] && b == [b[0]] + b[1..];
    }
  }

  lemma TailIsScan(a: seq<(Key, Event)>, t: Table, rest: Table)
    requires IsScan(a, t) && a != [] && rest == map k | k in t && k != a[0].0 :: t[k]
    ensures IsScan(a[1..], rest)
  {
  }

  method Iterate(t: Table) returns (pairs: seq<(Key, Event)>)
    ensures pairs == Scan(t)
  {
    ListingIsScan(t);
    pairs := Listing(t);
    ScanUnique(pairs, Scan(t), t);
  }

  predicate IsBefore(pair: (Key, Event), cutoffMs: int) { KeyTime(pair.0) < Max0(cutoffMs) }

  /** What the compactor reads: the entries whose key time is under the cutoff. */
  ghost function EntriesBefore(t: Table, cutoffMs: int): seq<(Key, Event)> {
    Filter((p: (Key, Event)) => IsBefore(p, cutoffMs), Scan(t))
  }

  function KeysOf(pairs: seq<(Key, Event)>): seq<Key> { Map((p: (Key, Event)) => p.0, pairs) }

  function RowsOf(pairs: seq<(Key, Event)>): seq<Event> { Map((p: (Key, Event)) => p.1, pairs) }

  ghost function Rows(t: Table): seq<Event> { RowsOf(Scan(t)) }

  function RegroupTable(t: Table, remap: Remap): Table {
    map k | k in t :: Regrouped(t[k], remap)
  }

  function RegroupRows(rows: seq<Event>, remap: Remap): (r: seq<Event>)
    ensures |r| == |rows|
  {
    Map((e: Event) => Regrouped(e, remap), rows)
  }

  predicate ChangesGroup(e: Event, remap: Remap) { Regrouped(e, remap) != e }

  /** How many rows change group. */
  function Changed(rows: seq<Event>, remap: Remap): nat {
    if rows == [] then 0
    else Changed(rows[..|rows| - 1], remap) + (if ChangesGroup(rows[|rows| - 1], remap) then 1 else 0)
  }

  /** The entries whose group changes, with their new rows. */
  function Rewrites(pairs: seq<(Key, Event)>, remap: Remap): seq<(Key, Event)> {
    if pairs == [] then []
    else
      var (key, event) := pairs[|pairs| - 1];
      var front := Rewrites(pairs[..|pairs| - 1], remap);
      if ChangesGroup(event, remap) then front + [(key, Regrouped(event, remap))] else front
  }

  lemma {:induction false} NothingChanged(rows: seq<Event>, remap: Remap)
    ensures Changed(rows, remap) == 0 <==> RegroupRows(rows, remap) == rows
  {
    hide Regrouped;
    if rows != [] {
      var front, last := rows[..|rows| - 1], rows[|rows| - 1];
      NothingChanged(front, remap);
      assert RegroupRows(rows, remap) == RegroupRows(front, remap) + [Regrouped(last, remap)];
      assert rows == front + [last];
    }
  }

  lemma {:induction false} RewritesCount(pairs: seq<(Key, Event)>, remap: Remap)
    ensures |Rewrites(pairs, remap)| == Changed(RowsOf(pairs), remap)
  {
    if pairs != [] {
      RewritesCount(pairs[..|pairs| - 1], remap);
      assert RowsOf(pairs)[..|pairs| - 1] == RowsOf(pairs[..|pairs| - 1]);
    }
  }

  lemma UpdateOne<K, V>(m: map<K, V>, a: seq<(K, V)>, k: K, v: V)
    ensures UpdateAll(m, a + [(k, v)]) == UpdateAll(m, a)[k := v]
  {
  }

  /** Applying the collected rewrites regroups exactly the keys that were scanned. */
  lemma {:induction false} RewritesRegroup(t: Table, pairs: seq<(Key, Event)>, remap: Remap)
    requires forall p :: p in pairs ==> p.0 in t && t[p.0] == p.1
    ensures var t' := UpdateAll(t, Rewrites(pairs, remap));
            && t'.Keys == t.Keys
            && (forall p :: p in pairs ==> t'[p.0] == Regrouped(p.1, remap))
            && (forall k :: k in t && (forall p :: p in pairs ==> p.0 != k) ==> t'[k] == t[k])
  {
    hide Regrouped;
    if pairs != [] {
      var front, last := pairs[..|pairs| - 1], pairs[|pairs| - 1];
      assert pairs == front + [last];
      RewritesRegroup(t, front, remap);
      if ChangesGroup(last.1, remap) {
        UpdateOne(t, Rewrites(front, remap), last.0, Regrouped(last.1, remap));
        assert UpdateAll(t, Rewrites(pairs, remap)).Keys == t.Keys + {last.0} == t.Keys;
      }
    }
  }

  /** Collecting rewrites during a scan and applying them afterwards regroups the whole table. */
  lemma RewritesAreRegrouping(t: Table, remap: Remap)
    ensures UpdateAll(t, Rewrites(Scan(t), remap)) == RegroupTable(t, remap)
    ensures |Rewrites(Scan(t), remap)| == Changed(Rows(t), remap)
  {
    RewritesCount(Scan(t), remap);
    RewritesRegroup(t, Scan(t), remap);
    forall k | k in t ensures UpdateAll(t, Rewrites(Scan(t), remap))[k] == Regrouped(t[k], remap) {
      assert (k, t[k]) in Scan(t);
    }
  }

  /** Every entry sits under the key of its own receive time and sequence. */
  predicate WellKeyed(t: Table) { forall k :: k in t ==> k == KeyFor(t[k]) }

  /** `all_events` really is oldest first, ties broken by sequence. */
  lemma RowsOldestFirst(t: Table, i: nat, j: nat)
    requires WellKeyed(t) && i < j < |Rows(t)|
    ensures Max0(Rows(t)[i].receivedMs) < Max0(Rows(t)[j].receivedMs)
            || (Max0(Rows(t)[i].receivedMs) == Max0(Rows(t)[j].receivedMs)
                && Rows(t)[i].seqNo < Rows(t)[j].seqNo)
  {
    var p, q := Scan(t)[i], Scan(t)[j];
    ByteOrderIsNumeric(p.0.bytes, q.0.bytes);
    assert p in Scan(t) && q in Scan(t);
    KeyOrder(p.1.receivedMs, p.1.seqNo, q.1.receivedMs, q.1.seqNo);
  }

  lemma RowsExact(t: Table, e: Event)
    ensures e in Rows(t) <==> exists k :: k in t && t[k] == e
  {
    if k :| k in t && t[k] == e {
      assert (k, e) in Scan(t);
      var i :| 0 <= i < |Scan(t)| && Scan(t)[i] == (k, e);
      assert Rows(t)[i] == e;
    }
  }

  /** The compactor's read is exact: the entries received before the (clamped) cutoff, no others. */
  lemma EntriesBeforeExact(t: Table, cutoffMs: int, pair: (Key, Event))
    requires WellKeyed(t)
    ensures pair in EntriesBefore(t, cutoffMs)
            <==> pair.0 in t && t[pair.0] == pair.1 && Max0(pair.1.receivedMs) < Max0(cutoffMs)
  {
    if pair.0 in t && t[pair.0] == pair.1 {
      KeyTimeInverts(pair.1.receivedMs, pair.1.seqNo);
    }
  }

  /** Rows stamped from a counter above every stored number go under fresh keys. */
  lemma StampedFresh(t: Table, batch: seq<Event>, first: u64)
    requires first + |batch| < 0x1_0000_0000_0000_0000
    requires WellKeyed(t) && forall k :: k in t ==> t[k].seqNo < first
    ensures FreshKeys(t, Keyed(Stamped(batch, first)))
  {
    var rows := Stamped(batch, first);
    forall i | 0 <= i < |rows| ensures KeyFor(rows[i]) !in t {
      if KeyFor(rows[i]) in t {
        var e := t[KeyFor(rows[i])];
        KeyInjective(e.receivedMs, e.seqNo, rows[i].receivedMs, rows[i].seqNo);
      }
    }
    forall i, j | 0 <= i < j < |rows| ensures KeyFor(rows[i]) != KeyFor(rows[j]) {
      KeyInjective(rows[i].receivedMs, rows[i].seqNo, rows[j].receivedMs, rows[j].seqNo);
    }
  }
}

module HotStore {
  import opened Wrappers
  import opened Keys
  import opened Events
  import opened Seqs
  import opened Tables

  const META_NEXT_SEQ := "next_seq"
  const META_FINGERPRINT_VERSION := "fingerprint_version"

  /** Where a storage call reports an error: at its n-th table or transaction operation. */
  datatype Fault = NoFault | At(op: nat)

  type Meta = map<string, seq<byte>>

  function NumberIn(meta: Meta, key: string, width: nat): nat {
    if key in meta then FromBe(First(meta[key], width)) else 0
  }

  /** `read_next_seq` */
  function NextSeqIn(meta: Meta): nat { NumberIn(meta, META_NEXT_SEQ, 8) }

  /** `fingerprint_version` */
  function VersionIn(meta: Meta): nat { NumberIn(meta, META_FINGERPRINT_VERSION, 4) }

  lemma MetaRoundTrip(meta: Meta, key: string, n: nat, width: nat)
    requires n < Pow256(width)
    ensures NumberIn(meta[key := ToBe(n, width)], key, width) == n
  {
    BeRoundTrip(n, width);
    assert First(ToBe(n, width), width) == ToBe(n, width);
  }

  lemma SetNextSeq(meta: Meta, n: u64)
    ensures NextSeqIn(meta[META_NEXT_SEQ := ToBe(n, 8)]) == n
    ensures VersionIn(meta[META_NEXT_SEQ := ToBe(n, 8)]) == VersionIn(meta)
  {
    Width8(n);
    MetaRoundTrip(meta, META_NEXT_SEQ, n, 8);
  }

  class Store {
    var events: Table
    var meta: Meta
    var nextSeq: u64

    /** `Store::open` on the durable contents left by an earlier process. */
    constructor Open(events: Table, meta: Meta)
      ensures this.events == events && this.meta == meta && this.nextSeq == NextSeqIn(meta)
    {
      this.events, this.meta := events, meta;
      new;
      if META_NEXT_SEQ in meta {
        var n := U64FromBe(meta[META_NEXT_SEQ]);
        FromBeBound(First(meta[META_NEXT_SEQ], 8));
        PowMonotone(|First(meta[META_NEXT_SEQ], 8)|, 8);
        Width8(0);
        assert Pow256(8) == 0x1_0000_0000_0000_0000 by { Exactly8(); }
        nextSeq := n;
      } else {
        nextSeq := 0;
      }
    }

    /** The insert loop of `append_events`, inside the open transaction. */
    method InsertRows(batch: seq<Event>, fault: Fault) returns (table: Table, ok: bool)
      requires nextSeq + |batch| < 0x1_0000_0000_0000_0000 && batch != [] && fault != At(0)
      modifies this`nextSeq
      ensures ok <==> fault.NoFault? || fault.op > |batch|
      ensures ok ==> table == UpdateAll(events, Keyed(Stamped(batch, old(nextSeq))))
      ensures nextSeq == old(nextSeq) + (if ok then |batch| else fault.op)
    {
      hide KeyFor, Keyed, Stamped, UpdateAll;
      table := events;
      ghost var pairs := Keyed(Stamped(batch, nextSeq));
      KeyedStamped(events, batch, nextSeq, 0);
      var i := 0;
      while i < |batch|
        invariant 0 <= i <= |batch| && nextSeq == old(nextSeq) + i
        invariant table == UpdateAll(events, pairs[..i])
        invariant fault.At? ==> fault.op > i
      {
        var number := nextSeq;
        nextSeq := nextSeq + 1;
        if fault == At(i + 1) {
          return table, false;
        }
        var stored := batch[i].(seqNo := number);
        KeyedStamped(events, batch, old(nextSeq), i);
        table := table[KeyFor(stored) := stored];
        i := i + 1;
      }
      TakeAll(pairs);
      return table, true;
    }

    method AppendEvents(batch: seq<Event>, fault: Fault) returns (r: Result<()>)
      requires nextSeq + |batch| < 0x1_0000_0000_0000_0000
      modifies this
      ensures r.Err? <==> batch != [] && fault.At? && fault.op <= |batch| + 1
      ensures batch == [] ==> unchanged(this)
      ensures r.Ok? && batch != [] ==>
                && events == UpdateAll(old(events), Keyed(Stamped(batch, old(nextSeq))))
                && nextSeq == old(nextSeq) + |batch|
                && NextSeqIn(meta) == nextSeq
                && VersionIn(meta) == old(VersionIn(meta))
      ensures r.Err? ==>
                && events == old(events) && meta == old(meta)
                && nextSeq == old(nextSeq) + (if fault.op <= |batch| then fault.op else |batch|)
    {
      hide Keyed, Stamped, UpdateAll, NextSeqIn, VersionIn, ToBe;
      if batch == [] {
        return Ok(());
      }
      if fault == At(0) {
        return Err;
      }
      var table, inserted := InsertRows(batch, fault);
      if !inserted || fault == At(|batch| + 1) {
        return Err;
      }
      SetNextSeq(meta, nextSeq);
      events, meta := table, meta[META_NEXT_SEQ := ToBe(nextSeq, 8)];
      return Ok(());
    }

    method AllEvents() returns (out: seq<Event>)
      ensures out == Rows(events)
    {
      var scan := Iterate(events);
      out := [];
      for i := 0 to |scan|
        invariant out == RowsOf(scan)[..i]
      {
        out := out + [scan[i].1];
      }
    }

    method EventsBeforeWithKeys(cutoffMs: int) returns (out: seq<(Key, Event)>)
      ensures out == EntriesBefore(events, cutoffMs)
    {
      var threshold := Max0(cutoffMs);
      var scan := Iterate(events);
      out := [];
      for i := 0 to |scan|
        invariant out == Filter((p: (Key, Event)) => IsBefore(p, cutoffMs), scan[..i])
      {
        Take(scan, i);
        if KeyTime(scan[i].0) < threshold {
          out := out + [scan[i]];
        }
      }
      TakeAll(scan);
    }

    method DeleteKeys(keys: seq<Key>, fault: Fault) returns (r: Result<()>)
      modifies this`events
      ensures r.Err? <==> keys != [] && fault.At? && fault.op <= |keys| + 1
      ensures events == if r.Ok? then Remove(old(events), keys) else old(events)
    {
      if keys == [] {
        assert Remove(events, keys) == events;
        return Ok(());
      }
      if fault == At(0) {
        return Err;
      }
      var table := events;
      for i := 0 to |keys|
        invariant events == old(events)
        invariant table == Remove(old(events), keys[..i])
        invariant fault.At? ==> fault.op > i
      {
        if fault == At(i + 1) {
          return Err;
        }
        assert keys[..i + 1] == keys[..i] + [keys[i]];
        table := map k | k in table && k != keys[i] :: table[k];
      }
      if fault == At(|keys| + 1) {
        return Err;
      }
      assert keys[..|keys|] == keys;
      events := table;
      return Ok(());
    }

    /** Zero when no pass was ever stamped, and otherwise the number whose bytes were stamped. */
    method FingerprintVersion() returns (version: nat)
      ensures version == VersionIn(meta)
      ensures META_FINGERPRINT_VERSION !in meta ==> version == 0
      ensures META_FINGERPRINT_VERSION in meta ==>
                forall v: nat :: v < Pow256(4) && meta[META_FINGERPRINT_VERSION] == ToBe(v, 4) ==> version == v
    {
      if META_FINGERPRINT_VERSION in meta {
        version := U32FromBe(meta[META_FINGERPRINT_VERSION]);
        forall v: nat | v < Pow256(4) && meta[META_FINGERPRINT_VERSION] == ToBe(v, 4) ensures version == v {
          MetaRoundTrip(meta, META_FINGERPRINT_VERSION, v, 4);
          assert meta[META_FINGERPRINT_VERSION := ToBe(v, 4)] == meta;
        }
      } else {
        version := 0;
      }
    }

    method SetFingerprintVersion(version: nat, fault: Fault) returns (r: Result<()>)
      requires version < Pow256(4)
      modifies this`meta
      ensures r.Err? <==> fault == At(0)
      ensures r.Ok? ==> VersionIn(meta) == version && NextSeqIn(meta) == old(NextSeqIn(meta))
      ensures r.Err? ==> meta == old(meta)
    {
      if fault == At(0) {
        return Err;
      }
      MetaRoundTrip(meta, META_FINGERPRINT_VERSION, version, 4);
      meta := meta[META_FINGERPRINT_VERSION := ToBe(version, 4)];
      return Ok(());
    }

    /** Collect the rewrites while scanning, then insert them back and commit. */
    method RegroupHotExceptions(remap: Remap, fault: Fault) returns (r: Result<nat>)
      modifies this`events
      ensures r.Err? <==> fault.At?
      ensures r.Err? ==> events == old(events)
      ensures r.Ok? ==> events == RegroupTable(old(events), remap)
                        && r.value == Changed(Rows(old(events)), remap)
    {
      var scan := Iterate(events);
      var updates: seq<(Key, Event)> := [];
      for i := 0 to |scan|
        invariant events == old(events)
        invariant updates == Rewrites(scan[..i], remap)
      {
        var (key, event) := scan[i];
        Take(scan, i);
        if event.kind != Exception {
          continue;
        }
        var group := remap(event.excType.GetOr(""), event.excMessage, event.excStack);
        if event.excGroup != Some(group) {
          updates := updates + [(key, event.(excGroup := Some(group)))];
        }
      }
      if fault.At? {
        return Err;
      }
      TakeAll(scan);
      var table := events;
      for i := 0 to |updates|
        invariant events == old(events)
        invariant table == UpdateAll(events, updates[..i])
      {
        Take(updates, i);
        table := table[updates[i].0 := updates[i].1];
      }
      TakeAll(updates);
      RewritesAreRegrouping(events, remap);
      events := table;
      return Ok(|updates|);
    }
  }

  lemma {:induction false} PowMonotone(a: nat, b: nat)
    requires a <= b
    ensures Pow256(a) <= Pow256(b)
    decreases b
  {
    if a < b {
      PowMonotone(a, b - 1);
    }
  }

  lemma Exactly8()
    ensures Pow256(8) == 0x1_0000_0000_0000_0000
  {
  }
}
