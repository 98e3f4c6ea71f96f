/** The batched event writer behind the ingest queue (agent/src/ingest/pipeline.rs). */
module Writer {
  import opened Events
  import opened Seqs

  const BATCH_SIZE := 512

  /** What the select picks next: an event from the queue, its close, or the flush timer. */
  datatype Input = Received(event: Event) | Closed | Tick

  /** What storage reports to a flush: success, a failed append, or a failure of the n-th registration. */
  datatype Outcome = Stored | AppendFailed | RegisterFailed(registered: nat)

  /** `log` and `sources` are the store's; `batch` and `known` are the writer's own. */
  datatype Stage = Stage(batch: seq<Event>, known: set<string>, log: seq<Event>, sources: set<string>)

  // ------------------------------------------------------------------------ new sources of a batch

  /** The unknown sources of the events, each once, by first appearance. */
  function Unknown(events: seq<Event>, known: set<string>): (r: seq<string>)
    ensures NoDuplicates(r)
    ensures forall s :: s in r <==> s !in known && exists e :: e in events && e.source == s
  {
    if events == [] then []
    else
      var front, last := events[..|events| - 1], events[|events| - 1];
      var before := Unknown(front, known);
      assert events == front + [last];
      if last.source in known || last.source in before then before else before + [last.source]
  }

  function Room(known: set<string>, maxSources: nat): nat {
    if |known| <= maxSources then maxSources - |known| else 0
  }

  /** As many of them as the registration ceiling leaves room for. */
  function NewSources(events: seq<Event>, known: set<string>, maxSources: nat): seq<string> {
    Prefix(Unknown(events, known), Room(known, maxSources))
  }

  function Elements(s: seq<string>): set<string> { set x | x in s }

  predicate CutShort(o: Outcome, added: seq<string>) { o.RegisterFailed? && o.registered < |added| }

  /** `flush_batch` */
  function Flush(s: Stage, maxSources: nat, o: Outcome): Stage {
    if s.batch == [] then s
    else
      var added := NewSources(s.batch, s.known, maxSources);
      if o.AppendFailed? then s.(batch := [])
      else if CutShort(o, added) then
        Stage([], s.known, s.log + s.batch, s.sources + Elements(added[..o.registered]))
      else
        Stage([], s.known + Elements(added), s.log + s.batch, s.sources + Elements(added))
  }

  /** What a turn of the loop has at hand before it may flush. */
  function Pending(s: Stage, input: Input): seq<Event> {
    if input.Received? then s.batch + [input.event] else s.batch
  }

  predicate Flushes(s: Stage, input: Input) { input.Received? ==> |s.batch| + 1 >= BATCH_SIZE }

  function Next(s: Stage, maxSources: nat, input: Input, o: Outcome): Stage {
    var s' := s.(batch := Pending(s, input));
    if Flushes(s, input) then Flush(s', maxSources, o) else s'
  }

  /** The loop over its inputs, each with the outcome a flush would meet there; closing ends it. */
  function Loop(s: Stage, maxSources: nat, inputs: seq<(Input, Outcome)>): Stage
    decreases |inputs|
  {
    if inputs == [] then s
    else
      var s' := Next(s, maxSources, inputs[0].0, inputs[0].1);
      if inputs[0].0.Closed? then s' else Loop(s', maxSources, inputs[1..])
  }

  // ----------------------------------------------------------------------------- the writer itself

  class Writer {
    const maxSources: nat
    var batch: seq<Event>
    var known: set<string>
    var log: seq<Event>
    var sources: set<string>

    function State(): Stage
      reads this
    {
      Stage(batch, known, log, sources)
    }

    /** Seeds the known sources from the store, or with none when it cannot be read. */
    constructor (log: seq<Event>, sources: set<string>, readable: bool, maxSources: nat)
      ensures State() == Stage([], if readable then sources else {}, log, sources)
      ensures this.maxSources == maxSources
    {
      this.batch, this.log, this.sources, this.maxSources := [], log, sources, maxSources;
      this.known := if readable then sources else {};
    }

    method CollectNew(events: seq<Event>) returns (newSources: seq<string>)
      ensures newSources == NewSources(events, known, maxSources)
    {
      assert Unknown(events[..0], known) == [];
      NoElements(known);
      hide Unknown, Elements, Prefix;
      newSources := [];
      var seen: set<string> := {};
      for i := 0 to |events|
        invariant seen == Elements(Unknown(events[..i], known))
        invariant newSources == Prefix(Unknown(events[..i], known), Room(known, maxSources))
      {
        var source := events[i].source;
        OneMoreEvent(events, i, known);
        OneMoreNew(Unknown(events[..i], known), source, Room(known, maxSources));
        if source in known || source in seen {
          continue;
        }
        seen := seen + {source};
        if |known| + |newSources| >= maxSources {
          continue;
        }
        newSources := newSources + [source];
      }
      TakeAll(events);
    }

    method FlushBatch(outcome: Outcome)
      modifies this
      ensures State() == Flush(old(State()), maxSources, outcome)
    {
      if batch == [] {
        return;
      }
      hide NewSources, Elements;
      var events := batch;
      batch := [];
      var newSources := CollectNew(events);
      if outcome.AppendFailed? {
        return;
      }
      log := log + events;
      NoElements(sources);
      for n := 0 to |newSources|
        invariant unchanged(`known) && batch == [] && log == old(log) + events
        invariant sources == old(sources) + Elements(newSources[..n])
        invariant outcome.RegisterFailed? ==> outcome.registered >= n
      {
        if outcome == RegisterFailed(n) {
          return;
        }
        OneMoreElement(old(sources), newSources, n);
        sources := sources + {newSources[n]};
      }
      TakeAll(newSources);
      known := known + Elements(newSources);
    }

    method WriterLoop(inputs: seq<(Input, Outcome)>)
      modifies this
      ensures State() == Loop(old(State()), maxSources, inputs)
    {
      hide Flush;
      var i := 0;
      while i < |inputs|
        invariant i <= |inputs|
        invariant Loop(State(), maxSources, inputs[i..]) == Loop(old(State()), maxSources, inputs)
      {
        ghost var before := State();
        var (input, outcome) := inputs[i];
        assert inputs[i..][1..] == inputs[i + 1..];
        if input.Received? {
          batch := batch + [input.event];
          if |batch| >= BATCH_SIZE {
            FlushBatch(outcome);
          }
        } else {
          FlushBatch(outcome);
        }
        assert State() == Next(before, maxSources, input, outcome);
        if input.Closed? {
          return;
        }
        i := i + 1;
      }
    }
  }

  lemma OneMoreEvent(events: seq<Event>, i: nat, known: set<string>)
    requires i < |events|
    ensures var before, source := Unknown(events[..i], known), events[i].source;
            Unknown(events[..i + 1], known) ==
            if source in known || source in before then before else before + [source]
  {
    Take(events, i);
  }

  lemma OneMoreNew(before: seq<string>, source: string, room: nat)
    ensures source in Elements(before) <==> source in before
    ensures Elements(before + [source]) == Elements(before) + {source}
    ensures |Prefix(before, room)| == if |before| < room then |before| else room
    ensures Prefix(before + [source], room) == Prefix(before, room) + if |before| < room then [source] else []
  {
  }

  lemma NoElements(known: set<string>)
    ensures Elements([]) == {} && forall room: nat :: Prefix<string>([], room) == []
    ensures forall s: seq<string> :: known + Elements(s[..0]) == known
  {
  }

  lemma OneMoreElement(known: set<string>, s: seq<string>, n: nat)
    requires n < |s|
    ensures known + Elements(s[..n + 1]) == known + Elements(s[..n]) + {s[n]}
  {
  }

  // -------------------------------------------------------------------------------- what is stored

  /** The events taken from the queue, up to its close. */
  function Taken(inputs: seq<(Input, Outcome)>): seq<Event> {
    if inputs == [] || inputs[0].0.Closed? then []
    else (if inputs[0].0.Received? then [inputs[0].0.event] else []) + Taken(inputs[1..])
  }

  /** The batches handed to the store, in order, with what became of them. */
  function Batches(s: Stage, maxSources: nat, inputs: seq<(Input, Outcome)>): seq<(seq<Event>, Outcome)>
    decreases |inputs|
  {
    if inputs == [] then []
    else
      var (input, o) := inputs[0];
      var pending := Pending(s, input);
      var here := if Flushes(s, input) && pending != [] then [(pending, o)] else [];
      if input.Closed? then here else here + Batches(Next(s, maxSources, input, o), maxSources, inputs[1..])
  }

  function Concat(batches: seq<(seq<Event>, Outcome)>): seq<Event> {
    if batches == [] then [] else batches[0].0 + Concat(batches[1..])
  }

  /** The batches whose append succeeded. */
  function Kept(batches: seq<(seq<Event>, Outcome)>): seq<(seq<Event>, Outcome)> {
    if batches == [] then [] else (if batches[0].1.AppendFailed? then [] else [batches[0]]) + Kept(batches[1..])
  }

  function Stores(b: (seq<Event>, Outcome)): seq<Event> { if b.1.AppendFailed? then [] else b.0 }

  lemma FirstBatch(b: (seq<Event>, Outcome), rest: seq<(seq<Event>, Outcome)>)
    ensures Concat([b] + rest) == b.0 + Concat(rest)
    ensures Concat(Kept([b] + rest)) == Stores(b) + Concat(Kept(rest))
  {
    assert ([b] + rest)[1..] == rest;
    assert ([b] + Kept(rest))[1..] == Kept(rest);
    assert [] + Kept(rest) == Kept(rest);
  }

  /** One turn of the loop: what it hands to the store, what it logs and what it leaves pending. */
  lemma OneTurn(s: Stage, maxSources: nat, inputs: seq<(Input, Outcome)>)
    requires inputs != []
    ensures var (input, o) := inputs[0];
            var s' := Next(s, maxSources, input, o);
            var rest := if input.Closed? then [] else Batches(s', maxSources, inputs[1..]);
            var b := (Pending(s, input), o);
            if Flushes(s, input) && b.0 != [] then
              Batches(s, maxSources, inputs) == [b] + rest && s'.batch == [] && s'.log == s.log + Stores(b)
            else
              Batches(s, maxSources, inputs) == rest && s'.batch == b.0 && s'.log == s.log
  {
  }

  /** The batches cut up the queue: in order, without gap or overlap, and only the last events can be pending. */
  lemma {:induction false} BatchesPartition(s: Stage, maxSources: nat, inputs: seq<(Input, Outcome)>)
    ensures Concat(Batches(s, maxSources, inputs)) + Loop(s, maxSources, inputs).batch == s.batch + Taken(inputs)
    decreases |inputs|
  {
    hide Next, Flushes, Batches, Concat, Loop, Taken, Pending;
    NothingCut();
    if inputs == [] {
      NoBatches(s, maxSources);
    } else {
      var (input, o) := inputs[0];
      var s' := Next(s, maxSources, input, o);
      OneTurn(s, maxSources, inputs);
      var rest := if input.Closed? then [] else Batches(s', maxSources, inputs[1..]);
      FirstBatch((Pending(s, input), o), rest);
      if !input.Closed? {
        BatchesPartition(s', maxSources, inputs[1..]);
        PendingThenRest(s, inputs);
        GoesOn(s, maxSources, inputs);
        Joined(Pending(s, input), Concat(rest), Loop(s, maxSources, inputs).batch, Taken(inputs[1..]));
      } else {
        Stops(s, maxSources, inputs);
        assert Concat(rest) + [] == [] && s.batch + [] == s.batch;
      }
    }
  }

  lemma Joined(p: seq<Event>, c: seq<Event>, left: seq<Event>, taken: seq<Event>)
    ensures c + left == [] + taken ==> (p + c) + left == p + taken
  {
    assert (p + c) + left == p + (c + left);
    assert [] + taken == taken;
  }

  lemma GoesOn(s: Stage, maxSources: nat, inputs: seq<(Input, Outcome)>)
    requires inputs != [] && !inputs[0].0.Closed?
    ensures Loop(s, maxSources, inputs) == Loop(Next(s, maxSources, inputs[0].0, inputs[0].1), maxSources, inputs[1..])
  {
  }

  lemma Stops(s: Stage, maxSources: nat, inputs: seq<(Input, Outcome)>)
    requires inputs != [] && inputs[0].0.Closed?
    ensures Loop(s, maxSources, inputs) == Next(s, maxSources, inputs[0].0, inputs[0].1) && Taken(inputs) == []
    ensures Pending(s, inputs[0].0) == s.batch
  {
  }

  lemma NothingCut()
    ensures Concat([]) == [] && Concat(Kept([])) == []
  {
  }

  lemma NoBatches(s: Stage, maxSources: nat)
    ensures Batches(s, maxSources, []) == [] && Loop(s, maxSources, []) == s && Taken([]) == []
  {
  }

  lemma PendingThenRest(s: Stage, inputs: seq<(Input, Outcome)>)
    requires inputs != [] && !inputs[0].0.Closed?
    ensures s.batch + Taken(inputs) == Pending(s, inputs[0].0) + Taken(inputs[1..])
  {
  }

  /** The log grows by the batches whose append succeeded, in order. */
  lemma {:induction false} LogIsKeptBatches(s: Stage, maxSources: nat, inputs: seq<(Input, Outcome)>)
    ensures Loop(s, maxSources, inputs).log == s.log + Concat(Kept(Batches(s, maxSources, inputs)))
    decreases |inputs|
  {
    hide Next, Flushes, Batches, Concat, Kept, Stores;
    NothingCut();
    if inputs == [] {
      NoBatches(s, maxSources);
    } else {
      var (input, o) := inputs[0];
      var s' := Next(s, maxSources, input, o);
      OneTurn(s, maxSources, inputs);
      var rest := if input.Closed? then [] else Batches(s', maxSources, inputs[1..]);
      FirstBatch((Pending(s, input), o), rest);
      if !input.Closed? {
        LogIsKeptBatches(s', maxSources, inputs[1..]);
      }
    }
  }

  /** `a` is `b` with some elements left out. */
  predicate Thinned(a: seq<Event>, b: seq<Event>)
    decreases |b|
  {
    if b == [] then a == [] else Thinned(a, b[1..]) || (a != [] && a[0] == b[0] && Thinned(a[1..], b[1..]))
  }

  lemma {:induction false} ThinnedAfter(x: seq<Event>, a: seq<Event>, b: seq<Event>)
    requires Thinned(a, b)
    ensures Thinned(x + a, x + b) && Thinned(a, x + b)
  {
    if x == [] {
      assert x + a == a && x + b == b;
    } else {
      ThinnedAfter(x[1..], a, b);
      assert (x + a)[1..] == x[1..] + a && (x + b)[1..] == x[1..] + b;
    }
  }

  lemma {:induction false} ThinnedPrefix(a: seq<Event>, b: seq<Event>, c: seq<Event>)
    requires Thinned(a, b)
    ensures Thinned(a, b + c)
  {
    if b == [] {
      ThinnedToNothing(c);
      assert b + c == c;
    } else {
      assert (b + c)[1..] == b[1..] + c;
      if Thinned(a, b[1..]) {
        ThinnedPrefix(a, b[1..], c);
      } else {
        ThinnedPrefix(a[1..], b[1..], c);
      }
    }
  }

  lemma {:induction false} ThinnedToNothing(b: seq<Event>)
    ensures Thinned([], b)
  {
    if b != [] {
      ThinnedToNothing(b[1..]);
    }
  }

  lemma {:induction false} KeptThins(batches: seq<(seq<Event>, Outcome)>)
    ensures Thinned(Concat(Kept(batches)), Concat(batches))
  {
    if batches != [] {
      var first, rest := batches[0], batches[1..];
      KeptThins(rest);
      ThinnedAfter(first.0, Concat(Kept(rest)), Concat(rest));
      assert batches == [first] + rest;
      FirstBatch(first, rest);
      assert [] + Concat(Kept(rest)) == Concat(Kept(rest));
    }
  }

  /** In every run each event is stored at most once, and in the order it was taken from the queue. */
  lemma StoredAtMostOnce(s: Stage, maxSources: nat, inputs: seq<(Input, Outcome)>)
    ensures exists added :: Loop(s, maxSources, inputs).log == s.log + added && Thinned(added, s.batch + Taken(inputs))
  {
    var batches := Batches(s, maxSources, inputs);
    LogIsKeptBatches(s, maxSources, inputs);
    BatchesPartition(s, maxSources, inputs);
    KeptThins(batches);
    ThinnedPrefix(Concat(Kept(batches)), Concat(batches), Loop(s, maxSources, inputs).batch);
  }

  predicate NoneFailed(batches: seq<(seq<Event>, Outcome)>) {
    forall i :: 0 <= i < |batches| ==> !batches[i].1.AppendFailed?
  }

  /** Batches are never empty and never longer than the limit. */
  lemma {:induction false} BatchesAreBounded(s: Stage, maxSources: nat, inputs: seq<(Input, Outcome)>)
    requires |s.batch| < 512
    ensures forall b :: b in Batches(s, maxSources, inputs) ==> 0 < |b.0| <= 512
    ensures |Loop(s, maxSources, inputs).batch| < 512
    decreases |inputs|
  {
    hide NewSources, Elements;
    if inputs != [] && !inputs[0].0.Closed? {
      BatchesAreBounded(Next(s, maxSources, inputs[0].0, inputs[0].1), maxSources, inputs[1..]);
    }
  }

  /** Between ticks of the timer, events are appended 512 at a time and never sooner. */
  lemma {:induction false} FullBatches(s: Stage, maxSources: nat, inputs: seq<(Input, Outcome)>)
    requires |s.batch| < 512 && forall i :: 0 <= i < |inputs| ==> inputs[i].0.Received?
    ensures forall b :: b in Batches(s, maxSources, inputs) ==> |b.0| == 512
    ensures |Batches(s, maxSources, inputs)| == (|s.batch| + |inputs|) / 512
    decreases |inputs|
  {
    hide NewSources, Elements;
    if inputs != [] {
      FullBatches(Next(s, maxSources, inputs[0].0, inputs[0].1), maxSources, inputs[1..]);
    }
  }

  lemma {:induction false} KeptAllIff(batches: seq<(seq<Event>, Outcome)>)
    requires forall b :: b in batches ==> b.0 != []
    ensures |Concat(Kept(batches))| <= |Concat(batches)|
    ensures |Concat(Kept(batches))| == |Concat(batches)| <==> NoneFailed(batches)
    ensures NoneFailed(batches) ==> Kept(batches) == batches
  {
    if batches != [] {
      var first, rest := batches[0], batches[1..];
      assert forall b :: b in rest ==> b in batches;
      KeptAllIff(rest);
      assert batches == [first] + rest;
      FirstBatch(first, rest);
      assert first in batches && first.0 != [];
      NoneFailedCons(first, rest);
    }
  }

  lemma NoneFailedCons(first: (seq<Event>, Outcome), rest: seq<(seq<Event>, Outcome)>)
    ensures NoneFailed([first] + rest) <==> !first.1.AppendFailed? && NoneFailed(rest)
  {
    var all := [first] + rest;
    assert all[0] == first && all[1..] == rest;
    assert forall i :: 0 <= i < |rest| ==> all[i + 1] == rest[i];
    assert forall i :: 0 < i < |all| ==> all[i] == rest[i - 1];
  }

  /** Every event taken is stored exactly once precisely when no append failed and nothing is pending. */
  lemma StoredExactlyOnceIff(s: Stage, maxSources: nat, inputs: seq<(Input, Outcome)>)
    requires |s.batch| < BATCH_SIZE
    ensures var end := Loop(s, maxSources, inputs);
            end.log == s.log + (s.batch + Taken(inputs)) <==>
            NoneFailed(Batches(s, maxSources, inputs)) && end.batch == []
  {
    var end, batches := Loop(s, maxSources, inputs), Batches(s, maxSources, inputs);
    LogIsKeptBatches(s, maxSources, inputs);
    BatchesPartition(s, maxSources, inputs);
    BatchesAreBounded(s, maxSources, inputs);
    hide *;
    KeptAllIff(batches);
    assert |Concat(batches)| + |end.batch| == |s.batch + Taken(inputs)|;
    if NoneFailed(batches) && end.batch == [] {
      assert Concat(batches) + [] == Concat(batches);
    } else {
      assert |end.log| == |s.log| + |Concat(Kept(batches))|;
    }
  }

  /** A clean close leaves nothing pending. */
  lemma {:induction false} CloseFlushes(s: Stage, maxSources: nat, inputs: seq<(Input, Outcome)>)
    requires exists i :: 0 <= i < |inputs| && inputs[i].0.Closed?
    ensures Loop(s, maxSources, inputs).batch == []
    decreases |inputs|
  {
    hide NewSources, Elements;
    if !inputs[0].0.Closed? {
      var i :| 0 <= i < |inputs| && inputs[i].0.Closed?;
      assert inputs[1..][i - 1].0.Closed?;
      CloseFlushes(Next(s, maxSources, inputs[0].0, inputs[0].1), maxSources, inputs[1..]);
    }
  }

  // ------------------------------------------------------------------------------- known sources

  lemma {:induction false} ElementsSize(s: seq<string>)
    ensures |Elements(s)| <= |s|
  {
    if s != [] {
      var front, last := s[..|s| - 1], s[|s| - 1];
      ElementsSize(front);
      assert s == front + [last];
      assert Elements(s) == Elements(front) + {last};
    } else {
      assert Elements(s) == {};
    }
  }

  lemma NextKnown(s: Stage, maxSources: nat, input: Input, o: Outcome)
    ensures s.known <= Next(s, maxSources, input, o).known
    ensures |Next(s, maxSources, input, o).known| <= if |s.known| > maxSources then |s.known| else maxSources
  {
    hide Elements, Unknown;
    var pending := Pending(s, input);
    var added := NewSources(pending, s.known, maxSources);
    ElementsSize(added);
    assert |s.known + Elements(added)| <= |s.known| + |Elements(added)|;
    if |added| == 0 {
      NoElements(s.known);
    }
  }

  /** The known sources only grow, and never beyond the ceiling or the number they started with. */
  lemma {:induction false} KnownSourcesBounded(s: Stage, maxSources: nat, inputs: seq<(Input, Outcome)>)
    ensures s.known <= Loop(s, maxSources, inputs).known
    ensures |Loop(s, maxSources, inputs).known| <= if |s.known| > maxSources then |s.known| else maxSources
    decreases |inputs|
  {
    hide Next;
    if inputs != [] {
      var s' := Next(s, maxSources, inputs[0].0, inputs[0].1);
      NextKnown(s, maxSources, inputs[0].0, inputs[0].1);
      if !inputs[0].0.Closed? {
        KnownSourcesBounded(s', maxSources, inputs[1..]);
      }
    }
  }

  /** The timer leaves nothing pending: what was is stored, or lost with its append. */
  lemma TickFlushes(s: Stage, maxSources: nat, o: Outcome)
    ensures var t := Next(s, maxSources, Tick, o);
            t.batch == [] && t.log == if o.AppendFailed? then s.log else s.log + s.batch
  {
    hide NewSources, Elements;
  }

  /** A registration cut short is forgotten by the writer, so the store can end up above the ceiling. */
  lemma CutShortRegistrationsPassTheCeiling(a: Event, b: Event, c: Event, d: Event)
    requires NoDuplicates([a.source, b.source, c.source, d.source])
    ensures var once := Flush(Stage([a, b], {}, [], {}), 2, RegisterFailed(1));
            var twice := Flush(once.(batch := [c, d]), 2, Stored);
            twice.sources == {a.source, c.source, d.source} && |twice.sources| == 3 && |twice.known| == 2
  {
    hide Unknown, Elements, Flush;
    var names := [a.source, b.source, c.source, d.source];
    assert names[0] != names[1] && names[0] != names[2] && names[0] != names[3] && names[2] != names[3];
    TwoUnknown(a, b);
    TwoUnknown(c, d);
    assert [a.source, b.source][..1] == [a.source];
    ElementsOf([a.source], {a.source});
    ElementsOf([c.source, d.source], {c.source, d.source});
    FlushOf(Stage([a, b], {}, [], {}), 2, RegisterFailed(1), [a.source, b.source]);
    var once := Stage([], {}, [] + [a, b], {} + {a.source});
    FlushOf(once.(batch := [c, d]), 2, Stored, [c.source, d.source]);
    assert {} + {a.source} + {c.source, d.source} == {a.source, c.source, d.source};
    assert {a.source, c.source, d.source} - {a.source} == {c.source, d.source};
    assert {c.source, d.source} - {c.source} == {d.source};
  }

  lemma FlushOf(s: Stage, maxSources: nat, o: Outcome, added: seq<string>)
    requires s.batch != [] && s.known == {} && Unknown(s.batch, {}) == added && |added| <= maxSources && !o.AppendFailed?
    ensures Flush(s, maxSources, o) ==
            if CutShort(o, added) then Stage([], s.known, s.log + s.batch, s.sources + Elements(added[..o.registered]))
            else Stage([], s.known + Elements(added), s.log + s.batch, s.sources + Elements(added))
  {
    hide Elements, Unknown;
    assert added[..|added|] == added;
    assert NewSources(s.batch, s.known, maxSources) == added;
  }

  lemma ElementsOf(s: seq<string>, e: set<string>)
    requires forall x :: x in s <==> x in e
    ensures Elements(s) == e
  {
  }

  lemma TwoUnknown(x: Event, y: Event)
    requires x.source != y.source
    ensures Unknown([x, y], {}) == [x.source, y.source]
  {
    assert [x][..0] == [] && [x, y][..1] == [x];
    assert Unknown([], {}) == [];
    assert Unknown([x], {}) == [x.source];
  }
}
