/** How far the ceiling on auto-registered sources reaches (agent/src/ingest/pipeline.rs). */
module Ceiling {
  import opened Events
  import opened Seqs
  import opened Writer

  /** A flush whose last new sources are not registered because an earlier registration failed. */
  predicate FlushCutShort(s: Stage, maxSources: nat, input: Input, o: Outcome) {
    Flushes(s, input) && Pending(s, input) != [] && CutShort(o, NewSources(Pending(s, input), s.known, maxSources))
  }

  predicate NoneCutShort(s: Stage, maxSources: nat, inputs: seq<(Input, Outcome)>)
    decreases |inputs|
  {
    inputs == []
    || (!FlushCutShort(s, maxSources, inputs[0].0, inputs[0].1)
        && (inputs[0].0.Closed? || NoneCutShort(Next(s, maxSources, inputs[0].0, inputs[0].1), maxSources, inputs[1..])))
  }

  function Larger(a: nat, b: nat): nat { if a >= b then a else b }

  /** Stored sources never outnumber the larger of their first number and the ceiling. */
  predicate StaysUnder(s: Stage, maxSources: nat, inputs: seq<(Input, Outcome)>) {
    |Loop(s, maxSources, inputs).sources| <= Larger(|s.sources|, maxSources)
  }

  ghost predicate CeilingHolds(s: Stage, maxSources: nat) {
    forall inputs :: NoneCutShort(s, maxSources, inputs) ==> StaysUnder(s, maxSources, inputs)
  }

  ghost predicate CeilingAlwaysHolds(s: Stage, maxSources: nat) {
    forall inputs :: StaysUnder(s, maxSources, inputs)
  }

  /** There is no room left, or the writer knows at least as many sources as the store has. */
  predicate KnowsEnough(s: Stage, maxSources: nat) { |s.known| >= maxSources || |s.sources| <= |s.known| }

  // ----------------------------------------------------------------------------- counting sets

  lemma {:induction false} ElementsCount(s: seq<string>)
    requires NoDuplicates(s)
    ensures |Elements(s)| == |s|
  {
    if s == [] {
      assert Elements(s) == {};
    } else {
      var front, last := s[..|s| - 1], s[|s| - 1];
      ElementsCount(front);
      assert s == front + [last];
      assert Elements(s) == Elements(front) + {last};
      assert last !in front;
    }
  }

  lemma PrefixDistinct(s: seq<string>, n: nat)
    requires NoDuplicates(s)
    ensures NoDuplicates(Prefix(s, n)) && |Prefix(s, n)| <= n && forall x :: x in Prefix(s, n) ==> x in s
  {
  }

  /** New sources are new, and there is room for them. */
  lemma NewSourcesFit(events: seq<Event>, s: Stage, maxSources: nat)
    ensures var added := NewSources(events, s.known, maxSources);
            && |s.known + Elements(added)| == |s.known| + |added|
            && |s.sources + Elements(added)| <= |s.sources| + |added|
            && (|added| > 0 ==> |s.known| + |added| <= maxSources)
  {
    hide Unknown, Elements;
    var added := NewSources(events, s.known, maxSources);
    PrefixDistinct(Unknown(events, s.known), Room(s.known, maxSources));
    ElementsCount(added);
    ElementsIn(added);
    assert s.known * Elements(added) == {};
    Union(s.known, Elements(added));
    Union(s.sources, Elements(added));
  }

  lemma ElementsIn(s: seq<string>)
    ensures forall x :: x in Elements(s) <==> x in s
  {
  }

  lemma Union(a: set<string>, b: set<string>)
    ensures |a + b| <= |a| + |b| && (a * b == {} ==> |a + b| == |a| + |b|)
  {
    assert |a + b| == |a| + |b| - |a * b|;
  }

  // ------------------------------------------------------------------------------ where it holds

  lemma StoredKnows(s: Stage, maxSources: nat)
    requires s.batch != []
    ensures var t, added := Flush(s, maxSources, Stored), Prefix(Unknown(s.batch, s.known), Room(s.known, maxSources));
            t.known == s.known + Elements(added) && t.sources == s.sources + Elements(added)
  {
    hide Unknown, Elements, Prefix, Room;
  }

  /** A flush that meets no failure registers every new source of its events, unless that fills the ceiling. */
  lemma FlushRegisters(s: Stage, maxSources: nat)
    requires s.batch != []
    ensures var t := Flush(s, maxSources, Stored);
            && ((forall e :: e in s.batch ==> e.source in t.known) || |t.known| >= maxSources)
            && t.sources == s.sources + (t.known - s.known)
            && forall x :: x in t.known ==> x in s.known || exists e :: e in s.batch && e.source == x
  {
    var t := Flush(s, maxSources, Stored);
    var new_, added := Unknown(s.batch, s.known), NewSources(s.batch, s.known, maxSources);
    StoredKnows(s, maxSources);
    hide Flush, Unknown;
    assert forall x :: x in added ==> x in new_;
    if |added| == |new_| {
      assert added == new_;
      forall e | e in s.batch ensures e.source in t.known {
        assert e.source in s.known || e.source in new_;
      }
    } else {
      ElementsCount(added);
      Union(s.known, Elements(added));
    }
  }

  /** The first registrations of a list add at most their number to the store, and nothing that is not in the list. */
  lemma SomeRegistered(sources: set<string>, added: seq<string>, n: nat)
    requires n <= |added|
    ensures sources <= sources + Elements(added[..n]) <= sources + Elements(added)
    ensures |sources + Elements(added[..n])| <= |sources| + n
  {
    ElementsSize(added[..n]);
    Union(sources, Elements(added[..n]));
  }

  /**
   A failed append registers nothing and loses its batch; a failed registration keeps those before it,
   and the writer forgets them.
   */
  lemma FailedFlush(s: Stage, maxSources: nat, n: nat)
    requires s.batch != []
    ensures var t := Flush(s, maxSources, AppendFailed);
            t.log == s.log && t.sources == s.sources && t.known == s.known && t.batch == []
    ensures var t, full := Flush(s, maxSources, RegisterFailed(n)), Flush(s, maxSources, Stored);
            && t.log == full.log == s.log + s.batch && s.sources <= t.sources <= full.sources
            && |t.sources| <= |s.sources| + n && (t == full || t.known == s.known)
  {
    hide NewSources, Elements;
    var added := NewSources(s.batch, s.known, maxSources);
    var m := if n < |added| then n else |added|;
    SomeRegistered(s.sources, added, m);
    TakeAll(added);
  }

  lemma {:induction false} UnknownGrows(events: seq<Event>, i: nat, known: set<string>)
    requires i <= |events|
    ensures Unknown(events[..i], known) <= Unknown(events, known)
    decreases |events|
  {
    if i == |events| {
      assert events[..i] == events;
    } else {
      var front := events[..|events| - 1];
      UnknownGrows(front, i, known);
      assert events[..i] == front[..i];
    }
  }

  /** First come, first registered: at every event, all sources so far are registered or none from later on is. */
  lemma FirstComeFirstRegistered(s: Stage, maxSources: nat, i: nat)
    requires s.batch != [] && i <= |s.batch|
    ensures var t := Flush(s, maxSources, Stored);
            || (forall e :: e in s.batch[..i] ==> e.source in t.known)
            || (forall x :: x in t.known ==> x in s.known || exists e :: e in s.batch[..i] && e.source == x)
  {
    var t := Flush(s, maxSources, Stored);
    var all, early, room := Unknown(s.batch, s.known), Unknown(s.batch[..i], s.known), Room(s.known, maxSources);
    UnknownGrows(s.batch, i, s.known);
    StoredKnows(s, maxSources);
    hide Flush, Unknown, Room, NewSources;
    ElementsIn(Prefix(all, room));
    if |early| <= room {
      assert early <= Prefix(all, room);
      forall e | e in s.batch[..i] ensures e.source in t.known {
        assert e.source in s.known || e.source in early;
      }
    } else {
      assert Prefix(all, room) <= early;
    }
  }

  lemma EnoughStays(s: Stage, maxSources: nat, input: Input, o: Outcome)
    requires KnowsEnough(s, maxSources) && !FlushCutShort(s, maxSources, input, o)
    ensures var s' := Next(s, maxSources, input, o);
            KnowsEnough(s', maxSources) && |s'.sources| <= Larger(|s.sources|, maxSources)
  {
    hide NewSources, Elements;
    NewSourcesFit(Pending(s, input), s, maxSources);
    NothingAdded(s.sources);
    NothingAdded(s.known);
  }

  lemma NothingAdded(known: set<string>)
    ensures forall added: seq<string> :: |added| == 0 ==> known + Elements(added) == known
  {
    forall added: seq<string> | |added| == 0 ensures known + Elements(added) == known {
      assert added == [];
    }
  }

  /** A writer that knows enough keeps the store under the ceiling, whatever arrives. */
  lemma {:induction false} RegisteredSourcesBounded(s: Stage, maxSources: nat, inputs: seq<(Input, Outcome)>)
    requires KnowsEnough(s, maxSources) && NoneCutShort(s, maxSources, inputs)
    ensures StaysUnder(s, maxSources, inputs)
    decreases |inputs|
  {
    hide Next, KnowsEnough, FlushCutShort;
    if inputs != [] {
      var s' := Next(s, maxSources, inputs[0].0, inputs[0].1);
      EnoughStays(s, maxSources, inputs[0].0, inputs[0].1);
      if !inputs[0].0.Closed? {
        RegisteredSourcesBounded(s', maxSources, inputs[1..]);
      }
    }
  }

  // --------------------------------------------------------------------------- where it does not

  lemma {:induction false} LengthBound(names: set<string>) returns (n: nat)
    ensures forall x :: x in names ==> |x| < n
    decreases |names|
  {
    if names == {} {
      n := 0;
    } else {
      var y :| y in names;
      var m := LengthBound(names - {y});
      n := if |y| < m then m else |y| + 1;
    }
  }

  lemma NewName(names: set<string>) returns (x: string)
    ensures x !in names
  {
    var n := LengthBound(names);
    x := seq(n, _ => 'a');
  }

  function From(source: string): Event { BlankRow(PageLoad, source) }

  lemma UnknownOne(x: string, known: set<string>)
    requires x !in known
    ensures Unknown([From(x)], known) == [x]
  {
    assert [From(x)][..0] == [];
    assert Unknown([], known) == [];
  }

  lemma UnknownTwo(x: string, y: string, known: set<string>)
    requires x !in known && y !in known && x != y
    ensures Unknown([From(x), From(y)], known) == [x, y]
  {
    UnknownOne(x, known);
    assert [From(x), From(y)][..1] == [From(x)];
  }

  /** One new source arrives and the timer flushes it. */
  function OneTurnOf(x: string): seq<(Input, Outcome)> { [(Received(From(x)), Stored), (Tick, Stored)] }

  function WithSource(s: Stage, x: string): Stage {
    Stage([], s.known + {x}, s.log + [From(x)], s.sources + {x})
  }

  lemma OneStored(s: Stage, maxSources: nat, x: string, more: seq<(Input, Outcome)>)
    requires s.batch == [] && |s.known| < maxSources && x !in s.known
    ensures Loop(s, maxSources, OneTurnOf(x) + more) == Loop(WithSource(s, x), maxSources, more)
    ensures NoneCutShort(s, maxSources, OneTurnOf(x) + more) <==> NoneCutShort(WithSource(s, x), maxSources, more)
  {
    hide Unknown, Elements;
    var inputs := OneTurnOf(x) + more;
    var mid := s.(batch := [From(x)]);
    assert [] + [From(x)] == [From(x)];
    assert inputs[0] == (Received(From(x)), Stored) && inputs[1..][0] == (Tick, Stored);
    assert inputs[1..][1..] == more;
    UnknownOne(x, s.known);
    ElementsOf([x], {x});
    assert NewSources(mid.batch, mid.known, maxSources) == [x];
    assert Next(s, maxSources, Received(From(x)), Stored) == mid;
    assert Next(mid, maxSources, Tick, Stored) == WithSource(s, x);
    assert Loop(s, maxSources, inputs) == Loop(mid, maxSources, inputs[1..]);
    assert Loop(mid, maxSources, inputs[1..]) == Loop(WithSource(s, x), maxSources, more);
  }

  /** With room left and unknown stored sources, enough new sources carry the store over the ceiling. */
  lemma {:induction false} Overflow(s: Stage, maxSources: nat) returns (inputs: seq<(Input, Outcome)>)
    requires s.batch == [] && |s.known| < maxSources && |s.known| < |s.sources|
    ensures NoneCutShort(s, maxSources, inputs) && !StaysUnder(s, maxSources, inputs)
    decreases maxSources - |s.known|
  {
    var x := NewName(s.known + s.sources);
    var s' := WithSource(s, x);
    var more := [];
    if |s.known| + 1 < maxSources {
      more := Overflow(s', maxSources);
    }
    inputs := OneTurnOf(x) + more;
    OneStored(s, maxSources, x, more);
  }

  /**
   Which writers the ceiling bounds: over all runs in which no registration is cut short, the stored
   sources stay within the larger of their first number and the ceiling exactly when there was no room
   to begin with or the writer knows at least as many sources as the store has.
   */
  lemma CeilingHoldsIff(s: Stage, maxSources: nat)
    requires s.batch == []
    ensures CeilingHolds(s, maxSources) <==> |s.known| >= maxSources || |s.sources| <= |s.known|
  {
    hide NoneCutShort, StaysUnder;
    if KnowsEnough(s, maxSources) {
      forall inputs | NoneCutShort(s, maxSources, inputs) ensures StaysUnder(s, maxSources, inputs) {
        RegisteredSourcesBounded(s, maxSources, inputs);
      }
    } else {
      var inputs := Overflow(s, maxSources);
    }
  }

  /** A freshly started writer: its ceiling holds when the seed could be read, and else only on an empty store. */
  lemma SeededCeilingIff(log: seq<Event>, sources: set<string>, readable: bool, maxSources: nat)
    ensures CeilingHolds(Stage([], if readable then sources else {}, log, sources), maxSources)
            <==> readable || maxSources == 0 || sources == {}
  {
    hide CeilingHolds;
    CeilingHoldsIff(Stage([], if readable then sources else {}, log, sources), maxSources);
  }

  // --------------------------------------------------------- registrations that are cut short

  /** Two new sources arrive, and the second registration fails. */
  function LeakOf(x: string, y: string): seq<(Input, Outcome)> {
    [(Received(From(x)), Stored), (Received(From(y)), Stored), (Tick, RegisterFailed(1))]
  }

  function Leaked(s: Stage, x: string, y: string): Stage {
    Stage([], s.known, s.log + [From(x), From(y)], s.sources + {x})
  }

  lemma OneLeaked(s: Stage, maxSources: nat, x: string, y: string, more: seq<(Input, Outcome)>)
    requires s.batch == [] && |s.known| + 2 <= maxSources && x !in s.known && y !in s.known && x != y
    ensures Loop(s, maxSources, LeakOf(x, y) + more) == Loop(Leaked(s, x, y), maxSources, more)
  {
    hide Unknown, Elements;
    var inputs := LeakOf(x, y) + more;
    var one, two := s.(batch := [From(x)]), s.(batch := [From(x), From(y)]);
    assert [] + [From(x)] == [From(x)] && [From(x)] + [From(y)] == [From(x), From(y)];
    assert inputs[0] == LeakOf(x, y)[0] && inputs[1..][0] == LeakOf(x, y)[1] && inputs[1..][1..][0] == LeakOf(x, y)[2];
    assert inputs[1..][1..][1..] == more;
    UnknownTwo(x, y, s.known);
    ElementsOf([x], {x});
    assert NewSources(two.batch, two.known, maxSources) == [x, y];
    assert [x, y][..1] == [x];
    assert Next(s, maxSources, Received(From(x)), Stored) == one;
    assert Next(one, maxSources, Received(From(y)), Stored) == two;
    assert Next(two, maxSources, Tick, RegisterFailed(1)) == Leaked(s, x, y);
    assert Loop(s, maxSources, inputs) == Loop(one, maxSources, inputs[1..]);
    assert Loop(one, maxSources, inputs[1..]) == Loop(two, maxSources, inputs[1..][1..]);
  }

  /** With room for two, registrations cut short bring any store over the ceiling. */
  lemma {:induction false} Leak(s: Stage, maxSources: nat) returns (inputs: seq<(Input, Outcome)>)
    requires s.batch == [] && |s.known| + 2 <= maxSources
    ensures !StaysUnder(s, maxSources, inputs)
    decreases if |s.sources| <= |s.known| then |s.known| + 1 - |s.sources| else 0
  {
    if |s.known| < |s.sources| {
      inputs := Overflow(s, maxSources);
    } else {
      var x := NewName(s.known + s.sources);
      var y := NewName(s.known + s.sources + {x});
      var more := Leak(Leaked(s, x, y), maxSources);
      inputs := LeakOf(x, y) + more;
      OneLeaked(s, maxSources, x, y, more);
    }
  }

  /** No room, or room for one source and none that the store has and the writer does not know. */
  predicate CannotLeak(s: Stage, maxSources: nat) {
    |s.known| >= maxSources || (|s.known| + 1 == maxSources && |s.sources| <= |s.known|)
  }

  lemma CannotLeakStays(s: Stage, maxSources: nat, input: Input, o: Outcome)
    requires CannotLeak(s, maxSources)
    ensures var s' := Next(s, maxSources, input, o);
            CannotLeak(s', maxSources) && |s'.sources| <= Larger(|s.sources|, maxSources)
  {
    hide NewSources, Elements;
    NewSourcesFit(Pending(s, input), s, maxSources);
    NothingAdded(s.sources);
    NothingAdded(s.known);
  }

  lemma {:induction false} StaysUnderAlways(s: Stage, maxSources: nat, inputs: seq<(Input, Outcome)>)
    requires CannotLeak(s, maxSources)
    ensures StaysUnder(s, maxSources, inputs)
    decreases |inputs|
  {
    hide Next, CannotLeak;
    if inputs != [] {
      var s' := Next(s, maxSources, inputs[0].0, inputs[0].1);
      CannotLeakStays(s, maxSources, inputs[0].0, inputs[0].1);
      if !inputs[0].0.Closed? {
        StaysUnderAlways(s', maxSources, inputs[1..]);
      }
    }
  }

  /** Over all runs, registrations cut short included, it holds exactly for writers with at most one source to go. */
  lemma CeilingAlwaysHoldsIff(s: Stage, maxSources: nat)
    requires s.batch == []
    ensures CeilingAlwaysHolds(s, maxSources)
            <==> |s.known| >= maxSources || (|s.known| + 1 == maxSources && |s.sources| <= |s.known|)
  {
    hide StaysUnder;
    if CannotLeak(s, maxSources) {
      forall inputs ensures StaysUnder(s, maxSources, inputs) {
        StaysUnderAlways(s, maxSources, inputs);
      }
    } else if |s.known| < |s.sources| {
      var inputs := Overflow(s, maxSources);
    } else {
      var inputs := Leak(s, maxSources);
    }
  }
}
