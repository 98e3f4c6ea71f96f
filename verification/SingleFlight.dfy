/** Concurrent callers share one run of an operation (ui/src/auth.rs, module single_flight). */
module SingleFlight {
  import opened Wrappers

  /** What a caller holds of the run it joined: the generation tag and its handle to the shared future. */
  datatype Ticket = Ticket(generation: nat, run: nat)

  /** `runs` lists the shared futures started so far, each with its result once it has settled. */
  datatype Flight<T> = Flight(current: Option<Ticket>, generation: nat, runs: seq<Option<T>>)

  /** What polling an unsettled shared future yields. */
  datatype Outcome<T> = Pending | Ready(value: T)

  function Join<T>(f: Flight<T>): (Flight<T>, Ticket) {
    match f.current
    case Some(ticket) => (f, ticket)
    case None =>
      var ticket := Ticket(f.generation + 1, |f.runs|);
      (Flight(Some(ticket), f.generation + 1, f.runs + [None]), ticket)
  }

  function Settle<T>(f: Flight<T>, run: nat, o: Outcome<T>): Flight<T>
    requires run < |f.runs|
  {
    if f.runs[run].None? && o.Ready? then f.(runs := f.runs[run := Some(o.value)]) else f
  }

  function Retire<T>(f: Flight<T>, generation: nat): Flight<T> {
    if f.current.Some? && f.current.value.generation == generation then f.(current := None) else f
  }

  /** One poll of a caller: a settled run hands out its result and is retired in the same turn. */
  function Await<T>(f: Flight<T>, t: Ticket, o: Outcome<T>): (Flight<T>, Option<T>)
    requires t.run < |f.runs|
  {
    var settled := Settle(f, t.run, o);
    var result := settled.runs[t.run];
    (if result.Some? then Retire(settled, t.generation) else settled, result)
  }

  class SingleFlight<T> {
    var current: Option<Ticket>
    var generation: nat
    var runs: seq<Option<T>>

    function State(): Flight<T>
      reads this
    {
      Flight(current, generation, runs)
    }

    constructor ()
      ensures State() == Flight(None, 0, [])
    {
      current := None;
      generation := 0;
      runs := [];
    }

    method JoinOrStart() returns (ticket: Ticket)
      modifies this
      ensures (State(), ticket) == Join(old(State()))
    {
      if current.Some? {
        return current.value;
      }
      generation := generation + 1;
      ticket := Ticket(generation, |runs|);
      runs := runs + [None];
      current := Some(ticket);
    }

    method PollShared(ticket: Ticket, outcome: Outcome<T>) returns (result: Option<T>)
      requires ticket.run < |runs|
      modifies this
      ensures (State(), result) == Await(old(State()), ticket, outcome)
    {
      if runs[ticket.run].None? && outcome.Ready? {
        runs := runs[ticket.run := Some(outcome.value)];
      }
      result := runs[ticket.run];
      if result.Some? && current.Some? && current.value.generation == ticket.generation {
        current := None;
      }
    }
  }

  // ---------------------------------------------------------------------------- interleavings

  datatype Caller<T> = Waiting(ticket: Ticket) | Returned(generation: nat, value: T) | Dropped

  datatype System<T> = System(flight: Flight<T>, callers: map<nat, Caller<T>>)

  /** A caller that has not run yet joins at its first poll and goes on to poll what it joined. */
  datatype Step<T> = Poll(caller: nat, outcome: Outcome<T>) | Drop(caller: nat)

  function Initial<T>(): System<T> { System(Flight(None, 0, []), map[]) }

  function PollWith<T>(f: Flight<T>, callers: map<nat, Caller<T>>, c: nat, t: Ticket, o: Outcome<T>): System<T>
    requires t.run < |f.runs|
  {
    var (f', result) := Await(f, t, o);
    System(f', callers[c := if result.Some? then Returned(t.generation, result.value) else Waiting(t)])
  }

  /** Handles are only ever handed out for started runs. */
  predicate Handles<T>(s: System<T>) {
    && (s.flight.current.Some? ==> s.flight.current.value.run < |s.flight.runs|)
    && forall c :: c in s.callers && s.callers[c].Waiting? ==> s.callers[c].ticket.run < |s.flight.runs|
  }

  function Next<T>(s: System<T>, step: Step<T>): System<T>
    requires Handles(s)
  {
    match step
    case Drop(c) =>
      if c in s.callers && s.callers[c].Returned? then s else s.(callers := s.callers[c := Dropped])
    case Poll(c, o) =>
      if c !in s.callers then
        var (f, t) := Join(s.flight);
        PollWith(f, s.callers, c, t, o)
      else if s.callers[c].Waiting? then PollWith(s.flight, s.callers, c, s.callers[c].ticket, o)
      else s
  }

  // -------------------------------------------------------------------------------- invariant

  /** Generation `g` tags the `g`-th run. */
  predicate Matches<T>(f: Flight<T>, t: Ticket) {
    1 <= t.generation <= f.generation && t.run == t.generation - 1
  }

  /** The current run is the newest and unsettled, and every other run has settled. */
  predicate FlightInv<T>(f: Flight<T>) {
    && |f.runs| == f.generation
    && (f.current.Some? ==> Matches(f, f.current.value) && f.current.value.generation == f.generation)
    && forall r :: 0 <= r < |f.runs| ==> (f.runs[r].None? <==> f.current.Some? && f.current.value.run == r)
  }

  ghost predicate CallerInv<T>(f: Flight<T>, c: Caller<T>) {
    match c
    case Waiting(t) => Matches(f, t)
    case Returned(g, v) => 1 <= g <= f.generation && g <= |f.runs| && f.runs[g - 1] == Some(v)
    case Dropped => true
  }

  ghost predicate Inv<T>(s: System<T>) {
    && FlightInv(s.flight)
    && forall c :: c in s.callers ==> CallerInv(s.flight, s.callers[c])
  }

  /** Later flights have all earlier runs, and settled ones keep their result. */
  ghost predicate Extends<T>(f: Flight<T>, g: Flight<T>) {
    && f.generation <= g.generation && |f.runs| <= |g.runs|
    && forall r :: 0 <= r < |f.runs| && f.runs[r].Some? ==> g.runs[r] == f.runs[r]
  }

  lemma InvHandles<T>(s: System<T>)
    requires Inv(s)
    ensures Handles(s)
  {
  }

  lemma JoinKeeps<T>(f: Flight<T>)
    requires FlightInv(f)
    ensures var (g, t) := Join(f); FlightInv(g) && Matches(g, t) && Extends(f, g) && g.runs[t.run].None?
  {
  }

  /** A poll settles at most the current run, and retires nothing but the run it returns from. */
  lemma AwaitKeeps<T>(f: Flight<T>, t: Ticket, o: Outcome<T>)
    requires FlightInv(f) && Matches(f, t)
    ensures var (g, result) := Await(f, t, o);
            FlightInv(g) && Extends(f, g) && g.runs[t.run] == result && g.generation == f.generation
    ensures t.generation < f.generation ==> Await(f, t, o).0 == f
  {
  }

  lemma CallersKeep<T>(callers: map<nat, Caller<T>>, f: Flight<T>, g: Flight<T>)
    requires Extends(f, g) && forall c :: c in callers ==> CallerInv(f, callers[c])
    ensures forall c :: c in callers ==> CallerInv(g, callers[c])
  {
  }

  lemma StepKeeps<T>(s: System<T>, step: Step<T>)
    requires Inv(s)
    ensures Handles(s) && Inv(Next(s, step)) && Extends(s.flight, Next(s, step).flight)
  {
    hide FlightInv, Await;
    InvHandles(s);
    var s' := Next(s, step);
    if step.Poll? {
      var c, o := step.caller, step.outcome;
      if c !in s.callers {
        var (f, t) := Join(s.flight);
        JoinKeeps(s.flight);
        AwaitKeeps(f, t, o);
        CallersKeep(s.callers, s.flight, s'.flight);
      } else if s.callers[c].Waiting? {
        assert CallerInv(s.flight, s.callers[c]);
        AwaitKeeps(s.flight, s.callers[c].ticket, o);
        CallersKeep(s.callers, s.flight, s'.flight);
      }
    }
  }

  // ------------------------------------------------------------------------------- whole runs

  /** The states a schedule passes through, first to last. */
  ghost predicate IsRun<T(!new)>(states: seq<System<T>>, steps: seq<Step<T>>) {
    && |states| == |steps| + 1 && states[0] == Initial()
    && forall i :: 0 <= i < |steps| ==> Handles(states[i]) && states[i + 1] == Next(states[i], steps[i])
  }

  lemma {:induction false} RunKeeps<T(!new)>(states: seq<System<T>>, steps: seq<Step<T>>, i: nat, j: nat)
    requires IsRun(states, steps) && i <= j < |states|
    ensures Inv(states[j]) && Inv(states[i]) && Extends(states[i].flight, states[j].flight)
    decreases j
  {
    hide Inv, Extends, Next;
    if j == 0 {
      assert Inv(Initial<T>()) && Extends(Initial<T>().flight, Initial<T>().flight) by { Start<T>(); }
    } else if i == j {
      RunKeeps(states, steps, j - 1, j - 1);
      StepKeeps(states[j - 1], steps[j - 1]);
      ExtendsLaws(states[j].flight, states[j].flight, states[j].flight);
    } else {
      RunKeeps(states, steps, i, j - 1);
      assert states[j] == Next(states[j - 1], steps[j - 1]);
      StepKeeps(states[j - 1], steps[j - 1]);
      ExtendsLaws(states[i].flight, states[j - 1].flight, states[j].flight);
    }
  }

  lemma Start<T>()
    ensures Inv(Initial<T>()) && Extends(Initial<T>().flight, Initial<T>().flight)
  {
  }

  lemma ExtendsLaws<T>(f: Flight<T>, g: Flight<T>, h: Flight<T>)
    ensures Extends(f, f) && (Extends(f, g) && Extends(g, h) ==> Extends(f, h))
  {
  }

  /** At every moment of every schedule, at most one started run is unsettled, and it is the one new callers join. */
  lemma AtMostOneUnsettled<T(!new)>(states: seq<System<T>>, steps: seq<Step<T>>, i: nat, r1: nat, r2: nat)
    requires IsRun(states, steps) && i < |states|
    requires r1 < |states[i].flight.runs| && states[i].flight.runs[r1].None?
    requires r2 < |states[i].flight.runs| && states[i].flight.runs[r2].None?
    ensures r1 == r2 == Join(states[i].flight).1.run && Join(states[i].flight).0 == states[i].flight
  {
    RunKeeps(states, steps, i, i);
    assert states[i].flight.runs[r1].None? && states[i].flight.runs[r2].None?;
  }

  /** A run is started exactly when none is unsettled. */
  lemma StartsOnlyWhenIdle<T(!new)>(states: seq<System<T>>, steps: seq<Step<T>>, i: nat)
    requires IsRun(states, steps) && i < |steps|
    ensures |states[i + 1].flight.runs| > |states[i].flight.runs| <==>
            steps[i].Poll? && steps[i].caller !in states[i].callers &&
            forall r :: 0 <= r < |states[i].flight.runs| ==> states[i].flight.runs[r].Some?
  {
    RunKeeps(states, steps, i, i);
    var f := states[i].flight;
    if f.current.Some? {
      assert f.runs[f.current.value.run].None?;
    }
  }

  /** A caller returns the one result of the generation it joined, and that never changes. */
  lemma ResultsAreShared<T(!new)>(states: seq<System<T>>, steps: seq<Step<T>>, i: nat, c: nat, j: nat, d: nat)
    requires IsRun(states, steps) && i <= j < |states|
    requires c in states[i].callers && states[i].callers[c].Returned?
    requires d in states[j].callers && states[j].callers[d].Returned?
    requires states[i].callers[c].generation == states[j].callers[d].generation
    ensures states[i].callers[c].value == states[j].callers[d].value
    ensures var g := states[i].callers[c].generation;
            1 <= g <= |states[j].flight.runs| && states[j].flight.runs[g - 1] == Some(states[i].callers[c].value)
  {
    RunKeeps(states, steps, i, j);
    assert CallerInv(states[i].flight, states[i].callers[c]);
    assert CallerInv(states[j].flight, states[j].callers[d]);
  }

  /** Between joining and returning, a caller keeps to its generation. */
  lemma {:induction false} KeepsItsGeneration<T(!new)>(states: seq<System<T>>, steps: seq<Step<T>>, i: nat, j: nat, c: nat)
    requires IsRun(states, steps) && i <= j < |states|
    requires c in states[i].callers && states[i].callers[c].Waiting?
    ensures c in states[j].callers
    ensures var was, now := states[i].callers[c], states[j].callers[c];
            now == was || now == Dropped || (now.Returned? && now.generation == was.ticket.generation)
    decreases j
  {
    if i < j {
      KeepsItsGeneration(states, steps, i, j - 1, c);
      assert states[j] == Next(states[j - 1], steps[j - 1]);
    }
  }

  /** Polling and retiring an old generation never touches a newer run. */
  lemma OldCallersLeaveNewRuns<T(!new)>(states: seq<System<T>>, steps: seq<Step<T>>, i: nat)
    requires IsRun(states, steps) && i < |steps| && steps[i].Poll?
    requires steps[i].caller in states[i].callers && states[i].callers[steps[i].caller].Waiting?
    requires states[i].callers[steps[i].caller].ticket.generation < states[i].flight.generation
    ensures states[i + 1].flight == states[i].flight
    ensures states[i + 1].callers[steps[i].caller].Returned?
  {
    RunKeeps(states, steps, i, i);
    var t := states[i].callers[steps[i].caller].ticket;
    assert CallerInv(states[i].flight, states[i].callers[steps[i].caller]);
    AwaitKeeps(states[i].flight, t, steps[i].outcome);
    assert states[i].flight.runs[t.run].Some?;
  }

  // --------------------------------------------------------------------------------- progress

  /** A caller that has yet to return: it has not run so far, or it waits. */
  predicate Outstanding<T>(s: System<T>, c: nat) { c !in s.callers || s.callers[c].Waiting? }

  /** The run a caller polls: the one it joined, or for a new caller the unsettled one, or else a new one. */
  function PolledRun<T>(s: System<T>, c: nat): nat
    requires Outstanding(s, c)
  {
    if c in s.callers then s.callers[c].ticket.run
    else if s.flight.current.Some? then s.flight.current.value.run
    else |s.flight.runs|
  }

  predicate Settled<T>(s: System<T>, r: nat) { r < |s.flight.runs| && s.flight.runs[r].Some? }

  lemma PollStep<T>(s: System<T>, c: nat, o: Outcome<T>)
    requires Inv(s) && Outstanding(s, c) && Handles(s)
    ensures var t, r := Next(s, Poll(c, o)), PolledRun(s, c);
            && c in t.callers && r < |t.flight.runs|
            && t.flight.runs[r] == (if Settled(s, r) then s.flight.runs[r]
                                    else if o.Ready? then Some(o.value)
                                    else None)
            && (Settled(t, r) ==> t.callers[c] == Returned(r + 1, t.flight.runs[r].value))
            && (!Settled(t, r) ==> t.callers[c] == Waiting(Ticket(r + 1, r)))
            && forall q :: 0 <= q < |t.flight.runs| && q != r ==> q < |s.flight.runs| && t.flight.runs[q] == s.flight.runs[q]
  {
  }

  /**
   A poll that finds its operation ready returns at once: with the value it brings when the run was
   unsettled, else with the value the run settled with before. It leaves no run unsettled that it polled.
   */
  lemma ReadyReturns<T(!new)>(states: seq<System<T>>, steps: seq<Step<T>>, i: nat, c: nat, v: T)
    requires IsRun(states, steps) && i < |steps| && steps[i] == Poll(c, Ready(v)) && Outstanding(states[i], c)
    ensures c in states[i + 1].callers && states[i + 1].callers[c].Returned?
    ensures var r := PolledRun(states[i], c);
            && Settled(states[i + 1], r) && states[i + 1].callers[c].generation == r + 1
            && states[i + 1].callers[c].value == if Settled(states[i], r) then states[i].flight.runs[r].value else v
  {
    hide Next;
    RunKeeps(states, steps, i, i);
    PollStep(states[i], c, Ready(v));
  }

  /** A pending poll of an unsettled run waits for that run, and settles nothing. */
  lemma PendingWaits<T(!new)>(states: seq<System<T>>, steps: seq<Step<T>>, i: nat, c: nat)
    requires IsRun(states, steps) && i < |steps| && steps[i] == Poll(c, Pending) && Outstanding(states[i], c)
    ensures var r := PolledRun(states[i], c);
            && c in states[i + 1].callers
            && if Settled(states[i], r) then states[i + 1].callers[c] == Returned(r + 1, states[i].flight.runs[r].value)
               else states[i + 1].callers[c] == Waiting(Ticket(r + 1, r)) && !Settled(states[i + 1], r)
  {
    hide Next;
    RunKeeps(states, steps, i, i);
    PollStep(states[i], c, Pending);
  }

  /** Once the operation is ready for one caller, the next new caller starts a fresh run, numbered next. */
  lemma ReadyThenFresh<T(!new)>(states: seq<System<T>>, steps: seq<Step<T>>, i: nat, c: nat, v: T, d: nat)
    requires IsRun(states, steps) && i < |steps| && steps[i] == Poll(c, Ready(v)) && Outstanding(states[i], c)
    requires PolledRun(states[i], c) + 1 >= |states[i].flight.runs| && d !in states[i + 1].callers
    ensures PolledRun(states[i + 1], d) == |states[i + 1].flight.runs|
    ensures var f := states[i + 1].flight; forall r :: 0 <= r < |f.runs| ==> f.runs[r].Some?
  {
    hide Next;
    RunKeeps(states, steps, i, i);
    RunKeeps(states, steps, i + 1, i + 1);
    PollStep(states[i], c, Ready(v));
    var f, g := states[i].flight, states[i + 1].flight;
    forall r | 0 <= r < |g.runs| ensures g.runs[r].Some? {
      assert r < |f.runs| && r != PolledRun(states[i], c) ==> f.runs[r].Some?;
    }
    CurrentIsUnsettled(g);
  }

  lemma CurrentIsUnsettled<T>(f: Flight<T>)
    requires FlightInv(f)
    ensures f.current.Some? ==> f.current.value.run < |f.runs| && f.runs[f.current.value.run].None?
  {
  }

  /** A started run settles with `v` exactly in the step in which one of its callers finds it ready with `v`. */
  lemma SettlesIff<T(!new)>(states: seq<System<T>>, steps: seq<Step<T>>, i: nat, r: nat, v: T)
    requires IsRun(states, steps) && i < |steps| && r < |states[i].flight.runs| && !Settled(states[i], r)
    ensures r < |states[i + 1].flight.runs|
    ensures states[i + 1].flight.runs[r] == Some(v)
            <==> && steps[i].Poll? && steps[i].outcome == Ready(v)
                 && Outstanding(states[i], steps[i].caller) && PolledRun(states[i], steps[i].caller) == r
  {
    RunKeeps(states, steps, i, i);
    StepKeeps(states[i], steps[i]);
    if steps[i].Poll? && Outstanding(states[i], steps[i].caller) {
      hide Next;
      PollStep(states[i], steps[i].caller, steps[i].outcome);
    }
  }
}
