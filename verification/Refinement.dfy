/** What it means that a method takes steps of the machine. */
module Refinement {
  import opened Wrappers
  import opened Events
  import opened Seqs
  import opened Tables
  import opened HotStore
  import opened EventMachine

  /** `t` is reached from `s` by the given enabled steps. */
  ghost predicate Leads(s: Machine, steps: seq<Step>, rules: Rules, t: Machine)
    decreases |steps|
  {
    if steps == [] then s == t
    else Enabled(s, steps[0]) && Leads(Apply(s, steps[0], rules), steps[1..], rules, t)
  }

  lemma NoSteps(s: Machine, rules: Rules)
    ensures Leads(s, [], rules, s)
  {
  }

  lemma {:induction false} LeadsThen(s: Machine, a: seq<Step>, rules: Rules, m: Machine, step: Step)
    requires Leads(s, a, rules, m) && Enabled(m, step)
    ensures Leads(s, a + [step], rules, Apply(m, step, rules))
    decreases |a|
  {
    hide Enabled, Apply;
    if a == [] {
      assert (a + [step])[1..] == [];
    } else {
      LeadsThen(Apply(s, a[0], rules), a[1..], rules, m, step);
      assert (a + [step])[1..] == a[1..] + [step];
    }
  }

  lemma LeadsAfter(s: Machine, step: Step, b: seq<Step>, rules: Rules, t: Machine)
    requires Enabled(s, step) && Leads(Apply(s, step, rules), b, rules, t)
    ensures Leads(s, [step] + b, rules, t)
  {
  }

  /** The store's fields are those of the machine. */
  ghost predicate Represents(store: Store, s: Machine)
    reads store
  {
    && store.events == s.hot && store.nextSeq == s.memSeq
    && NextSeqIn(store.meta) == s.diskSeq && VersionIn(store.meta) == s.version
  }

  /**
   An append is one step: `Append` when it succeeds, and otherwise `AppendFails` with the numbers it
   had already taken. An empty batch is no step.
   */
  method AppendRefines(store: Store, batch: seq<Event>, fault: Fault, ghost s: Machine, ghost rules: Rules)
    returns (r: Result<()>, ghost taken: seq<Step>, ghost t: Machine)
    requires Represents(store, s) && s.phase.Serving? && s.memSeq + |batch| < U64_LIMIT
    modifies store
    ensures Represents(store, t) && Leads(s, taken, rules, t)
    ensures batch == [] ==> taken == []
    ensures batch != [] && r.Ok? ==> taken == [Append(batch)]
    ensures r.Err? ==> exists used: nat :: used <= |batch| && taken == [AppendFails(used)]
  {
    r := store.AppendEvents(batch, fault);
    taken := if batch == [] then [] else if r.Ok? then [Append(batch)] else [AppendFails(store.nextSeq - s.memSeq)];
    t := if taken == [] then s else Apply(s, taken[0], rules);
    hide Keyed, Stamped, UpdateAll, Numbered, NextSeqIn, VersionIn;
    NoSteps(t, rules);
    if taken != [] {
      assert taken[1..] == [];
    }
  }
}
