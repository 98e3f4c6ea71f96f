/** Sequence operations of the Rust standard library and of polars that the agent relies on. */
module Seqs {

  function Map<A, B>(f: A -> B, s: seq<A>): (r: seq<B>)
    ensures |r| == |s|
    ensures forall i :: 0 <= i < |s| ==> r[i] == f(s[i])
  {
    seq(|s|, i requires 0 <= i < |s| => f(s[i]))
  }

  function Filter<A(!new)>(p: A -> bool, s: seq<A>): (r: seq<A>)
    ensures forall x :: x in r <==> x in s && p(x)
  {
    if s == [] then []
    else if p(s[|s| - 1]) then Filter(p, s[..|s| - 1]) + [s[|s| - 1]]
    else Filter(p, s[..|s| - 1])
  }

  lemma FilterSnoc<A(!new)>(p: A -> bool, s: seq<A>, x: A)
    ensures Filter(p, s + [x]) == if p(x) then Filter(p, s) + [x] else Filter(p, s)
  {
  }

  function Prefix<A>(s: seq<A>, n: nat): seq<A> { if |s| < n then s else s[..n] }

  predicate NoDuplicates<A(==)>(s: seq<A>) {
    forall i, j :: 0 <= i < j < |s| ==> s[i] != s[j]
  }

  /** `LazyFrame::unique` over all columns, keeping one copy of each row. */
  function Unique<A(==,!new)>(s: seq<A>): (r: seq<A>)
    ensures NoDuplicates(r)
    ensures forall x :: x in r <==> x in s
  {
    if s == [] then []
    else
      var front := Unique(s[..|s| - 1]);
      var last := s[|s| - 1];
      assert s == s[..|s| - 1] + [last];
      if last in front then front else front + [last]
  }

  /** `Vec::dedup`: drop an element equal to the one kept before it. */
  function Dedup<A(==)>(s: seq<A>): (r: seq<A>)
    ensures s != [] <==> r != []
    ensures s != [] ==> r[|r| - 1] == s[|s| - 1]
  {
    if |s| <= 1 then s
    else if s[|s| - 1] == s[|s| - 2] then Dedup(s[..|s| - 1])
    else Dedup(s[..|s| - 1]) + [s[|s| - 1]]
  }

  lemma DedupSnoc<A>(s: seq<A>, y: A)
    requires s != []
    ensures Dedup(s + [y]) == if s[|s| - 1] == y then Dedup(s) else Dedup(s) + [y]
  {
  }

  /** Repeating an element next to itself is invisible to `Dedup`. */
  lemma {:induction false} DedupIgnoresRepeats<A>(before: seq<A>, x: A, after: seq<A>)
    ensures Dedup(before + [x, x] + after) == Dedup(before + [x] + after)
  {
    hide Dedup;
    if after == [] {
      assert before + [x, x] + after == (before + [x]) + [x];
      assert before + [x] + after == before + [x];
      DedupSnoc(before + [x], x);
    } else {
      var front, y := after[..|after| - 1], after[|after| - 1];
      DedupIgnoresRepeats(before, x, front);
      assert before + [x, x] + after == (before + [x, x] + front) + [y];
      assert before + [x] + after == (before + [x] + front) + [y];
      DedupSnoc(before + [x, x] + front, y);
      DedupSnoc(before + [x] + front, y);
    }
  }

  predicate Injective<A(!new)>(s: set<A>, rank: A -> int) {
    forall x, y :: x in s && y in s && rank(x) == rank(y) ==> x == y
  }

  predicate IsLeast<A(!new)>(x: A, s: set<A>, rank: A -> int) {
    x in s && forall y :: y in s ==> rank(x) <= rank(y)
  }

  lemma LeastExists<A(!new)>(s: set<A>, rank: A -> int)
    requires s != {}
    ensures exists x :: IsLeast(x, s, rank)
    decreases |s|
  {
    var x :| x in s;
    if s == {x} {
      assert IsLeast(x, s, rank);
    } else {
      LeastExists(s - {x}, rank);
      var z :| IsLeast(z, s - {x}, rank);
      assert s == (s - {x}) + {x};
      assert IsLeast(if rank(x) <= rank(z) then x else z, s, rank);
    }
  }

  function Least<A(!new)>(s: set<A>, rank: A -> int): (x: A)
    requires s != {} && Injective(s, rank)
    ensures IsLeast(x, s, rank)
  {
    LeastExists(s, rank);
    var x :| IsLeast(x, s, rank);
    x
  }

  predicate Increasing<A(!new)>(r: seq<A>, rank: A -> int) {
    forall i, j :: 0 <= i < j < |r| ==> rank(r[i]) < rank(r[j])
  }

  /** The elements of `s` in increasing order of `rank`. */
  function Ascending<A(!new)>(s: set<A>, rank: A -> int): (r: seq<A>)
    requires Injective(s, rank)
    ensures forall x :: x in r <==> x in s
    decreases |s|
  {
    if s == {} then []
    else
      var x := Least(s, rank);
      [x] + Ascending(s - {x}, rank)
  }

  lemma {:induction false} AscendingIncreases<A(!new)>(s: set<A>, rank: A -> int)
    requires Injective(s, rank)
    ensures Increasing(Ascending(s, rank), rank)
    decreases |s|
  {
    if s != {} {
      var x := Least(s, rank);
      var rest := Ascending(s - {x}, rank);
      AscendingIncreases(s - {x}, rank);
      forall j | 0 <= j < |rest| ensures rank(x) < rank(rest[j]) {
        assert rest[j] in rest;
      }
    }
  }

  lemma Take<A>(s: seq<A>, i: nat)
    requires i < |s|
    ensures s[..i + 1][..i] == s[..i] && s[..i + 1] == s[..i] + [s[i]] && |s[..i + 1]| == i + 1
    ensures s[..|s|] == s
  {
  }

  lemma HasFirst<A>(s: seq<A>)
    requires s != []
    ensures s[0] in s
  {
  }

  lemma TakeAll<A>(s: seq<A>)
    ensures s[..|s|] == s
  {
  }

  // ------------------------------------------------------------------------ maps

  /** Insert the pairs one after another. */
  function UpdateAll<K, V>(m: map<K, V>, pairs: seq<(K, V)>): map<K, V> {
    if pairs == [] then m
    else UpdateAll(m, pairs[..|pairs| - 1])[pairs[|pairs| - 1].0 := pairs[|pairs| - 1].1]
  }

  /** The keys are new to the map and differ from each other. */
  predicate FreshKeys<K, V>(m: map<K, V>, pairs: seq<(K, V)>) {
    && (forall i :: 0 <= i < |pairs| ==> pairs[i].0 !in m)
    && (forall i, j :: 0 <= i < j < |pairs| ==> pairs[i].0 != pairs[j].0)
  }

  lemma UpdateLast<K, V>(m: map<K, V>, pairs: seq<(K, V)>)
    requires pairs != []
    ensures var n := |pairs| - 1; UpdateAll(m, pairs) == UpdateAll(m, pairs[..n])[pairs[n].0 := pairs[n].1]
  {
  }

  lemma NoUpdates<K, V>(m: map<K, V>)
    ensures UpdateAll(m, []) == m
  {
  }

  /** Inserting under fresh keys loses nothing, overwrites nothing and adds exactly the pairs. */
  lemma {:induction false} UpdateFresh<K, V>(m: map<K, V>, pairs: seq<(K, V)>)
    requires FreshKeys(m, pairs)
    ensures forall k :: k in m ==> k in UpdateAll(m, pairs) && UpdateAll(m, pairs)[k] == m[k]
    ensures forall i :: 0 <= i < |pairs| ==>
                          pairs[i].0 in UpdateAll(m, pairs) && UpdateAll(m, pairs)[pairs[i].0] == pairs[i].1
    ensures forall k :: k in UpdateAll(m, pairs) ==>
                          k in m || exists i :: 0 <= i < |pairs| && pairs[i].0 == k
  {
    hide UpdateAll;
    if pairs == [] {
      NoUpdates<K, V>(m);
    } else {
      var n := |pairs| - 1;
      UpdateLast(m, pairs);
      UpdateFresh(m, pairs[..n]);
      forall k | k in UpdateAll(m, pairs[..n]) && k !in m
        ensures exists i :: 0 <= i < n && pairs[i].0 == k
      {
        var i :| 0 <= i < n && pairs[..n][i].0 == k;
      }
    }
  }
}
