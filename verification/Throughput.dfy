/** The rate is granted, not only bounded: which requests of a run the token buckets allow. */
module Throughput {
  import opened RateLimiter

  /** The bucket of `key` was last read at `clock` or before. */
  predicate ReadBy(b: Buckets, key: string, clock: real) { key in b ==> b[key].last <= clock }

  lemma GainAdds(l: Limits, a: real, b: real, c: real)
    requires a <= b <= c
    ensures Gain(l, a, c) == Gain(l, a, b) + Gain(l, b, c) && Gain(l, a, c) == (c - a) * l.refill
  {
  }

  lemma LevelRises(l: Limits, b: Buckets, key: string, from: real, to: real)
    requires l.Valid() && Sound(l, b) && from <= to && ReadBy(b, key, from)
    ensures Level(l, b, key, to) == Min(Level(l, b, key, from) + Gain(l, from, to), l.capacity)
  {
    GainLaws(l, from, from, to);
    if key in b {
      GainAdds(l, b[key].last, from, to);
      hide Gain;
    }
  }

  /** Between two readings of the clock a key's level rises by what the rate refills, up to the capacity. */
  lemma RefillsAtTheRate(l: Limits, b: Buckets, key: string, from: real, to: real)
    requires l.Valid() && Sound(l, b) && from <= to && ReadBy(b, key, from)
    ensures Level(l, b, key, to) == Min(Level(l, b, key, from) + (to - from) * l.refill, l.capacity)
  {
    hide Level, Sound;
    LevelRises(l, b, key, from, to);
  }

  /** At least one refill period passes from one time to the other. */
  predicate PeriodApart(l: Limits, from: real, to: real) { from <= to && (to - from) * l.refill >= 1.0 }

  /** Whatever a request found, one refill period later its key has a token again. */
  lemma PeriodSuffices(l: Limits, b: Buckets, key: string, s: real, t: real)
    requires l.Valid() && Sound(l, b) && PeriodApart(l, s, t)
    ensures Admits(l, After(l, b, Check(key, s)), key, t)
  {
    AfterKeepsSound(l, b, Check(key, s));
    RefillsAtTheRate(l, After(l, b, Check(key, s)), key, s, t);
    GainLaws(l, s, s, s);
  }

  /** The operations read the clock in order, between `from` and `to`. */
  predicate InOrder(ops: seq<Op>, from: real, to: real) {
    from <= to && Monotone(ops) && forall i :: 0 <= i < |ops| ==> from <= ops[i].now <= to
  }

  /** Other keys' requests and cleanups leave a key's level as it is. */
  lemma OthersKeepLevel(l: Limits, b: Buckets, op: Op, key: string, t: real)
    requires l.Valid() && Sound(l, b) && op.now <= t && !(op.Check? && op.key == key)
    ensures Level(l, After(l, b, op), key, t) == Level(l, b, key, t)
    ensures ReadBy(b, key, t) ==> ReadBy(After(l, b, op), key, t)
  {
    LevelOverTime(l, b, key, op.now, t);
  }

  function Cost(l: Limits, b: Buckets, op: Op, key: string): nat {
    if op.Check? && op.key == key && Admits(l, b, key, op.now) then 1 else 0
  }

  /** The least that the windows from each operation up to `t` leave of capacity and refill. */
  function Room(l: Limits, b: Buckets, ops: seq<Op>, key: string, t: real): real
    decreases |ops|
  {
    if ops == [] then l.capacity
    else
      Min(l.capacity + Gain(l, ops[0].now, t) - Allowed(l, b, ops, key) as real,
          Room(l, After(l, b, ops[0]), ops[1..], key, t))
  }

  lemma LevelAfter(l: Limits, b: Buckets, op: Op, key: string, clock: real)
    requires l.Valid() && Sound(l, b) && clock <= op.now && ReadBy(b, key, clock)
    ensures var b' := After(l, b, op);
            && ReadBy(b', key, op.now) && Sound(l, b')
            && Level(l, b', key, op.now)
            == Min(Level(l, b, key, clock) + Gain(l, clock, op.now), l.capacity) - Cost(l, b, op, key) as real
  {
    AfterKeepsSound(l, b, op);
    hide Gain, After, Level, Sound, Admits;
    LevelRises(l, b, key, clock, op.now);
    if op.Check? && op.key == key {
      LevelTaken(l, b, key, op.now);
    } else {
      OthersKeepLevel(l, b, op, key, op.now);
    }
  }

  lemma LevelTaken(l: Limits, b: Buckets, key: string, now: real)
    requires l.Valid() && Sound(l, b)
    ensures var b' := After(l, b, Check(key, now));
            && ReadBy(b', key, now)
            && Level(l, b', key, now) == Level(l, b, key, now) - (if Admits(l, b, key, now) then 1.0 else 0.0)
  {
    hide Gain;
    GainLaws(l, now, now, now);
    LevelOverTime(l, b, key, now, now);
  }

  /** In clock order the level is what the start and every window since leave over. */
  lemma {:induction false} LevelIs(l: Limits, b: Buckets, ops: seq<Op>, key: string, clock: real, t: real)
    requires l.Valid() && Sound(l, b) && ReadBy(b, key, clock) && InOrder(ops, clock, t)
    ensures Sound(l, Final(l, b, ops))
    ensures Level(l, Final(l, b, ops), key, t)
         == Min(Level(l, b, key, clock) + Gain(l, clock, t) - Allowed(l, b, ops, key) as real, Room(l, b, ops, key, t))
    decreases |ops|
  {
    hide Level, Gain, After, Sound, ReadBy, Admits;
    if ops == [] {
      LevelRises(l, b, key, clock, t);
    } else {
      var op, rest := ops[0], ops[1..];
      LevelAfter(l, b, op, key, clock);
      assert InOrder(rest, op.now, t);
      LevelIs(l, After(l, b, op), rest, key, op.now, t);
      GainAdds(l, clock, op.now, t);
      assert Allowed(l, b, ops, key) == Cost(l, b, op, key) + Allowed(l, After(l, b, op), rest, key);
    }
  }

  /** The requests for `key` allowed from operation `j` on. */
  function AllowedFrom(l: Limits, b: Buckets, ops: seq<Op>, j: nat, key: string): nat
    requires j <= |ops|
  {
    Allowed(l, Final(l, b, ops[..j]), ops[j..], key)
  }

  lemma AllowedLater(l: Limits, b: Buckets, ops: seq<Op>, j: nat, key: string)
    requires 0 < j <= |ops|
    ensures AllowedFrom(l, b, ops, j, key) == AllowedFrom(l, After(l, b, ops[0]), ops[1..], j - 1, key)
  {
    hide After, Allowed;
    assert ops[..j][0] == ops[0] && ops[..j][1..] == ops[1..][..j - 1] && ops[1..][j - 1..] == ops[j..];
  }

  lemma AllowedAll(l: Limits, b: Buckets, ops: seq<Op>, key: string)
    ensures AllowedFrom(l, b, ops, 0, key) == Allowed(l, b, ops, key)
  {
    hide Allowed;
    assert ops[..0] == [] && ops[0..] == ops;
  }

  lemma {:induction false} RoomForOne(l: Limits, b: Buckets, ops: seq<Op>, key: string, t: real)
    requires l.Valid()
    ensures Room(l, b, ops, key, t) >= 1.0
            <==> forall j :: 0 <= j < |ops| ==>
                               AllowedFrom(l, b, ops, j, key) as real + 1.0 <= l.capacity + Gain(l, ops[j].now, t)
    decreases |ops|
  {
    hide Gain, After, Allowed, AllowedFrom;
    if ops != [] {
      var b', rest := After(l, b, ops[0]), ops[1..];
      RoomForOne(l, b', rest, key, t);
      AllowedAll(l, b, ops, key);
      forall j | 0 < j < |ops| ensures AllowedFrom(l, b, ops, j, key) == AllowedFrom(l, b', rest, j - 1, key) {
        AllowedLater(l, b, ops, j, key);
      }
      assert forall j :: 0 <= j < |rest| ==> rest[j] == ops[j + 1];
      if Room(l, b, ops, key, t) >= 1.0 {
        forall j | 0 <= j < |ops|
          ensures AllowedFrom(l, b, ops, j, key) as real + 1.0 <= l.capacity + Gain(l, ops[j].now, t)
        {
          if j > 0 {
            assert AllowedFrom(l, b', rest, j - 1, key) as real + 1.0 <= l.capacity + Gain(l, rest[j - 1].now, t);
          }
        }
      }
    }
  }

  predicate IsRequest(op: Op, key: string) { op.Check? && op.key == key }

  function RequestsOf(ops: seq<Op>, key: string): nat {
    if ops == [] then 0 else (if IsRequest(ops[0], key) then 1 else 0) + RequestsOf(ops[1..], key)
  }

  lemma {:induction false} SplitRun(l: Limits, b: Buckets, xs: seq<Op>, ys: seq<Op>, key: string)
    ensures Final(l, b, xs + ys) == Final(l, Final(l, b, xs), ys)
    ensures Allowed(l, b, xs + ys, key) == Allowed(l, b, xs, key) + Allowed(l, Final(l, b, xs), ys, key)
    ensures RequestsOf(xs + ys, key) == RequestsOf(xs, key) + RequestsOf(ys, key)
    decreases |xs|
  {
    hide After, Admits;
    if xs == [] {
      assert xs + ys == ys;
    } else {
      assert (xs + ys)[0] == xs[0] && (xs + ys)[1..] == xs[1..] + ys;
      SplitRun(l, After(l, b, xs[0]), xs[1..], ys, key);
    }
  }

  lemma {:induction false} AllowedAreRequests(l: Limits, b: Buckets, ops: seq<Op>, key: string)
    ensures Allowed(l, b, ops, key) <= RequestsOf(ops, key)
    decreases |ops|
  {
    hide After, Admits;
    if ops != [] {
      AllowedAreRequests(l, After(l, b, ops[0]), ops[1..], key);
    }
  }

  /** What the limits grant in the time between: the capacity and the refill. */
  function Quota(l: Limits, from: real, to: real): real { l.capacity + l.refill * (to - from) }

  lemma QuotaGains(l: Limits, from: real, to: real)
    requires from <= to
    ensures Quota(l, from, to) == l.capacity + Gain(l, from, to)
  {
    GainAdds(l, from, from, to);
  }

  /** The window from the first operation leaves no less than the start does. */
  lemma StartHasRoom(l: Limits, b: Buckets, ops: seq<Op>, key: string, t: real)
    requires l.Valid() && Room(l, b, ops, key, t) >= 1.0
    ensures l.capacity + Gain(l, if ops == [] then t else ops[0].now, t) - Allowed(l, b, ops, key) as real >= 1.0
  {
    hide After;
  }

  /**
   Which request is allowed, for a key that starts untracked: exactly one that keeps every window so
   far, from any earlier operation up to its own time, within the capacity and the refill of the window.
   */
  lemma AdmittedIff(l: Limits, b: Buckets, ops: seq<Op>, key: string, t: real)
    requires l.Valid() && Sound(l, b) && key !in b && Monotone(ops) && forall i :: 0 <= i < |ops| ==> ops[i].now <= t
    ensures Admits(l, Final(l, b, ops), key, t)
            <==> forall j :: 0 <= j < |ops| ==>
                               AllowedFrom(l, b, ops, j, key) as real + 1.0 <= Quota(l, ops[j].now, t)
  {
    hide Final, AllowedFrom, Allowed, Gain, Room, Quota, Sound;
    var start := if ops == [] then t else ops[0].now;
    assert Level(l, b, key, start) == l.capacity;
    LevelIs(l, b, ops, key, start, t);
    RoomForOne(l, b, ops, key, t);
    forall j | 0 <= j < |ops| ensures Quota(l, ops[j].now, t) == l.capacity + Gain(l, ops[j].now, t) {
      QuotaGains(l, ops[j].now, t);
    }
    if Room(l, b, ops, key, t) >= 1.0 {
      StartHasRoom(l, b, ops, key, t);
    }
  }

  /** Every window of the run holds no more requests for `key` than the capacity and the refill of its length. */
  ghost predicate Conforms(l: Limits, ops: seq<Op>, key: string) {
    forall i, j :: 0 <= i <= j < |ops| ==>
                     RequestsOf(ops[i..j + 1], key) as real <= Quota(l, ops[i].now, ops[j].now)
  }

  lemma {:induction false} ConformingIsAllowed(l: Limits, b: Buckets, ops: seq<Op>, key: string)
    requires l.Valid() && Sound(l, b) && key !in b && Monotone(ops) && Conforms(l, ops, key)
    ensures Allowed(l, b, ops, key) == RequestsOf(ops, key)
    decreases |ops|
  {
    hide Quota, Allowed, RequestsOf, Final, AllowedFrom, Admits;
    if ops == [] {
      NoRequests(l, b, key);
    } else {
      var n := |ops| - 1;
      var front, last := ops[..n], ops[n];
      assert ops == front + [last];
      assert Conforms(l, front, key) by { ConformsFront(l, ops, key); }
      ConformingIsAllowed(l, b, front, key);
      SplitRun(l, b, front, [last], key);
      OneRequest(l, Final(l, b, front), last, key);
      if last.Check? && last.key == key {
        AdmittedIff(l, b, front, key, last.now);
        forall j | 0 <= j < |front|
          ensures AllowedFrom(l, b, front, j, key) as real + 1.0 <= Quota(l, front[j].now, last.now)
        {
          WindowToLast(l, b, ops, j, key);
        }
      }
    }
  }

  lemma NoRequests(l: Limits, b: Buckets, key: string)
    ensures Allowed(l, b, [], key) == RequestsOf([], key)
  {
  }

  lemma ConformsFront(l: Limits, ops: seq<Op>, key: string)
    requires Conforms(l, ops, key) && ops != []
    ensures Conforms(l, ops[..|ops| - 1], key)
  {
    hide Quota;
    var front := ops[..|ops| - 1];
    forall i, j | 0 <= i <= j < |front|
      ensures RequestsOf(front[i..j + 1], key) as real <= Quota(l, front[i].now, front[j].now)
    {
      assert front[i..j + 1] == ops[i..j + 1];
    }
  }

  lemma OneRequest(l: Limits, b: Buckets, op: Op, key: string)
    ensures RequestsOf([op], key) == if IsRequest(op, key) then 1 else 0
    ensures Allowed(l, b, [op], key) == if IsRequest(op, key) && Admits(l, b, key, op.now) then 1 else 0
  {
    hide Admits, After;
    assert Allowed(l, After(l, b, op), [op][1..], key) == 0;
  }

  lemma WindowToLast(l: Limits, b: Buckets, ops: seq<Op>, j: nat, key: string)
    requires j < |ops| - 1 && Conforms(l, ops, key) && RequestsOf([ops[|ops| - 1]], key) == 1
    ensures var front, last := ops[..|ops| - 1], ops[|ops| - 1];
            AllowedFrom(l, b, front, j, key) as real + 1.0 <= Quota(l, ops[j].now, last.now)
  {
    hide Quota, Allowed, RequestsOf, Final;
    var n := |ops| - 1;
    var front := ops[..n];
    AllowedAreRequests(l, Final(l, b, front[..j]), front[j..], key);
    assert ops[j..n + 1] == front[j..] + [ops[n]];
    SplitRun(l, b, front[j..], [ops[n]], key);
  }

  /** In clock order, every request of a key is allowed exactly when its requests conform to the rate in every window. */
  lemma AllAllowedIff(l: Limits, b: Buckets, ops: seq<Op>, key: string)
    requires l.Valid() && Sound(l, b) && key !in b && Monotone(ops)
    ensures Allowed(l, b, ops, key) == RequestsOf(ops, key) <==> Conforms(l, ops, key)
  {
    hide Quota, Allowed, RequestsOf, Final;
    if Conforms(l, ops, key) {
      ConformingIsAllowed(l, b, ops, key);
    } else if Allowed(l, b, ops, key) == RequestsOf(ops, key) {
      forall i, j | 0 <= i <= j < |ops|
        ensures RequestsOf(ops[i..j + 1], key) as real <= Quota(l, ops[i].now, ops[j].now)
      {
        AllowedWindow(l, b, ops, i, j, key);
      }
    }
  }

  lemma AllowedWindow(l: Limits, b: Buckets, ops: seq<Op>, i: nat, j: nat, key: string)
    requires l.Valid() && Sound(l, b) && Monotone(ops) && i <= j < |ops|
    requires Allowed(l, b, ops, key) == RequestsOf(ops, key)
    ensures RequestsOf(ops[i..j + 1], key) as real <= Quota(l, ops[i].now, ops[j].now)
  {
    hide Quota, Allowed, RequestsOf, Final, Sound;
    var before, window, after := ops[..i], ops[i..j + 1], ops[j + 1..];
    var b1 := Final(l, b, before);
    assert ops == before + (window + after);
    SplitRun(l, b, before, window + after, key);
    SplitRun(l, b1, window, after, key);
    AllowedAreRequests(l, b, before, key);
    AllowedAreRequests(l, b1, window, key);
    AllowedAreRequests(l, Final(l, b1, window), after, key);
    FinalIsSound(l, b, before);
    WithinQuota(l, b1, window, key);
  }

  lemma FinalIsSound(l: Limits, b: Buckets, ops: seq<Op>)
    requires l.Valid() && Sound(l, b)
    ensures Sound(l, Final(l, b, ops))
  {
    RateBound(l, b, ops, "", 0.0);
  }

  lemma WithinQuota(l: Limits, b: Buckets, ops: seq<Op>, key: string)
    requires l.Valid() && Sound(l, b) && ops != [] && Monotone(ops)
    ensures Allowed(l, b, ops, key) as real <= Quota(l, ops[0].now, ops[|ops| - 1].now)
  {
    hide Sound, Allowed;
    RateBoundInOrder(l, b, ops, key);
  }

  /** The requests for `key` come at least one refill period apart. */
  predicate Spaced(l: Limits, ops: seq<Op>, key: string) {
    forall i, j :: 0 <= i < j < |ops| && IsRequest(ops[i], key) && IsRequest(ops[j], key) ==>
                     PeriodApart(l, ops[i].now, ops[j].now)
  }

  /** Requests one refill period apart are all allowed, whatever other keys and cleanups do in between. */
  lemma SpacedIsAllowed(l: Limits, b: Buckets, ops: seq<Op>, key: string)
    requires l.Valid() && Sound(l, b) && key !in b && Monotone(ops) && Spaced(l, ops, key)
    ensures Allowed(l, b, ops, key) == RequestsOf(ops, key)
  {
    hide Allowed, RequestsOf, Quota, PeriodApart;
    forall i, j | 0 <= i <= j < |ops|
      ensures RequestsOf(ops[i..j + 1], key) as real <= Quota(l, ops[i].now, ops[j].now)
    {
      SpacedWindow(l, ops[i..j + 1], key);
    }
    ConformingIsAllowed(l, b, ops, key);
  }

  lemma {:induction false} SpacedWindow(l: Limits, ops: seq<Op>, key: string)
    requires l.Valid() && Monotone(ops) && Spaced(l, ops, key) && ops != []
    ensures RequestsOf(ops, key) as real <= Quota(l, ops[0].now, ops[|ops| - 1].now)
    decreases |ops|
  {
    hide Quota, PeriodApart, Gain;
    var rest, end := ops[1..], ops[|ops| - 1].now;
    QuotaGains(l, ops[0].now, end);
    GainLaws(l, ops[0].now, ops[0].now, end);
    if rest == [] {
      assert RequestsOf(rest, key) == 0;
    } else if IsRequest(ops[0], key) {
      SpacedSince(l, rest, key, ops[0].now);
    } else {
      SpacedWindow(l, rest, key);
      QuotaGains(l, rest[0].now, end);
      GainAdds(l, ops[0].now, rest[0].now, end);
      GainLaws(l, ops[0].now, ops[0].now, rest[0].now);
    }
  }

  /** After a request at `since`, spaced requests take no more than what is refilled. */
  lemma {:induction false} SpacedSince(l: Limits, ops: seq<Op>, key: string, since: real)
    requires l.Valid() && Monotone(ops) && Spaced(l, ops, key) && ops != [] && since <= ops[0].now
    requires forall i :: 0 <= i < |ops| && IsRequest(ops[i], key) ==> PeriodApart(l, since, ops[i].now)
    ensures RequestsOf(ops, key) as real <= Gain(l, since, ops[|ops| - 1].now)
    decreases |ops|
  {
    hide PeriodApart, Gain;
    var op, rest, end := ops[0], ops[1..], ops[|ops| - 1].now;
    GainAdds(l, since, op.now, end);
    GainLaws(l, since, since, op.now);
    GainLaws(l, op.now, op.now, end);
    if IsRequest(op, key) {
      PeriodGains(l, since, op.now);
    }
    if rest == [] {
      assert RequestsOf(rest, key) == 0;
    } else if IsRequest(op, key) {
      SpacedSince(l, rest, key, op.now);
    } else {
      SpacedSince(l, rest, key, since);
    }
  }

  lemma PeriodGains(l: Limits, from: real, to: real)
    requires PeriodApart(l, from, to)
    ensures Gain(l, from, to) >= 1.0
  {
  }
}
