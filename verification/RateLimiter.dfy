/**
 Per-key token buckets (agent/src/ratelimit.rs), over reals. The clock is read before the lock is
 taken, so the times of successive operations come in any order.
 */
module RateLimiter {
  datatype Bucket = Bucket(tokens: real, last: real)

  type Buckets = map<string, Bucket>

  datatype Limits = Limits(capacity: real, refill: real) {
    predicate Valid() { capacity >= 1.0 && refill > 0.0 }
  }

  datatype Op = Check(key: string, now: real) | Cleanup(now: real)

  function Min(a: real, b: real): real { if a <= b then a else b }

  /** `duration_since` saturates at zero. */
  function Elapsed(now: real, last: real): real { if now >= last then now - last else 0.0 }

  /** The tokens refilled in between. */
  function Gain(l: Limits, from: real, to: real): real { Elapsed(to, from) * l.refill }

  /** The tokens `key` has at hand at `now`; an untracked key has all of them. */
  function Level(l: Limits, b: Buckets, key: string, now: real): real {
    if key !in b then l.capacity
    else Min(b[key].tokens + Gain(l, b[key].last, now), l.capacity)
  }

  predicate Admits(l: Limits, b: Buckets, key: string, now: real) { Level(l, b, key, now) >= 1.0 }

  predicate Sound(l: Limits, b: Buckets) {
    forall k :: k in b ==> 0.0 <= b[k].tokens <= l.capacity
  }

  function After(l: Limits, b: Buckets, op: Op): Buckets {
    match op
    case Check(key, now) =>
      var left := Level(l, b, key, now) - (if Admits(l, b, key, now) then 1.0 else 0.0);
      b[key := Bucket(left, now)]
    case Cleanup(now) =>
      map k | k in b && Level(l, b, k, now) < l.capacity :: b[k]
  }

  class RateLimiter {
    const limits: Limits
    var buckets: Buckets

    ghost predicate Valid()
      reads this
    {
      limits.Valid() && Sound(limits, buckets)
    }

    constructor (perMinute: nat, burst: nat)
      ensures Valid() && buckets == map[]
      ensures limits.capacity == (if burst > 1 then burst else 1) as real
      ensures limits.refill * 60.0 == (if perMinute > 1 then perMinute else 1) as real
    {
      limits := Limits((if burst > 1 then burst else 1) as real, (if perMinute > 1 then perMinute else 1) as real / 60.0);
      buckets := map[];
    }

    method Check(key: string, now: real) returns (allowed: bool)
      requires Valid()
      modifies this`buckets
      ensures Valid()
      ensures allowed == Admits(limits, old(buckets), key, now)
      ensures buckets == After(limits, old(buckets), Op.Check(key, now))
    {
      if key !in buckets {
        buckets := buckets[key := Bucket(limits.capacity, now)];
      }
      var bucket := buckets[key];
      var elapsed := Elapsed(now, bucket.last);
      GainsTokens(elapsed, limits.refill);
      assert elapsed * limits.refill == Gain(limits, bucket.last, now);
      var tokens := Min(bucket.tokens + elapsed * limits.refill, limits.capacity);
      allowed := tokens >= 1.0;
      if allowed {
        tokens := tokens - 1.0;
      }
      GainLaws(limits, now, now, now);
      buckets := buckets[key := Bucket(tokens, now)];
      assert buckets == old(buckets)[key := Bucket(tokens, now)];
    }

    /** Drops the buckets that have refilled by `now`. */
    method Cleanup(now: real)
      requires Valid()
      modifies this`buckets
      ensures Valid()
      ensures buckets == After(limits, old(buckets), Op.Cleanup(now))
    {
      var all := buckets;
      var kept: Buckets := map[];
      var todo := all.Keys;
      while todo != {}
        invariant todo <= all.Keys
        invariant kept == map k | k in all && k !in todo && Level(limits, all, k, now) < limits.capacity :: all[k]
      {
        var k :| k in todo;
        todo := todo - {k};
        if Min(all[k].tokens + Elapsed(now, all[k].last) * limits.refill, limits.capacity) < limits.capacity {
          kept := kept[k := all[k]];
        }
      }
      buckets := kept;
    }
  }

  // ------------------------------------------------------------------------------ arithmetic

  lemma GainsTokens(elapsed: real, refill: real)
    requires elapsed >= 0.0 && refill > 0.0
    ensures elapsed * refill >= 0.0
  {
  }

  /** Moving through `b` on the way from `a` to `c` never refills less than going there at once. */
  lemma GainLaws(l: Limits, a: real, b: real, c: real)
    requires l.Valid()
    ensures Gain(l, a, c) >= 0.0 && Gain(l, b, c) >= 0.0 && Gain(l, a, a) == 0.0
    ensures Gain(l, a, c) <= Gain(l, a, b) + Gain(l, b, c)
    ensures b <= c ==> Gain(l, a, b) <= Gain(l, a, c)
  {
  }

  /** Moving the clock never gives more than its forward movement refills, and never takes tokens when it moves on. */
  lemma LevelOverTime(l: Limits, b: Buckets, key: string, from: real, to: real)
    requires l.Valid() && Sound(l, b)
    ensures 0.0 <= Level(l, b, key, to) <= l.capacity
    ensures Level(l, b, key, to) <= Level(l, b, key, from) + Gain(l, from, to)
    ensures from <= to ==> Level(l, b, key, from) <= Level(l, b, key, to)
  {
    GainLaws(l, from, from, to);
    if key in b {
      GainLaws(l, b[key].last, from, to);
      hide Gain;
    }
  }

  /** Tokens stay between zero and the capacity, whatever the clock does. */
  lemma AfterKeepsSound(l: Limits, b: Buckets, op: Op)
    requires l.Valid() && Sound(l, b)
    ensures Sound(l, After(l, b, op))
  {
  }

  // ------------------------------------------------------------------------------ the rate bound

  function Final(l: Limits, b: Buckets, ops: seq<Op>): Buckets
    decreases |ops|
  {
    if ops == [] then b else Final(l, After(l, b, ops[0]), ops[1..])
  }

  /** How many of the requests for `key` were allowed. */
  function Allowed(l: Limits, b: Buckets, ops: seq<Op>, key: string): nat
    decreases |ops|
  {
    if ops == [] then 0
    else
      (if ops[0].Check? && ops[0].key == key && Admits(l, b, key, ops[0].now) then 1 else 0)
      + Allowed(l, After(l, b, ops[0]), ops[1..], key)
  }

  /** Total forward movement of the clock over the operations, in lock order, from `clock` on. */
  function Forward(clock: real, ops: seq<Op>): real
    decreases |ops|
  {
    if ops == [] then 0.0 else Elapsed(ops[0].now, clock) + Forward(ops[0].now, ops[1..])
  }

  /** One step pays for the request it allows out of the level and the movement of the clock. */
  lemma StepPays(l: Limits, b: Buckets, op: Op, key: string, clock: real)
    requires l.Valid() && Sound(l, b)
    ensures (if op.Check? && op.key == key && Admits(l, b, key, op.now) then 1.0 else 0.0)
            + Level(l, After(l, b, op), key, op.now) <= Level(l, b, key, clock) + Gain(l, clock, op.now)
  {
    hide Gain;
    LevelOverTime(l, b, key, clock, op.now);
    if op.Check? && op.key == key {
      GainLaws(l, op.now, op.now, op.now);
    }
  }

  /** Every stretch of every run: allowed requests never exceed the tokens at hand and those refilled since. */
  lemma {:induction false} RateBound(l: Limits, b: Buckets, ops: seq<Op>, key: string, clock: real)
    requires l.Valid() && Sound(l, b)
    ensures Allowed(l, b, ops, key) as real <= Level(l, b, key, clock) + l.refill * Forward(clock, ops)
    ensures Level(l, b, key, clock) <= l.capacity && Sound(l, Final(l, b, ops))
    decreases |ops|
  {
    hide Level, After, Sound, Admits;
    LevelOverTime(l, b, key, clock, clock);
    if ops != [] {
      var op := ops[0];
      StepPays(l, b, op, key, clock);
      AfterKeepsSound(l, b, op);
      RateBound(l, After(l, b, op), ops[1..], key, op.now);
      assert l.refill * Forward(clock, ops) == Gain(l, clock, op.now) + l.refill * Forward(op.now, ops[1..]);
    }
  }

  predicate Monotone(ops: seq<Op>) { forall i, j :: 0 <= i < j < |ops| ==> ops[i].now <= ops[j].now }

  lemma {:induction false} MonotoneForward(clock: real, ops: seq<Op>)
    requires ops != [] && Monotone(ops) && clock <= ops[0].now
    ensures Forward(clock, ops) == ops[|ops| - 1].now - clock
    decreases |ops|
  {
    var rest := ops[1..];
    if rest == [] {
      assert Forward(ops[0].now, rest) == 0.0;
    } else {
      assert rest[0] == ops[1] && ops[0].now <= ops[1].now && rest[|rest| - 1] == ops[|ops| - 1];
      MonotoneForward(ops[0].now, rest);
    }
  }

  lemma InStretch(allowed: real, l: Limits, forward: real, stretch: real)
    requires allowed <= l.capacity + l.refill * forward && forward == stretch
    ensures allowed <= l.capacity + l.refill * stretch
  {
  }

  /** When lock order is clock order, a stretch from `a` to `b` allows at most capacity + refill x (b - a) requests. */
  lemma RateBoundInOrder(l: Limits, b: Buckets, ops: seq<Op>, key: string)
    requires l.Valid() && Sound(l, b) && ops != [] && Monotone(ops)
    ensures Allowed(l, b, ops, key) as real <= l.capacity + l.refill * (ops[|ops| - 1].now - ops[0].now)
  {
    hide *;
    RateBound(l, b, ops, key, ops[0].now);
    MonotoneForward(ops[0].now, ops);
    InStretch(Allowed(l, b, ops, key) as real, l, Forward(ops[0].now, ops), ops[|ops| - 1].now - ops[0].now);
  }

  // ------------------------------------------------------------------------------- the burst

  function Burst(key: string, now: real, count: nat): seq<Op> {
    if count == 0 then [] else [Check(key, now)] + Burst(key, now, count - 1)
  }

  /** A key with `n` tokens left at `now` gets exactly `n` immediate requests through. */
  lemma {:induction false} BurstDrains(l: Limits, b: Buckets, key: string, now: real, n: nat)
    requires l.Valid() && Sound(l, b) && Level(l, b, key, now) == n as real
    ensures Allowed(l, b, Burst(key, now, n), key) == n
    ensures Level(l, Final(l, b, Burst(key, now, n)), key, now) == 0.0
    ensures n > 0 ==> Final(l, b, Burst(key, now, n)) == b[key := Bucket(0.0, now)]
    decreases n
  {
    if n > 0 {
      var op := Check(key, now);
      var b' := After(l, b, op);
      AfterKeepsSound(l, b, op);
      LevelOverTime(l, b, key, now, now);
      GainLaws(l, now, now, now);
      assert Level(l, b', key, now) == (n - 1) as real;
      BurstDrains(l, b', key, now, n - 1);
      assert Burst(key, now, n)[1..] == Burst(key, now, n - 1);
      if n == 1 {
        assert Final(l, b', []) == b';
      }
    }
  }

  /** An untracked key gets a whole burst through at once, and the next request is denied. */
  lemma BurstThenDenied(l: Limits, b: Buckets, key: string, now: real, burst: nat)
    requires l.Valid() && Sound(l, b) && key !in b && l.capacity == burst as real
    ensures Allowed(l, b, Burst(key, now, burst), key) == burst
    ensures !Admits(l, Final(l, b, Burst(key, now, burst)), key, now)
  {
    BurstDrains(l, b, key, now, burst);
  }

  // ------------------------------------------------------------------------ cleanup is invisible

  /** The answers to the requests, in order. */
  function Answers(l: Limits, b: Buckets, ops: seq<Op>): seq<bool>
    decreases |ops|
  {
    if ops == [] then []
    else (if ops[0].Check? then [Admits(l, b, ops[0].key, ops[0].now)] else []) + Answers(l, After(l, b, ops[0]), ops[1..])
  }

  function OnlyChecks(ops: seq<Op>): seq<Op> {
    if ops == [] then [] else (if ops[0].Check? then [ops[0]] else []) + OnlyChecks(ops[1..])
  }

  /** No request's clock reads earlier than that of a cleanup before it; requests may still go back among themselves. */
  predicate ChecksFollowCleanups(ops: seq<Op>) {
    forall i, j :: 0 <= i < j < |ops| && ops[i].Cleanup? && ops[j].Check? ==> ops[i].now <= ops[j].now
  }

  /** `c` is `b` without buckets that every request still to come finds full. */
  ghost predicate Thinned(l: Limits, c: Buckets, b: Buckets, ops: seq<Op>) {
    && (forall k :: k in c ==> k in b && c[k] == b[k])
    && forall k, i :: k in b && k !in c && 0 <= i < |ops| && ops[i] == Check(k, ops[i].now) ==>
                        Level(l, b, k, ops[i].now) == l.capacity
  }

  lemma CheckAlike(l: Limits, c: Buckets, b: Buckets, ops: seq<Op>)
    requires l.Valid() && Sound(l, b) && ops != [] && ops[0].Check? && Thinned(l, c, b, ops)
    ensures Admits(l, c, ops[0].key, ops[0].now) == Admits(l, b, ops[0].key, ops[0].now)
    ensures Thinned(l, After(l, c, ops[0]), After(l, b, ops[0]), ops[1..])
  {
  }

  lemma CleanupThins(l: Limits, c: Buckets, b: Buckets, ops: seq<Op>)
    requires l.Valid() && Sound(l, b) && ops != [] && ops[0].Cleanup? && Thinned(l, c, b, ops) && ChecksFollowCleanups(ops)
    ensures Thinned(l, After(l, c, ops[0]), b, ops[1..])
  {
    var c', rest := After(l, c, ops[0]), ops[1..];
    forall k, i | k in b && k !in c' && 0 <= i < |rest| && rest[i] == Check(k, rest[i].now)
      ensures Level(l, b, k, rest[i].now) == l.capacity
    {
      assert ops[i + 1] == Check(k, ops[i + 1].now);
      if k in c {
        LevelOverTime(l, b, k, ops[0].now, rest[i].now);
      }
    }
  }

  lemma {:induction false} ThinnedAnswers(l: Limits, c: Buckets, b: Buckets, ops: seq<Op>)
    requires l.Valid() && Sound(l, b) && Thinned(l, c, b, ops) && ChecksFollowCleanups(ops)
    ensures Answers(l, c, ops) == Answers(l, b, OnlyChecks(ops))
    decreases |ops|
  {
    hide Admits, Thinned, After, Sound;
    if ops != [] {
      var rest := ops[1..];
      assert ChecksFollowCleanups(rest) by {
        forall i, j | 0 <= i < j < |rest| && rest[i].Cleanup? && rest[j].Check? ensures rest[i].now <= rest[j].now {
          assert ops[i + 1].now <= ops[j + 1].now;
        }
      }
      if ops[0].Check? {
        CheckAlike(l, c, b, ops);
        AfterKeepsSound(l, b, ops[0]);
        ThinnedAnswers(l, After(l, c, ops[0]), After(l, b, ops[0]), rest);
        assert OnlyChecks(ops)[1..] == OnlyChecks(rest) && OnlyChecks(ops)[0] == ops[0];
      } else {
        CleanupThins(l, c, b, ops);
        ThinnedAnswers(l, After(l, c, ops[0]), b, rest);
        assert OnlyChecks(ops) == OnlyChecks(rest);
      }
    }
  }

  /** Cleanups anywhere change no answer. */
  lemma CleanupInvisible(l: Limits, b: Buckets, ops: seq<Op>)
    requires l.Valid() && Sound(l, b) && ChecksFollowCleanups(ops)
    ensures Answers(l, b, ops) == Answers(l, b, OnlyChecks(ops))
  {
    ThinnedAnswers(l, b, b, ops);
  }

  /** A cleanup at `c` changes no answer to requests whose clock reads `t`, in any state. */
  ghost predicate Unnoticed(l: Limits, c: real, t: real) {
    forall b, key, n: nat :: Sound(l, b) ==>
                               Answers(l, b, [Cleanup(c)] + Burst(key, t, n)) == Answers(l, b, Burst(key, t, n))
  }

  function Trues(answers: seq<bool>): nat {
    if answers == [] then 0 else (if answers[0] then 1 else 0) + Trues(answers[1..])
  }

  lemma {:induction false} BurstShape(key: string, t: real, n: nat)
    ensures |Burst(key, t, n)| == n && forall i :: 0 <= i < n ==> Burst(key, t, n)[i] == Check(key, t)
    ensures OnlyChecks(Burst(key, t, n)) == Burst(key, t, n) && Forward(t, Burst(key, t, n)) == 0.0
  {
    if n > 0 {
      BurstShape(key, t, n - 1);
      assert Burst(key, t, n)[1..] == Burst(key, t, n - 1);
    }
  }

  lemma {:induction false} AllowedCounts(l: Limits, b: Buckets, key: string, t: real, n: nat)
    ensures Allowed(l, b, Burst(key, t, n), key) == Trues(Answers(l, b, Burst(key, t, n)))
    decreases n
  {
    hide Admits, After;
    if n > 0 {
      assert Burst(key, t, n)[1..] == Burst(key, t, n - 1);
      AllowedCounts(l, After(l, b, Check(key, t)), key, t, n - 1);
      var rest := Answers(l, After(l, b, Check(key, t)), Burst(key, t, n - 1));
      assert Answers(l, b, Burst(key, t, n)) == [Admits(l, b, key, t)] + rest;
      assert ([Admits(l, b, key, t)] + rest)[1..] == rest;
    }
  }

  lemma CleanupThenBurst(l: Limits, b: Buckets, c: real, key: string, t: real, n: nat)
    requires l.Valid() && Sound(l, b) && c <= t
    ensures Answers(l, b, [Cleanup(c)] + Burst(key, t, n)) == Answers(l, b, Burst(key, t, n))
  {
    hide *;
    BurstShape(key, t, n);
    CleanupFirst(c, key, t, Burst(key, t, n));
    CleanupInvisible(l, b, [Cleanup(c)] + Burst(key, t, n));
  }

  lemma CleanupFirst(c: real, key: string, t: real, requests: seq<Op>)
    requires c <= t && forall i :: 0 <= i < |requests| ==> requests[i] == Check(key, t)
    ensures ChecksFollowCleanups([Cleanup(c)] + requests)
    ensures OnlyChecks([Cleanup(c)] + requests) == OnlyChecks(requests)
  {
    var ops := [Cleanup(c)] + requests;
    assert ops[1..] == requests && ops[0] == Cleanup(c);
    assert [] + OnlyChecks(requests) == OnlyChecks(requests);
    hide OnlyChecks;
    forall i, j | 0 <= i < j < |ops| && ops[i].Cleanup? && ops[j].Check? ensures ops[i].now <= ops[j].now {
      assert ops[j] == requests[j - 1];
    }
  }

  /** A bucket that is short of tokens at `t` and full again at `c`. */
  lemma ShortBucket(l: Limits, c: real, t: real) returns (b: Buckets)
    requires l.Valid() && t < c
    ensures Sound(l, b) && Level(l, b, "k", t) < l.capacity && After(l, b, Cleanup(c)) == map[]
  {
    GainLaws(l, t, t, c);
    GainsOverTime(l, t, c);
    var tokens := if Gain(l, t, c) <= l.capacity then l.capacity - Gain(l, t, c) else 0.0;
    b := map["k" := Bucket(tokens, t)];
    assert Level(l, b, "k", c) == l.capacity;
  }

  lemma GainsOverTime(l: Limits, t: real, c: real)
    requires l.Valid() && t < c
    ensures Gain(l, t, c) > 0.0
  {
  }

  /**
   For any limits of the code, cleanups are unnoticed exactly when the request's clock does not read
   earlier than the cleanup's: a request that read its clock early and took the lock late finds a
   new bucket where its own was still short of tokens.
   */
  lemma UnnoticedIff(l: Limits, burst: nat, c: real, t: real)
    requires l.Valid() && l.capacity == burst as real
    ensures Unnoticed(l, c, t) <==> c <= t
  {
    if c <= t {
      forall b, key, n: nat | Sound(l, b)
        ensures Answers(l, b, [Cleanup(c)] + Burst(key, t, n)) == Answers(l, b, Burst(key, t, n))
      {
        CleanupThenBurst(l, b, c, key, t, n);
      }
    } else {
      var b := ShortBucket(l, c, t);
      var requests := Burst("k", t, burst);
      BurstShape("k", t, burst);
      RateBound(l, b, requests, "k", t);
      AllowedCounts(l, b, "k", t, burst);
      BurstDrains(l, map[], "k", t, burst);
      AllowedCounts(l, map[], "k", t, burst);
      assert ([Cleanup(c)] + requests)[1..] == requests;
      assert Answers(l, b, [Cleanup(c)] + requests) == [] + Answers(l, map[], requests);
    }
  }
}
