/** Query windows and the aggregations over them (agent/src/web/api/query.rs, agent/src/analytics/mod.rs). */
module Windows {
  import opened Wrappers
  import opened Keys
  import opened Events
  import opened Seqs
  import opened Calendar

  const MAX_BUCKETS := 2_000
  const MAX_INSTANT_MS := 4_102_444_800_000
  const DENSE_LIMIT := 5_000
  const TREND_BUCKETS := 20

  const LADDER: seq<(string, int)> := [
    ("minute", 60_000), ("15m", 900_000), ("hour", 3_600_000), ("4h", 4 * 3_600_000), ("6h", 6 * 3_600_000),
    ("day", DAY_MS), ("week", 7 * DAY_MS)]

  // ------------------------------------------------------------------------ range resolution

  function Clamp(x: int, lo: int, hi: int): int { if x < lo then lo else if x > hi then hi else x }

  function Max(a: int, b: int): int { if a >= b then a else b }

  /** `i64::saturating_sub` */
  function SaturatingSub(a: i64, b: i64): i64 { Clamp(a - b, -0x8000_0000_0000_0000, 0x7FFF_FFFF_FFFF_FFFF) }

  function RungNamed(ladder: seq<(string, int)>, name: string): Option<int> {
    if ladder == [] then None else if ladder[0].0 == name then Some(ladder[0].1) else RungNamed(ladder[1..], name)
  }

  predicate Admissible(ms: int, requested: int, span: int)
    requires ms > 0
  {
    ms >= requested && span / ms <= MAX_BUCKETS
  }

  predicate Rungs(ladder: seq<(string, int)>) { forall i :: 0 <= i < |ladder| ==> ladder[i].1 >= 60_000 }

  function FirstAdmissible(ladder: seq<(string, int)>, requested: int, span: int): Option<int>
    requires Rungs(ladder)
  {
    if ladder == [] then None
    else if Admissible(ladder[0].1, requested, span) then Some(ladder[0].1)
    else FirstAdmissible(ladder[1..], requested, span)
  }

  datatype Window = Window(from: int, to: int, bucket: int) {
    function Length(): int { Max(to - from, 1) }
  }

  /** A window every endpoint may compute with. */
  predicate Resolved(w: Window) {
    0 <= w.from < w.to <= MAX_INSTANT_MS && w.bucket >= 60_000 && (w.to - w.from) / w.bucket <= MAX_BUCKETS
  }

  function RequestedBucket(interval: Option<string>): int {
    match interval
    case None => DAY_MS
    case Some(name) => RungNamed(LADDER, name).GetOr(DAY_MS)
  }

  /** The first rung that fits, and for spans no rung covers a bucket sized to stay under the cap. */
  function BucketFor(requested: int, span: int): (bucket: int)
    requires span >= 1
    ensures bucket >= 60_000 && span / bucket <= MAX_BUCKETS
  {
    FirstFits(LADDER, requested, span);
    SizedFits(span);
    FirstAdmissible(LADDER, requested, span).GetOr(Max(span / MAX_BUCKETS + 1, 7 * DAY_MS))
  }

  function ResolveRange(from: Option<i64>, to: Option<i64>, interval: Option<string>, now: i64): (w: Window)
    ensures Resolved(w)
  {
    var end := Clamp(to.GetOr(now), 1, MAX_INSTANT_MS);
    var start := Clamp(from.GetOr(SaturatingSub(end, 7 * DAY_MS)), 0, end - 1);
    var span := Max(end - start, 1);
    var requested := RequestedBucket(interval);
    Window(start, end, BucketFor(requested, span))
  }

  lemma {:induction false} FirstFits(ladder: seq<(string, int)>, requested: int, span: int)
    requires Rungs(ladder)
    ensures var r := FirstAdmissible(ladder, requested, span);
            r.Some? ==> r.value >= 60_000 && Admissible(r.value, requested, span)
  {
    if ladder != [] {
      FirstFits(ladder[1..], requested, span);
    }
  }

  /** A bucket sized to the span keeps the series under the cap. */
  lemma SizedFits(span: int)
    requires span >= 1
    ensures span / Max(span / MAX_BUCKETS + 1, 7 * DAY_MS) <= MAX_BUCKETS
  {
  }

  lemma QuotientProduct(n: int, d: int)
    requires d > 0
    ensures n / d * d <= n < (n / d + 1) * d
  {
  }

  lemma Product(a: int, b: int, d: int)
    requires d > 0
    ensures a <= b <==> a * d <= b * d
  {
    if a <= b {
      NonNegative(b - a, d);
      Distribute(b, a, d);
    } else {
      NonNegative(a - b - 1, d);
      Distribute(a - 1, b, d);
      Distribute(a, 1, d);
    }
  }

  lemma NonNegative(x: int, d: int)
    requires x >= 0 && d > 0
    ensures x * d >= 0
  {
  }

  lemma Distribute(x: int, y: int, d: int)
    ensures (x - y) * d == x * d - y * d
  {
  }

  predicate AscendingRungs(ladder: seq<(string, int)>) {
    forall i, j :: 0 <= i < j < |ladder| ==> ladder[i].1 < ladder[j].1
  }

  lemma {:induction false} FirstIsLeast(ladder: seq<(string, int)>, requested: int, span: int, k: nat)
    requires Rungs(ladder) && AscendingRungs(ladder) && k < |ladder|
    requires Admissible(ladder[k].1, requested, span)
    ensures var r := FirstAdmissible(ladder, requested, span); r.Some? && r.value <= ladder[k].1
  {
    if k > 0 {
      assert ladder[0].1 < ladder[k].1;
      if !Admissible(ladder[0].1, requested, span) {
        FirstIsLeast(ladder[1..], requested, span, k - 1);
      }
    }
  }

  lemma LeastRung(requested: int, span: int, k: nat)
    requires span >= 1 && k < |LADDER| && Admissible(LADDER[k].1, requested, span)
    ensures var bucket := BucketFor(requested, span);
            requested <= bucket <= LADDER[k].1 && exists i :: 0 <= i < |LADDER| && LADDER[i].1 == bucket
  {
    hide FirstAdmissible;
    FirstFits(LADDER, requested, span);
    FirstIsRung(LADDER, requested, span);
    FirstIsLeast(LADDER, requested, span, k);
  }

  /** The bucket is the least admissible rung. */
  lemma LeastAdmissibleRung(from: Option<i64>, to: Option<i64>, interval: Option<string>, now: i64, k: nat)
    requires k < |LADDER|
    ensures var w := ResolveRange(from, to, interval, now);
            var requested := RequestedBucket(interval);
            Admissible(LADDER[k].1, requested, w.to - w.from) ==>
              requested <= w.bucket <= LADDER[k].1 && exists i :: 0 <= i < |LADDER| && LADDER[i].1 == w.bucket
  {
    var w := ResolveRange(from, to, interval, now);
    hide RequestedBucket, BucketFor;
    if Admissible(LADDER[k].1, RequestedBucket(interval), w.to - w.from) {
      LeastRung(RequestedBucket(interval), w.to - w.from, k);
    }
  }

  lemma WideSpan(span: int)
    requires span >= 1
    ensures span / (7 * DAY_MS) > MAX_BUCKETS <==> span >= (MAX_BUCKETS + 1) * (7 * DAY_MS)
  {
  }

  lemma BeyondWeeks(requested: int, span: int)
    requires span >= 1 && requested <= 7 * DAY_MS
    ensures BucketFor(requested, span) > 7 * DAY_MS <==> span / (7 * DAY_MS) > MAX_BUCKETS
  {
    hide FirstAdmissible;
    var week := LADDER[6].1;
    FirstFits(LADDER, requested, span);
    FirstIsRung(LADDER, requested, span);
    WideSpan(span);
    if Admissible(week, requested, span) {
      FirstIsLeast(LADDER, requested, span, 6);
    } else {
      NarrowBuckets(BucketFor(requested, span), span);
    }
  }

  lemma NarrowBuckets(bucket: int, span: int)
    requires span >= (MAX_BUCKETS + 1) * (7 * DAY_MS) && 0 < bucket && span / bucket <= MAX_BUCKETS
    ensures bucket > 7 * DAY_MS
  {
    QuotientProduct(span, bucket);
    Product(span / bucket + 1, MAX_BUCKETS + 1, bucket);
  }

  /** Only a span that not even weeks can cover gets a bucket off the ladder. */
  lemma OffTheLadder(from: Option<i64>, to: Option<i64>, interval: Option<string>, now: i64)
    ensures var w := ResolveRange(from, to, interval, now);
            w.bucket > 7 * DAY_MS <==> (w.to - w.from) / (7 * DAY_MS) > MAX_BUCKETS
  {
    var w := ResolveRange(from, to, interval, now);
    RequestIsRung(interval);
    hide RequestedBucket, BucketFor;
    BeyondWeeks(RequestedBucket(interval), w.to - w.from);
  }

  /** In-range requests are honoured to the millisecond, defaults are one week up to now in daily buckets. */
  lemma RequestsHonoured(from: Option<i64>, to: Option<i64>, interval: Option<string>, now: i64)
    requires 1 <= now <= MAX_INSTANT_MS
    ensures var w := ResolveRange(from, to, interval, now);
            && (to.None? ==> w.to == now)
            && (to.Some? && 1 <= to.value <= MAX_INSTANT_MS ==> w.to == to.value)
            && (from.Some? && 0 <= from.value < w.to ==> w.from == from.value)
            && (from.None? && w.to >= 7 * DAY_MS ==> w.from == w.to - 7 * DAY_MS)
            && (interval.None? && w.to - w.from <= 7 * DAY_MS ==> w.bucket == DAY_MS)
  {
    var w := ResolveRange(from, to, interval, now);
    if interval.None? && w.to - w.from <= 7 * DAY_MS {
      var ladder := LADDER;
      FirstIsLeast(ladder, DAY_MS, w.to - w.from, 5);
      FirstFits(ladder, DAY_MS, w.to - w.from);
    }
  }

  /** A bucket beyond the ladder is as fine as the cap allows, up to one millisecond. */
  lemma SizedBucketIsTight(from: Option<i64>, to: Option<i64>, interval: Option<string>, now: i64)
    ensures var w := ResolveRange(from, to, interval, now);
            w.bucket > 7 * DAY_MS ==> (w.to - w.from) / (w.bucket - 1) >= MAX_BUCKETS
  {
    var w := ResolveRange(from, to, interval, now);
    var span := w.to - w.from;
    FirstIsRung(LADDER, RequestedBucket(interval), span);
    if w.bucket > 7 * DAY_MS {
      assert w.bucket == span / MAX_BUCKETS + 1;
      var q := w.bucket - 1;
      assert q * MAX_BUCKETS <= span;
      QuotientProduct(span, q);
      if span / q < MAX_BUCKETS {
        Product(span / q + 1, MAX_BUCKETS, q);
      }
    }
  }

  lemma RequestIsRung(interval: Option<string>)
    ensures RequestedBucket(interval) <= 7 * DAY_MS
  {
    if interval.Some? {
      NamedIsRung(LADDER, interval.value);
    }
  }

  lemma {:induction false} NamedIsRung(ladder: seq<(string, int)>, name: string)
    requires forall i :: 0 <= i < |ladder| ==> ladder[i].1 <= 7 * DAY_MS
    ensures RungNamed(ladder, name).GetOr(DAY_MS) <= 7 * DAY_MS
  {
    if ladder != [] {
      NamedIsRung(ladder[1..], name);
    }
  }

  lemma {:induction false} FirstIsRung(ladder: seq<(string, int)>, requested: int, span: int)
    requires Rungs(ladder)
    ensures var r := FirstAdmissible(ladder, requested, span);
            r.Some? ==> exists i :: 0 <= i < |ladder| && ladder[i].1 == r.value
  {
    if ladder != [] {
      FirstIsRung(ladder[1..], requested, span);
      var r := FirstAdmissible(ladder[1..], requested, span);
      if r.Some? {
        var i :| 0 <= i < |ladder[1..]| && ladder[1..][i].1 == r.value;
        assert ladder[i + 1].1 == r.value;
      }
    }
  }

  /** The intervals a query can ask for by name. */
  predicate Interval(name: string, ms: int) {
    || (name == "minute" && ms == 60_000) || (name == "15m" && ms == 900_000) || (name == "hour" && ms == 3_600_000)
    || (name == "4h" && ms == 14_400_000) || (name == "6h" && ms == 21_600_000)
    || (name == "day" && ms == 86_400_000) || (name == "week" && ms == 604_800_000)
  }

  lemma RungOf(name: string, ms: int) returns (k: nat)
    requires Interval(name, ms)
    ensures k < |LADDER| && LADDER[k] == (name, ms)
  {
    k := if name == "minute" then 0
    else if name == "15m" then 1
    else if name == "hour" then 2
    else if name == "4h" then 3
    else if name == "6h" then 4
    else if name == "day" then 5
    else 6;
  }

  lemma {:induction false} RungFound(ladder: seq<(string, int)>, k: nat)
    requires k < |ladder| && forall i :: 0 <= i < k ==> ladder[i].0 != ladder[k].0
    ensures RungNamed(ladder, ladder[k].0) == Some(ladder[k].1)
  {
    if k > 0 {
      assert ladder[0].0 != ladder[k].0;
      RungFound(ladder[1..], k - 1);
    }
  }

  lemma NamesDiffer(i: nat, k: nat)
    requires i < k < |LADDER|
    ensures LADDER[i].0 != LADDER[k].0
  {
  }

  /** A named interval is granted exactly when the window fits 2000 buckets of it. */
  lemma IntervalGrantedIff(from: Option<i64>, to: Option<i64>, name: string, ms: int, now: i64)
    requires Interval(name, ms)
    ensures var w := ResolveRange(from, to, Some(name), now);
            w.bucket == ms <==> (w.to - w.from) / ms <= 2_000
  {
    var k := RungOf(name, ms);
    hide Interval;
    forall i | 0 <= i < k ensures LADDER[i].0 != LADDER[k].0 {
      NamesDiffer(i, k);
    }
    RungFound(LADDER, k);
    assert RequestedBucket(Some(name)) == ms;
    LeastAdmissibleRung(from, to, Some(name), now, k);
  }

  lemma {:induction false} NoRungNamed(ladder: seq<(string, int)>, name: string)
    requires forall i :: 0 <= i < |ladder| ==> ladder[i].0 != name
    ensures RungNamed(ladder, name) == None
  {
    if ladder != [] {
      NoRungNamed(ladder[1..], name);
    }
  }

  lemma LadderIsNamed(i: nat)
    requires i < |LADDER|
    ensures Interval(LADDER[i].0, LADDER[i].1)
  {
  }

  /** No interval, or one of no known name, is daily. */
  lemma OtherIntervalsAreDaily(from: Option<i64>, to: Option<i64>, name: string, now: i64)
    requires forall ms :: !Interval(name, ms)
    ensures ResolveRange(from, to, Some(name), now) == ResolveRange(from, to, None, now)
         == ResolveRange(from, to, Some("day"), now)
  {
    forall i | 0 <= i < |LADDER| ensures LADDER[i].0 != name {
      LadderIsNamed(i);
    }
    NoRungNamed(LADDER, name);
    hide Interval;
    forall i | 0 <= i < 5 ensures LADDER[i].0 != LADDER[5].0 {
      NamesDiffer(i, 5);
    }
    RungFound(LADDER, 5);
  }

  /** Queries end at the latest with the year 2099, and start at the earliest in 1970. */
  lemma LatestInstant(from: Option<i64>, to: Option<i64>, interval: Option<string>, now: i64)
    ensures var w := ResolveRange(from, to, interval, now);
            DayOf(w.to - 1).year <= 2099 && DayOf(w.from).year >= 1970
    ensures to.Some? && to.value >= 4_102_444_800_000 ==>
              DayOf(ResolveRange(from, to, interval, now).to) == Date(2100, 1, 1)
  {
    hide DateOf, BucketFor, RequestedBucket;
    var w := ResolveRange(from, to, interval, now);
    EpochDate();
    assert MAX_INSTANT_MS == DayNumber(Date(2100, 1, 1)) * DAY_MS by { NewCentury(); }
    DateOfInverts(Date(2100, 1, 1));
    WithinYear(DayOf(w.from));
    WithinYear(DayOf(w.to - 1));
    YearsOf(DayOf(w.from));
    YearsOf(DayOf(w.to - 1));
  }

  lemma NewCentury()
    ensures DayNumber(Date(2100, 1, 1)) == 47_482
  {
    assert MonthStart(2100, 1) == 0;
  }

  lemma YearsOf(d: Date)
    requires ValidDate(d)
    ensures DayNumber(d) >= 0 <==> d.year >= 1970
    ensures DayNumber(d) < 47_482 <==> d.year <= 2099
  {
    NewCentury();
    DateOrder(d, Date(2100, 1, 1));
    DateOrder(d, Date(1970, 1, 1));
    assert DayNumber(Date(1970, 1, 1)) == 0 by { EpochDate(); }
  }

  // --------------------------------------------------------------------------------- tallies

  /** The columns a window aggregates; `unique` is the flag column the dashboard chose. */
  datatype Row = Row(kind: EventKind, at: int, unique: bool)

  datatype Tally = Tally(pageviews: nat, visitors: nat, events: nat, exceptions: nat)

  datatype Point = Point(timestampMs: int, tally: Tally)

  datatype MetricSummary = MetricSummary(visitors: nat, pageviews: nat, events: nat)

  const ZERO := Tally(0, 0, 0, 0)

  function Plus(a: Tally, b: Tally): Tally {
    Tally(a.pageviews + b.pageviews, a.visitors + b.visitors, a.events + b.events, a.exceptions + b.exceptions)
  }

  predicate IsPageLoad(r: Row) { r.kind == PageLoad }

  predicate IsVisitor(r: Row) { r.kind == PageLoad && r.unique }

  predicate IsEvent(r: Row) { r.kind == Pixel || r.kind == Custom }

  predicate IsException(r: Row) { r.kind == Exception }

  function One(p: bool): nat { if p then 1 else 0 }

  function TallyOf(r: Row): Tally {
    Tally(One(IsPageLoad(r)), One(IsVisitor(r)), One(IsEvent(r)), One(IsException(r)))
  }

  function Count(p: Row -> bool, rows: seq<Row>): nat {
    if rows == [] then 0 else Count(p, rows[..|rows| - 1]) + One(p(rows[|rows| - 1]))
  }

  /** The matching rows received in `[lo, hi)`. */
  function CountIn(p: Row -> bool, rows: seq<Row>, lo: int, hi: int): nat {
    if rows == [] then 0
    else
      var last := rows[|rows| - 1];
      CountIn(p, rows[..|rows| - 1], lo, hi) + One(lo <= last.at < hi && p(last))
  }

  /** What happened in `[lo, hi)`. */
  function TallyIn(rows: seq<Row>, lo: int, hi: int): Tally {
    Tally(CountIn(IsPageLoad, rows, lo, hi), CountIn(IsVisitor, rows, lo, hi),
          CountIn(IsEvent, rows, lo, hi), CountIn(IsException, rows, lo, hi))
  }

  /** `summary` */
  function Summary(rows: seq<Row>): MetricSummary {
    MetricSummary(Count(IsVisitor, rows), Count(IsPageLoad, rows), Count(IsEvent, rows))
  }

  predicate Within(rows: seq<Row>, lo: int, hi: int) { forall i :: 0 <= i < |rows| ==> lo <= rows[i].at < hi }

  lemma {:induction false} WithinCounts(p: Row -> bool, rows: seq<Row>, lo: int, hi: int)
    requires Within(rows, lo, hi)
    ensures CountIn(p, rows, lo, hi) == Count(p, rows)
  {
    if rows != [] {
      WithinCounts(p, rows[..|rows| - 1], lo, hi);
    }
  }

  /** Adjacent stretches add up. */
  lemma {:induction false} CountSplits(p: Row -> bool, rows: seq<Row>, lo: int, mid: int, hi: int)
    requires lo <= mid <= hi
    ensures CountIn(p, rows, lo, hi) == CountIn(p, rows, lo, mid) + CountIn(p, rows, mid, hi)
  {
    if rows != [] {
      CountSplits(p, rows[..|rows| - 1], lo, mid, hi);
    }
  }

  lemma {:induction false} CountEmpty(p: Row -> bool, rows: seq<Row>, lo: int)
    ensures CountIn(p, rows, lo, lo) == 0
  {
    if rows != [] {
      CountEmpty(p, rows[..|rows| - 1], lo);
    }
  }

  lemma CountSnoc(p: Row -> bool, rows: seq<Row>, row: Row, lo: int, hi: int)
    ensures CountIn(p, rows + [row], lo, hi) == CountIn(p, rows, lo, hi) + One(lo <= row.at < hi && p(row))
  {
  }

  lemma TallySnoc(rows: seq<Row>, row: Row, lo: int, hi: int)
    ensures TallyIn(rows + [row], lo, hi)
         == if lo <= row.at < hi then Plus(TallyIn(rows, lo, hi), TallyOf(row)) else TallyIn(rows, lo, hi)
  {
    hide CountIn, IsPageLoad, IsVisitor, IsEvent, IsException;
    CountSnoc(IsPageLoad, rows, row, lo, hi);
    CountSnoc(IsVisitor, rows, row, lo, hi);
    CountSnoc(IsEvent, rows, row, lo, hi);
    CountSnoc(IsException, rows, row, lo, hi);
  }

  // -------------------------------------------------------------------------------- the series

  function BucketOf(at: int, width: int): int
    requires width > 0
  {
    at - at % width
  }

  function At(counts: map<int, Tally>, b: int): Tally { if b in counts then counts[b] else ZERO }

  /** `counts` holds exactly the non-zero tallies of the buckets of the grid. */
  ghost predicate Grouped(counts: map<int, Tally>, rows: seq<Row>, width: int)
    requires width > 0
  {
    && (forall b :: b % width == 0 ==> At(counts, b) == TallyIn(rows, b, b + width))
    && (forall b :: b in counts ==> b % width == 0 && counts[b] != ZERO)
  }

  lemma BucketHolds(at: int, b: int, width: int)
    requires width > 0 && b % width == 0
    ensures b <= at < b + width <==> BucketOf(at, width) == b
    ensures BucketOf(at, width) % width == 0
  {
    var c := BucketOf(at, width);
    assert c == at / width * width;
    assert c % width == 0 by { MultipleMod(at / width, width); }
    assert b == b / width * width;
    var i, j := b / width, at / width;
    if i < j {
      Product(i + 1, j, width);
    } else if j < i {
      Product(j + 1, i, width);
    }
  }

  lemma MultipleMod(q: int, width: int)
    requires width > 0
    ensures q * width % width == 0
  {
    var n := q * width;
    QuotientProduct(n, width);
    Product(q, n / width, width);
    Product(n / width, q, width);
  }

  lemma GroupOne(counts: map<int, Tally>, rows: seq<Row>, row: Row, width: int)
    requires width > 0 && Grouped(counts, rows, width)
    ensures var b := BucketOf(row.at, width);
            Grouped(if Charted(row) then counts[b := Plus(At(counts, b), TallyOf(row))] else counts, rows + [row], width)
  {
    hide BucketOf, TallyIn, TallyOf, Plus;
    var here := BucketOf(row.at, width);
    BucketHolds(row.at, 0, width);
    UnchartedAddsNothing(row, TallyIn(rows, here, here + width));
    var next := if Charted(row) then counts[here := Plus(At(counts, here), TallyOf(row))] else counts;
    forall b | b % width == 0 ensures At(next, b) == TallyIn(rows + [row], b, b + width) {
      BucketHolds(row.at, b, width);
      TallySnoc(rows, row, b, b + width);
      assert At(counts, b) == TallyIn(rows, b, b + width);
    }
  }

  lemma UnchartedAddsNothing(row: Row, t: Tally)
    ensures if Charted(row) then Plus(t, TallyOf(row)) != ZERO else Plus(t, TallyOf(row)) == t
  {
  }

  /** Rows of no counted kind add nothing. */
  predicate Charted(r: Row) { IsPageLoad(r) || IsEvent(r) || IsException(r) }

  method GroupByBucket(rows: seq<Row>, width: int) returns (counts: map<int, Tally>)
    requires width > 0
    ensures Grouped(counts, rows, width)
  {
    hide Grouped, TallyIn, BucketOf;
    counts := map[];
    assert Grouped(counts, rows[..0], width) by { NothingGrouped(rows[..0], width); }
    for i := 0 to |rows|
      invariant Grouped(counts, rows[..i], width)
    {
      var row := rows[i];
      assert rows[..i] + [row] == rows[..i + 1];
      GroupOne(counts, rows[..i], row, width);
      if Charted(row) {
        var b := BucketOf(row.at, width);
        counts := counts[b := Plus(At(counts, b), TallyOf(row))];
      }
    }
    assert rows[..|rows|] == rows;
  }

  lemma NothingGrouped(rows: seq<Row>, width: int)
    requires width > 0 && rows == []
    ensures Grouped(map[], rows, width)
  {
  }

  function FirstBucket(from: int, width: int): int
    requires width > 0
  {
    BucketOf(from, width)
  }

  function LastBucket(to: int, width: int): int
    requires width > 0
  {
    BucketOf(to - 1, width)
  }

  predicate IsDense(from: int, to: int, width: int)
    requires width > 0
  {
    var first, last := FirstBucket(from, width), LastBucket(to, width);
    first <= last && (last - first) / width + 1 <= DENSE_LIMIT
  }

  /** One point for every bucket that meets the window, first to last. */
  ghost predicate DenseSeries(points: seq<Point>, rows: seq<Row>, first: int, width: int) {
    forall i :: 0 <= i < |points| ==>
                  points[i] == Point(first + i * width, TallyIn(rows, first + i * width, first + i * width + width))
  }

  /** The buckets where something happened, oldest first. */
  ghost predicate SparseSeries(points: seq<Point>, rows: seq<Row>, width: int)
    requires width > 0
  {
    && (forall i, j :: 0 <= i < j < |points| ==> points[i].timestampMs < points[j].timestampMs)
    && (forall p :: p in points <==>
                      p.timestampMs % width == 0 && p.tally != ZERO
                      && p.tally == TallyIn(rows, p.timestampMs, p.timestampMs + width))
  }

  function Itself(b: int): int { b }

  /** The populated buckets, sorted by time. */
  function SortedPoints(counts: map<int, Tally>): seq<Point> {
    Map(b => Point(b, At(counts, b)), Ascending(counts.Keys, Itself))
  }

  lemma SortedIsSparse(counts: map<int, Tally>, rows: seq<Row>, width: int)
    requires width > 0 && Grouped(counts, rows, width)
    ensures SparseSeries(SortedPoints(counts), rows, width)
  {
    hide TallyIn, Ascending;
    var keys := Ascending(counts.Keys, Itself);
    var points := SortedPoints(counts);
    AscendingIncreases(counts.Keys, Itself);
    forall i, j | 0 <= i < j < |points| ensures points[i].timestampMs < points[j].timestampMs {
      assert Itself(keys[i]) < Itself(keys[j]);
    }
    SortedHolds(counts);
    hide SortedPoints;
    forall p: Point
      ensures p in points <==> p.timestampMs % width == 0 && p.tally != ZERO
                               && p.tally == TallyIn(rows, p.timestampMs, p.timestampMs + width)
    {
      var b := p.timestampMs;
      assert b % width == 0 ==> At(counts, b) == TallyIn(rows, b, b + width);
    }
  }

  lemma SortedHolds(counts: map<int, Tally>)
    ensures forall p :: p in SortedPoints(counts) <==> p.timestampMs in counts && p.tally == counts[p.timestampMs]
  {
  }

  lemma PointAt(counts: map<int, Tally>, points: seq<Point>, rows: seq<Row>, first: int, width: int, b: int)
    requires width > 0 && Grouped(counts, rows, width) && DenseSeries(points, rows, first, width)
    requires b == first + |points| * width && b % width == 0
    ensures DenseSeries(points + [Point(b, At(counts, b))], rows, first, width)
    ensures b + width == first + (|points| + 1) * width && (b + width) % width == 0
  {
    hide TallyIn;
    NextOnGrid(b, width);
    assert At(counts, b) == TallyIn(rows, b, b + width);
    assert (|points| + 1) * width == |points| * width + width;
  }

  /** The point of index `n` is in the window exactly up to the number of steps. */
  lemma StepsOnGrid(first: int, last: int, width: int, n: int)
    requires width > 0 && last - first == (last - first) / width * width
    ensures first + n * width <= last <==> n <= (last - first) / width
  {
  }

  /** Gap-free up to the limit on points, and otherwise the populated buckets only. */
  ghost predicate IsSeries(points: seq<Point>, rows: seq<Row>, from: int, to: int, width: int)
    requires width > 0
  {
    var first, last := FirstBucket(from, width), LastBucket(to, width);
    if IsDense(from, to, width) then |points| == (last - first) / width + 1 && DenseSeries(points, rows, first, width)
    else SparseSeries(points, rows, width)
  }

  method Timeseries(rows: seq<Row>, from: int, to: int, bucket: int) returns (points: seq<Point>)
    ensures IsSeries(points, rows, from, to, Max(bucket, 1))
  {
    var width := Max(bucket, 1);
    var counts := GroupByBucket(rows, width);
    var first, last := FirstBucket(from, width), LastBucket(to, width);
    if first > last || (last - first) / width + 1 > DENSE_LIMIT {
      SortedIsSparse(counts, rows, width);
      return SortedPoints(counts);
    }
    GridSteps(from, to, width);
    hide TallyIn, FirstBucket, LastBucket, Grouped, DenseSeries, SparseSeries, SortedPoints;
    ghost var steps := (last - first) / width;
    points := [];
    assert DenseSeries(points, rows, first, width) by { NoPoints(rows, first, width); }
    var b := first;
    ghost var n := 0;
    StepsOnGrid(first, last, width, 0);
    while b <= last
      invariant n == |points| <= steps + 1 && b == first + n * width && b % width == 0
      invariant b <= last <==> n <= steps
      invariant DenseSeries(points, rows, first, width)
      decreases last - b + width
    {
      PointAt(counts, points, rows, first, width, b);
      points := points + [Point(b, At(counts, b))];
      b := b + width;
      n := n + 1;
      StepsOnGrid(first, last, width, n);
    }
  }

  /** The gap-free series of a window. */
  ghost predicate WindowSeries(points: seq<Point>, rows: seq<Row>, w: Window)
    requires w.bucket > 0
  {
    && |points| == (LastBucket(w.to, w.bucket) - FirstBucket(w.from, w.bucket)) / w.bucket + 1
    && DenseSeries(points, rows, FirstBucket(w.from, w.bucket), w.bucket)
  }

  lemma ResolvedSeries(points: seq<Point>, rows: seq<Row>, w: Window)
    requires Resolved(w) && IsSeries(points, rows, w.from, w.to, Max(w.bucket, 1))
    ensures WindowSeries(points, rows, w)
  {
    hide FirstBucket, LastBucket, DenseSeries, IsDense;
    ResolvedIsDense(w);
  }

  lemma NoPoints(rows: seq<Row>, first: int, width: int)
    ensures DenseSeries([], rows, first, width)
  {
  }

  lemma NextOnGrid(b: int, width: int)
    requires width > 0 && b % width == 0
    ensures (b + width) % width == 0
  {
    assert b == b / width * width;
    assert b + width == (b / width + 1) * width;
    MultipleMod(b / width + 1, width);
  }

  /** First and last bucket are a whole number of buckets apart. */
  lemma GridSteps(from: int, to: int, width: int)
    requires width > 0
    ensures FirstBucket(from, width) % width == 0
    ensures var distance := LastBucket(to, width) - FirstBucket(from, width);
            distance == distance / width * width
  {
    var i, j := from / width, (to - 1) / width;
    assert FirstBucket(from, width) == i * width && LastBucket(to, width) == j * width;
    MultipleMod(i, width);
    assert j * width - i * width == (j - i) * width;
    MultipleMod(j - i, width);
  }

  /** Windows of at most `q` whole buckets touch at most `q + 2`. */
  lemma BucketsTouched(from: int, to: int, width: int, q: int)
    requires width > 0 && from < to && to - from < (q + 1) * width
    ensures 0 <= (to - 1) / width - from / width <= q + 1
  {
    var i, j := from / width, (to - 1) / width;
    QuotientProduct(from, width);
    QuotientProduct(to - 1, width);
    assert (i + q + 2) * width == (i + 1) * width + (q + 1) * width;
    Product(i + q + 2, j, width);
    Product(j + 1, i, width);
  }

  /** A resolved window always gets the gap-free series. */
  lemma ResolvedIsDense(w: Window)
    requires Resolved(w)
    ensures IsDense(w.from, w.to, w.bucket)
  {
    var width := w.bucket;
    var i, j := w.from / width, (w.to - 1) / width;
    var q := (w.to - w.from) / width;
    QuotientProduct(w.to - w.from, width);
    BucketsTouched(w.from, w.to, width, q);
    GridDistance(w.from, w.to, width);
    Product(0, j - i, width);
  }

  lemma GridDistance(from: int, to: int, width: int)
    requires width > 0
    ensures LastBucket(to, width) - FirstBucket(from, width) == ((to - 1) / width - from / width) * width
    ensures (LastBucket(to, width) - FirstBucket(from, width)) / width == (to - 1) / width - from / width
  {
    var i, j := from / width, (to - 1) / width;
    assert FirstBucket(from, width) == i * width && LastBucket(to, width) == j * width;
    assert j * width - i * width == (j - i) * width;
    QuotientOfProduct(j - i, width);
  }

  lemma QuotientOfProduct(q: int, d: int)
    requires d > 0
    ensures q * d / d == q
  {
    QuotientProduct(q * d, d);
    Product(q * d / d, q, d);
    Product(q + 1, q * d / d + 1, d);
    if q * d / d < q {
      Product(q * d / d + 1, q, d);
    }
  }

  function Total(f: Tally -> nat, points: seq<Point>): nat {
    if points == [] then 0 else Total(f, points[..|points| - 1]) + f(points[|points| - 1].tally)
  }

  function Pageviews(t: Tally): nat { t.pageviews }

  function Visitors(t: Tally): nat { t.visitors }

  function EventCount(t: Tally): nat { t.events }

  function Exceptions(t: Tally): nat { t.exceptions }

  /** A dense series adds up to the stretch it covers. */
  lemma {:induction false} DenseTotal(f: Tally -> nat, p: Row -> bool, points: seq<Point>, rows: seq<Row>, first: int,
                                      width: int)
    requires width > 0 && DenseSeries(points, rows, first, width)
    requires forall lo, hi :: f(TallyIn(rows, lo, hi)) == CountIn(p, rows, lo, hi)
    ensures Total(f, points) == CountIn(p, rows, first, first + |points| * width)
  {
    hide TallyIn, CountIn;
    if points == [] {
      CountEmpty(p, rows, first);
    } else {
      var n := |points| - 1;
      DenseTotal(f, p, points[..n], rows, first, width);
      var lo := first + n * width;
      assert first + |points| * width == lo + width;
      Product(0, n, width);
      CountSplits(p, rows, first, lo, lo + width);
      assert points[n] == Point(lo, TallyIn(rows, lo, lo + width));
    }
  }

  lemma DenseTotals(points: seq<Point>, rows: seq<Row>, first: int, width: int)
    requires width > 0 && DenseSeries(points, rows, first, width)
    ensures var end := first + |points| * width;
            && Total(Visitors, points) == CountIn(IsVisitor, rows, first, end)
            && Total(Pageviews, points) == CountIn(IsPageLoad, rows, first, end)
            && Total(EventCount, points) == CountIn(IsEvent, rows, first, end)
            && Total(Exceptions, points) == CountIn(IsException, rows, first, end)
  {
    hide DenseSeries, Total, CountIn;
    DenseTotal(Visitors, IsVisitor, points, rows, first, width);
    DenseTotal(Pageviews, IsPageLoad, points, rows, first, width);
    DenseTotal(EventCount, IsEvent, points, rows, first, width);
    DenseTotal(Exceptions, IsException, points, rows, first, width);
  }

  /** The series of a resolved window adds up to its summary, whichever rows it holds. */
  lemma SeriesMatchesSummary(points: seq<Point>, rows: seq<Row>, w: Window)
    requires Resolved(w) && Within(rows, w.from, w.to)
    requires WindowSeries(points, rows, w)
    ensures Summary(rows) == MetricSummary(Total(Visitors, points), Total(Pageviews, points), Total(EventCount, points))
    ensures Total(Exceptions, points) == Count(IsException, rows)
  {
    hide DenseSeries, Total, TallyIn, CountIn, Count, FirstBucket, LastBucket;
    var first := FirstBucket(w.from, w.bucket);
    DenseCovers(points, w);
    DenseTotals(points, rows, first, w.bucket);
    var end := first + |points| * w.bucket;
    WithinCounts(IsVisitor, rows, first, end);
    WithinCounts(IsPageLoad, rows, first, end);
    WithinCounts(IsEvent, rows, first, end);
    WithinCounts(IsException, rows, first, end);
  }

  /** The buckets of a window cover it. */
  lemma DenseCovers(points: seq<Point>, w: Window)
    requires Resolved(w)
    requires |points| == (LastBucket(w.to, w.bucket) - FirstBucket(w.from, w.bucket)) / w.bucket + 1
    ensures FirstBucket(w.from, w.bucket) <= w.from
    ensures w.to <= FirstBucket(w.from, w.bucket) + |points| * w.bucket
  {
    var first, last := FirstBucket(w.from, w.bucket), LastBucket(w.to, w.bucket);
    GridSteps(w.from, w.to, w.bucket);
    assert (|points| - 1) * w.bucket == last - first;
    assert |points| * w.bucket == (|points| - 1) * w.bucket + w.bucket;
    BucketHolds(w.from, first, w.bucket);
    BucketHolds(w.to - 1, 0, w.bucket);
    BucketHolds(w.to - 1, last, w.bucket);
  }

  // ----------------------------------------------------------------------------- the dashboard

  datatype Panels = Panels(
    summary: MetricSummary,
    previousSummary: MetricSummary,
    timeseries: seq<Point>,
    previousTimeseries: seq<Point>)

  /** With a path filter active, unique page views are the visitor count. */
  function RowOf(pathFiltered: bool): Event -> Row {
    (e: Event) => Row(e.kind, e.receivedMs, if pathFiltered then e.isUniquePage else e.isUniqueUser)
  }

  function Later(len: int): Row -> Row { (r: Row) => r.(at := r.at + len) }

  /** The scan's rows in `[lo, hi)`, as rows of the chosen columns. */
  function RowsIn(scan: seq<Event>, lo: int, hi: int, pathFiltered: bool): seq<Row> {
    Map(RowOf(pathFiltered), Filter((e: Event) => lo <= e.receivedMs < hi, scan))
  }

  /** How many events of the scan satisfy `p`. */
  function HowMany(p: Event -> bool, scan: seq<Event>): nat { |Filter(p, scan)| }

  lemma {:induction false} CountsEvents(p: Row -> bool, q: Event -> bool, scan: seq<Event>, lo: int, hi: int,
                                        pathFiltered: bool)
    requires forall e :: q(e) <==> lo <= e.receivedMs < hi && p(RowOf(pathFiltered)(e))
    ensures Count(p, RowsIn(scan, lo, hi, pathFiltered)) == HowMany(q, scan)
  {
    hide RowOf;
    if scan != [] {
      var n := |scan| - 1;
      var front, last := RowsIn(scan[..n], lo, hi, pathFiltered), RowOf(pathFiltered)(scan[n]);
      CountsEvents(p, q, scan[..n], lo, hi, pathFiltered);
      if lo <= scan[n].receivedMs < hi {
        assert RowsIn(scan, lo, hi, pathFiltered) == front + [last];
        assert (front + [last])[..|front|] == front;
      } else {
        assert RowsIn(scan, lo, hi, pathFiltered) == front;
      }
    }
  }

  /**
   What a window's rows add up to, in events of the scan: page views are its page loads; visitors are
   those flagged as a user's first of the day, or as a page's first when the query filters on paths;
   events are pixels and custom events.
   */
  lemma SummaryCounts(scan: seq<Event>, lo: int, hi: int, pathFiltered: bool)
    ensures var rows := RowsIn(scan, lo, hi, pathFiltered);
            var loads := (e: Event) => lo <= e.receivedMs < hi && e.kind == PageLoad;
            && Summary(rows).pageviews == HowMany(loads, scan)
            && (!pathFiltered ==> Summary(rows).visitors == HowMany((e: Event) => loads(e) && e.isUniqueUser, scan))
            && (pathFiltered ==> Summary(rows).visitors == HowMany((e: Event) => loads(e) && e.isUniquePage, scan))
            && Summary(rows).events
               == HowMany((e: Event) => lo <= e.receivedMs < hi && (e.kind == Pixel || e.kind == Custom), scan)
            && Count(IsException, rows) == HowMany((e: Event) => lo <= e.receivedMs < hi && e.kind == Exception, scan)
  {
    hide Count, RowsIn, HowMany;
    var loads := (e: Event) => lo <= e.receivedMs < hi && e.kind == PageLoad;
    CountsEvents(IsPageLoad, loads, scan, lo, hi, pathFiltered);
    if pathFiltered {
      CountsEvents(IsVisitor, (e: Event) => loads(e) && e.isUniquePage, scan, lo, hi, pathFiltered);
    } else {
      CountsEvents(IsVisitor, (e: Event) => loads(e) && e.isUniqueUser, scan, lo, hi, pathFiltered);
    }
    CountsEvents(IsEvent, (e: Event) => lo <= e.receivedMs < hi && (e.kind == Pixel || e.kind == Custom), scan, lo, hi,
                 pathFiltered);
    CountsEvents(IsException, (e: Event) => lo <= e.receivedMs < hi && e.kind == Exception, scan, lo, hi, pathFiltered);
  }

  lemma RowsInWithin(scan: seq<Event>, lo: int, hi: int, pathFiltered: bool)
    ensures Within(RowsIn(scan, lo, hi, pathFiltered), lo, hi)
  {
    var p := (e: Event) => lo <= e.receivedMs < hi;
    var kept := Filter(p, scan);
    forall i | 0 <= i < |kept| ensures lo <= kept[i].receivedMs < hi {
      assert kept[i] in kept;
    }
  }

  /** Moving rows and window together changes no count. */
  lemma {:induction false} CountShifts(p: Row -> bool, rows: seq<Row>, len: int, lo: int, hi: int)
    requires forall r: Row, d :: p(r.(at := d)) == p(r)
    ensures CountIn(p, Map(Later(len), rows), lo + len, hi + len) == CountIn(p, rows, lo, hi)
    ensures Count(p, Map(Later(len), rows)) == Count(p, rows)
  {
    if rows != [] {
      var n := |rows| - 1;
      CountShifts(p, rows[..n], len, lo, hi);
      assert Map(Later(len), rows)[..n] == Map(Later(len), rows[..n]);
      assert p(rows[n].(at := rows[n].at + len)) == p(rows[n]);
    }
  }

  lemma TallyShifts(rows: seq<Row>, len: int, lo: int, hi: int)
    ensures TallyIn(Map(Later(len), rows), lo + len, hi + len) == TallyIn(rows, lo, hi)
    ensures Summary(Map(Later(len), rows)) == Summary(rows)
  {
    hide Later, CountIn, Count;
    CountShifts(IsPageLoad, rows, len, lo, hi);
    CountShifts(IsVisitor, rows, len, lo, hi);
    CountShifts(IsEvent, rows, len, lo, hi);
    CountShifts(IsException, rows, len, lo, hi);
  }

  /** The series meets the summary, and each point counts its own bucket. */
  ghost predicate SeriesOf(points: seq<Point>, rows: seq<Row>, width: int, summary: MetricSummary) {
    && summary == MetricSummary(Total(Visitors, points), Total(Pageviews, points), Total(EventCount, points))
    && Total(Exceptions, points) == Count(IsException, rows)
    && forall i :: 0 <= i < |points| ==>
                     points[i].tally == TallyIn(rows, points[i].timestampMs, points[i].timestampMs + width)
  }

  /** Consecutive buckets, the first holding `from` and the last `to - 1`. */
  predicate Covers(points: seq<Point>, w: Window) {
    && points != []
    && (forall i :: 0 < i < |points| ==> points[i].timestampMs == points[i - 1].timestampMs + w.bucket)
    && points[0].timestampMs <= w.from < points[0].timestampMs + w.bucket
    && points[|points| - 1].timestampMs < w.to <= points[|points| - 1].timestampMs + w.bucket
  }

  /**
   `dashboard` over the filtered scan of `[from - len, to)`: both series are on the current window's
   grid, index by index one window length apart, and add up to their summaries.
   */
  method Dashboard(scan: seq<Event>, pathFiltered: bool, w: Window) returns (d: Panels)
    requires Resolved(w)
    requires forall e :: e in scan ==> w.from - w.Length() <= e.receivedMs < w.to
    ensures d.summary == Summary(RowsIn(scan, w.from, w.to, pathFiltered))
    ensures SeriesOf(d.timeseries, RowsIn(scan, w.from, w.to, pathFiltered), w.bucket, d.summary)
    ensures Covers(d.timeseries, w)
    ensures d.previousSummary == Summary(RowsIn(scan, w.from - w.Length(), w.from, pathFiltered))
    ensures SeriesOf(d.previousTimeseries, RowsIn(scan, w.from - w.Length(), w.from, pathFiltered), w.bucket,
                     d.previousSummary)
    ensures |d.previousTimeseries| == |d.timeseries| && w.Length() == w.to - w.from
    ensures forall i :: 0 <= i < |d.timeseries| ==>
                          d.previousTimeseries[i].timestampMs == d.timeseries[i].timestampMs - w.Length()
  {
    hide *;
    var len := w.Length();
    var current := Map(RowOf(pathFiltered), Filter((e: Event) => e.receivedMs >= w.from, scan));
    var previous := Map(RowOf(pathFiltered), Filter((e: Event) => e.receivedMs < w.from, scan));
    ScanSplits(scan, pathFiltered, w);
    var shifted := Map(Later(len), previous);
    var moved := Timeseries(shifted, w.from, w.to, w.bucket);
    var back := ShiftBack(moved, len);
    var series := Timeseries(current, w.from, w.to, w.bucket);
    d := Panels(Summary(current), Summary(previous), series, back);
    RowsInWithin(scan, w.from, w.to, pathFiltered);
    RowsInWithin(scan, w.from - len, w.from, pathFiltered);
    LengthIsSpan(w);
    PanelsFit(series, moved, back, current, previous, w);
  }

  lemma LengthIsSpan(w: Window)
    requires Resolved(w)
    ensures w.Length() == w.to - w.from
  {
  }

  lemma PanelsFit(series: seq<Point>, moved: seq<Point>, back: seq<Point>, current: seq<Row>, previous: seq<Row>, w: Window)
    requires Resolved(w) && Within(current, w.from, w.to) && Within(previous, w.from - w.Length(), w.from)
    requires IsSeries(series, current, w.from, w.to, Max(w.bucket, 1))
    requires IsSeries(moved, Map(Later(w.Length()), previous), w.from, w.to, Max(w.bucket, 1))
    requires |back| == |moved|
    requires forall k :: 0 <= k < |back| ==> back[k] == Point(moved[k].timestampMs - w.Length(), moved[k].tally)
    ensures SeriesOf(series, current, w.bucket, Summary(current)) && Covers(series, w)
    ensures SeriesOf(back, previous, w.bucket, Summary(previous)) && |back| == |series|
    ensures forall i :: 0 <= i < |series| ==> back[i].timestampMs == series[i].timestampMs - w.Length()
  {
    var shifted := Map(Later(w.Length()), previous);
    assert w.bucket > 0;
    hide *;
    ResolvedSeries(series, current, w);
    ResolvedSeries(moved, shifted, w);
    CurrentSeries(series, current, w);
    PreviousSeries(moved, back, previous, w);
    SameGrid(series, moved, current, shifted, w);
  }

  /** Give the points the previous window's own instants. */
  method ShiftBack(moved: seq<Point>, len: int) returns (back: seq<Point>)
    ensures |back| == |moved|
    ensures forall k :: 0 <= k < |back| ==> back[k] == Point(moved[k].timestampMs - len, moved[k].tally)
  {
    back := [];
    for i := 0 to |moved|
      invariant |back| == i
      invariant forall k :: 0 <= k < i ==> back[k] == Point(moved[k].timestampMs - len, moved[k].tally)
    {
      back := back + [Point(moved[i].timestampMs - len, moved[i].tally)];
    }
  }

  lemma {:induction false} FilterAgrees<A(!new)>(p: A -> bool, q: A -> bool, s: seq<A>)
    requires forall x :: x in s ==> p(x) == q(x)
    ensures Filter(p, s) == Filter(q, s)
  {
    if s != [] {
      FilterAgrees(p, q, s[..|s| - 1]);
    }
  }

  lemma ScanSplits(scan: seq<Event>, pathFiltered: bool, w: Window)
    requires Resolved(w) && forall e :: e in scan ==> w.from - w.Length() <= e.receivedMs < w.to
    ensures Map(RowOf(pathFiltered), Filter((e: Event) => e.receivedMs >= w.from, scan))
         == RowsIn(scan, w.from, w.to, pathFiltered)
    ensures Map(RowOf(pathFiltered), Filter((e: Event) => e.receivedMs < w.from, scan))
         == RowsIn(scan, w.from - w.Length(), w.from, pathFiltered)
  {
    FilterAgrees((e: Event) => e.receivedMs >= w.from, (e: Event) => w.from <= e.receivedMs < w.to, scan);
    FilterAgrees((e: Event) => e.receivedMs < w.from, (e: Event) => w.from - w.Length() <= e.receivedMs < w.from, scan);
  }

  lemma CurrentSeries(points: seq<Point>, rows: seq<Row>, w: Window)
    requires Resolved(w) && Within(rows, w.from, w.to)
    requires WindowSeries(points, rows, w)
    ensures SeriesOf(points, rows, w.bucket, Summary(rows)) && Covers(points, w)
  {
    hide TallyIn, Total, Count, Summary;
    SeriesMatchesSummary(points, rows, w);
    DenseIsCover(points, rows, w);
  }

  lemma DenseIsCover(points: seq<Point>, rows: seq<Row>, w: Window)
    requires Resolved(w)
    requires WindowSeries(points, rows, w)
    ensures Covers(points, w)
  {
    hide TallyIn, BucketOf;
    ResolvedIsDense(w);
    DenseCovers(points, w);
    var first, last := FirstBucket(w.from, w.bucket), LastBucket(w.to, w.bucket);
    GridSteps(w.from, w.to, w.bucket);
    GridDistance(w.from, w.to, w.bucket);
    BucketHolds(w.from, first, w.bucket);
    assert (|points| - 1) * w.bucket == last - first;
    assert last < w.to by { LastBefore(w); }
    Product(0, |points| - 1, w.bucket);
    forall i | 0 < i < |points| ensures points[i].timestampMs == points[i - 1].timestampMs + w.bucket {
      assert i * w.bucket == (i - 1) * w.bucket + w.bucket;
    }
  }

  lemma LastBefore(w: Window)
    requires Resolved(w)
    ensures LastBucket(w.to, w.bucket) < w.to
  {
  }

  lemma PreviousSeries(moved: seq<Point>, back: seq<Point>, rows: seq<Row>, w: Window)
    requires Resolved(w) && Within(rows, w.from - w.Length(), w.from)
    requires WindowSeries(moved, Map(Later(w.Length()), rows), w)
    requires |back| == |moved|
    requires forall k :: 0 <= k < |back| ==> back[k] == Point(moved[k].timestampMs - w.Length(), moved[k].tally)
    ensures SeriesOf(back, rows, w.bucket, Summary(rows))
  {
    hide TallyIn, Total, Count, Summary, FirstBucket, LastBucket;
    var len := w.Length();
    var shifted := Map(Later(len), rows);
    assert Within(shifted, w.from, w.to);
    SeriesMatchesSummary(moved, shifted, w);
    TallyShifts(rows, len, 0, 0);
    CountShifts(IsException, rows, len, 0, 0);
    SameTotals(Visitors, moved, back);
    SameTotals(Pageviews, moved, back);
    SameTotals(EventCount, moved, back);
    SameTotals(Exceptions, moved, back);
    forall i | 0 <= i < |back|
      ensures back[i].tally == TallyIn(rows, back[i].timestampMs, back[i].timestampMs + w.bucket)
    {
      TallyShifts(rows, len, back[i].timestampMs, back[i].timestampMs + w.bucket);
    }
  }

  lemma {:induction false} SameTotals(f: Tally -> nat, a: seq<Point>, b: seq<Point>)
    requires |a| == |b| && forall i :: 0 <= i < |a| ==> a[i].tally == b[i].tally
    ensures Total(f, a) == Total(f, b)
  {
    if a != [] {
      SameTotals(f, a[..|a| - 1], b[..|b| - 1]);
    }
  }

  lemma SameGrid(a: seq<Point>, b: seq<Point>, rows: seq<Row>, others: seq<Row>, w: Window)
    requires Resolved(w) && WindowSeries(a, rows, w) && WindowSeries(b, others, w)
    ensures |a| == |b| && forall i :: 0 <= i < |a| ==> a[i].timestampMs == b[i].timestampMs
  {
  }

  // ------------------------------------------------------------------------------ the trend

  function SliceOf(t: int, from: int, to: int): (i: int)
    ensures 0 <= i < TREND_BUCKETS
  {
    Clamp((t - from) * TREND_BUCKETS / Max(to - from, 1), 0, TREND_BUCKETS - 1)
  }

  function Occurrences(times: seq<int>, from: int, to: int, slice: int): nat {
    if times == [] then 0
    else
      Occurrences(times[..|times| - 1], from, to, slice)
      + (if SliceOf(times[|times| - 1], from, to) == slice then 1 else 0)
  }

  function Sum(counts: seq<int>): int {
    if counts == [] then 0 else Sum(counts[..|counts| - 1]) + counts[|counts| - 1]
  }

  lemma {:induction false} SumBumps(counts: seq<int>, i: nat)
    requires i < |counts|
    ensures Sum(counts[i := counts[i] + 1]) == Sum(counts) + 1
  {
    var n := |counts| - 1;
    if i == n {
      assert counts[i := counts[i] + 1][..n] == counts[..n];
    } else {
      SumBumps(counts[..n], i);
      assert counts[i := counts[i] + 1][..n] == counts[..n][i := counts[i] + 1];
    }
  }

  lemma {:induction false} SumOfZeros(counts: seq<int>)
    requires forall i :: 0 <= i < |counts| ==> counts[i] == 0
    ensures Sum(counts) == 0
  {
    if counts != [] {
      SumOfZeros(counts[..|counts| - 1]);
    }
  }

  /** Every occurrence falls into exactly one slice, so a trend adds up to the number of occurrences. */
  method TrendOf(times: seq<int>, from: int, to: int) returns (trend: seq<int>)
    ensures |trend| == 20 && Sum(trend) == |times|
    ensures forall i :: 0 <= i < 20 ==> trend[i] == Occurrences(times, from, to, i)
  {
    hide SliceOf, Sum;
    var buckets := new int[TREND_BUCKETS](_ => 0);
    SumOfZeros(buckets[..]);
    for k := 0 to |times|
      invariant Sum(buckets[..]) == k
      invariant forall i :: 0 <= i < TREND_BUCKETS ==> buckets[i] == Occurrences(times[..k], from, to, i)
    {
      var idx := SliceOf(times[k], from, to);
      assert times[..k + 1][..k] == times[..k];
      SumBumps(buckets[..], idx);
      ghost var bumped := buckets[..][idx := buckets[..][idx] + 1];
      buckets[idx] := buckets[idx] + 1;
      assert buckets[..] == bumped;
    }
    assert times[..|times|] == times;
    trend := buckets[..];
  }

  /** The slices cut the window into twenty equal parts, oldest first. */
  lemma SlicesAreEqualParts(t: int, from: int, to: int)
    requires from <= t < to
    ensures var i := SliceOf(t, from, to);
            0 <= i < 20 && i * (to - from) <= (t - from) * 20 < (i + 1) * (to - from)
  {
  }
}
