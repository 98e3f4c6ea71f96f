/**
 Days of the proleptic Gregorian calendar (section 3.2.1 of ISO 8601:2004). The compactor files
 rows under the day of their receive time, and queries prune and retention deletes whole days.
 */
module Calendar {

  const DAY_MS := 86_400_000

  /** The instants chrono 0.4.45 can represent: years -262143 to 262142. */
  const MIN_UTC_MS := -8_334_601_228_800_000
  const MAX_UTC_MS := 8_210_266_876_799_999

  predicate Representable(ms: int) { MIN_UTC_MS <= ms <= MAX_UTC_MS }

  datatype Date = Date(year: int, month: int, day: int)

  predicate IsLeap(year: int) { year % 4 == 0 && (year % 100 != 0 || year % 400 == 0) }

  function MonthLength(year: int, month: int): int {
    if month == 2 then (if IsLeap(year) then 29 else 28)
    else if month == 4 || month == 6 || month == 9 || month == 11 then 30
    else 31
  }

  predicate ValidDate(d: Date) {
    1 <= d.month <= 12 && 1 <= d.day <= MonthLength(d.year, d.month)
  }

  /** Days from 0000-01-01 to the first of January. */
  function YearStart(year: int): int {
    365 * year + (year + 3) / 4 - (year + 99) / 100 + (year + 399) / 400
  }

  /** Days from the first of January to the first of the month; month 13 closes the year. */
  function MonthStart(year: int, month: int): int
    requires 1 <= month <= 13
  {
    if month == 1 then 0 else MonthStart(year, month - 1) + MonthLength(year, month - 1)
  }

  const EPOCH := YearStart(1970)

  /** Days since 1970-01-01. */
  function DayNumber(d: Date): int
    requires 1 <= d.month <= 12
  {
    YearStart(d.year) + MonthStart(d.year, d.month) + d.day - 1 - EPOCH
  }

  /** Lexicographic order on (year, month, day), as Rust compares the tuples. */
  predicate Before(a: Date, b: Date) {
    a.year < b.year
    || (a.year == b.year && (a.month < b.month || (a.month == b.month && a.day < b.day)))
  }

  function YearOf(n: int): (year: int)
    ensures YearStart(year) <= n < YearStart(year + 1)
  {
    var guess := 400 * n / 146097;
    if n < YearStart(guess) then guess - 1
    else if n < YearStart(guess + 1) then guess
    else guess + 1
  }

  function MonthOf(year: int, dayOfYear: int, from: int): (month: int)
    requires 1 <= from <= 12 && MonthStart(year, from) <= dayOfYear < MonthStart(year, 13)
    ensures from <= month <= 12
    ensures MonthStart(year, month) <= dayOfYear < MonthStart(year, month + 1)
    decreases 12 - from
  {
    if dayOfYear < MonthStart(year, from + 1) then from else MonthOf(year, dayOfYear, from + 1)
  }

  lemma YearLength(year: int)
    ensures MonthStart(year, 13) == YearStart(year + 1) - YearStart(year)
  {
    var leap := if IsLeap(year) then 1 else 0;
    assert MonthStart(year, 1) == 0 && MonthStart(year, 2) == 31;
    assert MonthStart(year, 3) == 59 + leap;
    assert MonthStart(year, 5) == 120 + leap;
    assert MonthStart(year, 7) == 181 + leap;
    assert MonthStart(year, 9) == 243 + leap;
    assert MonthStart(year, 11) == 304 + leap;
    LeapStep(year);
  }

  lemma LeapStep(year: int)
    ensures YearStart(year + 1) - YearStart(year) == 365 + if IsLeap(year) then 1 else 0
  {
    assert (year + 4) / 4 - (year + 3) / 4 == if year % 4 == 0 then 1 else 0;
    assert (year + 100) / 100 - (year + 99) / 100 == if year % 100 == 0 then 1 else 0;
    assert (year + 400) / 400 - (year + 399) / 400 == if year % 400 == 0 then 1 else 0;
  }

  /** The date of a day number. */
  function DateOf(days: int): (d: Date)
    ensures ValidDate(d) && DayNumber(d) == days
  {
    var n := days + EPOCH;
    var year := YearOf(n);
    var dayOfYear := n - YearStart(year);
    YearLength(year);
    var month := MonthOf(year, dayOfYear, 1);
    Date(year, month, dayOfYear - MonthStart(year, month) + 1)
  }

  /** `day_of`: the UTC date of an instant, and of the epoch when chrono cannot represent it. */
  function DayOf(ms: int): Date {
    if Representable(ms) then DateOf(ms / DAY_MS) else DateOf(0)
  }

  lemma {:induction false} YearStartMonotone(a: int, b: int)
    requires a <= b
    ensures YearStart(a) <= YearStart(b)
    decreases b - a
  {
  }

  lemma {:induction false} MonthStartMonotone(year: int, a: int, b: int)
    requires 1 <= a <= b <= 13
    ensures MonthStart(year, a) <= MonthStart(year, b)
    decreases b - a
  {
    if a < b {
      MonthStartMonotone(year, a, b - 1);
    }
  }

  lemma WithinYear(d: Date)
    requires ValidDate(d)
    ensures YearStart(d.year) <= DayNumber(d) + EPOCH < YearStart(d.year + 1)
  {
    YearLength(d.year);
    MonthStartMonotone(d.year, 1, d.month);
    MonthStartMonotone(d.year, d.month + 1, 13);
  }

  /** Calendar order and day order agree, so a valid date is determined by its day number. */
  lemma DateOrder(a: Date, b: Date)
    requires ValidDate(a) && ValidDate(b)
    ensures Before(a, b) <==> DayNumber(a) < DayNumber(b)
    ensures a == b <==> DayNumber(a) == DayNumber(b)
  {
    hide YearStart, IsLeap;
    WithinYear(a);
    WithinYear(b);
    if a.year < b.year {
      YearStartMonotone(a.year + 1, b.year);
    } else if b.year < a.year {
      YearStartMonotone(b.year + 1, a.year);
    } else if a.month < b.month {
      MonthStartMonotone(a.year, a.month + 1, b.month);
    } else if b.month < a.month {
      MonthStartMonotone(a.year, b.month + 1, a.month);
    }
  }

  /** Dates are the unique valid reading of a day number: `DateOf` inverts `DayNumber`. */
  lemma DateOfInverts(d: Date)
    requires ValidDate(d)
    ensures DateOf(DayNumber(d)) == d
  {
    DateOrder(DateOf(DayNumber(d)), d);
  }

  // -------------------------------------------------------------------- the civil calendar

  /** The civil day after a date. */
  function NextDate(d: Date): Date {
    if d.day < MonthLength(d.year, d.month) then Date(d.year, d.month, d.day + 1)
    else if d.month < 12 then Date(d.year, d.month + 1, 1)
    else Date(d.year + 1, 1, 1)
  }

  lemma NextDateCounts(d: Date)
    requires ValidDate(d)
    ensures ValidDate(NextDate(d)) && DayNumber(NextDate(d)) == DayNumber(d) + 1
  {
    hide YearStart;
    YearLength(d.year);
  }

  /** Twelve months of 31, 28 or 29, 31, 30, ... days; leap years are one in four, but three centuries in four are not. */
  lemma CivilYear(year: int, month: int)
    requires 1 <= month <= 12
    ensures MonthLength(year, month)
         == [31, if IsLeap(year) then 29 else 28, 31, 30, 31, 30, 31, 31, 30, 31, 30, 31][month - 1]
    ensures IsLeap(year) <==> if year % 100 == 0 then year % 400 == 0 else year % 4 == 0
  {
  }

  lemma EpochDate()
    ensures DateOf(0) == Date(1970, 1, 1)
  {
    hide DateOf;
    assert MonthStart(1970, 1) == 0;
    assert DayNumber(Date(1970, 1, 1)) == 0;
    DateOfInverts(Date(1970, 1, 1));
  }

  /** Instants are filed by the civil calendar: day zero is 1970-01-01, and a day of milliseconds later is the next date. */
  lemma DayOfIsCivil(ms: int)
    requires Representable(ms)
    ensures 0 <= ms < 86_400_000 ==> DayOf(ms) == Date(1970, 1, 1)
    ensures Representable(ms + 86_400_000) ==> DayOf(ms + 86_400_000) == NextDate(DayOf(ms))
  {
    hide DateOf, Representable, DayNumber, NextDate;
    var days := ms / DAY_MS;
    EpochDate();
    assert (ms + 86_400_000) / DAY_MS == days + 1;
    NextDateCounts(DateOf(days));
    DateOfInverts(NextDate(DateOf(days)));
  }

  /** chrono represents exactly the instants of the years -262143 to 262142; `day_of` files all others under the epoch. */
  lemma RepresentableIff(ms: int)
    ensures Representable(ms) <==> -262143 <= DateOf(ms / 86_400_000).year <= 262142
    ensures !Representable(ms) ==> DayOf(ms) == Date(1970, 1, 1)
  {
    hide DateOf, YearStart;
    EpochDate();
    var d := DateOf(ms / DAY_MS);
    WithinYear(d);
    RangeEnds();
    if d.year < -262143 {
      YearStartMonotone(d.year + 1, -262143);
    } else if d.year > 262142 {
      YearStartMonotone(262143, d.year);
    } else {
      YearStartMonotone(-262143, d.year);
      YearStartMonotone(d.year + 1, 262143);
    }
  }

  lemma RangeEnds()
    ensures (YearStart(-262143) - EPOCH) * DAY_MS == MIN_UTC_MS
    ensures (YearStart(262143) - EPOCH) * DAY_MS == MAX_UTC_MS + 1
  {
  }

  /** `DayOf` never steps backwards, so a day range covers the dates of all instants in between. */
  lemma DayOfMonotone(a: int, b: int)
    requires Representable(a) && Representable(b) && a <= b
    ensures !Before(DayOf(b), DayOf(a))
  {
    DateOrder(DayOf(b), DayOf(a));
  }

  // ------------------------------------------------------------------ query pruning

  /** `parquet_files_in_range` opens a day directory iff it is not outside the two end days. */
  predicate DayScanned(d: Date, fromMs: int, toMs: int) {
    !(Before(d, DayOf(fromMs)) || Before(DayOf(toMs), d))
  }

  /** No partition that holds a row of the half-open window is skipped. */
  lemma PruningIsComplete(receivedMs: int, fromMs: int, toMs: int)
    requires Representable(fromMs) && Representable(toMs) && fromMs <= receivedMs < toMs
    ensures DayScanned(DayOf(receivedMs), fromMs, toMs)
  {
    DayOfMonotone(fromMs, receivedMs);
    DayOfMonotone(receivedMs, toMs);
  }

  // ---------------------------------------------------------------------- retention

  /** 23:59:59.000 of the day, the instant `enforce_retention` compares with its cutoff. */
  function EndOfDay(d: Date): int
    requires ValidDate(d)
  {
    DayNumber(d) * DAY_MS + 86_399_000
  }

  /** Whether `enforce_retention` removes the day's directory. */
  predicate Expired(d: Date, cutoffMs: int) {
    ValidDate(d) && EndOfDay(d) < cutoffMs
  }

  lemma ExpiredAt(receivedMs: int, cutoffMs: int)
    requires Representable(receivedMs)
    ensures Expired(DayOf(receivedMs), cutoffMs)
            <==> receivedMs - receivedMs % DAY_MS + 86_399_000 < cutoffMs
  {
  }

  /** A row at least 999 ms younger than the cutoff survives retention. */
  lemma RetentionGrace(receivedMs: int, cutoffMs: int)
    requires Representable(receivedMs) && receivedMs >= cutoffMs + 999
    ensures !Expired(DayOf(receivedMs), cutoffMs)
  {
  }

  /**
   Retention respects its cutoff for every row exactly when the cutoff does not fall inside the
   last 999 ms of a day, which `EndOfDay` leaves out.
   */
  lemma RetentionRespectsCutoffIff(cutoffMs: int)
    requires Representable(cutoffMs)
    ensures (forall t :: Representable(t) && t >= cutoffMs ==> !Expired(DayOf(t), cutoffMs))
            <==> cutoffMs % DAY_MS <= 86_399_000
  {
    ExpiredAt(cutoffMs, cutoffMs);
    forall t | Representable(t) && t >= cutoffMs && cutoffMs % DAY_MS <= 86_399_000
      ensures !Expired(DayOf(t), cutoffMs)
    {
      ExpiredAt(t, cutoffMs);
      DayGap(cutoffMs, t);
    }
  }

  lemma DayGap(a: int, b: int)
    requires a <= b && a % DAY_MS <= 86_399_000
    ensures a <= b - b % DAY_MS + 86_399_000
  {
  }
}
