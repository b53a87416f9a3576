/**
 Timeline buckets (`domain/stats.rs`): the bounds of each statistics range in Beijing time and the loop
 that cuts them into buckets. Instants are nanoseconds from the Unix epoch; days are counted from
 0001-01-01 in the proleptic Gregorian calendar. Bucket labels are not part of this model.
 */
module Calendar {
  import opened Basics

  // ----- Dates -----

  datatype Date = Date(year: int, month: int, day: int)

  predicate IsLeap(year: int) {
    year % 4 == 0 && (year % 100 != 0 || year % 400 == 0)
  }

  function DaysBeforeYear(year: int): int {
    365 * (year - 1) + (year - 1) / 4 - (year - 1) / 100 + (year - 1) / 400
  }

  function DaysBeforeMonth(leap: bool, month: int): int
    requires 1 <= month <= 12
  {
    [0, 31, 59, 90, 120, 151, 181, 212, 243, 273, 304, 334][month - 1] + (if leap && month > 2 then 1 else 0)
  }

  /** Months are numbered continuously: December of one year is followed by January of the next. */
  function MonthIndex(date: Date): int {
    12 * date.year + date.month - 1
  }

  function MonthStart(m: int): int {
    DaysBeforeYear(m / 12) + DaysBeforeMonth(IsLeap(m / 12), m % 12 + 1)
  }

  function DayNumber(date: Date): int {
    MonthStart(MonthIndex(date)) + date.day - 1
  }

  predicate ValidDate(date: Date) {
    1 <= date.month <= 12 && 1 <= date.day <= MonthStart(MonthIndex(date) + 1) - MonthStart(MonthIndex(date))
  }

  lemma YearLength(year: int)
    ensures DaysBeforeYear(year + 1) - DaysBeforeYear(year) == if IsLeap(year) then 366 else 365
  {
    var y := year - 1;
    Quotients(y, 4);
    Quotients(y, 100);
    Quotients(y, 400);
    assert year % 400 == 0 ==> year % 100 == 0;
    assert year % 100 == 0 ==> year % 4 == 0;
  }

  lemma Quotients(y: int, k: int)
    requires k == 4 || k == 100 || k == 400
    ensures (y + 1) / k - y / k == if (y + 1) % k == 0 then 1 else 0
  {
  }

  /** Months have 28 to 31 days. */
  lemma MonthLength(m: int)
    ensures 28 <= MonthStart(m + 1) - MonthStart(m) <= 31
  {
    YearLength(m / 12);
    if m % 12 == 11 { assert (m + 1) / 12 == m / 12 + 1 && (m + 1) % 12 == 0; }
    else { assert (m + 1) / 12 == m / 12 && (m + 1) % 12 == m % 12 + 1; }
  }

  function MonthUp(day: int, m: int): (r: int)
    requires MonthStart(m) <= day
    ensures MonthStart(r) <= day < MonthStart(r + 1)
    decreases day - MonthStart(m)
  {
    hide MonthStart;
    MonthLength(m);
    if day < MonthStart(m + 1) then m else MonthUp(day, m + 1)
  }

  function MonthDown(day: int, m: int): (r: int)
    requires day < MonthStart(m + 1)
    ensures MonthStart(r) <= day < MonthStart(r + 1)
    decreases MonthStart(m + 1) - day
  {
    hide MonthStart;
    MonthLength(m);
    if MonthStart(m) <= day then m else MonthDown(day, m - 1)
  }

  function MonthOf(day: int): (m: int)
    ensures MonthStart(m) <= day < MonthStart(m + 1)
  {
    hide MonthStart;
    if MonthStart(12) <= day then MonthUp(day, 12) else MonthDown(day, 11)
  }

  /** The date of a day number. */
  function DateOf(day: int): (date: Date)
    ensures ValidDate(date) && DayNumber(date) == day && MonthIndex(date) == MonthOf(day)
  {
    hide MonthStart, MonthOf;
    var m := MonthOf(day);
    Date(m / 12, m % 12 + 1, day - MonthStart(m) + 1)
  }

  lemma {:induction false} MonthsIncrease(a: int, b: int)
    requires a <= b
    ensures MonthStart(a) + 28 * (b - a) <= MonthStart(b)
    decreases b - a
  {
    if a < b {
      hide MonthStart;
      MonthsIncrease(a, b - 1);
      MonthLength(b - 1);
    }
  }

  lemma MonthIsUnique(day: int, m: int)
    requires MonthStart(m) <= day < MonthStart(m + 1)
    ensures MonthOf(day) == m
  {
    hide MonthStart, MonthOf;
    var n := MonthOf(day);
    if n < m { MonthsIncrease(n + 1, m); } else if m < n { MonthsIncrease(m + 1, n); }
  }

  /** Dates and day numbers determine each other. */
  lemma DateRoundTrip(date: Date)
    requires ValidDate(date)
    ensures DateOf(DayNumber(date)) == date
  {
    hide MonthStart, MonthOf;
    MonthIsUnique(DayNumber(date), MonthIndex(date));
    assert MonthIndex(date) / 12 == date.year && MonthIndex(date) % 12 == date.month - 1;
  }

  function FirstDayOfMonth(date: Date): Date {
    date.(day := 1)
  }

  function FirstDayOfNextMonth(date: Date): Date {
    if date.month == 12 then Date(date.year + 1, 1, 1) else Date(date.year, date.month + 1, 1)
  }

  function FirstDayOfPreviousMonth(date: Date): Date {
    if date.month == 1 then Date(date.year - 1, 12, 1) else Date(date.year, date.month - 1, 1)
  }

  /** The month helpers move by exactly one month, also across the year's end. */
  lemma MonthHelpers(date: Date)
    requires ValidDate(date)
    ensures DayNumber(FirstDayOfMonth(date)) == MonthStart(MonthIndex(date))
    ensures DayNumber(FirstDayOfNextMonth(date)) == MonthStart(MonthIndex(date) + 1)
    ensures DayNumber(FirstDayOfPreviousMonth(date)) == MonthStart(MonthIndex(date) - 1)
    ensures ValidDate(FirstDayOfMonth(date)) && ValidDate(FirstDayOfNextMonth(date))
  {
    hide MonthStart;
    MonthLength(MonthIndex(date));
    MonthLength(MonthIndex(date) + 1);
  }

  // ----- Instants -----

  const Second: int := 1_000_000_000

  const Hour: int := 3600 * Second

  const Day: int := 24 * Hour

  const BeijingOffset: int := 8 * Hour

  /** 1970-01-01 */
  const EpochDay: int := 719_162

  /** The Beijing day an instant falls on. */
  function LocalDay(t: int): int {
    EpochDay + (t + BeijingOffset) / Day
  }

  /** `beijing_start_of_day` */
  function Midnight(day: int): int {
    (day - EpochDay) * Day - BeijingOffset
  }

  lemma DayContains(t: int, day: int)
    ensures LocalDay(t) == day <==> Midnight(day) <= t < Midnight(day + 1)
  {
  }

  /** `num_days_from_monday`: 0001-01-01 was a Monday. */
  function DaysFromMonday(day: int): int {
    day % 7
  }

  /** The fixed points: 1970-01-01 was a Thursday, the epoch is 8 o'clock in Beijing, and days have 24 hours. */
  lemma FixedPoints(day: int)
    ensures DayNumber(Date(1970, 1, 1)) == EpochDay == LocalDay(0) && DaysFromMonday(EpochDay) == 3
    ensures Midnight(EpochDay) == -28_800_000_000_000
    ensures Midnight(day + 1) - Midnight(day) == 86_400_000_000_000
    ensures DaysFromMonday(day + 1) == if DaysFromMonday(day) == 6 then 0 else DaysFromMonday(day) + 1
  {
    EpochDate();
    hide MonthStart;
  }

  lemma EpochDate()
    ensures DayNumber(Date(1970, 1, 1)) == EpochDay
  {
  }

  /** The lengths of the months: thirty days have April, June, September and November. */
  lemma MonthLengths(year: int, month: int)
    requires 1 <= month <= 12
    ensures var m := MonthIndex(Date(year, month, 1));
      MonthStart(m + 1) - MonthStart(m) ==
        if month == 4 || month == 6 || month == 9 || month == 11 then 30
        else if month != 2 then 31
        else if year % 4 == 0 && (year % 100 != 0 || year % 400 == 0) then 29 else 28
  {
    YearLength(year);
    hide DaysBeforeYear;
    var m := MonthIndex(Date(year, month, 1));
    assert m / 12 == year && m % 12 == month - 1;
    if month == 12 {
      assert (m + 1) / 12 == year + 1 && (m + 1) % 12 == 0;
      assert DaysBeforeMonth(IsLeap(year + 1), 1) == 0;
    } else {
      assert (m + 1) / 12 == year && (m + 1) % 12 == month;
      MonthSpan(IsLeap(year), month);
    }
  }

  lemma MonthSpan(leap: bool, month: int)
    requires 1 <= month <= 11
    ensures DaysBeforeMonth(leap, month + 1) - DaysBeforeMonth(leap, month) ==
      if month == 4 || month == 6 || month == 9 || month == 11 then 30
      else if month != 2 then 31
      else if leap then 29 else 28
  {
  }

  datatype Bounds = Bounds(start: int, end: int)

  datatype StatsRange =
    Today | Yesterday | ThisWeek | LastWeek | ThisMonth | LastMonth | ThisYear | LastYear | All

  datatype Granularity = Hourly | SixHours | Daily | HalfMonth | Monthly

  function FromDays(start: int, end: int): Bounds {
    Bounds(Midnight(start), Midnight(end))
  }

  /** `StatsRange::bounds` */
  function RangeBounds(range: StatsRange, now: int): Option<Bounds> {
    var today := LocalDay(now);
    var date := DateOf(today);
    match range
    case Today => Some(FromDays(today, today + 1))
    case Yesterday => Some(FromDays(today - 1, today))
    case ThisWeek =>
      var start := today - DaysFromMonday(today);
      Some(FromDays(start, start + 7))
    case LastWeek =>
      var end := today - DaysFromMonday(today);
      Some(FromDays(end - 7, end))
    case ThisMonth =>
      var start := FirstDayOfMonth(date);
      Some(FromDays(DayNumber(start), DayNumber(FirstDayOfNextMonth(start))))
    case LastMonth =>
      var end := FirstDayOfMonth(date);
      Some(FromDays(DayNumber(FirstDayOfPreviousMonth(end)), DayNumber(end)))
    case ThisYear => Some(FromDays(DayNumber(Date(date.year, 1, 1)), DayNumber(Date(date.year + 1, 1, 1))))
    case LastYear => Some(FromDays(DayNumber(Date(date.year - 1, 1, 1)), DayNumber(Date(date.year, 1, 1))))
    case All => None
  }

  function TimelineGranularity(range: StatsRange): Granularity {
    match range
    case Today => Hourly
    case Yesterday => Hourly
    case ThisWeek => SixHours
    case LastWeek => SixHours
    case ThisMonth => Daily
    case LastMonth => Daily
    case ThisYear => HalfMonth
    case LastYear => HalfMonth
    case All => Monthly
  }

  /** `all_timeline_bounds`: whole months. */
  function AllTimelineBounds(earliest: int, now: int): Bounds {
    FromDays(
      DayNumber(FirstDayOfMonth(DateOf(LocalDay(earliest)))),
      DayNumber(FirstDayOfNextMonth(FirstDayOfMonth(DateOf(LocalDay(now))))))
  }

  /** `all_daily_bounds`: whole days. */
  function AllDailyBounds(earliest: int, now: int): Bounds {
    FromDays(LocalDay(earliest), LocalDay(now) + 1)
  }

  // ----- Buckets -----

  /** The day on which the next bucket of a date-based timeline starts. */
  function NextDay(granularity: Granularity, day: int): (next: int)
    requires granularity.HalfMonth? || granularity.Monthly?
    ensures day < next
  {
    hide MonthStart, MonthOf;
    var date := DateOf(day);
    var nextDate :=
      if granularity.HalfMonth? && date.day <= 15 then date.(day := 16)
      else FirstDayOfNextMonth(FirstDayOfMonth(date));
    MonthHelpers(date);
    MonthHelpers(FirstDayOfMonth(date));
    DayNumber(nextDate)
  }

  /** The end of the bucket that starts at `t`. */
  function NextBoundary(granularity: Granularity, t: int): (next: int)
    ensures t < next
  {
    hide NextDay;
    DayContains(t, LocalDay(t));
    match granularity
    case Hourly => t + Hour
    case SixHours => t + 6 * Hour
    case Daily => t + Day
    case _ =>
      MidnightIncreases(LocalDay(t) + 1, NextDay(granularity, LocalDay(t)));
      Midnight(NextDay(granularity, LocalDay(t)))
  }

  lemma MidnightIncreases(a: int, b: int)
    requires a <= b
    ensures Midnight(a) <= Midnight(b)
  {
  }

  /** The boundaries met from `mark(i)` to `mark(j)`, one bucket between each two. */
  predicate CutAt(buckets: seq<Bounds>, mark: int -> int, i: int, j: int)
    requires i <= j
  {
    |buckets| == j - i && forall k :: 0 <= k < j - i ==> buckets[k] == Bounds(mark(i + k), mark(i + k + 1))
  }

  /** Buckets in a row, each ending at the next boundary, from the start until the end is reached. */
  ghost predicate BucketsOf(bounds: Bounds, granularity: Granularity, buckets: seq<Bounds>) {
    && (buckets == [] <==> bounds.end <= bounds.start)
    && (buckets != [] ==> buckets[0].start == bounds.start && bounds.end <= buckets[|buckets| - 1].end)
    && (forall k :: 0 < k < |buckets| ==> buckets[k].start == buckets[k - 1].end)
    && (forall k :: 0 <= k < |buckets| ==> buckets[k].start < bounds.end)
    && (forall k :: 0 <= k < |buckets| ==> buckets[k].end == NextBoundary(granularity, buckets[k].start))
  }

  /** `timeline_buckets` */
  method TimelineBuckets(bounds: Bounds, granularity: Granularity) returns (buckets: seq<Bounds>)
    ensures BucketsOf(bounds, granularity, buckets)
  {
    hide NextBoundary;
    buckets := [];
    var start := bounds.start;
    while start < bounds.end
      invariant buckets == [] ==> start == bounds.start
      invariant buckets != [] ==> buckets[0].start == bounds.start && start == buckets[|buckets| - 1].end
      invariant forall k :: 0 < k < |buckets| ==> buckets[k].start == buckets[k - 1].end
      invariant forall k :: 0 <= k < |buckets| ==> buckets[k].start < bounds.end
      invariant forall k :: 0 <= k < |buckets| ==> buckets[k].end == NextBoundary(granularity, buckets[k].start)
      decreases bounds.end - start
    {
      var next := NextBoundary(granularity, start);
      buckets := buckets + [Bounds(start, next)];
      start := next;
    }
  }

  lemma {:induction false} MarkedBucket(granularity: Granularity, mark: int -> int, i: int, j: int,
      buckets: seq<Bounds>, k: nat)
    requires i <= j && k < |buckets|
    requires forall n :: i <= n < j ==> NextBoundary(granularity, mark(n)) == mark(n + 1)
    requires BucketsOf(Bounds(mark(i), mark(j)), granularity, buckets)
    ensures i + k < j && buckets[k] == Bounds(mark(i + k), mark(i + k + 1))
  {
    hide NextBoundary;
    if k > 0 { MarkedBucket(granularity, mark, i, j, buckets, k - 1); }
    assert buckets[k].start == mark(i + k);
    assert NextBoundary(granularity, mark(i + k)) == mark(i + k + 1);
  }

  /** Bounds that lie on boundaries are cut at every boundary between them and at nothing else. */
  lemma CutAtMarks(granularity: Granularity, mark: int -> int, i: int, j: int, buckets: seq<Bounds>)
    requires i <= j
    requires forall n :: i <= n < j ==> NextBoundary(granularity, mark(n)) == mark(n + 1)
    requires BucketsOf(Bounds(mark(i), mark(j)), granularity, buckets)
    ensures CutAt(buckets, mark, i, j)
  {
    hide NextBoundary;
    forall k | 0 <= k < |buckets| ensures i + k < j && buckets[k] == Bounds(mark(i + k), mark(i + k + 1)) {
      MarkedBucket(granularity, mark, i, j, buckets, k);
    }
    if |buckets| > 0 { assert i + (|buckets| - 1) < j; }
    if |buckets| < j - i { MarksIncrease(granularity, mark, i + |buckets|, j); }
  }

  lemma {:induction false} MarksIncrease(granularity: Granularity, mark: int -> int, i: int, j: int)
    requires i < j && forall k :: i <= k < j ==> NextBoundary(granularity, mark(k)) == mark(k + 1)
    ensures mark(i) < mark(j)
    decreases j - i
  {
    hide NextBoundary;
    assert NextBoundary(granularity, mark(i)) == mark(i + 1);
    if i + 1 < j { MarksIncrease(granularity, mark, i + 1, j); }
  }

  // ----- Exact tiling of every range -----

  /** The instants at which half months start: the 1st and the 16th. */
  function HalfDay(j: int): int {
    MonthStart(j / 2) + 15 * (j % 2)
  }

  function HalfMark(j: int): int {
    Midnight(HalfDay(j))
  }

  lemma LocalDayOfMidnight(day: int)
    ensures LocalDay(Midnight(day)) == day
  {
    DayContains(Midnight(day), day);
    MidnightIncreases(day, day + 1);
  }

  lemma HalfMonthStep(j: int)
    ensures NextBoundary(HalfMonth, HalfMark(j)) == HalfMark(j + 1)
  {
    hide HalfDay, Midnight, LocalDay, NextDay;
    LocalDayOfMidnight(HalfDay(j));
    HalfMonthDay(j);
  }

  lemma HalfMonthDay(j: int)
    ensures NextDay(HalfMonth, HalfDay(j)) == HalfDay(j + 1)
  {
    hide MonthStart, MonthOf;
    var day := HalfDay(j);
    MonthLength(j / 2);
    MonthIsUnique(day, j / 2);
    var date := DateOf(day);
    MonthHelpers(date);
    MonthHelpers(FirstDayOfMonth(date));
    assert date.day == 15 * (j % 2) + 1;
    if j % 2 == 0 { assert (j + 1) / 2 == j / 2 && (j + 1) % 2 == 1; }
    else { assert (j + 1) / 2 == j / 2 + 1 && (j + 1) % 2 == 0; }
  }

  lemma MonthStep(m: int)
    ensures NextBoundary(Monthly, Midnight(MonthStart(m))) == Midnight(MonthStart(m + 1))
  {
    hide MonthStart, MonthOf, Midnight, LocalDay;
    LocalDayOfMidnight(MonthStart(m));
    MonthLength(m);
    MonthIsUnique(MonthStart(m), m);
    var date := DateOf(MonthStart(m));
    MonthHelpers(date);
    MonthHelpers(FirstDayOfMonth(date));
  }

  /** The 24 hours of a day, the 28 quarters of a week, the days of a span: equal steps from the start. */
  lemma EqualSteps(granularity: Granularity, step: int, start: int, n: nat, buckets: seq<Bounds>)
    requires (granularity == Hourly && step == Hour) || (granularity == SixHours && step == 6 * Hour)
          || (granularity == Daily && step == Day)
    requires BucketsOf(Bounds(start, start + n * step), granularity, buckets)
    ensures |buckets| == n
    ensures forall k :: 0 <= k < n ==> buckets[k] == Bounds(start + k * step, start + (k + 1) * step)
  {
    var mark := (k: int) => start + k * step;
    forall k | 0 <= k < n ensures NextBoundary(granularity, mark(k)) == mark(k + 1) {
      assert (k + 1) * step == k * step + step;
    }
    assert mark(0) == start;
    CutAtMarks(granularity, mark, 0, n, buckets);
  }

  /** How many buckets a range has. */
  function BucketCount(range: StatsRange, now: int): int {
    var m := MonthOf(LocalDay(now));
    match range
    case Today => 24
    case Yesterday => 24
    case ThisWeek => 28
    case LastWeek => 28
    case ThisMonth => MonthStart(m + 1) - MonthStart(m)
    case LastMonth => MonthStart(m) - MonthStart(m - 1)
    case _ => 24
  }

  lemma MidnightApart(a: int, b: int)
    ensures Midnight(b) == Midnight(a) + (b - a) * Day
  {
  }

  /** The bounds of the month and year ranges, as continuous months. */
  lemma RangeMonths(now: int)
    ensures var m := MonthOf(LocalDay(now));
      var y := 12 * (m / 12);
      && RangeBounds(ThisMonth, now) == Some(FromDays(MonthStart(m), MonthStart(m + 1)))
      && RangeBounds(LastMonth, now) == Some(FromDays(MonthStart(m - 1), MonthStart(m)))
      && RangeBounds(ThisYear, now) == Some(FromDays(MonthStart(y), MonthStart(y + 12)))
      && RangeBounds(LastYear, now) == Some(FromDays(MonthStart(y - 12), MonthStart(y)))
  {
    hide MonthStart, MonthOf, Midnight, LocalDay;
    var date := DateOf(LocalDay(now));
    MonthHelpers(date);
    MonthHelpers(FirstDayOfMonth(date));
  }

  /** `n` nonempty buckets from the start of the bounds exactly to their end, without gap or overlap. */
  ghost predicate TilesExactly(bounds: Bounds, buckets: seq<Bounds>, n: int) {
    && |buckets| == n > 0
    && buckets[0].start == bounds.start && buckets[n - 1].end == bounds.end
    && (forall k :: 0 < k < n ==> buckets[k].start == buckets[k - 1].end)
    && (forall k :: 0 <= k < n ==> buckets[k].start < buckets[k].end)
  }

  lemma EqualStepsTile(granularity: Granularity, step: int, a: int, b: int, n: nat, buckets: seq<Bounds>)
    requires (granularity == Hourly && step == Hour) || (granularity == SixHours && step == 6 * Hour)
          || (granularity == Daily && step == Day)
    requires n > 0 && (b - a) * Day == n * step
    requires BucketsOf(FromDays(a, b), granularity, buckets)
    ensures TilesExactly(FromDays(a, b), buckets, n)
  {
    MidnightApart(a, b);
    hide NextBoundary, Midnight;
    EqualSteps(granularity, step, Midnight(a), n, buckets);
  }

  lemma YearTiles(m: int, buckets: seq<Bounds>)
    requires BucketsOf(FromDays(MonthStart(m), MonthStart(m + 12)), HalfMonth, buckets)
    ensures TilesExactly(FromDays(MonthStart(m), MonthStart(m + 12)), buckets, 24)
  {
    hide NextBoundary, MonthStart, Midnight, HalfMark;
    HalfMonthsOfYear(m, buckets);
  }

  /**
   Exact tiling: for every instant and every range except All, the buckets start at the range's start, end
   exactly at its end, follow one another without gap or overlap, are not empty, and are as many as the
   range has hours, quarter days, days or half months.
   */
  lemma RangeTiles(range: StatsRange, now: int, buckets: seq<Bounds>)
    requires range != All
    requires BucketsOf(RangeBounds(range, now).value, TimelineGranularity(range), buckets)
    ensures TilesExactly(RangeBounds(range, now).value, buckets, BucketCount(range, now))
  {
    hide MonthStart, MonthOf, Midnight, LocalDay, DateOf, DaysFromMonday, BucketsOf, TilesExactly, FromDays;
    var m, today := MonthOf(LocalDay(now)), LocalDay(now);
    RangeMonths(now);
    var monday := today - DaysFromMonday(today);
    match range
    case Today => EqualStepsTile(Hourly, Hour, today, today + 1, 24, buckets);
    case Yesterday => EqualStepsTile(Hourly, Hour, today - 1, today, 24, buckets);
    case ThisWeek => EqualStepsTile(SixHours, 6 * Hour, monday, monday + 7, 28, buckets);
    case LastWeek => EqualStepsTile(SixHours, 6 * Hour, monday - 7, monday, 28, buckets);
    case ThisMonth =>
      MonthLength(m);
      EqualStepsTile(Daily, Day, MonthStart(m), MonthStart(m + 1), MonthStart(m + 1) - MonthStart(m), buckets);
    case LastMonth =>
      MonthLength(m - 1);
      EqualStepsTile(Daily, Day, MonthStart(m - 1), MonthStart(m), MonthStart(m) - MonthStart(m - 1), buckets);
    case ThisYear => YearTiles(12 * (m / 12), buckets);
    case LastYear => YearTiles(12 * (m / 12) - 12, buckets);
  }

  /** Where bucket `k` of a range lies: hours, quarter days and days from the start, or half months of the year. */
  predicate BucketAt(range: StatsRange, now: int, k: nat, bucket: Bounds)
    requires range != All
  {
    var start, year := RangeBounds(range, now).value.start, DateOf(LocalDay(now)).year;
    match range
    case Today => bucket == Bounds(start + k * 3_600_000_000_000, start + (k + 1) * 3_600_000_000_000)
    case Yesterday => bucket == Bounds(start + k * 3_600_000_000_000, start + (k + 1) * 3_600_000_000_000)
    case ThisWeek => bucket == Bounds(start + k * 21_600_000_000_000, start + (k + 1) * 21_600_000_000_000)
    case LastWeek => bucket == Bounds(start + k * 21_600_000_000_000, start + (k + 1) * 21_600_000_000_000)
    case ThisMonth => bucket == Bounds(start + k * 86_400_000_000_000, start + (k + 1) * 86_400_000_000_000)
    case LastMonth => bucket == Bounds(start + k * 86_400_000_000_000, start + (k + 1) * 86_400_000_000_000)
    case ThisYear => StartsHalfMonth(bucket.start, year, k)
    case LastYear => StartsHalfMonth(bucket.start, year - 1, k)
  }

  /** The midnight of the 1st or the 16th of a month of this year. */
  predicate StartsHalfMonth(t: int, year: int, k: nat) {
    t == Midnight(DayNumber(Date(year, k / 2 + 1, if k % 2 == 0 then 1 else 16)))
  }

  /** Every bucket of every range lies where it should. */
  lemma BucketsLieThere(range: StatsRange, now: int, buckets: seq<Bounds>, k: nat)
    requires range != All && k < |buckets|
    requires BucketsOf(RangeBounds(range, now).value, TimelineGranularity(range), buckets)
    ensures BucketAt(range, now, k, buckets[k])
  {
    hide MonthStart, MonthOf, Midnight, LocalDay, DateOf, DaysFromMonday, BucketsOf, TilesExactly;
    var m, today := MonthOf(LocalDay(now)), LocalDay(now);
    RangeMonths(now);
    var monday := today - DaysFromMonday(today);
    match range
    case Today => StepsLieThere(Hourly, Hour, today, today + 1, 24, buckets, k);
    case Yesterday => StepsLieThere(Hourly, Hour, today - 1, today, 24, buckets, k);
    case ThisWeek => StepsLieThere(SixHours, 6 * Hour, monday, monday + 7, 28, buckets, k);
    case LastWeek => StepsLieThere(SixHours, 6 * Hour, monday - 7, monday, 28, buckets, k);
    case ThisMonth =>
      MonthLength(m);
      StepsLieThere(Daily, Day, MonthStart(m), MonthStart(m + 1), MonthStart(m + 1) - MonthStart(m), buckets, k);
    case LastMonth =>
      MonthLength(m - 1);
      StepsLieThere(Daily, Day, MonthStart(m - 1), MonthStart(m), MonthStart(m) - MonthStart(m - 1), buckets, k);
    case ThisYear => HalvesLieThere(m / 12, buckets, k);
    case LastYear => HalvesLieThere(m / 12 - 1, buckets, k);
  }

  lemma StepsLieThere(granularity: Granularity, step: int, a: int, b: int, n: nat, buckets: seq<Bounds>, k: nat)
    requires (granularity == Hourly && step == Hour) || (granularity == SixHours && step == 6 * Hour)
          || (granularity == Daily && step == Day)
    requires n > 0 && (b - a) * Day == n * step && k < |buckets|
    requires BucketsOf(FromDays(a, b), granularity, buckets)
    ensures buckets[k] == Bounds(Midnight(a) + k * step, Midnight(a) + (k + 1) * step)
  {
    MidnightApart(a, b);
    hide NextBoundary, Midnight;
    EqualSteps(granularity, step, Midnight(a), n, buckets);
  }

  lemma HalvesLieThere(year: int, buckets: seq<Bounds>, k: nat)
    requires BucketsOf(FromDays(MonthStart(12 * year), MonthStart(12 * year + 12)), HalfMonth, buckets)
    requires k < |buckets|
    ensures StartsHalfMonth(buckets[k].start, year, k)
  {
    hide NextBoundary, MonthStart, Midnight, BucketsOf;
    var m := 12 * year;
    HalfMonthsOfYear(m, buckets);
    assert buckets[k].start == HalfMark(2 * m + k);
    assert (2 * m + k) / 2 == m + k / 2 && (2 * m + k) % 2 == k % 2;
  }

  /** Month and year ranges start on the first of the month, and of January, that they are named after. */
  lemma RangesStart(now: int)
    ensures var date := DateOf(LocalDay(now));
      && RangeBounds(Today, now).value.start == Midnight(LocalDay(now))
      && RangeBounds(ThisMonth, now).value.start == Midnight(DayNumber(Date(date.year, date.month, 1)))
      && RangeBounds(ThisYear, now).value.start == Midnight(DayNumber(Date(date.year, 1, 1)))
      && RangeBounds(LastYear, now).value.start == Midnight(DayNumber(Date(date.year - 1, 1, 1)))
      && RangeBounds(LastMonth, now).value.start ==
           Midnight(DayNumber(if date.month == 1 then Date(date.year - 1, 12, 1)
             else Date(date.year, date.month - 1, 1)))
  {
    hide MonthStart, MonthOf, Midnight, LocalDay;
    RangeMonths(now);
  }

  /** The 24 half months from a month to the same month a year later. */
  lemma HalfMonthsOfYear(m: int, buckets: seq<Bounds>)
    requires BucketsOf(FromDays(MonthStart(m), MonthStart(m + 12)), HalfMonth, buckets)
    ensures CutAt(buckets, HalfMark, 2 * m, 2 * m + 24)
    ensures HalfMark(2 * m) == Midnight(MonthStart(m)) && HalfMark(2 * m + 24) == Midnight(MonthStart(m + 12))
  {
    hide NextBoundary, MonthStart, Midnight;
    assert (2 * m) / 2 == m && (2 * m) % 2 == 0 && (2 * m + 24) / 2 == m + 12 && (2 * m + 24) % 2 == 0;
    forall j ensures NextBoundary(HalfMonth, HalfMark(j)) == HalfMark(j + 1) { HalfMonthStep(j); }
    CutAtMarks(HalfMonth, HalfMark, 2 * m, 2 * m + 24, buckets);
  }

  /** All time by month: one bucket per month, from the month of the first activity to the current one. */
  lemma AllMonthsTile(earliest: int, now: int, buckets: seq<Bounds>)
    requires BucketsOf(AllTimelineBounds(earliest, now), TimelineGranularity(All), buckets)
    ensures var first, last := MonthOf(LocalDay(earliest)), MonthOf(LocalDay(now)) + 1;
      && AllTimelineBounds(earliest, now) == FromDays(MonthStart(first), MonthStart(last))
      && |buckets| == Max(0, last - first)
      && forall k :: 0 <= k < |buckets| ==>
           buckets[k] == FromDays(MonthStart(first + k), MonthStart(first + k + 1))
  {
    hide NextBoundary, MonthStart, Midnight, LocalDay, MonthOf;
    var first, last := MonthOf(LocalDay(earliest)), MonthOf(LocalDay(now)) + 1;
    var from, to := DateOf(LocalDay(earliest)), DateOf(LocalDay(now));
    MonthHelpers(from);
    MonthHelpers(to);
    MonthHelpers(FirstDayOfMonth(to));
    if first <= last {
      var mark := (m: int) => Midnight(MonthStart(m));
      forall m | first <= m < last ensures NextBoundary(Monthly, mark(m)) == mark(m + 1) { MonthStep(m); }
      CutAtMarks(Monthly, mark, first, last, buckets);
    } else {
      MonthsIncrease(last, first);
      MidnightIncreases(MonthStart(last), MonthStart(first));
    }
  }

  /** All time by day: one bucket per day, from the day of the first activity to today. */
  lemma AllDaysTile(earliest: int, now: int, buckets: seq<Bounds>)
    requires BucketsOf(AllDailyBounds(earliest, now), Daily, buckets)
    ensures var first, last := LocalDay(earliest), LocalDay(now) + 1;
      && |buckets| == Max(0, last - first)
      && forall k :: 0 <= k < |buckets| ==> buckets[k] == FromDays(first + k, first + k + 1)
  {
    hide NextBoundary, LocalDay;
    var first, last := LocalDay(earliest), LocalDay(now) + 1;
    if first <= last {
      MidnightApart(first, last);
      EqualSteps(Daily, Day, Midnight(first), last - first, buckets);
      forall k | 0 <= k < |buckets| ensures buckets[k] == FromDays(first + k, first + k + 1) {
        MidnightApart(first, first + k);
        MidnightApart(first, first + k + 1);
      }
    } else {
      MidnightIncreases(last, first);
    }
  }

  /** The current ranges contain the instant; each previous range ends where the current one starts. */
  lemma RangesAroundNow(now: int)
    ensures forall range <- [Today, ThisWeek, ThisMonth, ThisYear] ::
      RangeBounds(range, now).value.start <= now < RangeBounds(range, now).value.end
    ensures RangeBounds(Yesterday, now).value.end == RangeBounds(Today, now).value.start
    ensures RangeBounds(LastWeek, now).value.end == RangeBounds(ThisWeek, now).value.start
    ensures RangeBounds(LastMonth, now).value.end == RangeBounds(ThisMonth, now).value.start
    ensures RangeBounds(LastYear, now).value.end == RangeBounds(ThisYear, now).value.start
  {
    hide MonthStart, Midnight, MonthOf, LocalDay, DateOf;
    var today := LocalDay(now);
    var m := MonthOf(today);
    var y := 12 * (m / 12);
    DayContains(now, today);
    RangeMonths(now);
    WithinDays(now, today, today + 1);
    WithinDays(now, today - DaysFromMonday(today), today - DaysFromMonday(today) + 7);
    WithinDays(now, MonthStart(m), MonthStart(m + 1));
    MonthsIncrease(y, m);
    MonthsIncrease(m + 1, y + 12);
    WithinDays(now, MonthStart(y), MonthStart(y + 12));
  }

  lemma WithinDays(t: int, first: int, last: int)
    requires first <= LocalDay(t) < last
    ensures Midnight(first) <= t < Midnight(last)
  {
    DayContains(t, LocalDay(t));
    MidnightIncreases(first, LocalDay(t));
    MidnightIncreases(LocalDay(t) + 1, last);
  }

  /** Weeks start on Monday. */
  lemma WeeksStartOnMonday(now: int)
    ensures DaysFromMonday(LocalDay(RangeBounds(ThisWeek, now).value.start)) == 0
    ensures DaysFromMonday(LocalDay(RangeBounds(LastWeek, now).value.start)) == 0
  {
    hide Midnight, LocalDay, DateOf;
    var start := LocalDay(now) - DaysFromMonday(LocalDay(now));
    LocalDayOfMidnight(start);
    LocalDayOfMidnight(start - 7);
  }
}
