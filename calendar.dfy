/** Calendar dates and the whole-years distance the loyalty rule uses. The
    current date is never read from a clock: callers pass "today". */
module Calendar {

  datatype Date = Date(year: int, month: int, day: int)

  predicate IsLeapYear(year: int) {
    year % 4 == 0 && (year % 100 != 0 || year % 400 == 0)
  }

  function DaysInMonth(year: int, month: int): int
    requires 1 <= month <= 12
  {
    if month == 2 then (if IsLeapYear(year) then 29 else 28)
    else if month == 4 || month == 6 || month == 9 || month == 11 then 30
    else 31
  }

  predicate ValidDate(d: Date) {
    1 <= d.month <= 12 && 1 <= d.day <= DaysInMonth(d.year, d.month)
  }

  /** Division truncating toward zero, as Java's `long` division does. */
  function TruncDiv(x: int, d: int): int
    requires d > 0
  {
    if x >= 0 then x / d else -((-x) / d)
  }

  /** A date packed as (proleptic month * 32 + day of month). */
  function Packed(d: Date): int {
    (d.year * 12 + d.month - 1) * 32 + d.day
  }

  /** Whole months from `start` to `end`, as `LocalDate.until(end, MONTHS)`
      computes them: the packed difference counted in whole blocks of 32,
      rounded toward zero. */
  function MonthsBetween(start: Date, end: Date): (months: int)
    ensures Packed(start) <= Packed(end) ==> 0 <= 32 * months <= Packed(end) - Packed(start) < 32 * months + 32
    ensures Packed(start) > Packed(end) ==> 32 * months - 32 < Packed(end) - Packed(start) <= 32 * months <= 0
  {
    TruncDiv(Packed(end) - Packed(start), 32)
  }

  /** Whole years from `start` to `end`: `ChronoUnit.YEARS.between(start, end)`,
      the whole months counted in blocks of 12, rounded toward zero. */
  function YearsBetween(start: Date, end: Date): (years: int)
    ensures Packed(start) <= Packed(end) ==> 0 <= 12 * years <= MonthsBetween(start, end) < 12 * years + 12
    ensures Packed(start) > Packed(end) ==> 12 * years - 12 < MonthsBetween(start, end) <= 12 * years <= 0
  {
    TruncDiv(MonthsBetween(start, end), 12)
  }

  /** `start` falls on a later day of the year than `end`. */
  predicate LaterInYear(start: Date, end: Date) {
    end.month < start.month || (end.month == start.month && end.day < start.day)
  }

  /** The number of anniversaries of `start` that have passed by `end`. */
  function CompletedYears(start: Date, end: Date): int {
    end.year - start.year - (if LaterInYear(start, end) then 1 else 0)
  }

  /** `LocalDate.minusYears`: same month and day, with 29 February moved to
      the 28th when the target year is not a leap year. */
  function MinusYears(d: Date, n: int): (r: Date)
    requires ValidDate(d)
    ensures ValidDate(r)
    ensures r.year == d.year - n && r.month == d.month
    ensures r.day == d.day || (d.month == 2 && d.day == 29 && r.day == 28)
  {
    var y := d.year - n;
    Date(y, d.month, if d.month == 2 && d.day == 29 && !IsLeapYear(y) then 28 else d.day)
  }

  /** For well-formed dates in order, the packed-date formula counts exactly
      the anniversaries that have passed. */
  lemma YearsBetweenIsCompletedYears(start: Date, end: Date)
    requires 1 <= start.month <= 12 && 1 <= start.day <= 31
    requires 1 <= end.month <= 12 && 1 <= end.day <= 31
    requires Packed(start) <= Packed(end)
    ensures YearsBetween(start, end) == CompletedYears(start, end)
  {
    var dy := end.year - start.year;
    var dm := end.month - start.month;
    var borrow := if end.day < start.day then 1 else 0;
    var months := 12 * dy + dm - borrow;
    var diff := Packed(end) - Packed(start);
    assert diff == 32 * (12 * dy + dm) + (end.day - start.day);
    assert 32 * months <= diff < 32 * months + 32;
    assert MonthsBetween(start, end) == months;
    assert months >= 0;
    var carry := if dm - borrow < 0 then 1 else 0;
    assert carry == 1 <==> LaterInYear(start, end);
    assert 12 * (dy - carry) <= months < 12 * (dy - carry) + 12;
  }

  /** A customer registered three years ago today has three whole years;
      one registered a year ago has one. */
  lemma MinusYearsDistance(today: Date, n: int)
    requires ValidDate(today)
    requires 0 <= n
    ensures YearsBetween(MinusYears(today, n), today) == n
  {
    var start := MinusYears(today, n);
    assert !LaterInYear(start, today);
    YearsBetweenIsCompletedYears(start, today);
  }
}
