/** Calendar dates as the browser's `Date.UTC` and the `getUTC*` accessors see
    them: a proleptic Gregorian calendar with zero-based months. */
module Dates {

  /** The components of a UTC date: `getUTCFullYear`, `getUTCMonth` (0 to 11)
      and `getUTCDate`. */
  datatype Utc = Utc(year: int, month0: int, day: int)

  /** The Gregorian leap-year rule (the remainder is the mathematical one, so
      the rule also holds for years before 1). */
  predicate IsLeapYear(y: int)
  {
    y % 4 == 0 && (y % 100 != 0 || y % 400 == 0)
  }

  /** The number of days in zero-based month `m0` of year `y`. */
  function DaysInMonth(y: int, m0: int): (r: int)
    requires 0 <= m0 < 12
    ensures 28 <= r <= 31
    ensures m0 == 1 ==> (r == 29 <==> IsLeapYear(y))
    ensures m0 != 1 ==> (r == 31 <==> m0 in {0, 2, 4, 6, 7, 9, 11})
  {
    if m0 == 1 then (if IsLeapYear(y) then 29 else 28)
    else if m0 in {3, 5, 8, 10} then 30
    else 31
  }

  /** A date every `getUTC*` accessor could have produced. */
  predicate ValidUtc(u: Utc)
  {
    0 <= u.month0 < 12 && 1 <= u.day <= DaysInMonth(u.year, u.month0)
  }

  /** `Date.UTC` reads a year from 0 to 99 as 1900 to 1999. */
  function MakeFullYear(y: int): (r: int)
    ensures (0 <= y <= 99) == (r != y)
  {
    if 0 <= y <= 99 then 1900 + y else y
  }

  /** Day `d` of month `m0` of year `y`, where `d` may lie outside the month:
      day 0 is the last day of the month before, day 32 of January is
      1 February, and so on, one month at a time. */
  function NormalizeDay(y: int, m0: int, d: int): (r: Utc)
    requires 0 <= m0 < 12
    ensures ValidUtc(r)
    ensures ValidUtc(Utc(y, m0, d)) ==> r == Utc(y, m0, d)
    decreases (if d < 1 then 1 - d else 0), (if d < 1 then 0 else d)
  {
    if d < 1 then
      var py := if m0 == 0 then y - 1 else y;
      var pm := if m0 == 0 then 11 else m0 - 1;
      NormalizeDay(py, pm, d + DaysInMonth(py, pm))
    else if d > DaysInMonth(y, m0) then
      var ny := if m0 == 11 then y + 1 else y;
      var nm := if m0 == 11 then 0 else m0 + 1;
      NormalizeDay(ny, nm, d - DaysInMonth(y, m0))
    else
      Utc(y, m0, d)
  }

  /** The date of `new Date(Date.UTC(y, m0, d))`: the year is widened, the
      month carried into the year with floor division, then the day carried
      into the month. */
  function DateUtc(y: int, m0: int, d: int): (r: Utc)
    ensures ValidUtc(r)
    ensures !(0 <= y <= 99) && ValidUtc(Utc(y, m0, d)) ==> r == Utc(y, m0, d)
  {
    NormalizeDay(MakeFullYear(y) + m0 / 12, m0 % 12, d)
  }

  /** The birthdate check: building the date from year, one-based month and
      day and reading it back gives the same three numbers. */
  predicate RoundTrips(y: int, m: int, d: int)
  {
    var u := DateUtc(y, m - 1, d);
    u.year == y && u.month0 + 1 == m && u.day == d
  }

  /** A year, one-based month and day naming a real day of a year outside 0..99. */
  predicate IsCalendarDate(y: int, m: int, d: int)
  {
    !(0 <= y <= 99) && 1 <= m <= 12 && 1 <= d <= DaysInMonth(y, m - 1)
  }

  /** The round trip succeeds exactly for real calendar days, except those of
      the years 0 to 99, which `Date.UTC` moves to the 1900s. */
  lemma RoundTripsIff(y: int, m: int, d: int)
    ensures RoundTrips(y, m, d) <==> IsCalendarDate(y, m, d)
  {
    if RoundTrips(y, m, d) {
      var u := DateUtc(y, m - 1, d);
      assert 1 <= m <= 12;
      assert (m - 1) / 12 == 0 && (m - 1) % 12 == m - 1;
      assert 1 <= d <= DaysInMonth(y, m - 1);
    }
    if IsCalendarDate(y, m, d) {
      assert (m - 1) / 12 == 0 && (m - 1) % 12 == m - 1;
      assert MakeFullYear(y) == y;
    }
  }

  /** 29 February fails the calendar check in a common year ... */
  lemma CommonYearLeapDay()
    ensures !RoundTrips(2023, 2, 29)
  {
    RoundTripsIff(2023, 2, 29);
    assert DaysInMonth(2023, 1) == 28;
  }

  /** ... and passes it in a leap year ... */
  lemma LeapYearLeapDay()
    ensures RoundTrips(2024, 2, 29)
  {
    RoundTripsIff(2024, 2, 29);
    assert DaysInMonth(2024, 1) == 29;
  }

  /** ... there is no month 0 or 13 ... */
  lemma MonthRangeExamples()
    ensures !RoundTrips(2024, 0, 10) && !RoundTrips(2024, 13, 1)
  {
    RoundTripsIff(2024, 0, 10);
    RoundTripsIff(2024, 13, 1);
  }

  /** ... no 31 April, and no day of the year 0050. */
  lemma DayAndYearExamples()
    ensures !RoundTrips(2024, 4, 31) && !RoundTrips(50, 6, 1)
  {
    RoundTripsIff(2024, 4, 31);
    RoundTripsIff(50, 6, 1);
  }

  /** Chronological order of dates: comparing the time values of two valid
      dates is comparing year, then month, then day. */
  predicate Before(a: Utc, b: Utc)
  {
    a.year < b.year
    || (a.year == b.year && a.month0 < b.month0)
    || (a.year == b.year && a.month0 == b.month0 && a.day < b.day)
  }

  predicate NotAfter(a: Utc, b: Utc)
  {
    !Before(b, a)
  }

  /** Completed years from `birth` to `reference`: the year difference, less
      one when the reference month and day come before the birth month and day.
      The result is the number of the last birthday, counting the same month
      and day `r` years on, that does not fall after `reference`. */
  function CalculateAge(birth: Utc, reference: Utc): (r: int)
    ensures NotAfter(Utc(birth.year + r, birth.month0, birth.day), reference)
    ensures Before(reference, Utc(birth.year + r + 1, birth.month0, birth.day))
  {
    var age := reference.year - birth.year;
    var monthDiff := reference.month0 - birth.month0;
    if monthDiff < 0 || (monthDiff == 0 && reference.day < birth.day) then age - 1 else age
  }

  /** Nobody is older than zero on the day they are born ... */
  lemma AgeOnBirthday(b: Utc, n: int)
    ensures CalculateAge(b, Utc(b.year + n, b.month0, b.day)) == n
  {
  }

  /** ... and the age is never negative when the birth is not after the reference. */
  lemma AgeNotNegative(birth: Utc, reference: Utc)
    requires NotAfter(birth, reference)
    ensures CalculateAge(birth, reference) >= 0
  {
    var r := CalculateAge(birth, reference);
    if r < 0 {
      assert Before(reference, Utc(birth.year + r + 1, birth.month0, birth.day));
    }
  }

  /** Ages grow with the reference date. */
  lemma AgeMonotone(birth: Utc, r1: Utc, r2: Utc)
    requires NotAfter(r1, r2)
    ensures CalculateAge(birth, r1) <= CalculateAge(birth, r2)
  {
  }
}
