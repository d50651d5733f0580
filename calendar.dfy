/**
 * Calendar dates and the ordinal day the plugin looks entries up by
 * (`date.timetuple().tm_yday`, proleptic Gregorian calendar).
 */
module Calendar {
  import opened PyStr

  datatype Date = Date(year: int, month: int, day: int)

  predicate IsLeapYear(y: int) {
    y % 4 == 0 && (y % 100 != 0 || y % 400 == 0)
  }

  function DaysInMonth(y: int, m: int): int
    requires 1 <= m <= 12
  {
    if m == 2 then (if IsLeapYear(y) then 29 else 28)
    else if m == 4 || m == 6 || m == 9 || m == 11 then 30
    else 31
  }

  /** The dates Python's `date` can hold. */
  predicate ValidDate(d: Date) {
    1 <= d.year <= 9999 && 1 <= d.month <= 12 && 1 <= d.day <= DaysInMonth(d.year, d.month)
  }

  /** Days of the year before the first of month `m`. */
  function DaysBeforeMonth(y: int, m: int): int
    requires 1 <= m <= 12
  {
    [0, 31, 59, 90, 120, 151, 181, 212, 243, 273, 304, 334][m - 1]
      + (if m > 2 && IsLeapYear(y) then 1 else 0)
  }

  /** `tm_yday`: 1 on January 1st, 365 or 366 on December 31st. */
  function DayOfYear(d: Date): (n: int)
    requires ValidDate(d)
    ensures 1 <= n <= (if IsLeapYear(d.year) then 366 else 365)
    ensures n == 366 <==> IsLeapYear(d.year) && d.month == 12 && d.day == 31
    ensures n == 365 && !IsLeapYear(d.year) <==> !IsLeapYear(d.year) && d.month == 12 && d.day == 31
  {
    DaysBeforeMonth(d.year, d.month) + d.day
  }

  /** The dataset key of a day: `str(day_of_year)`. */
  function DayKey(n: nat): string {
    NatToString(n)
  }
}
