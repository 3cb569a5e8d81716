/**
 * Gregorian calendar fields of a millisecond timestamp, pinned to UTC.
 * A timestamp counts milliseconds from 1970-01-01T00:00:00Z; its day number
 * is the floor of that count divided by the length of a day.
 */
module Calendar {

  const MsPerDay: int := 86400000

  /** A calendar year and month (1 = January … 12 = December). */
  datatype YearMonth = YearMonth(year: int, month: int)

  predicate IsLeapYear(y: int) {
    y % 4 == 0 && (y % 100 != 0 || y % 400 == 0)
  }

  function DaysInYear(y: int): int {
    if IsLeapYear(y) then 366 else 365
  }

  /** Days of year `y` before the first day of month `m`; month 13 stands for the year's end. */
  function DaysBeforeMonth(y: int, m: int): (r: int)
    requires 1 <= m <= 13
    ensures m == 13 ==> r == DaysInYear(y)
  {
    var leap := if IsLeapYear(y) then 1 else 0;
    if m == 1 then 0
    else if m == 2 then 31
    else if m == 3 then 59 + leap
    else if m == 4 then 90 + leap
    else if m == 5 then 120 + leap
    else if m == 6 then 151 + leap
    else if m == 7 then 181 + leap
    else if m == 8 then 212 + leap
    else if m == 9 then 243 + leap
    else if m == 10 then 273 + leap
    else if m == 11 then 304 + leap
    else if m == 12 then 334 + leap
    else 365 + leap
  }

  /**
   * Walks whole years from 1 January of year `y` by the signed day offset
   * `d`, returning the year reached and the day within it.
   */
  function YearAndDay(y: int, d: int): (r: (int, int))
    ensures 0 <= r.1 < DaysInYear(r.0)
    decreases (if d < 0 then -d else 0), (if d < 0 then 0 else d)
  {
    if d < 0 then YearAndDay(y - 1, d + DaysInYear(y - 1))
    else if d < DaysInYear(y) then (y, d)
    else YearAndDay(y + 1, d - DaysInYear(y))
  }

  /** The month containing day `doy` of year `y`, searching from month `m` on. */
  function MonthFrom(y: int, doy: int, m: int): (r: int)
    requires 1 <= m <= 12
    requires DaysBeforeMonth(y, m) <= doy < DaysInYear(y)
    ensures m <= r <= 12
    ensures DaysBeforeMonth(y, r) <= doy < DaysBeforeMonth(y, r + 1)
    decreases 12 - m
  {
    if doy < DaysBeforeMonth(y, m + 1) then m else MonthFrom(y, doy, m + 1)
  }

  /** Year and month of a day number (days since 1970-01-01). */
  function CivilOfDay(day: int): (r: YearMonth)
    ensures 1 <= r.month <= 12
  {
    var yd := YearAndDay(1970, day);
    YearMonth(yd.0, MonthFrom(yd.0, yd.1, 1))
  }

  /** Year and month of a timestamp in UTC (`getUTCFullYear`, `getUTCMonth() + 1`). */
  function CivilOf(ts: int): (r: YearMonth)
    ensures 1 <= r.month <= 12
  {
    CivilOfDay(ts / MsPerDay)
  }

  /** Signed number of days from 1 January of `y0` to 1 January of `y`. */
  function YearOffset(y0: int, y: int): (r: int)
    ensures y0 <= y ==> r >= 0
    ensures y < y0 ==> r <= -DaysInYear(y)
    decreases if y0 <= y then y - y0 else y0 - y
  {
    if y0 == y then 0
    else if y0 < y then DaysInYear(y0) + YearOffset(y0 + 1, y)
    else YearOffset(y0 - 1, y) - DaysInYear(y0 - 1)
  }

  /** Walking from any year by the offset to `y` plus a day inside `y` lands on that day of `y`. */
  lemma {:induction false} YearWalk(y0: int, y: int, d: int)
    requires 0 <= d < DaysInYear(y)
    ensures YearAndDay(y0, YearOffset(y0, y) + d) == (y, d)
    decreases if y0 <= y then y - y0 else y0 - y
  {
    if y0 < y {
      YearWalk(y0 + 1, y, d);
    } else if y < y0 {
      YearWalk(y0 - 1, y, d);
    }
  }

  /** Month boundaries increase through the year. */
  lemma DaysBeforeMonthMonotone(y: int, a: int, b: int)
    requires 1 <= a <= b <= 13
    ensures DaysBeforeMonth(y, a) <= DaysBeforeMonth(y, b)
  {
  }

  /** The month search started at or before month `m` stops exactly at `m` for a day of `m`. */
  lemma {:induction false} MonthFromFinds(y: int, doy: int, k: int, m: int)
    requires 1 <= k <= m <= 12
    requires DaysBeforeMonth(y, m) <= doy < DaysBeforeMonth(y, m + 1)
    ensures DaysBeforeMonth(y, k) <= doy < DaysInYear(y)
    ensures MonthFrom(y, doy, k) == m
    decreases m - k
  {
    DaysBeforeMonthMonotone(y, k, m);
    DaysBeforeMonthMonotone(y, m + 1, 13);
    if k < m {
      DaysBeforeMonthMonotone(y, k + 1, m);
      MonthFromFinds(y, doy, k + 1, m);
    }
  }

  /**
   * Every day of month `m` of year `y` maps back to (y, m): the day-number
   * decomposition inverts the construction of a date from its fields.
   */
  lemma CivilOfDayRoundTrip(y: int, m: int, dom: int)
    requires 1 <= m <= 12
    requires 0 <= dom < DaysBeforeMonth(y, m + 1) - DaysBeforeMonth(y, m)
    ensures CivilOfDay(YearOffset(1970, y) + DaysBeforeMonth(y, m) + dom) == YearMonth(y, m)
  {
    var doy := DaysBeforeMonth(y, m) + dom;
    MonthFromFinds(y, doy, 1, m);
    YearWalk(1970, y, doy);
    var day := YearOffset(1970, y) + doy;
    assert YearAndDay(1970, day) == (y, doy);
  }
}
