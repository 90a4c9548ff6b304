/** Calendar dates of the proleptic Gregorian calendar (ISO 8601:2004
    section 3.2.1), as the JavaScript `Date` object's local-time getters
    report them. */
module Calendar {

  /** A (year, month, day) triple; `month` is 1-based, unlike
      `Date.prototype.getMonth`. */
  datatype CalendarDate = CalendarDate(year: int, month: int, day: int)

  predicate IsLeapYear(y: int) {
    (y % 4 == 0 && y % 100 != 0) || y % 400 == 0
  }

  function DaysInMonth(y: int, m: int): (n: int)
    requires 1 <= m <= 12
    ensures 28 <= n <= 31
    ensures m == 2 ==> (n == 29 <==> IsLeapYear(y))
  {
    if m == 2 then (if IsLeapYear(y) then 29 else 28)
    else if m == 4 || m == 6 || m == 9 || m == 11 then 30
    else 31
  }

  /** A date that exists in the calendar. */
  predicate ValidDate(d: CalendarDate) {
    1 <= d.month <= 12 && 1 <= d.day <= DaysInMonth(d.year, d.month)
  }

  /** The calendar fields read back from `new Date(y, m - 1, d)` for a month
      in 1..12 and a day in 1..31: a day past the end of the month rolls
      over into the next month (and from December into the next year), as
      the ECMAScript MakeDay operation counts days from the first of the
      month. This is the constructor for years of four digits, the only
      ones the date parser passes it; years 0..99, which the constructor
      reads as 1900 + y, and years outside the range of time values are
      not covered. */
  function ConstructedDate(y: int, m: int, d: int): (r: CalendarDate)
    requires 1 <= m <= 12 && 1 <= d <= 31
    ensures ValidDate(r)
  {
    var dim := DaysInMonth(y, m);
    if d <= dim then CalendarDate(y, m, d)
    else if m == 12 then CalendarDate(y + 1, 1, d - dim)
    else CalendarDate(y, m + 1, d - dim)
  }

  /** The round-trip check `getFullYear() === y && getMonth() === m - 1 &&
      getDate() === d` succeeds exactly for the dates that exist: there is
      no rollover, so 30 February and 29 February of a common year fail. */
  lemma ConstructedDateRoundTrip(y: int, m: int, d: int)
    requires 1 <= m <= 12 && 1 <= d <= 31
    ensures ConstructedDate(y, m, d) == CalendarDate(y, m, d) <==> ValidDate(CalendarDate(y, m, d))
  {
  }
}
