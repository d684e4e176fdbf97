/** Calendar dates, months, the month bounds the pages query with, and the
    month drop-down they all offer. */
module Calendar {
  import opened Text

  /** A `date` column value. */
  datatype Date = Date(year: int, month: int, day: int)

  /** A "YYYY-MM" month key. */
  datatype Month = Month(year: int, mon: int)

  predicate IsLeapYear(y: int)
  {
    y % 4 == 0 && (y % 100 != 0 || y % 400 == 0)
  }

  /** `calendar.monthrange(y, m)[1]`: the number of days in month m of year y. */
  function DaysInMonth(y: int, m: int): (d: int)
    requires 1 <= m <= 12
    ensures 28 <= d <= 31
  {
    if m == 2 then (if IsLeapYear(y) then 29 else 28)
    else if m == 4 || m == 6 || m == 9 || m == 11 then 30
    else 31
  }

  predicate ValidDate(d: Date)
  {
    1 <= d.month <= 12 && 1 <= d.day <= DaysInMonth(d.year, d.month)
  }

  predicate ValidMonth(mo: Month)
  {
    1 <= mo.mon <= 12
  }

  /** Dates compare as their ISO "YYYY-MM-DD" strings do: by year, then
      month, then day. */
  predicate DateLe(a: Date, b: Date)
  {
    a.year < b.year || (a.year == b.year && (a.month < b.month || (a.month == b.month && a.day <= b.day)))
  }

  predicate DateLt(a: Date, b: Date)
  {
    !DateLe(b, a)
  }

  predicate MonthLt(a: Month, b: Month)
  {
    a.year < b.year || (a.year == b.year && a.mon < b.mon)
  }

  function MonthOf(d: Date): Month
  {
    Month(d.year, d.month)
  }

  /** `from_date = f"{month}-01"`. */
  function FirstDay(mo: Month): Date
    requires ValidMonth(mo)
  {
    Date(mo.year, mo.mon, 1)
  }

  /** `to_date = f"{month}-{last_day:02d}"`. */
  function LastDay(mo: Month): Date
    requires ValidMonth(mo)
  {
    Date(mo.year, mo.mon, DaysInMonth(mo.year, mo.mon))
  }

  /** The session-date filter `from_date <= d <= to_date`. */
  predicate InMonth(d: Date, mo: Month)
    requires ValidMonth(mo)
  {
    DateLe(FirstDay(mo), d) && DateLe(d, LastDay(mo))
  }

  /** The bounds are real dates of the month, February has 29 days exactly
      in leap years, and the day after the last is not a date; so for a
      valid date the two-sided filter selects exactly the dates of the month. */
  lemma MonthBounds(mo: Month, d: Date)
    requires ValidMonth(mo) && ValidDate(d)
    ensures ValidDate(FirstDay(mo)) && ValidDate(LastDay(mo))
    ensures FirstDay(mo).day == 1
    ensures !ValidDate(LastDay(mo).(day := LastDay(mo).day + 1))
    ensures mo.mon == 2 ==> (LastDay(mo).day == 29 <==> IsLeapYear(mo.year))
    ensures InMonth(d, mo) <==> MonthOf(d) == mo
  {
  }

  /** For a real date, the two-sided filter is membership of its month. */
  lemma InMonthIffMonthOf(mo: Month, d: Date)
    requires ValidMonth(mo) && ValidDate(d)
    ensures InMonth(d, mo) <==> MonthOf(d) == mo
  {
    MonthBounds(mo, d);
  }

  /** `f"{year}-{m:02d}"`. */
  function MonthText(mo: Month): string
    requires ValidMonth(mo)
  {
    IntToString(mo.year) + "-" + Pad2(mo.mon)
  }

  /** Months m, m-1, ..., 1 of year y. */
  function MonthsDown(y: int, m: nat): (r: seq<Month>)
    requires m <= 12
    ensures |r| == m && forall i :: 0 <= i < m ==> r[i] == Month(y, m - i)
  {
    if m == 0 then [] else [Month(y, m)] + MonthsDown(y, m - 1)
  }

  /** The month drop-down: the months of this year up to the current one and
      all twelve of last year, as a set sorted newest first. */
  function MonthOptions(today: Date): (r: seq<Month>)
    requires 1 <= today.month <= 12
    ensures forall mo :: mo in r <==>
      (mo.year == today.year && 1 <= mo.mon <= today.month) ||
      (mo.year == today.year - 1 && 1 <= mo.mon <= 12)
    ensures forall i, j :: 0 <= i < j < |r| ==> MonthLt(r[j], r[i])
    ensures |r| == today.month + 12
  {
    var a, b := MonthsDown(today.year, today.month), MonthsDown(today.year - 1, 12);
    assert forall mo :: mo in a <==> mo.year == today.year && 1 <= mo.mon <= today.month by {
      forall mo: Month | mo.year == today.year && 1 <= mo.mon <= today.month ensures mo in a {
        assert a[today.month - mo.mon] == mo;
      }
    }
    assert forall mo :: mo in b <==> mo.year == today.year - 1 && 1 <= mo.mon <= 12 by {
      forall mo: Month | mo.year == today.year - 1 && 1 <= mo.mon <= 12 ensures mo in b {
        assert b[12 - mo.mon] == mo;
      }
    }
    a + b
  }
}
