/** Calendar instants as the pages use them. A JavaScript Date is an
    instant; here it is its local calendar reading (year, month 1..12,
    day of month, milliseconds since midnight), compared
    lexicographically, with the (year, month) projection that the
    analytics buckets use. */
module Calendar {

  datatype Instant = Instant(year: int, month: int, day: int, ms: int)

  datatype YearMonth = YearMonth(year: int, month: int)

  const MsPerDay := 86400000

  predicate IsLeapYear(y: int)
  {
    (y % 4 == 0 && y % 100 != 0) || y % 400 == 0
  }

  function DaysInMonth(y: int, m: int): (d: int)
    ensures 28 <= d <= 31
  {
    if m == 2 then (if IsLeapYear(y) then 29 else 28)
    else if m == 4 || m == 6 || m == 9 || m == 11 then 30
    else 31
  }

  /** An instant that a real Date can denote. */
  predicate ValidInstant(t: Instant)
  {
    1 <= t.month <= 12 && 1 <= t.day <= DaysInMonth(t.year, t.month) && 0 <= t.ms < MsPerDay
  }

  /** a <= b for Date values (comparison of their time values). */
  predicate NotAfter(a: Instant, b: Instant)
  {
    a.year < b.year
    || (a.year == b.year && a.month < b.month)
    || (a.year == b.year && a.month == b.month && a.day < b.day)
    || (a.year == b.year && a.month == b.month && a.day == b.day && a.ms <= b.ms)
  }

  function MonthOf(t: Instant): YearMonth
  {
    YearMonth(t.year, t.month)
  }

  predicate MonthBefore(a: YearMonth, b: YearMonth)
  {
    a.year < b.year || (a.year == b.year && a.month < b.month)
  }

  /** new Date(y, m, 1): midnight of the first day of a month. */
  function StartOfMonth(ym: YearMonth): Instant
  {
    Instant(ym.year, ym.month, 1, 0)
  }

  /** The month before ym; JavaScript's Date normalises month index -1 to
      December of the previous year. */
  function PrevMonth(ym: YearMonth): (p: YearMonth)
    requires 1 <= ym.month <= 12
    ensures 1 <= p.month <= 12
    ensures MonthBefore(p, ym)
    ensures ym.month == 1 ==> p == YearMonth(ym.year - 1, 12)
    ensures ym.month > 1 ==> p == YearMonth(ym.year, ym.month - 1)
  {
    if ym.month == 1 then YearMonth(ym.year - 1, 12) else YearMonth(ym.year, ym.month - 1)
  }

  /** new Date(y, m, 0) for the month m after ym: midnight of the last day of ym. */
  function LastDayOfMonth(ym: YearMonth): Instant
  {
    Instant(ym.year, ym.month, DaysInMonth(ym.year, ym.month), 0)
  }

  /** A valid instant is at or after the start of a month exactly when its
      month is that month or a later one. */
  lemma AtOrAfterMonthStart(t: Instant, ym: YearMonth)
    requires ValidInstant(t)
    ensures NotAfter(StartOfMonth(ym), t) <==> !MonthBefore(MonthOf(t), ym)
  {
  }

  /** A valid instant lies between the first and the last midnight of a
      month exactly when it falls in that month and is not later than
      midnight on the month's last day. */
  lemma WithinMonthMidnights(t: Instant, ym: YearMonth)
    requires ValidInstant(t)
    requires 1 <= ym.month <= 12
    ensures NotAfter(StartOfMonth(ym), t) && NotAfter(t, LastDayOfMonth(ym))
            <==> MonthOf(t) == ym && (t.day < DaysInMonth(ym.year, ym.month) || t.ms == 0)
  {
  }
}
