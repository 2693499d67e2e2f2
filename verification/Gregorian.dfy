/** The Gregorian calendar: leap years, day numbers and weekdays, counted from 1 January of year 1,
    which the rules make a Monday. Weekdays are numbered from Sunday = 0. */
module Gregorian {

  const SUNDAY := 0
  const MONDAY := 1
  const THURSDAY := 4
  const FRIDAY := 5
  const SATURDAY := 6

  predicate IsLeap(y: int) {
    y % 4 == 0 && (y % 100 != 0 || y % 400 == 0)
  }

  // Days in all years before year y.
  function DaysBeforeYear(y: int): int
    requires y >= 1
  {
    if y == 1 then 0 else DaysBeforeYear(y - 1) + if IsLeap(y - 1) then 366 else 365
  }

  function MonthLength(y: int, m: int): int
    requires 1 <= m <= 12
  {
    if m == 2 then (if IsLeap(y) then 29 else 28)
    else if m == 4 || m == 6 || m == 9 || m == 11 then 30
    else 31
  }

  function DaysBeforeMonth(y: int, m: int): int
    requires 1 <= m <= 12
  {
    if m == 1 then 0 else DaysBeforeMonth(y, m - 1) + MonthLength(y, m - 1)
  }

  predicate IsDate(y: int, m: int, d: int) {
    y >= 1 && 1 <= m <= 12 && 1 <= d <= MonthLength(y, m)
  }

  function DayNumber(y: int, m: int, d: int): int
    requires y >= 1 && 1 <= m <= 12
  {
    DaysBeforeYear(y) + DaysBeforeMonth(y, m) + d
  }

  function Weekday(y: int, m: int, d: int): int
    requires y >= 1 && 1 <= m <= 12
  {
    DayNumber(y, m, d) % 7
  }

  lemma {:induction false} YearsClosedForm(y: int)
    requires y >= 0
    ensures DaysBeforeYear(y + 1) == 365 * y + y / 4 - y / 100 + y / 400
  {
    if y > 0 {
      YearsClosedForm(y - 1);
      LeapStep(y);
    }
  }

  // The leap rule is the step of the count of leap days.
  lemma {:induction false} LeapStep(y: int)
    requires y >= 1
    ensures y / 4 - y / 100 + y / 400
         == (y - 1) / 4 - (y - 1) / 100 + (y - 1) / 400 + if IsLeap(y) then 1 else 0
  {
    assert y / 4 == (y - 1) / 4 + if y % 4 == 0 then 1 else 0;
    assert y / 100 == (y - 1) / 100 + if y % 100 == 0 then 1 else 0;
    assert y / 400 == (y - 1) / 400 + if y % 400 == 0 then 1 else 0;
    if y % 400 == 0 { By400(y); }
    if y % 100 == 0 { By100(y); }
  }

  lemma {:induction false} By400(y: int)
    requires y % 400 == 0
    ensures y % 100 == 0
  {
    var q := y / 400;
    assert y == 100 * (4 * q);
  }

  lemma {:induction false} By100(y: int)
    requires y % 100 == 0
    ensures y % 4 == 0
  {
    var q := y / 100;
    assert y == 4 * (25 * q);
  }

  // Days from March on need no leap rule of their own year.
  lemma {:induction false} SpringDayNumber(y: int, d: int)
    requires y >= 1
    ensures DayNumber(y, 3, d) == 365 * y + y / 4 - y / 100 + y / 400 - 306 + d
    ensures DayNumber(y, 4, d) == DayNumber(y, 3, d) + 31
  {
    YearsClosedForm(y);
    assert DaysBeforeMonth(y, 2) == 31;
    assert DaysBeforeMonth(y, 3) == if IsLeap(y) then 60 else 59;
    assert DaysBeforeMonth(y, 4) == DaysBeforeMonth(y, 3) + 31;
  }

  lemma {:induction false} ShiftMod(x: int, k: int)
    ensures (x + k) % 7 == (x % 7 + k) % 7
  {
    assert x == 7 * (x / 7) + x % 7;
    SameMod(x % 7 + k, x / 7);
  }

  lemma {:induction false} SameMod(x: int, q: int)
    ensures (7 * q + x) % 7 == x % 7
  {
  }

  // Within a month the weekday follows the day.
  lemma {:induction false} WeekdayFrom(y: int, m: int, d: int, k: int)
    requires y >= 1 && 1 <= m <= 12
    ensures Weekday(y, m, k) == (Weekday(y, m, d) + k - d) % 7
  {
    ShiftMod(DayNumber(y, m, d), k - d);
  }
}
