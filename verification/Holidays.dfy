/** The closures and early closes of the exchange (cmd/bff/main.go), against the dates on which
    they fall. */
module Holidays {
  import opened Options
  import opened Gregorian
  import opened Easter

  datatype Label =
    | NewYears | MlkDay | PresidentsDay | GoodFriday | MemorialDay | Juneteenth
    | IndependenceDay | LaborDay | Thanksgiving | Christmas
    | IndependenceEve | BlackFriday | ChristmasEve
    | NoLabel

  predicate NthWeekday(weekday: int, day: int, target: int, n: int) {
    weekday == target && (day - 1) / 7 == n - 1
  }

  predicate LastWeekday(weekday: int, day: int, target: int, monthLength: int) {
    weekday == target && day + 7 > monthLength
  }

  predicate Weekend(weekday: int) {
    weekday == SUNDAY || weekday == SATURDAY
  }

  // Two days earlier, across the start of a month.
  function TwoDaysBefore(y: int, m: int, d: int): (int, int)
    requires 2 <= m <= 12
  {
    if d > 2 then (m, d - 2) else (m - 1, MonthLength(y, m - 1) + d - 2)
  }

  function GoodFridayOf(y: nat): (int, int)
    requires y >= 1
  {
    EasterIsAtOffset(y);
    var (em, ed) := CalculateEaster(y);
    TwoDaysBefore(y, em, ed)
  }

  // Whether the market is closed, why it is special, and whether it closes early.
  function HolidayOf(y: nat, month: int, day: int): (bool, Label, bool)
    requires IsDate(y, month, day)
  {
    var w := Weekday(y, month, day);
    if (month == 1 && day == 1 && !Weekend(w)) || (month == 1 && day == 2 && w == MONDAY)
    then (true, NewYears, false)
    else if month == 1 && NthWeekday(w, day, MONDAY, 3) then (true, MlkDay, false)
    else if month == 2 && NthWeekday(w, day, MONDAY, 3) then (true, PresidentsDay, false)
    else if (month, day) == GoodFridayOf(y) then (true, GoodFriday, false)
    else if month == 5 && LastWeekday(w, day, MONDAY, MonthLength(y, month)) then (true, MemorialDay, false)
    else if (month == 6 && day == 19 && !Weekend(w)) || (month == 6 && day == 20 && w == MONDAY)
            || (month == 6 && day == 18 && w == FRIDAY)
    then (true, Juneteenth, false)
    else if (month == 7 && day == 4 && !Weekend(w)) || (month == 7 && day == 5 && w == MONDAY)
            || (month == 7 && day == 3 && w == FRIDAY)
    then (true, IndependenceDay, false)
    else if month == 7 && day == 3 && !Weekend(w) && w != FRIDAY then (false, IndependenceEve, true)
    else if month == 9 && NthWeekday(w, day, MONDAY, 1) then (true, LaborDay, false)
    else if month == 11 && NthWeekday(w, day, THURSDAY, 4) then (true, Thanksgiving, false)
    else if month == 11 && NthWeekday(w, day, FRIDAY, 4) then (false, BlackFriday, true)
    else if (month == 12 && day == 25 && !Weekend(w)) || (month == 12 && day == 26 && w == MONDAY)
            || (month == 12 && day == 24 && w == FRIDAY)
    then (true, Christmas, false)
    else if month == 12 && day == 24 && !Weekend(w) && w != FRIDAY then (false, ChristmasEve, true)
    else (false, NoLabel, false)
  }

  // ----- the dates, computed from the weekdays of the month

  function NthDate(y: nat, m: int, target: int, n: int): int
    requires y >= 1 && 1 <= m <= 12
  {
    7 * (n - 1) + 1 + (target - Weekday(y, m, 1)) % 7
  }

  function LastDate(y: nat, m: int, target: int): int
    requires y >= 1 && 1 <= m <= 12
  {
    MonthLength(y, m) - (Weekday(y, m, MonthLength(y, m)) - target) % 7
  }

  // A fixed date, moved off a weekend to the nearest working day.
  function Observed(y: nat, m: int, d: int): int
    requires y >= 1 && 1 <= m <= 12
  {
    if Weekday(y, m, d) == SATURDAY then d - 1
    else if Weekday(y, m, d) == SUNDAY then d + 1
    else d
  }

  // The date of each closure; New Year's Day on a Saturday is not made up for.
  function DateOf(y: nat, name: Label): Option<(int, int)>
    requires y >= 1
  {
    match name
    case NewYears => if Weekday(y, 1, 1) == SATURDAY then None else Some((1, Observed(y, 1, 1)))
    case MlkDay => Some((1, NthDate(y, 1, MONDAY, 3)))
    case PresidentsDay => Some((2, NthDate(y, 2, MONDAY, 3)))
    case GoodFriday => Some(GoodFridayOf(y))
    case MemorialDay => Some((5, LastDate(y, 5, MONDAY)))
    case Juneteenth => Some((6, Observed(y, 6, 19)))
    case IndependenceDay => Some((7, Observed(y, 7, 4)))
    case LaborDay => Some((9, NthDate(y, 9, MONDAY, 1)))
    case Thanksgiving => Some((11, NthDate(y, 11, THURSDAY, 4)))
    case Christmas => Some((12, Observed(y, 12, 25)))
    case _ => None
  }

  lemma {:induction false} NthIff(w: int, day: int, target: int, n: int)
    requires 0 <= w < 7 && 0 <= target < 7 && 1 <= day && 1 <= n
    ensures NthWeekday((w + day - 1) % 7, day, target, n) <==> day == 7 * (n - 1) + 1 + (target - w) % 7
  {
    var q, r := (day - 1) / 7, (day - 1) % 7;
    assert day - 1 == 7 * q + r;
    assert (w + day - 1) % 7 == (w + r) % 7;
  }

  lemma {:induction false} LastIff(w: int, day: int, target: int, length: int)
    requires 0 <= w < 7 && 0 <= target < 7 && 1 <= day <= length
    ensures LastWeekday((w + day - length) % 7, day, target, length) <==> day == length - (w - target) % 7
  {
  }

  lemma {:induction false} NthHoliday(y: nat, m: int, day: int, target: int, n: int)
    requires IsDate(y, m, day) && 0 <= target < 7 && 1 <= n
    ensures NthWeekday(Weekday(y, m, day), day, target, n) <==> day == NthDate(y, m, target, n)
  {
    WeekdayFrom(y, m, 1, day);
    NthIff(Weekday(y, m, 1), day, target, n);
  }

  lemma {:induction false} LastHoliday(y: nat, m: int, day: int, target: int)
    requires IsDate(y, m, day) && 0 <= target < 7
    ensures LastWeekday(Weekday(y, m, day), day, target, MonthLength(y, m)) <==> day == LastDate(y, m, target)
  {
    WeekdayFrom(y, m, MonthLength(y, m), day);
    LastIff(Weekday(y, m, MonthLength(y, m)), day, target, MonthLength(y, m));
  }

  // The three conditions on a fixed date and its neighbours are its observance.
  lemma {:induction false} FixedHoliday(y: nat, m: int, d: int, day: int)
    requires y >= 1 && 1 <= m <= 12
    ensures var w := Weekday(y, m, day);
            ((day == d && !Weekend(w)) || (day == d + 1 && w == MONDAY) || (day == d - 1 && w == FRIDAY))
            <==> day == Observed(y, m, d)
  {
    WeekdayFrom(y, m, d, day);
  }

  lemma {:induction false} FridayBeforeSunday(x: int)
    requires x % 7 == SUNDAY
    ensures (x - 2) % 7 == FRIDAY
  {
  }

  lemma {:induction false} TwoDaysBeforeSpring(y: nat, m: int, d: int)
    requires IsDate(y, m, d) && ((m == 3 && 22 <= d) || (m == 4 && d <= 25))
    ensures var (n, e) := TwoDaysBefore(y, m, d);
            && IsDate(y, n, e) && DayNumber(y, n, e) == DayNumber(y, m, d) - 2
            && ((n == 3 && e >= 20) || (n == 4 && e <= 23))
  {
    var (n, e) := TwoDaysBefore(y, m, d);
    SpringDayNumber(y, d);
    SpringDayNumber(y, e);
  }

  lemma {:induction false} GoodFridayIsFriday(y: nat)
    requires y >= 1
    ensures var (m, d) := GoodFridayOf(y);
            && IsDate(y, m, d) && Weekday(y, m, d) == FRIDAY
            && DayNumber(y, m, d) == DayNumber(y, CalculateEaster(y).0, CalculateEaster(y).1) - 2
            && ((m == 3 && d >= 20) || (m == 4 && d <= 23))
  {
    EasterIsSundayAfterFullMoon(y);
    var (em, ed) := CalculateEaster(y);
    TwoDaysBeforeSpring(y, em, ed);
    FridayBeforeSunday(DayNumber(y, em, ed));
  }

  predicate IsClosure(name: Label) {
    name !in {IndependenceEve, BlackFriday, ChristmasEve, NoLabel}
  }

  // Each closure is announced on its own date and on no other.
  lemma {:induction false} ClosedExactlyOnItsDate(y: nat, month: int, day: int, name: Label)
    requires IsDate(y, month, day) && IsClosure(name)
    ensures HolidayOf(y, month, day) == (true, name, false) <==> DateOf(y, name) == Some((month, day))
  {
    GoodFridayIsFriday(y);
    if month == 1 {
      NthHoliday(y, 1, day, MONDAY, 3);
      FixedHoliday(y, 1, 1, day);
    } else if month == 2 {
      NthHoliday(y, 2, day, MONDAY, 3);
    } else if month == 5 {
      LastHoliday(y, 5, day, MONDAY);
    } else if month == 6 {
      FixedHoliday(y, 6, 19, day);
    } else if month == 7 {
      FixedHoliday(y, 7, 4, day);
    } else if month == 9 {
      NthHoliday(y, 9, day, MONDAY, 1);
    } else if month == 11 {
      NthHoliday(y, 11, day, THURSDAY, 4);
    } else if month == 12 {
      FixedHoliday(y, 12, 25, day);
    }
  }

  lemma {:induction false} NthDateIsThatDay(y: nat, m: int, target: int, n: int)
    requires y >= 1 && 1 <= m <= 12 && 0 <= target < 7 && 1 <= n <= 4
    ensures IsDate(y, m, NthDate(y, m, target, n)) && Weekday(y, m, NthDate(y, m, target, n)) == target
    ensures 7 * (n - 1) + 1 <= NthDate(y, m, target, n) <= 7 * n
  {
    NthHoliday(y, m, NthDate(y, m, target, n), target, n);
  }

  lemma {:induction false} LastDateIsThatDay(y: nat, m: int, target: int)
    requires y >= 1 && 1 <= m <= 12 && 0 <= target < 7
    ensures IsDate(y, m, LastDate(y, m, target)) && Weekday(y, m, LastDate(y, m, target)) == target
  {
    LastHoliday(y, m, LastDate(y, m, target), target);
  }

  lemma {:induction false} ObservedIsWorkday(y: nat, m: int, d: int)
    requires y >= 1 && 1 <= m <= 12
    ensures 1 <= Weekday(y, m, Observed(y, m, d)) <= 5
  {
    WeekdayFrom(y, m, d, Observed(y, m, d));
  }

  // Every closure but New Year's Day has a date in every year, New Year's Day has one unless
  // 1 January is a Saturday, and each is a date from Monday to Friday.
  lemma {:induction false} ClosureDates(y: nat, name: Label)
    requires y >= 1 && IsClosure(name)
    ensures DateOf(y, name) == None <==> name == NewYears && Weekday(y, 1, 1) == SATURDAY
    ensures DateOf(y, name).Some? ==>
              var (m, d) := DateOf(y, name).value;
              IsDate(y, m, d) && 1 <= Weekday(y, m, d) <= 5
  {
    match name
    case NewYears => ObservedIsWorkday(y, 1, 1);
    case MlkDay => NthDateIsThatDay(y, 1, MONDAY, 3);
    case PresidentsDay => NthDateIsThatDay(y, 2, MONDAY, 3);
    case GoodFriday => GoodFridayIsFriday(y);
    case MemorialDay => LastDateIsThatDay(y, 5, MONDAY);
    case Juneteenth => ObservedIsWorkday(y, 6, 19);
    case IndependenceDay => ObservedIsWorkday(y, 7, 4);
    case LaborDay => NthDateIsThatDay(y, 9, MONDAY, 1);
    case Thanksgiving => NthDateIsThatDay(y, 11, THURSDAY, 4);
    case Christmas => ObservedIsWorkday(y, 12, 25);
  }

  // A date that is closed is the date of a closure, and never also an early close.
  lemma {:induction false} ClosedHasAName(y: nat, month: int, day: int)
    requires IsDate(y, month, day)
    ensures var (closed, name, early) := HolidayOf(y, month, day);
            && (closed ==> IsClosure(name) && !early && DateOf(y, name) == Some((month, day))
                           && 1 <= Weekday(y, month, day) <= 5)
            && (!closed ==> forall k | IsClosure(k) :: DateOf(y, k) != Some((month, day)))
  {
    var (closed, name, early) := HolidayOf(y, month, day);
    if closed {
      ClosedExactlyOnItsDate(y, month, day, name);
      ClosureDates(y, name);
    } else {
      forall k | IsClosure(k)
        ensures DateOf(y, k) != Some((month, day))
      {
        ClosedExactlyOnItsDate(y, month, day, k);
      }
    }
  }

  // ----- counting the closures of a year

  const REGULARS: nat := 9

  // The closures of the year in the order of the calendar, New Year's Day apart.
  function Regular(i: nat): Label
    requires i < REGULARS
  {
    match i
    case 0 => MlkDay
    case 1 => PresidentsDay
    case 2 => GoodFriday
    case 3 => MemorialDay
    case 4 => Juneteenth
    case 5 => IndependenceDay
    case 6 => LaborDay
    case 7 => Thanksgiving
    case _ => Christmas
  }

  function RegularDate(y: nat, i: nat): (int, int)
    requires y >= 1 && i < REGULARS
  {
    match DateOf(y, Regular(i)) case Some(p) => p case None => (0, 0)
  }

  function RegularDates(y: nat): seq<(int, int)>
    requires y >= 1
  {
    seq(REGULARS, i requires 0 <= i < REGULARS => RegularDate(y, i))
  }

  predicate Precedes(p: (int, int), q: (int, int)) {
    p.0 < q.0 || (p.0 == q.0 && p.1 < q.1)
  }

  predicate InOrder(ds: seq<(int, int)>) {
    forall i | 0 <= i < |ds| - 1 :: Precedes(ds[i], ds[i + 1])
  }

  lemma {:induction false} LastComesLast(ds: seq<(int, int)>, i: nat)
    requires InOrder(ds) && i + 1 < |ds|
    ensures Precedes(ds[i], ds[|ds| - 1])
    decreases |ds| - i
  {
    if i + 2 < |ds| {
      LastComesLast(ds, i + 1);
    }
  }

  lemma {:induction false} InOrderIsDistinct(ds: seq<(int, int)>)
    requires InOrder(ds)
    ensures |set p | p in ds| == |ds|
  {
    if ds != [] {
      var init, last := ds[..|ds| - 1], ds[|ds| - 1];
      InOrderIsDistinct(init);
      forall i | 0 <= i < |init|
        ensures init[i] != last
      {
        LastComesLast(ds, i);
      }
      assert (set p | p in ds) == (set p | p in init) + {last};
    }
  }

  function EarliestMonth(i: nat): int {
    match i
    case 0 => 1 case 1 => 2 case 2 => 3 case 3 => 5 case 4 => 6 case 5 => 7 case 6 => 9 case 7 => 11 case _ => 12
  }

  // Good Friday alone may fall in either of two months.
  function LatestMonth(i: nat): int {
    if i == 2 then 4 else EarliestMonth(i)
  }

  lemma {:induction false} RegularMonths(y: nat, i: nat)
    requires y >= 1 && i < REGULARS
    ensures DateOf(y, Regular(i)) == Some(RegularDate(y, i))
    ensures EarliestMonth(i) <= RegularDate(y, i).0 <= LatestMonth(i)
    ensures i == 0 ==> RegularDate(y, i).1 >= 15
  {
    if i == 2 { GoodFridayIsFriday(y); }
  }

  lemma {:induction false} MonthsInOrder(i: nat)
    requires i + 1 < REGULARS
    ensures LatestMonth(i) < EarliestMonth(i + 1)
  {
  }

  lemma {:induction false} RegularDatesInOrder(y: nat)
    requires y >= 1
    ensures InOrder(RegularDates(y))
  {
    forall i | 0 <= i < REGULARS - 1
      ensures Precedes(RegularDates(y)[i], RegularDates(y)[i + 1])
    {
      RegularMonths(y, i);
      RegularMonths(y, i + 1);
      MonthsInOrder(i);
    }
  }

  // All closed dates of a year.
  function ClosedDates(y: nat): set<(int, int)>
    requires y >= 1
  {
    set m, d | 1 <= m <= 12 && 1 <= d <= MonthLength(y, m) && HolidayOf(y, m, d).0 :: (m, d)
  }

  function NewYearsDates(y: nat): set<(int, int)>
    requires y >= 1
  {
    if Weekday(y, 1, 1) == SATURDAY then {} else {(1, Observed(y, 1, 1))}
  }

  // Every year has ten closed dates, or nine exactly when 1 January is a Saturday.
  lemma {:induction false} TenClosures(y: nat)
    requires y >= 1
    ensures |ClosedDates(y)| == if Weekday(y, 1, 1) == SATURDAY then 9 else 10
  {
    var regular := set p | p in RegularDates(y);
    RegularDatesInOrder(y);
    InOrderIsDistinct(RegularDates(y));
    ClosedDatesAre(y);
    NewYearsIsNotRegular(y);
    assert |regular| == 9;
    assert regular !! NewYearsDates(y);
    assert |regular + NewYearsDates(y)| == |regular| + |NewYearsDates(y)|;
  }

  lemma {:induction false} NewYearsIsNotRegular(y: nat)
    requires y >= 1
    ensures forall p | p in NewYearsDates(y) :: p !in RegularDates(y)
  {
    forall i, p | 0 <= i < REGULARS && p in NewYearsDates(y)
      ensures p != RegularDate(y, i)
    {
      RegularMonths(y, i);
    }
  }

  lemma {:induction false} RegularIsClosed(y: nat, i: nat)
    requires y >= 1 && i < REGULARS
    ensures RegularDate(y, i) in ClosedDates(y)
  {
    var (m, d) := RegularDate(y, i);
    RegularMonths(y, i);
    ClosureDates(y, Regular(i));
    ClosedExactlyOnItsDate(y, m, d, Regular(i));
  }

  lemma {:induction false} NewYearsIsClosed(y: nat, p: (int, int))
    requires y >= 1 && p in NewYearsDates(y)
    ensures p in ClosedDates(y)
  {
    ClosureDates(y, NewYears);
    ClosedExactlyOnItsDate(y, p.0, p.1, NewYears);
  }

  lemma {:induction false} ClosedIsListed(y: nat, p: (int, int))
    requires IsDate(y, p.0, p.1) && HolidayOf(y, p.0, p.1).0
    ensures p in RegularDates(y) || p in NewYearsDates(y)
  {
    ClosedHasAName(y, p.0, p.1);
    var name := HolidayOf(y, p.0, p.1).1;
    if name != NewYears {
      var i := IndexOf(name);
      RegularMonths(y, i);
      assert RegularDates(y)[i] == p;
    }
  }

  lemma {:induction false} IndexOf(name: Label) returns (i: nat)
    requires IsClosure(name) && name != NewYears
    ensures i < REGULARS && Regular(i) == name
  {
    i := match name
      case MlkDay => 0 case PresidentsDay => 1 case GoodFriday => 2 case MemorialDay => 3 case Juneteenth => 4
      case IndependenceDay => 5 case LaborDay => 6 case Thanksgiving => 7 case Christmas => 8;
  }

  lemma {:induction false} ClosedDatesAre(y: nat)
    requires y >= 1
    ensures ClosedDates(y) == (set p | p in RegularDates(y)) + NewYearsDates(y)
  {
    forall p | p in ClosedDates(y)
      ensures p in RegularDates(y) || p in NewYearsDates(y)
    {
      ClosedIsListed(y, p);
    }
    forall p | p in RegularDates(y)
      ensures p in ClosedDates(y)
    {
      var i :| 0 <= i < REGULARS && RegularDates(y)[i] == p;
      RegularIsClosed(y, i);
    }
    forall p | p in NewYearsDates(y)
      ensures p in ClosedDates(y)
    {
      NewYearsIsClosed(y, p);
    }
  }

  // ----- early closes

  // The early closes: the eves of 4 July and Christmas from Monday to Thursday, and the fourth
  // Friday of November. Only a closure or an early close has a label.
  lemma {:induction false} EarlyCloseIff(y: nat, month: int, day: int)
    requires IsDate(y, month, day)
    ensures var (closed, name, early) := HolidayOf(y, month, day);
            var workday := 1 <= Weekday(y, month, day) <= 4;
            && (name == IndependenceEve <==> month == 7 && day == 3 && workday)
            && (name == ChristmasEve <==> month == 12 && day == 24 && workday)
            && (name == BlackFriday <==> month == 11 && day == NthDate(y, 11, FRIDAY, 4))
            && (early <==> name == IndependenceEve || name == ChristmasEve || name == BlackFriday)
            && (name == NoLabel <==> !closed && !early)
  {
    GoodFridayIsFriday(y);
    if month == 11 {
      NthHoliday(y, 11, day, FRIDAY, 4);
    }
  }

  // The Friday of the early close is the day after Thanksgiving unless November starts on a Friday.
  lemma {:induction false} BlackFridayFollowsThanksgivingIff(y: nat)
    requires y >= 1
    ensures NthDate(y, 11, FRIDAY, 4) == NthDate(y, 11, THURSDAY, 4) + 1 <==> Weekday(y, 11, 1) != FRIDAY
  {
  }

  lemma {:induction false} AutumnDayNumber(y: nat, d: int)
    requires y >= 1
    ensures DayNumber(y, 11, d) == DayNumber(y, 3, d) + 245
  {
    assert DaysBeforeMonth(y, 5) == DaysBeforeMonth(y, 3) + 61;
    assert DaysBeforeMonth(y, 7) == DaysBeforeMonth(y, 5) + 61;
    assert DaysBeforeMonth(y, 9) == DaysBeforeMonth(y, 7) + 62;
    assert DaysBeforeMonth(y, 11) == DaysBeforeMonth(y, 9) + 61;
  }

  // November has two special days, the fourth Thursday and the fourth Friday.
  lemma {:induction false} InNovember(y: nat, day: int)
    requires IsDate(y, 11, day)
    ensures HolidayOf(y, 11, day) ==
            if day == NthDate(y, 11, THURSDAY, 4) then (true, Thanksgiving, false)
            else if day == NthDate(y, 11, FRIDAY, 4) then (false, BlackFriday, true)
            else (false, NoLabel, false)
  {
    GoodFridayIsFriday(y);
    NthHoliday(y, 11, day, THURSDAY, 4);
    NthHoliday(y, 11, day, FRIDAY, 4);
  }

  // When November starts on a Friday, as in 2024, the early close is the 22nd and Thanksgiving is
  // the 28th.
  lemma {:induction false} BlackFriday2024(y: nat)
    requires y == 2024
    ensures Weekday(y, 11, 1) == FRIDAY
    ensures NthDate(y, 11, FRIDAY, 4) == 22 && NthDate(y, 11, THURSDAY, 4) == 28
  {
    SpringDayNumber(y, 1);
    AutumnDayNumber(y, 1);
  }
}
