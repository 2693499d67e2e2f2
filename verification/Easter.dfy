/** The computation of Easter (cmd/bff/main.go) against the rule it implements: the first Sunday
    after the ecclesiastical full moon of spring, here given by the epact. */
module Easter {
  import opened Gregorian

  // The arithmetic of the program; every operand of a division or remainder is a natural number,
  // so truncating and flooring division agree.
  function MoonTerm(year: nat): (h: nat)
    ensures h < 30
  {
    var a, b: nat := year % 19, year / 100;
    var d, f := b / 4, (b + 8) / 25;
    var g := (b - f + 1) / 3;
    (19 * a + b - d - g + 15) % 30
  }

  function SundayTerm(year: nat, h: nat): nat
    requires h < 30
  {
    var b, c := year / 100, year % 100;
    var e, i, k := b % 4, c / 4, c % 4;
    var x: nat := 32 + 2 * e + 2 * i - h - k;
    x % 7
  }

  function WeekBack(a: nat, h: nat, l: nat): nat {
    (a + 11 * h + 22 * l) / 451
  }

  function CalculateEaster(year: nat): (int, int) {
    var h := MoonTerm(year);
    var l := SundayTerm(year, h);
    var m := WeekBack(year % 19, h, l);
    ((h + l - 7 * m + 114) / 31, (h + l - 7 * m + 114) % 31 + 1)
  }

  // ----- the rule

  // The age of the moon on 1 January, from the 19-year cycle and the two century corrections.
  function Epact(year: nat): nat {
    var a, b := year % 19, year / 100;
    var solar, lunar := b - b / 4, (8 * b + 13) / 25;
    (11 * a + 8 - solar + lunar) % 30
  }

  // Days from 21 March to the ecclesiastical full moon, with the two exceptions that keep the
  // lunar months apart.
  function FullMoon(year: nat): nat {
    var x := (23 - Epact(year)) % 30;
    if x == 29 then 28
    else if x == 28 && year % 19 > 10 then 27
    else x
  }

  // ----- their agreement

  lemma {:induction false} LunarCorrection(b: nat)
    ensures (b - (b + 8) / 25 + 1) / 3 == (8 * b + 13) / 25
  {
    var q, r := b / 25, b % 25;
    assert b == 25 * q + r;
    assert (8 * b + 13) / 25 == 8 * q + (8 * r + 13) / 25;
    if r < 17 {
      assert (b + 8) / 25 == q;
      assert (b - q + 1) == 3 * (8 * q) + r + 1;
      assert (r + 1) / 3 == (8 * r + 13) / 25;
    } else {
      assert (b + 8) / 25 == q + 1;
      assert (b - q) == 3 * (8 * q) + r;
      assert r / 3 == (8 * r + 13) / 25;
    }
  }

  // The moon term is the epact, seen from 21 March.
  lemma {:induction false} MoonTermIsEpact(year: nat)
    ensures MoonTerm(year) == (23 - Epact(year)) % 30
  {
    var a, b := year % 19, year / 100;
    LunarCorrection(b);
    var lunar, d := (8 * b + 13) / 25, b / 4;
    var x, y := 19 * a + b - d - lunar + 15, 11 * a + 8 - (b - d) + lunar;
    assert MoonTerm(year) == x % 30 && Epact(year) == y % 30;
    assert x + y == 30 * a + 23;
    ComplementMod(x, y, a);
  }

  lemma {:induction false} ComplementMod(x: int, y: int, a: int)
    requires x + y == 30 * a + 23
    ensures x % 30 == (23 - y % 30) % 30
  {
  }

  // The step back by a week happens exactly on the exceptional full moons that would put Easter
  // a whole week later.
  lemma {:induction false} WeekBackIff(a: nat, h: nat, l: nat)
    requires a < 19 && h < 30 && l < 7
    ensures WeekBack(a, h, l) == if l == 6 && (h == 29 || (h == 28 && a > 10)) then 1 else 0
  {
    var s := a + 11 * h + 22 * l;
    assert 0 <= s < 902;
    assert s / 451 == if s >= 451 then 1 else 0;
  }

  lemma {:induction false} MarchByCenturies(year: nat, d: nat, e: nat, i: nat, k: nat)
    requires year >= 1 && year == 400 * d + 100 * e + 4 * i + k && e < 4 && i < 25 && k < 4
    ensures DayNumber(year, 3, 22) == 365 * year + (100 * d + 25 * e + i) - (4 * d + e) + d - 284
  {
    Quotients(d, e, i, k);
    SpringDayNumber(year, 22);
  }

  lemma {:induction false} CenturyParts(d: nat, e: nat, i: nat, k: nat)
    requires e < 4 && i < 25 && k < 4
    ensures var y := 400 * d + 100 * e + 4 * i + k; y / 100 == 4 * d + e && y % 100 == 4 * i + k
  {
  }

  lemma {:induction false} SmallParts(d: nat, e: nat, i: nat, k: nat)
    requires e < 4 && i < 25 && k < 4
    ensures (4 * d + e) % 4 == e && (4 * i + k) / 4 == i && (4 * i + k) % 4 == k
  {
  }

  lemma {:induction false} TermsByCenturies(year: nat, h: nat, d: nat, e: nat, i: nat, k: nat) returns (w: int)
    requires year == 400 * d + 100 * e + 4 * i + k && e < 4 && i < 25 && k < 4 && h < 30
    ensures h + SundayTerm(year, h) == 32 + 2 * e + 2 * i - k - 7 * w
  {
    CenturyParts(d, e, i, k);
    SmallParts(d, e, i, k);
    w := (32 + 2 * e + 2 * i - h - k) / 7;
  }

  // Counted from 22 March, any moon term and its Sunday term together fall on a Sunday.
  lemma {:induction false} SumIsSunday(year: nat, h: nat)
    requires year >= 1 && h < 30
    ensures (DayNumber(year, 3, 22) + h + SundayTerm(year, h)) % 7 == 0
  {
    var b, c := year / 100, year % 100;
    var d, e, i, k := b / 4, b % 4, c / 4, c % 4;
    MarchByCenturies(year, d, e, i, k);
    var w := TermsByCenturies(year, h, d, e, i, k);
    WholeWeeks(d, e, i, k, w);
  }

  lemma {:induction false} WholeWeeks(d: int, e: int, i: int, k: int, w: int)
    ensures (365 * (400 * d + 100 * e + 4 * i + k) + (100 * d + 25 * e + i) - (4 * d + e) + d - 284
             + 32 + 2 * e + 2 * i - k - 7 * w) % 7 == 0
  {
    assert 365 * (400 * d + 100 * e + 4 * i + k) + (100 * d + 25 * e + i) - (4 * d + e) + d - 284
           + 32 + 2 * e + 2 * i - k - 7 * w
        == 7 * (20871 * d + 5218 * e + 209 * i + 52 * k - 36 - w);
  }

  lemma {:induction false} Quotients(d: nat, e: nat, i: nat, k: nat)
    requires e < 4 && i < 25 && k < 4
    ensures var y := 400 * d + 100 * e + 4 * i + k;
            y / 4 == 100 * d + 25 * e + i && y / 100 == 4 * d + e && y / 400 == d
  {
  }

  // Days from 22 March to Easter.
  function Offset(year: nat): int {
    var h := MoonTerm(year);
    var l := SundayTerm(year, h);
    h + l - 7 * WeekBack(year % 19, h, l)
  }

  lemma {:induction false} OffsetFollowsFullMoon(year: nat)
    requires year >= 1
    ensures 0 <= Offset(year) <= 34 && FullMoon(year) <= Offset(year) <= FullMoon(year) + 6
    ensures (DayNumber(year, 3, 22) + Offset(year)) % 7 == 0
  {
    var h := MoonTerm(year);
    var l := SundayTerm(year, h);
    WeekBackIff(year % 19, h, l);
    MoonTermIsEpact(year);
    SumIsSunday(year, h);
    SevenLess(DayNumber(year, 3, 22) + h + l, WeekBack(year % 19, h, l));
  }

  lemma {:induction false} SevenLess(x: int, m: int)
    requires x % 7 == 0
    ensures (x - 7 * m) % 7 == 0
  {
  }

  lemma {:induction false} EasterIsAtOffset(year: nat)
    requires year >= 1
    ensures var (month, day) := CalculateEaster(year);
            && IsDate(year, month, day)
            && ((month == 3 && 22 <= day) || (month == 4 && day <= 25))
            && DayNumber(year, month, day) == DayNumber(year, 3, 22) + Offset(year)
  {
    OffsetFollowsFullMoon(year);
    MonthAndDay(Offset(year));
    var (month, day) := CalculateEaster(year);
    SpringDayNumber(year, day);
    SpringDayNumber(year, 22);
  }

  lemma {:induction false} MonthAndDay(n: int)
    requires 0 <= n <= 34
    ensures (n + 114) / 31 == if n <= 9 then 3 else 4
    ensures (n + 114) % 31 + 1 == if n <= 9 then n + 22 else n - 9
  {
  }

  // Easter lies between 22 March and 25 April, and is the Sunday in the week after the full moon.
  lemma {:induction false} EasterIsSundayAfterFullMoon(year: nat)
    requires year >= 1
    ensures var (month, day) := CalculateEaster(year);
            && IsDate(year, month, day)
            && ((month == 3 && 22 <= day) || (month == 4 && day <= 25))
            && Weekday(year, month, day) == SUNDAY
            && var moon := DayNumber(year, 3, 21) + FullMoon(year);
               moon < DayNumber(year, month, day) <= moon + 7
  {
    EasterIsAtOffset(year);
    OffsetFollowsFullMoon(year);
  }

  // There is only one such day, so the rule determines the program's answer.
  lemma {:induction false} RuleDeterminesEaster(year: nat, m: int, d: int)
    requires IsDate(year, m, d) && (m == 3 || m == 4) && Weekday(year, m, d) == SUNDAY
    requires var moon := DayNumber(year, 3, 21) + FullMoon(year); moon < DayNumber(year, m, d) <= moon + 7
    ensures CalculateEaster(year) == (m, d)
  {
    EasterIsSundayAfterFullMoon(year);
    var (month, day) := CalculateEaster(year);
    OneSundayAWeek(DayNumber(year, month, day), DayNumber(year, m, d));
    SpringDayNumber(year, d);
    SpringDayNumber(year, day);
  }

  lemma {:induction false} OneSundayAWeek(x: int, y: int)
    requires x % 7 == 0 && y % 7 == 0 && -7 < x - y < 7
    ensures x == y
  {
  }
}
