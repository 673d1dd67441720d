/**
 * The proleptic Gregorian calendar that JavaScript's `Date` follows, with
 * months numbered 0..11 as `Date.prototype.getMonth` numbers them and
 * weekdays 0..6 from Sunday as `Date.prototype.getDay` numbers them.
 */
module Gregorian {

  /** Every fourth year, except centuries not divisible by 400. */
  predicate IsLeapYear(y: int)
  {
    y % 4 == 0 && (y % 100 != 0 || y % 400 == 0)
  }

  /** `new Date(y, m + 1, 0).getDate()`: the number of days of month `m` of year `y`. */
  function DaysInMonth(y: int, m: int): (n: int)
    requires 0 <= m < 12
    ensures 28 <= n <= 31
    ensures m == 1 ==> (n == 29 <==> IsLeapYear(y))
    ensures m != 1 ==> (n == 30 <==> m in {3, 5, 8, 10})
  {
    if m == 1 then (if IsLeapYear(y) then 29 else 28)
    else if m == 3 || m == 5 || m == 8 || m == 10 then 30
    else 31
  }

  function DaysInYear(y: int): int
  {
    if IsLeapYear(y) then 366 else 365
  }

  /** Days of year `y` before the first of month `m`. */
  function DaysBeforeMonth(y: int, m: int): int
    requires 0 <= m <= 12
  {
    if m == 0 then 0 else DaysBeforeMonth(y, m - 1) + DaysInMonth(y, m - 1)
  }

  /**
   * Days from 1 January of year 0 to 1 January of year `y` (negative for
   * earlier years): 365 a year plus one per leap year in between.
   */
  function DaysBeforeYear(y: int): int
  {
    365 * y + (y + 3) / 4 - (y + 99) / 100 + (y + 399) / 400
  }

  /** The day number of `y`-`m`-`d`, counted from 1 January of year 0. */
  function DayNumber(y: int, m: int, d: int): int
    requires 0 <= m < 12
  {
    DaysBeforeYear(y) + DaysBeforeMonth(y, m) + d - 1
  }

  /** `new Date(y, m, d).getDay()`: 0 for Sunday up to 6 for Saturday (1 January of year 0 was a Saturday). */
  function Weekday(y: int, m: int, d: int): (w: int)
    requires 0 <= m < 12
    ensures 0 <= w < 7
  {
    (DayNumber(y, m, d) + 6) % 7
  }

  /** The twelve months fill the year. */
  lemma MonthsFillYear(y: int)
    ensures DaysBeforeMonth(y, 12) == DaysInYear(y)
  {
    var feb := DaysInMonth(y, 1);
    assert DaysBeforeMonth(y, 1) == 31;
    assert DaysBeforeMonth(y, 2) == 31 + feb;
    assert DaysBeforeMonth(y, 3) == 62 + feb;
    assert DaysBeforeMonth(y, 4) == 92 + feb;
    assert DaysBeforeMonth(y, 5) == 123 + feb;
    assert DaysBeforeMonth(y, 6) == 153 + feb;
    assert DaysBeforeMonth(y, 7) == 184 + feb;
    assert DaysBeforeMonth(y, 8) == 215 + feb;
    assert DaysBeforeMonth(y, 9) == 245 + feb;
    assert DaysBeforeMonth(y, 10) == 276 + feb;
    assert DaysBeforeMonth(y, 11) == 306 + feb;
    assert DaysBeforeMonth(y, 12) == 337 + feb;
  }

  /** Consecutive years: the next year starts one year's length later. */
  lemma DaysBeforeNextYear(y: int)
    ensures DaysBeforeYear(y + 1) == DaysBeforeYear(y) + DaysInYear(y)
  {
    StepBy4(y);
    StepBy100(y);
    StepBy400(y);
    DivisorsNest(y);
  }

  /** A multiple of 400 is a multiple of 100, and a multiple of 100 a multiple of 4. */
  lemma DivisorsNest(y: int)
    ensures y % 400 == 0 ==> y % 100 == 0
    ensures y % 100 == 0 ==> y % 4 == 0
  {
    if y % 400 == 0 {
      var k := y / 400;
      assert y == 100 * (4 * k);
      HundredDivides(4 * k);
    }
    if y % 100 == 0 {
      var k := y / 100;
      assert y == 4 * (25 * k);
      FourDivides(25 * k);
    }
  }

  lemma HundredDivides(j: int)
    ensures (100 * j) % 100 == 0
  {
  }

  lemma FourDivides(j: int)
    ensures (4 * j) % 4 == 0
  {
  }

  /** One more year passes one more multiple of 4 exactly when the year is one. */
  lemma StepBy4(y: int)
    ensures (y + 4) / 4 == (y + 3) / 4 + (if y % 4 == 0 then 1 else 0)
  {
  }

  lemma StepBy100(y: int)
    ensures (y + 100) / 100 == (y + 99) / 100 + (if y % 100 == 0 then 1 else 0)
  {
  }

  lemma StepBy400(y: int)
    ensures (y + 400) / 400 == (y + 399) / 400 + (if y % 400 == 0 then 1 else 0)
  {
  }

  /**
   * The first of the month after `m` comes `DaysInMonth(y, m)` days after the
   * first of `m`, across the turn of the year too.
   */
  lemma NextMonthStart(y: int, m: int)
    requires 0 <= m < 12
    ensures m < 11 ==> DayNumber(y, m + 1, 1) == DayNumber(y, m, 1) + DaysInMonth(y, m)
    ensures m == 11 ==> DayNumber(y + 1, 0, 1) == DayNumber(y, m, 1) + DaysInMonth(y, m)
  {
    if m == 11 {
      DaysBeforeNextYear(y);
      MonthsFillYear(y);
    }
  }

  /** 1 January 1970, the start of JavaScript time, was a Thursday. */
  lemma EpochWasThursday()
    ensures Weekday(1970, 0, 1) == 4
  {
    assert DaysBeforeYear(1970) == 719528;
  }

  /**
   * The weekday advances by one, modulo seven, from each day to the next:
   * within a month, and from the last day of a month to the first of the
   * next, across the turn of the year too.
   */
  lemma NextDayWeekday(y: int, m: int, d: int)
    requires 0 <= m < 12 && 1 <= d <= DaysInMonth(y, m)
    ensures d < DaysInMonth(y, m) ==> Weekday(y, m, d + 1) == (Weekday(y, m, d) + 1) % 7
    ensures d == DaysInMonth(y, m) && m < 11 ==> Weekday(y, m + 1, 1) == (Weekday(y, m, d) + 1) % 7
    ensures d == DaysInMonth(y, m) && m == 11 ==> Weekday(y + 1, 0, 1) == (Weekday(y, m, d) + 1) % 7
  {
    var n := DayNumber(y, m, d);
    if d < DaysInMonth(y, m) {
      assert DayNumber(y, m, d + 1) == n + 1;
      WeekdayFollows(y, m, d, y, m, d + 1);
    } else if m < 11 {
      NextMonthStart(y, m);
      assert DayNumber(y, m + 1, 1) == n + 1;
      WeekdayFollows(y, m, d, y, m + 1, 1);
    } else {
      NextMonthStart(y, m);
      assert DayNumber(y + 1, 0, 1) == n + 1;
      WeekdayFollows(y, m, d, y + 1, 0, 1);
    }
  }

  /** The day after a day has the following weekday. */
  lemma WeekdayFollows(y: int, m: int, d: int, y2: int, m2: int, d2: int)
    requires 0 <= m < 12 && 0 <= m2 < 12
    requires DayNumber(y2, m2, d2) == DayNumber(y, m, d) + 1
    ensures Weekday(y2, m2, d2) == (Weekday(y, m, d) + 1) % 7
  {
    ShiftMod7(DayNumber(y, m, d) + 6, 1);
  }

  /** Moving `k` days on from a day number moves its remainder modulo seven on by `k`. */
  lemma ShiftMod7(n: int, k: int)
    ensures (n % 7 + k) % 7 == (n + k) % 7
  {
    var q := n / 7;
    assert n + k == (n % 7 + k) + 7 * q;
  }

  /**
   * In a month grid of seven columns that starts with `Weekday(y, m, 1)` blank
   * cells, day `d` sits in the column of its own weekday.
   */
  lemma GridColumn(y: int, m: int, d: int)
    requires 0 <= m < 12
    ensures (Weekday(y, m, 1) + d - 1) % 7 == Weekday(y, m, d)
  {
    var n := DayNumber(y, m, 1) + 6;
    assert DayNumber(y, m, d) + 6 == n + (d - 1);
    ShiftMod7(n, d - 1);
  }
}
