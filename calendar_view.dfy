/**
 * The event calendar of `app/CalendarView/page.tsx`: the month it shows,
 * the buttons that step to the first day of the previous or next month,
 * the fixed list of events, the events of one day, and the cells
 * `renderCalendarDays` builds with its two loops.
 */
module CalendarView {
  import opened Wrappers
  import Gregorian
  import Lists

  /** A calendar date: full year, month 0..11 as `getMonth` gives it, day of the month from 1. */
  datatype CalDate = CalDate(year: int, month: int, day: int)

  /** A real day of the calendar. */
  predicate ValidDate(d: CalDate)
  {
    0 <= d.month < 12 && 1 <= d.day <= Gregorian.DaysInMonth(d.year, d.month)
  }

  /**
   * `new Date(y, m, 1)` for any month number `m`: `Date` carries whole years
   * out of the month, so the result is the first of the month that lies `m`
   * months after January of `y`.
   */
  function MonthStart(y: int, m: int): (d: CalDate)
    ensures ValidDate(d) && d.day == 1
    ensures d.year * 12 + d.month == y * 12 + m
  {
    CalDate(y + m / 12, m % 12, 1)
  }

  /** A month of the calendar is fixed by its count of months since January of year 0. */
  lemma SameMonthCount(a: CalDate, b: CalDate)
    requires 0 <= a.month < 12 && 0 <= b.month < 12
    requires a.year * 12 + a.month == b.year * 12 + b.month
    ensures a.year == b.year && a.month == b.month
  {
    assert a.year == (a.year * 12 + a.month) / 12;
    assert b.year == (b.year * 12 + b.month) / 12;
  }

  /**
   * Previous from January goes to December of the year before, next from
   * December to January of the year after, and either way the day is the first.
   */
  lemma StepsWrapTheYear(y: int)
    ensures MonthStart(y, -1) == CalDate(y - 1, 11, 1)
    ensures MonthStart(y, 12) == CalDate(y + 1, 0, 1)
  {
    SameMonthCount(MonthStart(y, -1), CalDate(y - 1, 11, 1));
    SameMonthCount(MonthStart(y, 12), CalDate(y + 1, 0, 1));
  }

  /** Next after previous, and previous after next, come back to the first of the month. */
  lemma StepsRoundTrip(y: int, m: int)
    requires 0 <= m < 12
    ensures var p := MonthStart(y, m - 1); MonthStart(p.year, p.month + 1) == CalDate(y, m, 1)
    ensures var n := MonthStart(y, m + 1); MonthStart(n.year, n.month - 1) == CalDate(y, m, 1)
  {
    var p := MonthStart(y, m - 1);
    SameMonthCount(MonthStart(p.year, p.month + 1), CalDate(y, m, 1));
    var n := MonthStart(y, m + 1);
    SameMonthCount(MonthStart(n.year, n.month - 1), CalDate(y, m, 1));
  }

  /** `CalendarEvent`; the colour is optional. */
  datatype Event = Event(id: string, title: string, date: CalDate, color: Option<string>)

  /** The three events the page starts with, all in August 2025. */
  const InitialEvents: seq<Event> := [
    Event("1", "Team Meeting", CalDate(2025, 7, 15), Some("#3b82f6")),
    Event("2", "Project Deadline", CalDate(2025, 7, 20), Some("#ef4444")),
    Event("3", "Review Session", CalDate(2025, 7, 25), Some("#10b981"))
  ]

  /** The filter of `getEventsForDate`: same day of the month, month and year. */
  function OnDate(year: int, month: int, day: int): Event -> bool
  {
    (e: Event) => e.date.day == day && e.date.month == month && e.date.year == year
  }

  /** `getEventsForDate(day)` in month `month` of `year`. */
  function EventsOn(events: seq<Event>, year: int, month: int, day: int): seq<Event>
  {
    Lists.Filter(events, OnDate(year, month, day))
  }

  /** The events of a day are exactly the events on that date, in list order. */
  lemma EventsOnDate(events: seq<Event>, year: int, month: int, day: int)
    ensures forall e :: e in EventsOn(events, year, month, day) <==> e in events && e.date == CalDate(year, month, day)
    ensures forall e :: multiset(EventsOn(events, year, month, day))[e] ==
              if e.date == CalDate(year, month, day) then multiset(events)[e] else 0
    ensures Lists.IsSubsequence(EventsOn(events, year, month, day), events)
  {
    Lists.FilterIsSubsequence(events, OnDate(year, month, day));
    Lists.FilterMultiplicity(events, OnDate(year, month, day));
  }

  /** Of the initial events, only the 15th, 20th and 25th of August 2025 have any, one each. */
  lemma InitialEventDays(year: int, month: int, day: int)
    ensures |EventsOn(InitialEvents, year, month, day)| <= 1
    ensures EventsOn(InitialEvents, year, month, day) != [] <==>
              year == 2025 && month == 7 && (day == 15 || day == 20 || day == 25)
  {
    var es := InitialEvents;
    assert es == [es[0]] + [es[1]] + [es[2]];
    EventsOnDate(es, year, month, day);
    assert es[0] in es && es[1] in es && es[2] in es;
  }

  /** The clock's reading of today is a parameter: whether `day` of the shown month is today. */
  predicate IsToday(day: int, year: int, month: int, today: CalDate)
  {
    day == today.day && month == today.month && year == today.year
  }

  /** A cell of the grid: an empty cell before the first, or a day with its events. */
  datatype Cell = Empty | Day(day: int, events: seq<Event>, isToday: bool)

  /** The cell of day `d`: its events and whether it is today. */
  function DayCell(year: int, month: int, events: seq<Event>, today: CalDate, d: int): Cell
  {
    Day(d, EventsOn(events, year, month, d), IsToday(d, year, month, today))
  }

  /** `n` empty cells. */
  function Blanks(n: nat): (r: seq<Cell>)
    ensures |r| == n
  {
    if n == 0 then [] else Blanks(n - 1) + [Empty]
  }

  /** The cells of days 1 to `n`, in order. */
  function DayCells(year: int, month: int, events: seq<Event>, today: CalDate, n: nat): (r: seq<Cell>)
    ensures |r| == n
  {
    if n == 0 then [] else DayCells(year, month, events, today, n - 1) + [DayCell(year, month, events, today, n)]
  }

  lemma {:induction false} BlanksAreEmpty(n: nat)
    ensures forall i :: 0 <= i < n ==> Blanks(n)[i] == Empty
  {
    if n > 0 {
      BlanksAreEmpty(n - 1);
    }
  }

  lemma {:induction false} DayCellsInOrder(year: int, month: int, events: seq<Event>, today: CalDate, n: nat)
    ensures forall i :: 0 <= i < n ==> DayCells(year, month, events, today, n)[i] == DayCell(year, month, events, today, i + 1)
  {
    if n > 0 {
      DayCellsInOrder(year, month, events, today, n - 1);
    }
  }

  /**
   * The cells of month `month` of `year`: one empty cell per weekday before
   * the first of the month (Sunday 0), then each day in order.
   */
  function Layout(year: int, month: int, events: seq<Event>, today: CalDate): (cells: seq<Cell>)
    requires 0 <= month < 12
    ensures |cells| == Gregorian.Weekday(year, month, 1) + Gregorian.DaysInMonth(year, month)
  {
    Blanks(Gregorian.Weekday(year, month, 1)) + DayCells(year, month, events, today, Gregorian.DaysInMonth(year, month))
  }

  /**
   * Cell by cell: the blanks come first, then day `i - firstDay + 1` at
   * position `i`, with that day's events and whether it is today.
   */
  lemma LayoutCells(year: int, month: int, events: seq<Event>, today: CalDate)
    requires 0 <= month < 12
    ensures var firstDay := Gregorian.Weekday(year, month, 1);
            var cells := Layout(year, month, events, today);
            (forall i :: 0 <= i < firstDay ==> cells[i] == Empty) &&
            (forall i :: firstDay <= i < |cells| ==>
               cells[i] == Day(i - firstDay + 1, EventsOn(events, year, month, i - firstDay + 1),
                               IsToday(i - firstDay + 1, year, month, today)))
  {
    var firstDay := Gregorian.Weekday(year, month, 1);
    BlanksAreEmpty(firstDay);
    DayCellsInOrder(year, month, events, today, Gregorian.DaysInMonth(year, month));
  }

  /**
   * Seven to a row under the Sunday-to-Saturday header, every day sits in the
   * column of its weekday, the grid fits in six rows, and at most one cell is
   * marked as today.
   */
  lemma LayoutMatchesWeekdays(year: int, month: int, events: seq<Event>, today: CalDate)
    requires 0 <= month < 12
    ensures |Layout(year, month, events, today)| <= 42
    ensures var cells := Layout(year, month, events, today);
            forall i :: 0 <= i < |cells| && cells[i].Day? ==> i % 7 == Gregorian.Weekday(year, month, cells[i].day)
  {
    var cells := Layout(year, month, events, today);
    var firstDay := Gregorian.Weekday(year, month, 1);
    LayoutCells(year, month, events, today);
    forall i | 0 <= i < |cells| && cells[i].Day?
      ensures i % 7 == Gregorian.Weekday(year, month, cells[i].day)
    {
      Gregorian.GridColumn(year, month, i - firstDay + 1);
    }
  }

  /** At most one day of the grid is today: two cells marked today are the same cell. */
  lemma AtMostOneToday(year: int, month: int, events: seq<Event>, today: CalDate)
    requires 0 <= month < 12
    ensures var cells := Layout(year, month, events, today);
            forall i, j ::
              (0 <= i < |cells| && 0 <= j < |cells| && cells[i].Day? && cells[j].Day? &&
               cells[i].isToday && cells[j].isToday) ==> i == j
  {
    LayoutCells(year, month, events, today);
  }

  /** A day outside the shown month is never today there. */
  lemma TodayOnlyInItsMonth(year: int, month: int, events: seq<Event>, today: CalDate)
    requires 0 <= month < 12
    requires today.month != month || today.year != year
    ensures forall c :: c in Layout(year, month, events, today) && c.Day? ==> !c.isToday
  {
    LayoutCells(year, month, events, today);
  }

  /** The page's state: the date it shows (`currentDate`) and its events. */
  class CalendarViewState {
    var year: int
    var month: int
    var day: int
    var events: seq<Event>

    predicate Valid()
      reads this
    {
      ValidDate(CalDate(year, month, day))
    }

    function Current(): CalDate
      reads this
    {
      CalDate(year, month, day)
    }

    /** The page opens on today, with the three initial events. */
    constructor (today: CalDate)
      requires ValidDate(today)
      ensures Valid() && Current() == today && events == InitialEvents
    {
      year, month, day := today.year, today.month, today.day;
      events := InitialEvents;
    }

    /** `getPreviousMonth`: the first of the month before. */
    method PreviousMonth()
      modifies this`year, this`month, this`day
      ensures Valid() && Current() == MonthStart(old(year), old(month) - 1)
    {
      var d := MonthStart(year, month - 1);
      year, month, day := d.year, d.month, d.day;
    }

    /** `getNextMonth`: the first of the month after. */
    method NextMonth()
      modifies this`year, this`month, this`day
      ensures Valid() && Current() == MonthStart(old(year), old(month) + 1)
    {
      var d := MonthStart(year, month + 1);
      year, month, day := d.year, d.month, d.day;
    }

    /**
     * `renderCalendarDays()`: the two loops push the empty cells and then the
     * day cells, giving the layout of the current month.
     */
    method RenderCalendarDays(today: CalDate) returns (days: seq<Cell>)
      requires Valid()
      ensures days == Layout(year, month, events, today)
    {
      var y, m, evs := year, month, events;
      var daysInMonth := Gregorian.DaysInMonth(y, m);
      var firstDay := Gregorian.Weekday(y, m, 1);
      days := [];
      for i := 0 to firstDay
        invariant days == Blanks(i)
      {
        days := days + [Empty];
      }
      for d := 1 to daysInMonth + 1
        invariant days == Blanks(firstDay) + DayCells(y, m, evs, today, d - 1)
      {
        var dayEvents := EventsOn(evs, y, m, d);
        var isToday := d == today.day && m == today.month && y == today.year;
        days := days + [Day(d, dayEvents, isToday)];
        assert days == Blanks(firstDay) + (DayCells(y, m, evs, today, d - 1) + [DayCell(y, m, evs, today, d)]);
      }
    }
  }
}
