/**
 * The month calendar of `app/calendar/page.tsx`: the tasks that have a due
 * date, the `YYYY-MM-DD` key that picks a day's tasks by the start of the
 * due date, the grid of blank cells and day cells, and the preview a day
 * cell shows.
 */
module CalendarPage {
  import opened Wrappers
  import opened Text
  import opened TaskContext
  import Gregorian
  import Lists

  /** `task.dueDate` as a filter: present and not empty. */
  function HasDueDate(): Task -> bool
  {
    (t: Task) => Truthy(t.dueDate)
  }

  /** `tasksWithDates`: the tasks with a due date, in list order. */
  function TasksWithDates(tasks: seq<Task>): (r: seq<Task>)
    ensures forall t :: t in r <==> t in tasks && Truthy(t.dueDate)
    ensures forall t :: multiset(r)[t] == if Truthy(t.dueDate) then multiset(tasks)[t] else 0
    ensures Lists.IsSubsequence(r, tasks)
  {
    Lists.FilterIsSubsequence(tasks, HasDueDate());
    Lists.FilterMultiplicity(tasks, HasDueDate());
    Lists.Filter(tasks, HasDueDate())
  }

  /** Two decimal digits, with a leading zero below ten. */
  function TwoDigits(n: nat): (r: string)
    requires n < 100
    ensures |r| == 2 && '0' <= r[0] <= '9' && '0' <= r[1] <= '9'
  {
    [DigitChar(n / 10), DigitChar(n % 10)]
  }

  /** Two numbers below a hundred have the same two digits only when they are equal. */
  lemma TwoDigitsInjective(a: nat, b: nat)
    requires a < 100 && b < 100 && a != b
    ensures TwoDigits(a) != TwoDigits(b)
  {
    if a / 10 != b / 10 {
      assert TwoDigits(a)[0] != TwoDigits(b)[0];
    } else {
      assert a % 10 != b % 10;
      assert TwoDigits(a)[1] != TwoDigits(b)[1];
    }
  }

  /**
   * The key of day `day` of month `month` (0 for January) of `year`: the
   * year, `-`, the month number from 1 padded to two digits, `-`, the day
   * padded to two digits.
   */
  function DateKey(year: int, month: int, day: int): string
  {
    IntToDecimal(year) + "-" + PadStart(IntToDecimal(month + 1), 2, '0') + "-" + PadStart(IntToDecimal(day), 2, '0')
  }

  /** For a real month and a day below a hundred, the padded parts are exactly two digits each. */
  lemma DateKeyDigits(year: int, month: int, day: int)
    requires 0 <= month < 12 && 0 <= day < 100
    ensures DateKey(year, month, day) == IntToDecimal(year) + "-" + TwoDigits(month + 1) + "-" + TwoDigits(day)
  {
    PadTwoDigits(month + 1);
    PadTwoDigits(day);
  }

  /** The due date starts with the key: `task.dueDate?.startsWith(dateStr)`. */
  function DueOn(key: string): Task -> bool
  {
    (t: Task) => t.dueDate.Some? && StartsWith(t.dueDate.value, key)
  }

  /**
   * `getTasksForDate(day)`: the dated tasks whose due date starts with the
   * day's key, in list order.
   */
  function TasksForDate(tasks: seq<Task>, year: int, month: int, day: int): (r: seq<Task>)
    ensures forall t :: t in r <==> t in tasks && Truthy(t.dueDate) && StartsWith(t.dueDate.value, DateKey(year, month, day))
    ensures forall t :: multiset(r)[t] ==
              if Truthy(t.dueDate) && StartsWith(t.dueDate.value, DateKey(year, month, day)) then multiset(tasks)[t] else 0
    ensures Lists.IsSubsequence(r, TasksWithDates(tasks))
  {
    DatedDueOn(tasks, DateKey(year, month, day));
    Lists.Filter(TasksWithDates(tasks), DueOn(DateKey(year, month, day)))
  }

  /** The dated tasks whose due date starts with `key`, for any key. */
  lemma DatedDueOn(tasks: seq<Task>, key: string)
    ensures var r := Lists.Filter(TasksWithDates(tasks), DueOn(key));
      && (forall t :: t in r <==> t in tasks && Truthy(t.dueDate) && StartsWith(t.dueDate.value, key))
      && (forall t :: multiset(r)[t] == if Truthy(t.dueDate) && StartsWith(t.dueDate.value, key) then multiset(tasks)[t] else 0)
      && Lists.IsSubsequence(r, TasksWithDates(tasks))
  {
    Lists.FilterIsSubsequence(TasksWithDates(tasks), DueOn(key));
    Lists.FilterTwiceMultiplicity(tasks, HasDueDate(), DueOn(key));
  }

  /** A text cannot start with two different strings of the same length. */
  lemma StartsWithOneOf(s: string, p: string, a: string, b: string)
    requires |a| == |b| && a != b
    requires StartsWith(s, p + a)
    ensures !StartsWith(s, p + b)
  {
    assert s[|p|..|p| + |a|] == (p + a)[|p|..] == a;
    assert (p + b)[|p|..] == b;
  }

  /** Two different days of the same month never share a task. */
  lemma DistinctDaysDisjoint(tasks: seq<Task>, year: int, month: int, d1: int, d2: int)
    requires 0 <= month < 12
    requires 1 <= d1 <= 31 && 1 <= d2 <= 31 && d1 != d2
    ensures forall t :: !(t in TasksForDate(tasks, year, month, d1) && t in TasksForDate(tasks, year, month, d2))
  {
    var p := IntToDecimal(year) + "-" + TwoDigits(month + 1) + "-";
    TwoDigitsInjective(d1, d2);
    DateKeyDigits(year, month, d1);
    DateKeyDigits(year, month, d2);
    assert DateKey(year, month, d1) == p + TwoDigits(d1);
    assert DateKey(year, month, d2) == p + TwoDigits(d2);
    forall t | t in TasksForDate(tasks, year, month, d1)
      ensures t !in TasksForDate(tasks, year, month, d2)
    {
      StartsWithOneOf(t.dueDate.value, p, TwoDigits(d1), TwoDigits(d2));
    }
  }

  /** A cell of the month grid: a blank before the first day, or a day of the month. */
  datatype Cell = Blank | Day(day: int)

  /**
   * The grid: as many blanks as the weekday of the first of the month
   * (Sunday 0), then one cell for each day of the month in order.
   */
  function Grid(year: int, month: int): (cells: seq<Cell>)
    requires 0 <= month < 12
    ensures var firstDay := Gregorian.Weekday(year, month, 1);
            |cells| == firstDay + Gregorian.DaysInMonth(year, month) &&
            (forall i :: 0 <= i < firstDay ==> cells[i] == Blank) &&
            (forall i :: firstDay <= i < |cells| ==> cells[i] == Day(i - firstDay + 1))
  {
    var firstDay := Gregorian.Weekday(year, month, 1);
    var daysInMonth := Gregorian.DaysInMonth(year, month);
    seq(firstDay, _ => Blank) + seq(daysInMonth, i => Day(i + 1))
  }

  /**
   * Laid out seven to a row under the Sunday-to-Saturday header, the grid puts
   * every day under its own weekday, and fits in six rows.
   */
  lemma GridMatchesWeekdays(year: int, month: int)
    requires 0 <= month < 12
    ensures |Grid(year, month)| <= 42
    ensures forall i :: 0 <= i < |Grid(year, month)| && Grid(year, month)[i].Day? ==>
              i % 7 == Gregorian.Weekday(year, month, Grid(year, month)[i].day)
  {
    var cells := Grid(year, month);
    var firstDay := Gregorian.Weekday(year, month, 1);
    forall i | 0 <= i < |cells| && cells[i].Day?
      ensures i % 7 == Gregorian.Weekday(year, month, cells[i].day)
    {
      Gregorian.GridColumn(year, month, i - firstDay + 1);
    }
  }

  /** What a day cell lists: at most two titles, then `+n more` for the rest. */
  datatype Preview = Preview(titles: seq<string>, more: Option<int>)

  /** `dayTasks.slice(0, 2)` by title, and `+{dayTasks.length - 2} more` when there are more than two. */
  function PreviewOf(dayTasks: seq<Task>): (p: Preview)
    ensures |p.titles| == if |dayTasks| < 2 then |dayTasks| else 2
    ensures forall i :: 0 <= i < |p.titles| ==> p.titles[i] == dayTasks[i].title
    ensures p.more.Some? <==> |dayTasks| > 2
    ensures p.more.Some? ==> p.more.value == |dayTasks| - 2
    ensures |p.titles| + p.more.GetOr(0) == |dayTasks|
  {
    var shown := Lists.Take(dayTasks, 2);
    Preview(Lists.Map(shown, (t: Task) => t.title), if |dayTasks| > 2 then Some(|dayTasks| - 2) else None)
  }
}
