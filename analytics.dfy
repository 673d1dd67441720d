/**
 * The integer counts and the two chart data sets of `app/analytics/page.tsx`:
 * totals, tasks per priority and per category, the priority pie (empty
 * slices dropped) and the per-category completed/pending bars.
 */
module Analytics {
  import opened Wrappers
  import opened TaskContext
  import StatCards
  import Lists

  /** `task.priority === p`. */
  function HasPriority(p: Priority): Task -> bool
  {
    (t: Task) => t.priority == Some(p)
  }

  /** `task.category === c`. */
  function InCategory(c: string): Task -> bool
  {
    (t: Task) => t.category == Some(c)
  }

  /** The summary numbers of the page; totals, completed and pending are those of the stat cards. */
  datatype Summary = Summary(
    total: int, completed: int, pending: int,
    high: int, medium: int, low: int,
    work: int, personal: int, study: int)

  /**
   * The counts: pending is total minus completed and never negative; a task
   * has at most one priority and one category, so neither the three priority
   * counts nor the three category counts add up to more than the total.
   */
  function SummaryOf(tasks: seq<Task>): (s: Summary)
    ensures s.total == |tasks| && s.pending == s.total - s.completed
    ensures s.completed == |Lists.Filter(tasks, StatCards.IsCompleted())|
    ensures 0 <= s.completed <= s.total && 0 <= s.pending
    ensures s.high == |Lists.Filter(tasks, HasPriority(High))|
    ensures s.medium == |Lists.Filter(tasks, HasPriority(Medium))|
    ensures s.low == |Lists.Filter(tasks, HasPriority(Low))|
    ensures s.work == |Lists.Filter(tasks, InCategory("work"))|
    ensures s.personal == |Lists.Filter(tasks, InCategory("personal"))|
    ensures s.study == |Lists.Filter(tasks, InCategory("study"))|
    ensures 0 <= s.high && 0 <= s.medium && 0 <= s.low && s.high + s.medium + s.low <= s.total
    ensures 0 <= s.work && 0 <= s.personal && 0 <= s.study && s.work + s.personal + s.study <= s.total
  {
    var stats := StatCards.StatsOf(tasks);
    Lists.FilterCountDisjoint3(tasks, HasPriority(High), HasPriority(Medium), HasPriority(Low));
    Lists.FilterCountDisjoint3(tasks, InCategory("work"), InCategory("personal"), InCategory("study"));
    Summary(
      total := stats.total, completed := stats.completed, pending := stats.pending,
      high := |Lists.Filter(tasks, HasPriority(High))|,
      medium := |Lists.Filter(tasks, HasPriority(Medium))|,
      low := |Lists.Filter(tasks, HasPriority(Low))|,
      work := |Lists.Filter(tasks, InCategory("work"))|,
      personal := |Lists.Filter(tasks, InCategory("personal"))|,
      study := |Lists.Filter(tasks, InCategory("study"))|)
  }

  /** A slice of the priority pie. */
  datatype Slice = Slice(name: string, value: int, color: string)

  /** The three slices before empty ones are dropped, in the order High, Medium, Low. */
  function AllSlices(high: int, medium: int, low: int): seq<Slice>
  {
    [Slice("High", high, "#ef4444"), Slice("Medium", medium, "#f97316"), Slice("Low", low, "#22c55e")]
  }

  /**
   * `priorityData`: the slices whose value is positive, keeping the order
   * High, Medium, Low; a slice is shown exactly when its count is above zero.
   */
  function PriorityData(high: int, medium: int, low: int): (r: seq<Slice>)
    ensures Lists.IsSubsequence(r, AllSlices(high, medium, low))
    ensures forall e :: e in r ==> e.value > 0
    ensures Slice("High", high, "#ef4444") in r <==> high > 0
    ensures Slice("Medium", medium, "#f97316") in r <==> medium > 0
    ensures Slice("Low", low, "#22c55e") in r <==> low > 0
    ensures |r| <= 3
  {
    var all := AllSlices(high, medium, low);
    Lists.FilterIsSubsequence(all, (e: Slice) => e.value > 0);
    assert all[0] in all && all[1] in all && all[2] in all;
    Lists.Filter(all, (e: Slice) => e.value > 0)
  }

  /** A bar group of the category chart. */
  datatype CategoryRow = CategoryRow(name: string, completed: int, pending: int)

  /** `t.category === c && t.completed`. */
  function DoneIn(c: string): Task -> bool
  {
    (t: Task) => t.category == Some(c) && t.completed
  }

  /** `t.category === c && !t.completed`. */
  function OpenIn(c: string): Task -> bool
  {
    (t: Task) => t.category == Some(c) && !t.completed
  }

  /** The bar group of category key `c`, shown as `name`. */
  function Row(tasks: seq<Task>, name: string, c: string): (row: CategoryRow)
    ensures row.name == name
    ensures row.completed == |Lists.Filter(tasks, DoneIn(c))|
    ensures row.pending == |Lists.Filter(tasks, OpenIn(c))|
    ensures row.completed + row.pending == |Lists.Filter(tasks, InCategory(c))|
  {
    Lists.FilterCountSplit(tasks, InCategory(c), DoneIn(c), OpenIn(c));
    CategoryRow(name, |Lists.Filter(tasks, DoneIn(c))|, |Lists.Filter(tasks, OpenIn(c))|)
  }

  /**
   * `categoryData`: Work, Personal and Study, each the bar group of its
   * category (completed and pending tasks, which together make that
   * category's count); Health and Other are always empty.
   */
  function CategoryData(tasks: seq<Task>): (rows: seq<CategoryRow>)
    ensures |rows| == 5
    ensures rows[0].name == "Work" && rows[0].completed + rows[0].pending == |Lists.Filter(tasks, InCategory("work"))|
    ensures rows[1].name == "Personal" && rows[1].completed + rows[1].pending == |Lists.Filter(tasks, InCategory("personal"))|
    ensures rows[2].name == "Study" && rows[2].completed + rows[2].pending == |Lists.Filter(tasks, InCategory("study"))|
    ensures rows[0] == Row(tasks, "Work", "work") && rows[1] == Row(tasks, "Personal", "personal")
    ensures rows[2] == Row(tasks, "Study", "study")
    ensures rows[3] == CategoryRow("Health", 0, 0) && rows[4] == CategoryRow("Other", 0, 0)
  {
    var work, personal, study := Row(tasks, "Work", "work"), Row(tasks, "Personal", "personal"), Row(tasks, "Study", "study");
    [work, personal, study, CategoryRow("Health", 0, 0), CategoryRow("Other", 0, 0)]
  }

  /**
   * The category bars never count more tasks than the list holds. The bars
   * of Work, Personal and Study count disjoint filters of the list, and the
   * clause of `SummaryOf` bounding their sum by the list length carries the
   * proof.
   */
  lemma CategoryBarsWithinTotal(tasks: seq<Task>)
    ensures var rows := CategoryData(tasks);
            rows[0].completed + rows[0].pending + rows[1].completed + rows[1].pending +
            rows[2].completed + rows[2].pending <= |tasks|
  {
    var s := SummaryOf(tasks);
  }
}
