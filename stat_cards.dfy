/**
 * The three counters of `components/dashboard/StatCards.tsx`: all tasks,
 * completed tasks, and the difference, shown as pending.
 */
module StatCards {
  import opened TaskContext
  import Lists

  /** `t.completed`, the filter of the completed counter. */
  function IsCompleted(): Task -> bool
  {
    (t: Task) => t.completed
  }

  /** The open tasks, which the page never filters for itself. */
  function IsOpen(): Task -> bool
  {
    (t: Task) => !t.completed
  }

  /** The three card values. */
  datatype Stats = Stats(total: int, completed: int, pending: int)

  /**
   * `total`, `completed` and `pending = total - completed`: pending is exactly
   * the number of open tasks, so it is never negative and never above the total.
   */
  function StatsOf(tasks: seq<Task>): (s: Stats)
    ensures s.total == |tasks|
    ensures s.completed == |Lists.Filter(tasks, IsCompleted())|
    ensures s.pending == s.total - s.completed
    ensures s.pending == |Lists.Filter(tasks, IsOpen())|
    ensures 0 <= s.completed <= s.total && 0 <= s.pending <= s.total
  {
    var total := |tasks|;
    var completed := |Lists.Filter(tasks, IsCompleted())|;
    OpenCount(tasks);
    Stats(total, completed, total - completed)
  }

  /** Completed and open tasks together are all the tasks. */
  lemma OpenCount(tasks: seq<Task>)
    ensures |Lists.Filter(tasks, IsCompleted())| + |Lists.Filter(tasks, IsOpen())| == |tasks|
  {
    var all := (t: Task) => true;
    Lists.FilterKeepsAll(tasks, all);
    Lists.FilterCountSplit(tasks, all, IsCompleted(), IsOpen());
  }
}
