/**
 * The two short lists of `app/Dashboard/page.tsx`: the three most recently
 * created tasks, and the three open tasks due soonest.
 */
module Dashboard {
  import opened Wrappers
  import opened Text
  import opened TaskContext
  import Lists

  /** The sort key of the recent list: the comparator `b.createdAt - a.createdAt` puts larger times first. */
  function NewestFirst(): Task -> int
  {
    (t: Task) => -t.createdAt
  }

  /**
   * `recentTasks`: a sorted copy of the list, newest first, cut to three.
   * The list itself is a value here, so sorting the copy cannot reorder it.
   */
  function RecentTasks(tasks: seq<Task>): (r: seq<Task>)
    ensures |r| == if |tasks| < 3 then |tasks| else 3
    ensures forall i, j :: 0 <= i < j < |r| ==> r[i].createdAt >= r[j].createdAt
    ensures multiset(r) <= multiset(tasks)
    ensures |tasks| <= 3 ==> multiset(r) == multiset(tasks)
  {
    var sorted := Lists.SortBy(tasks, NewestFirst());
    Lists.TakeSortedIsSmallest(sorted, NewestFirst(), 3);
    Lists.Take(sorted, 3)
  }

  /** No task left out of the recent list was created after one that is in it. */
  lemma RecentAreNewest(tasks: seq<Task>)
    ensures forall x, y :: x in RecentTasks(tasks) && y in multiset(tasks) - multiset(RecentTasks(tasks)) ==>
              y.createdAt <= x.createdAt
  {
    var sorted := Lists.SortBy(tasks, NewestFirst());
    Lists.TakeSortedIsSmallest(sorted, NewestFirst(), 3);
    var n := |Lists.Take(sorted, 3)|;
    assert multiset(tasks) - multiset(RecentTasks(tasks)) == multiset(sorted[n..]);
    forall x, y | x in RecentTasks(tasks) && y in multiset(tasks) - multiset(RecentTasks(tasks))
      ensures y.createdAt <= x.createdAt
    {
      assert y in sorted[n..];
      assert NewestFirst()(x) <= NewestFirst()(y);
    }
  }

  /** The tasks created at time `k`. */
  function CreatedAt(k: int): Task -> bool
  {
    (t: Task) => t.createdAt == k
  }

  /**
   * The sort is stable, so tasks created at the same time keep their list
   * order: for each creation time, the recent tasks with that time are the
   * first tasks of the list with that time.
   */
  lemma RecentTiesInListOrder(tasks: seq<Task>, k: int)
    ensures Lists.Filter(RecentTasks(tasks), CreatedAt(k)) <= Lists.Filter(tasks, CreatedAt(k))
  {
    Lists.TakeSortByKeepsTiesOf(tasks, NewestFirst(), 3, -k, CreatedAt(k));
  }

  /** The filter of the upcoming list: `!task.completed && !!task.dueDate`. */
  predicate IsUpcoming(t: Task)
  {
    !t.completed && Truthy(t.dueDate)
  }

  /**
   * The sort key of the upcoming list: `new Date(task.dueDate || 0).getTime()`.
   * Date parsing is the parameter `timeOf`; `new Date(0)` is time 0.
   */
  function DueTime(timeOf: string -> int): Task -> int
  {
    (t: Task) => if Truthy(t.dueDate) then timeOf(t.dueDate.value) else 0
  }

  function UpcomingFilter(): Task -> bool
  {
    (t: Task) => IsUpcoming(t)
  }

  /** The open tasks with a due date, in list order, each as often as the list holds it. */
  function Qualifying(tasks: seq<Task>): (q: seq<Task>)
    ensures forall t :: t in q <==> t in tasks && IsUpcoming(t)
    ensures forall t :: multiset(q)[t] == if IsUpcoming(t) then multiset(tasks)[t] else 0
    ensures Lists.IsSubsequence(q, tasks)
  {
    Lists.FilterIsSubsequence(tasks, UpcomingFilter());
    Lists.FilterMultiplicity(tasks, UpcomingFilter());
    Lists.Filter(tasks, UpcomingFilter())
  }

  /**
   * `upcomingTasks`: the open tasks with a due date, earliest due first, cut
   * to three; when three or fewer qualify, all of them are shown.
   */
  function UpcomingTasks(tasks: seq<Task>, timeOf: string -> int): (r: seq<Task>)
    ensures |r| <= 3
    ensures forall t :: t in r ==> t in tasks && !t.completed && Truthy(t.dueDate)
    ensures Lists.SortedBy(r, DueTime(timeOf))
    ensures multiset(r) <= multiset(Qualifying(tasks))
    ensures |Qualifying(tasks)| <= 3 ==> multiset(r) == multiset(Qualifying(tasks))
    ensures |r| == if |Qualifying(tasks)| < 3 then |Qualifying(tasks)| else 3
  {
    var q := Qualifying(tasks);
    var sorted := Lists.SortBy(q, DueTime(timeOf));
    Lists.TakeSortedIsSmallest(sorted, DueTime(timeOf), 3);
    Lists.TakePrefix(sorted, DueTime(timeOf), 3);
    forall t | t in sorted ensures t in q {
      assert t in multiset(sorted);
    }
    Lists.Take(sorted, 3)
  }

  /** The upcoming list runs from the earliest due date to the latest. */
  lemma UpcomingEarliestFirst(tasks: seq<Task>, timeOf: string -> int)
    ensures var r := UpcomingTasks(tasks, timeOf);
            forall i, j :: 0 <= i < j < |r| ==> timeOf(r[i].dueDate.value) <= timeOf(r[j].dueDate.value)
  {
    var r := UpcomingTasks(tasks, timeOf);
    forall i, j | 0 <= i < j < |r| ensures timeOf(r[i].dueDate.value) <= timeOf(r[j].dueDate.value) {
      assert r[i] in r && r[j] in r;
      assert DueTime(timeOf)(r[i]) <= DueTime(timeOf)(r[j]);
    }
  }

  /**
   * Tasks due at the same time keep their list order: for each due time, the
   * upcoming tasks with that time are the first qualifying tasks with it.
   */
  lemma UpcomingTiesInListOrder(tasks: seq<Task>, timeOf: string -> int, k: int)
    ensures Lists.Filter(UpcomingTasks(tasks, timeOf), Lists.KeyIs(DueTime(timeOf), k)) <=
            Lists.Filter(Qualifying(tasks), Lists.KeyIs(DueTime(timeOf), k))
  {
    Lists.TakeSortByKeepsTies(Qualifying(tasks), DueTime(timeOf), 3, k);
  }

  /** No qualifying task left out of the upcoming list is due before one that is in it. */
  lemma UpcomingAreSoonest(tasks: seq<Task>, timeOf: string -> int)
    ensures forall x, y ::
              (x in UpcomingTasks(tasks, timeOf) &&
               y in multiset(Qualifying(tasks)) - multiset(UpcomingTasks(tasks, timeOf))) ==>
              DueTime(timeOf)(x) <= DueTime(timeOf)(y)
  {
    var q := Qualifying(tasks);
    var sorted := Lists.SortBy(q, DueTime(timeOf));
    Lists.TakeSortedIsSmallest(sorted, DueTime(timeOf), 3);
    var n := |Lists.Take(sorted, 3)|;
    var r := UpcomingTasks(tasks, timeOf);
    assert multiset(q) - multiset(r) == multiset(sorted[n..]);
    forall x, y | x in r && y in multiset(q) - multiset(r)
      ensures DueTime(timeOf)(x) <= DueTime(timeOf)(y)
    {
      assert y in sorted[n..];
    }
  }
}
