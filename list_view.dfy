/**
 * The list view of `app/listview/page.tsx`: a search box and three selects
 * that narrow the task list, and the button that clears them.
 */
module ListView {
  import opened Wrappers
  import opened Text
  import opened TaskContext
  import Lists

  /** The four filter controls: the search text and the priority, category and status selects. */
  datatype Filters = Filters(searchTerm: string, priorityFilter: string, categoryFilter: string, statusFilter: string)

  /** The controls as `clearFilters` leaves them, and as the page starts. */
  const Cleared := Filters("", "all", "all", "all")

  /**
   * The search: the lower-cased title, or the lower-cased description when it
   * is not empty, contains the lower-cased search text.
   */
  predicate MatchesSearch(t: Task, searchTerm: string)
  {
    Includes(ToLower(t.title), ToLower(searchTerm)) ||
    (Truthy(t.description) && Includes(ToLower(t.description.value), ToLower(searchTerm)))
  }

  /** `task.priority === priorityFilter`, or the select is on `all`. */
  predicate MatchesPriority(t: Task, priorityFilter: string)
  {
    priorityFilter == "all" || (t.priority.Some? && PriorityName(t.priority.value) == priorityFilter)
  }

  /** `task.category === categoryFilter`, or the select is on `all`. */
  predicate MatchesCategory(t: Task, categoryFilter: string)
  {
    categoryFilter == "all" || t.category == Some(categoryFilter)
  }

  /** `all`, or `completed` for a completed task, or `pending` for one that is not. */
  predicate MatchesStatus(t: Task, statusFilter: string)
  {
    statusFilter == "all" ||
    (statusFilter == "completed" && t.completed) ||
    (statusFilter == "pending" && !t.completed)
  }

  /** The predicate `filteredTasks` applies: all four must hold. */
  predicate Matches(f: Filters, t: Task)
  {
    MatchesSearch(t, f.searchTerm) && MatchesPriority(t, f.priorityFilter) &&
    MatchesCategory(t, f.categoryFilter) && MatchesStatus(t, f.statusFilter)
  }

  function MatchesFilter(f: Filters): Task -> bool
  {
    (t: Task) => Matches(f, t)
  }

  /**
   * `filteredTasks`: the tasks that match, in list order; the page shows
   * "Showing n of m tasks" with n never above m.
   */
  function FilteredTasks(tasks: seq<Task>, f: Filters): (r: seq<Task>)
    ensures forall t :: t in r <==> t in tasks && Matches(f, t)
    ensures forall t :: multiset(r)[t] == if Matches(f, t) then multiset(tasks)[t] else 0
    ensures Lists.IsSubsequence(r, tasks)
    ensures |r| <= |tasks|
  {
    Lists.FilterIsSubsequence(tasks, MatchesFilter(f));
    Lists.FilterMultiplicity(tasks, MatchesFilter(f));
    Lists.Filter(tasks, MatchesFilter(f))
  }

  /** The empty search text is found in every string. */
  lemma EmptySearchMatches(s: string)
    ensures Includes(s, "")
  {
    assert StartsWith(s[0..], "");
  }

  /** With the controls cleared, every task is shown, in order. */
  lemma ClearedShowsAll(tasks: seq<Task>)
    ensures FilteredTasks(tasks, Cleared) == tasks
  {
    forall t | t in tasks ensures Matches(Cleared, t) {
      EmptySearchMatches(ToLower(t.title));
    }
    Lists.FilterKeepsAll(tasks, MatchesFilter(Cleared));
  }

  /**
   * What the selects keep: on `completed` only completed tasks, on `pending`
   * only open ones, on any other status than these and `all` nothing; a
   * priority or category other than `all` only exact matches.
   */
  lemma SelectsNarrow(tasks: seq<Task>, f: Filters, t: Task)
    requires t in FilteredTasks(tasks, f)
    ensures f.statusFilter == "completed" ==> t.completed
    ensures f.statusFilter == "pending" ==> !t.completed
    ensures f.statusFilter in {"all", "completed", "pending"}
    ensures f.priorityFilter != "all" ==> t.priority.Some? && PriorityName(t.priority.value) == f.priorityFilter
    ensures f.categoryFilter != "all" ==> t.category == Some(f.categoryFilter)
  {
  }

  /** The search ignores case: typing the text in lower case shows the same tasks. */
  lemma SearchIgnoresCase(tasks: seq<Task>, f: Filters)
    ensures FilteredTasks(tasks, f.(searchTerm := ToLower(f.searchTerm))) == FilteredTasks(tasks, f)
  {
    ToLowerIdempotent(f.searchTerm);
    Lists.FilterCongruent(tasks, MatchesFilter(f.(searchTerm := ToLower(f.searchTerm))), MatchesFilter(f));
  }

  /** The search folds letters beyond ASCII too: searching `ä` finds a task titled `Ärger`. */
  lemma SearchFoldsAccents(tasks: seq<Task>, t: Task)
    requires t in tasks && t.title == "Ärger"
    ensures t in FilteredTasks(tasks, Filters("ä", "all", "all", "all"))
  {
    assert ToLower("ä") == "ä";
    assert StartsWith(ToLower(t.title), "ä");
  }

  /** Cyrillic capitals beyond А to Я fold too: searching `ґ` finds a task titled `Ґанок`. */
  lemma SearchFoldsCyrillic(tasks: seq<Task>, t: Task)
    requires t in tasks && t.title == "\U{490}\U{430}\U{43D}\U{43E}\U{43A}"
    ensures t in FilteredTasks(tasks, Filters("\U{491}", "all", "all", "all"))
  {
    assert ToLower("\U{491}") == "\U{491}";
    assert StartsWith(ToLower(t.title), "\U{491}");
  }

  /** The page's filter state. */
  class ListViewState {
    var searchTerm: string
    var priorityFilter: string
    var categoryFilter: string
    var statusFilter: string

    constructor ()
      ensures Current() == Cleared
    {
      searchTerm, priorityFilter, categoryFilter, statusFilter := "", "all", "all", "all";
    }

    function Current(): Filters
      reads this
    {
      Filters(searchTerm, priorityFilter, categoryFilter, statusFilter)
    }

    /** `clearFilters()`: the search to `''` and the three selects to `all`, so every task shows. */
    method ClearFilters()
      modifies this
      ensures Current() == Cleared
      ensures forall tasks: seq<Task> :: FilteredTasks(tasks, Current()) == tasks
    {
      searchTerm := "";
      priorityFilter := "all";
      categoryFilter := "all";
      statusFilter := "all";
      forall tasks: seq<Task> ensures FilteredTasks(tasks, Current()) == tasks {
        ClearedShowsAll(tasks);
      }
    }
  }
}
