/**
 * The Kanban board of `components/kanban/KanbanBoard.tsx`: the three columns
 * a task can sit in, derived from its `completed` and `inProgress` flags, the
 * flag values a move into a column writes, and the drag-end handler that
 * turns a drop into a move.
 */
module KanbanBoard {
  import opened Wrappers
  import opened TaskContext
  import Lists

  /** `KanbanStatus`: the ids of the three columns. */
  datatype Status = Todo | InProgress | Completed

  /** The column a task belongs in: `completed` wins over `inProgress`. */
  function Classify(t: Task): Status
  {
    if t.completed then Completed
    else if t.inProgress then InProgress
    else Todo
  }

  /** The filter `getTasksByStatus` applies for each column, as written. */
  predicate InColumn(s: Status, t: Task)
  {
    match s
    case Todo => !t.completed && !t.inProgress
    case InProgress => !t.completed && t.inProgress
    case Completed => t.completed
  }

  function ColumnFilter(s: Status): Task -> bool
  {
    (t: Task) => InColumn(s, t)
  }

  /**
   * `getTasksByStatus(status)`: exactly the tasks that classify into that
   * column, in the order the list holds them.
   */
  function TasksByStatus(tasks: seq<Task>, s: Status): (r: seq<Task>)
    ensures forall t :: t in r <==> t in tasks && Classify(t) == s
    ensures Lists.IsSubsequence(r, tasks)
    ensures |r| <= |tasks|
  {
    Lists.FilterIsSubsequence(tasks, ColumnFilter(s));
    Lists.Filter(tasks, ColumnFilter(s))
  }

  /** Every task lands in exactly one column: the three columns split the list. */
  lemma ColumnsPartition(tasks: seq<Task>)
    ensures |TasksByStatus(tasks, Todo)| + |TasksByStatus(tasks, InProgress)|
            + |TasksByStatus(tasks, Completed)| == |tasks|
    ensures multiset(TasksByStatus(tasks, Todo)) + multiset(TasksByStatus(tasks, InProgress))
            + multiset(TasksByStatus(tasks, Completed)) == multiset(tasks)
  {
    Lists.FilterPartition3(tasks, ColumnFilter(Todo), ColumnFilter(InProgress), ColumnFilter(Completed));
    Lists.FilterPartition3Count(tasks, ColumnFilter(Todo), ColumnFilter(InProgress), ColumnFilter(Completed));
  }

  /** A completed task is shown in the completed column whatever its `inProgress` flag says. */
  lemma CompletedWins(tasks: seq<Task>, t: Task)
    requires t in tasks && t.completed
    ensures t in TasksByStatus(tasks, Completed)
    ensures t !in TasksByStatus(tasks, Todo) && t !in TasksByStatus(tasks, InProgress)
  {
  }

  /** `KanbanColumn`: a column id, its header title and the number of tasks in it. */
  datatype Column = Column(id: Status, title: string, count: nat)

  /** `columns`: the three column headers, whose counts add up to the number of tasks. */
  function Columns(tasks: seq<Task>): (cols: seq<Column>)
    ensures |cols| == 3
    ensures cols[0].id == Todo && cols[0].count == |TasksByStatus(tasks, Todo)|
    ensures cols[1].id == InProgress && cols[1].count == |TasksByStatus(tasks, InProgress)|
    ensures cols[2].id == Completed && cols[2].count == |TasksByStatus(tasks, Completed)|
    ensures cols[0].count + cols[1].count + cols[2].count == |tasks|
    ensures cols[0].title == "To do" && cols[1].title == "In-progress" && cols[2].title == "Completed"
  {
    var todo := |TasksByStatus(tasks, Todo)|;
    var inProgress := |TasksByStatus(tasks, InProgress)|;
    var completed := |TasksByStatus(tasks, Completed)|;
    ColumnsPartition(tasks);
    [Column(Todo, "To do", todo), Column(InProgress, "In-progress", inProgress), Column(Completed, "Completed", completed)]
  }

  /** The `updates` record `moveTask` builds: it sets the two flags and nothing else. */
  function MovePatch(s: Status): TaskPatch
  {
    match s
    case Todo => TaskPatch(None, None, Some(false), Some(false), None, None, None)
    case InProgress => TaskPatch(None, None, Some(false), Some(true), None, None, None)
    case Completed => TaskPatch(None, None, Some(true), Some(false), None, None, None)
  }

  /**
   * A moved task lands in the target column, never has both flags set, and
   * keeps every field other than the two flags.
   */
  lemma MoveSetsColumn(t: Task, s: Status)
    ensures Classify(Merge(t, MovePatch(s))) == s
    ensures !(Merge(t, MovePatch(s)).completed && Merge(t, MovePatch(s)).inProgress)
    ensures Merge(t, MovePatch(s)).completed == (s == Completed)
    ensures Merge(t, MovePatch(s)).inProgress == (s == InProgress)
    ensures Merge(t, MovePatch(s)) == t.(completed := s == Completed, inProgress := s == InProgress)
  {
  }

  /**
   * The list after `moveTask(id, s)`: the tasks with that id now sit in column
   * `s` with at most one flag set; every other task is as it was.
   */
  lemma MoveTaskEffect(tasks: seq<Task>, id: string, s: Status)
    ensures |UpdateAll(tasks, id, MovePatch(s))| == |tasks|
    ensures forall i :: 0 <= i < |tasks| && tasks[i].id == id ==>
              Classify(UpdateAll(tasks, id, MovePatch(s))[i]) == s &&
              !(UpdateAll(tasks, id, MovePatch(s))[i].completed && UpdateAll(tasks, id, MovePatch(s))[i].inProgress)
    ensures forall i :: 0 <= i < |tasks| && tasks[i].id != id ==> UpdateAll(tasks, id, MovePatch(s))[i] == tasks[i]
  {
    var r := UpdateAll(tasks, id, MovePatch(s));
    forall i | 0 <= i < |tasks| && tasks[i].id == id
      ensures Classify(r[i]) == s && !(r[i].completed && r[i].inProgress)
    {
      MoveSetsColumn(tasks[i], s);
    }
  }

  /**
   * Moving a task into the column it is already in changes nothing, as long
   * as it does not have both flags set.
   */
  lemma MoveIntoSameColumnIsNoop(tasks: seq<Task>, id: string, s: Status)
    requires forall t :: t in tasks && t.id == id ==> Classify(t) == s && !(t.completed && t.inProgress)
    ensures UpdateAll(tasks, id, MovePatch(s)) == tasks
  {
    var r := UpdateAll(tasks, id, MovePatch(s));
    forall i | 0 <= i < |tasks| ensures r[i] == tasks[i] {
      if tasks[i].id == id {
        assert tasks[i] in tasks;
        MoveSetsColumn(tasks[i], s);
      }
    }
  }

  /** `moveTask(taskId, newStatus)`: the `updates` record is built case by case and handed to `updateTask`. */
  method MoveTask(store: TaskStore, taskId: string, newStatus: Status)
    modifies store
    ensures store.tasks == UpdateAll(old(store.tasks), taskId, MovePatch(newStatus))
  {
    var completed: bool;
    var inProgress: bool;
    match newStatus {
      case Todo =>
        completed := false;
        inProgress := false;
      case InProgress =>
        completed := false;
        inProgress := true;
      case Completed =>
        completed := true;
        inProgress := false;
    }
    var updates := TaskPatch(None, None, Some(completed), Some(inProgress), None, None, None);
    store.UpdateTask(taskId, updates);
  }

  /** Where a card was picked up or dropped: the column's droppable id and the position in it. */
  datatype DraggableLocation = DraggableLocation(droppableId: Status, index: int)

  /** The drag library's report of a finished drag; no destination when the drop was cancelled. */
  datatype DropResult = DropResult(draggableId: string, source: DraggableLocation, destination: Option<DraggableLocation>)

  /** A drop `onDragEnd` ignores: no destination, or back where it started. */
  predicate IgnoredDrop(result: DropResult)
  {
    result.destination.None? ||
    (result.destination.value.droppableId == result.source.droppableId &&
     result.destination.value.index == result.source.index)
  }

  /**
   * `onDragEnd(result)`: an ignored drop changes nothing; any other drop moves
   * the dragged task into the destination column.
   */
  method OnDragEnd(store: TaskStore, result: DropResult) returns (moved: bool)
    modifies store
    ensures moved <==> !IgnoredDrop(result)
    ensures !moved ==> store.tasks == old(store.tasks)
    ensures moved ==> store.tasks == UpdateAll(old(store.tasks), result.draggableId,
                                               MovePatch(result.destination.value.droppableId))
  {
    if result.destination.None? {
      return false;
    }
    var destination := result.destination.value;
    if destination.droppableId == result.source.droppableId && destination.index == result.source.index {
      return false;
    }
    MoveTask(store, result.draggableId, destination.droppableId);
    return true;
  }
}
