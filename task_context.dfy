/**
 * The in-memory task store of `contexts/TaskContext.tsx`: the `Task` record,
 * the five operations on the `tasks` array, and the facts they keep. Each
 * operation replaces the array by a prepend, a `map` or a `filter` of the old
 * one; those new arrays are the functions below, and `TaskStore` is the
 * provider's state that the operations reassign.
 */
module TaskContext {
  import opened Wrappers
  import opened Text
  import Lists

  datatype Priority = Low | Medium | High

  /** The string a priority is stored and compared as. */
  function PriorityName(p: Priority): string
  {
    match p
    case Low => "low"
    case Medium => "medium"
    case High => "high"
  }

  /**
   * A task. Besides the fields the store declares, the Kanban board reads
   * `inProgress` (an absent flag reads as `false`) and the analytics and list
   * views read `category`, which no form ever sets.
   */
  datatype Task = Task(
    id: string,
    title: string,
    description: Option<string>,
    completed: bool,
    inProgress: bool,
    createdAt: int,
    dueDate: Option<string>,
    priority: Option<Priority>,
    category: Option<string>)

  /** What `addTask` is given. */
  datatype TaskInput = TaskInput(
    title: string,
    description: Option<string>,
    dueDate: Option<string>,
    priority: Option<Priority>)

  /**
   * `Partial<Omit<Task, "id" | "createdAt">>`: `None` for a key that is absent;
   * a present key may carry `undefined`/`null` itself (the inner `None`).
   */
  datatype TaskPatch = TaskPatch(
    title: Option<string>,
    description: Option<Option<string>>,
    completed: Option<bool>,
    inProgress: Option<bool>,
    dueDate: Option<Option<string>>,
    priority: Option<Option<Priority>>,
    category: Option<Option<string>>)

  /** The task `addTask` builds from its input, a fresh id and the current time. */
  function NewTask(input: TaskInput, id: string, now: int): Task
  {
    Task(
      id := id,
      title := Trim(input.title),
      description := Some(if input.description.Some? then Trim(input.description.value) else ""),
      completed := false,
      inProgress := false,
      createdAt := now,
      dueDate := if Truthy(input.dueDate) then input.dueDate else None,
      priority := Some(input.priority.GetOr(Medium)),
      category := None)
  }

  /**
   * `addTask` stores the title and the description without surrounding white
   * space, and the description as `""` when none was given.
   */
  lemma NewTaskTrimmed(input: TaskInput, id: string, now: int)
    ensures Trim(NewTask(input, id, now).title) == NewTask(input, id, now).title
    ensures NewTask(input, id, now).description.Some?
    ensures Trim(NewTask(input, id, now).description.value) == NewTask(input, id, now).description.value
    ensures input.description.None? ==> NewTask(input, id, now).description == Some("")
  {
    TrimIdempotent(input.title);
    if input.description.Some? {
      TrimIdempotent(input.description.value);
    }
  }

  /**
   * The other fields of a new task: the given id and time, not completed and
   * not in progress, no due date unless a non-empty one was given, and
   * priority `medium` unless one was given.
   */
  lemma NewTaskDefaults(input: TaskInput, id: string, now: int)
    ensures NewTask(input, id, now).id == id && NewTask(input, id, now).createdAt == now
    ensures !NewTask(input, id, now).completed && !NewTask(input, id, now).inProgress
    ensures NewTask(input, id, now).dueDate.None? <==> !Truthy(input.dueDate)
    ensures Truthy(input.dueDate) ==> NewTask(input, id, now).dueDate == input.dueDate
    ensures input.priority.None? ==> NewTask(input, id, now).priority == Some(Medium)
  {
  }

  /** `{ ...t, ...updates }`: every key present in the patch overrides the task's field. */
  function Merge(t: Task, p: TaskPatch): Task
  {
    Task(
      id := t.id,
      title := p.title.GetOr(t.title),
      description := p.description.GetOr(t.description),
      completed := p.completed.GetOr(t.completed),
      inProgress := p.inProgress.GetOr(t.inProgress),
      createdAt := t.createdAt,
      dueDate := p.dueDate.GetOr(t.dueDate),
      priority := p.priority.GetOr(t.priority),
      category := p.category.GetOr(t.category))
  }

  /** Merging the same patch a second time changes nothing more. */
  lemma MergeIdempotent(t: Task, p: TaskPatch)
    ensures Merge(Merge(t, p), p) == Merge(t, p)
  {
  }

  function UpdateOne(id: string, p: TaskPatch): Task -> Task
  {
    (t: Task) => if t.id == id then Merge(t, p) else t
  }

  /**
   * The array `updateTask(id, updates)` installs: the same tasks in the same
   * order, the ones with that id merged with the patch, every other one as it
   * was. No task's `id` or `createdAt` can change.
   */
  function UpdateAll(tasks: seq<Task>, id: string, p: TaskPatch): (r: seq<Task>)
    ensures |r| == |tasks|
    ensures forall i :: 0 <= i < |tasks| ==> r[i].id == tasks[i].id && r[i].createdAt == tasks[i].createdAt
    ensures forall i :: 0 <= i < |tasks| && tasks[i].id != id ==> r[i] == tasks[i]
    ensures forall i :: 0 <= i < |tasks| && tasks[i].id == id ==> r[i] == Merge(tasks[i], p)
  {
    Lists.Map(tasks, UpdateOne(id, p))
  }

  /** Applying the same update twice is the same as applying it once. */
  lemma UpdateAllIdempotent(tasks: seq<Task>, id: string, p: TaskPatch)
    ensures UpdateAll(UpdateAll(tasks, id, p), id, p) == UpdateAll(tasks, id, p)
  {
    var once := UpdateAll(tasks, id, p);
    var twice := UpdateAll(once, id, p);
    forall i | 0 <= i < |tasks| ensures twice[i] == once[i] {
      MergeIdempotent(tasks[i], p);
    }
  }

  function ToggleOne(id: string): Task -> Task
  {
    (t: Task) => if t.id == id then t.(completed := !t.completed) else t
  }

  /**
   * The array `toggleComplete(id)` installs: the tasks with that id have
   * `completed` flipped and nothing else changed; every other task is kept.
   */
  function ToggleAll(tasks: seq<Task>, id: string): (r: seq<Task>)
    ensures |r| == |tasks|
    ensures forall i :: 0 <= i < |tasks| && tasks[i].id != id ==> r[i] == tasks[i]
    ensures forall i :: 0 <= i < |tasks| && tasks[i].id == id ==>
              r[i] == tasks[i].(completed := !tasks[i].completed)
  {
    Lists.Map(tasks, ToggleOne(id))
  }

  /** Toggling the same id twice restores the list. */
  lemma ToggleTwiceRestores(tasks: seq<Task>, id: string)
    ensures ToggleAll(ToggleAll(tasks, id), id) == tasks
  {
    var twice := ToggleAll(ToggleAll(tasks, id), id);
    assert forall i :: 0 <= i < |tasks| ==> twice[i] == tasks[i];
  }

  function HasOtherId(id: string): Task -> bool
  {
    (t: Task) => t.id != id
  }

  /**
   * The array `deleteTask(id)` installs: every task with that id is gone, every
   * other task stays, and the survivors keep their order.
   */
  function DeleteAll(tasks: seq<Task>, id: string): (r: seq<Task>)
    ensures forall t :: t in r <==> t in tasks && t.id != id
    ensures forall t :: multiset(r)[t] == if t.id != id then multiset(tasks)[t] else 0
    ensures Lists.IsSubsequence(r, tasks)
    ensures |r| <= |tasks|
  {
    Lists.FilterIsSubsequence(tasks, HasOtherId(id));
    Lists.FilterMultiplicity(tasks, HasOtherId(id));
    Lists.Filter(tasks, HasOtherId(id))
  }

  /** Deleting an id that no task carries leaves the list as it was. */
  lemma DeleteUnknownIdKeepsList(tasks: seq<Task>, id: string)
    requires forall t :: t in tasks ==> t.id != id
    ensures DeleteAll(tasks, id) == tasks
  {
    Lists.FilterKeepsAll(tasks, HasOtherId(id));
  }

  function IdOf(t: Task): string
  {
    t.id
  }

  /** No two tasks share an id, as `crypto.randomUUID` makes them. */
  predicate DistinctIds(tasks: seq<Task>)
  {
    Lists.DistinctBy(tasks, IdOf)
  }

  /** Updating, toggling and deleting keep the ids distinct. */
  lemma OperationsKeepIdsDistinct(tasks: seq<Task>, id: string, p: TaskPatch)
    requires DistinctIds(tasks)
    ensures DistinctIds(UpdateAll(tasks, id, p))
    ensures DistinctIds(ToggleAll(tasks, id))
    ensures DistinctIds(DeleteAll(tasks, id))
  {
    Lists.FilterKeepsDistinct(tasks, HasOtherId(id), IdOf);
  }

  /** The provider's state: the `tasks` array that every operation replaces. */
  class TaskStore {
    var tasks: seq<Task>

    constructor ()
      ensures tasks == []
    {
      tasks := [];
    }

    /**
     * `addTask(input)`: the new task, with a fresh id and the current time,
     * goes in front of the old list; it is also returned.
     */
    method AddTask(input: TaskInput, id: string, now: int) returns (task: Task)
      requires forall t :: t in tasks ==> t.id != id
      modifies this
      ensures task == NewTask(input, id, now)
      ensures tasks == [task] + old(tasks) && |tasks| == |old(tasks)| + 1
      ensures DistinctIds(old(tasks)) ==> DistinctIds(tasks)
    {
      task := NewTask(input, id, now);
      tasks := [task] + tasks;
      if DistinctIds(old(tasks)) {
        forall i, j | 0 <= i < j < |tasks| ensures IdOf(tasks[i]) != IdOf(tasks[j]) {
          assert tasks[j] == old(tasks)[j - 1];
          if i > 0 {
            assert tasks[i] == old(tasks)[i - 1];
          } else {
            assert tasks[j] in old(tasks);
          }
        }
      }
    }

    /** `updateTask(id, updates)`. */
    method UpdateTask(id: string, updates: TaskPatch)
      modifies this
      ensures tasks == UpdateAll(old(tasks), id, updates)
      ensures DistinctIds(old(tasks)) ==> DistinctIds(tasks)
    {
      tasks := UpdateAll(tasks, id, updates);
    }

    /** `toggleComplete(id)`. */
    method ToggleComplete(id: string)
      modifies this
      ensures tasks == ToggleAll(old(tasks), id)
      ensures DistinctIds(old(tasks)) ==> DistinctIds(tasks)
    {
      tasks := ToggleAll(tasks, id);
    }

    /** `deleteTask(id)`. */
    method DeleteTask(id: string)
      modifies this
      ensures tasks == DeleteAll(old(tasks), id)
      ensures DistinctIds(old(tasks)) ==> DistinctIds(tasks)
    {
      if DistinctIds(tasks) {
        OperationsKeepIdsDistinct(tasks, id, TaskPatch(None, None, None, None, None, None, None));
      }
      tasks := DeleteAll(tasks, id);
    }

    /** `clearAll()`. */
    method ClearAll()
      modifies this
      ensures tasks == []
    {
      tasks := [];
    }
  }
}
