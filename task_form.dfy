/**
 * The task form of `components/tasks/TaskForm.tsx`: its four fields, the
 * prefill from the task being edited, and `submit`, which refuses a blank
 * title and otherwise either updates the edited task or adds a new one, then
 * closes the form.
 */
module TaskForm {
  import opened Wrappers
  import opened Text
  import opened TaskContext
  import Lists

  /** The suffix `new Date(d).toISOString()` gives a `YYYY-MM-DD` date input: midnight UTC. */
  const MidnightUtc := "T00:00:00.000Z"

  /** `new Date(d).toISOString()` for the value `d` of a date input. */
  function IsoFromDateInput(d: string): (iso: string)
    ensures |iso| == |d| + 14 && iso[..|d|] == d
  {
    d + MidnightUtc
  }

  /** `dueDate ? new Date(dueDate).toISOString() : null`. */
  function DueDateOf(dueDate: string): (r: Option<string>)
    ensures r.None? <==> dueDate == ""
    ensures r.Some? ==> r.value == IsoFromDateInput(dueDate)
  {
    if dueDate != "" then Some(IsoFromDateInput(dueDate)) else None
  }

  /** `editTask.dueDate ? editTask.dueDate.slice(0, 10) : ""`. */
  function DateInputOf(dueDate: Option<string>): (d: string)
    ensures |d| <= 10
    ensures Truthy(dueDate) ==> d == Lists.Take(dueDate.value, 10)
    ensures !Truthy(dueDate) ==> d == ""
  {
    if Truthy(dueDate) then Lists.Take(dueDate.value, 10) else ""
  }

  /** The date a saved due date shows again when the task is edited is the date that was picked. */
  lemma DateInputRoundTrip(d: string)
    requires |d| == 10
    ensures DateInputOf(DueDateOf(d)) == d
  {
  }

  /** The record `addTask` receives from the form. */
  function FormInput(title: string, description: string, dueDate: string, priority: Priority): TaskInput
  {
    TaskInput(Trim(title), Some(Trim(description)), DueDateOf(dueDate), Some(priority))
  }

  /** The `updates` record `updateTask` receives from the form: the four fields, never the flags. */
  function FormPatch(title: string, description: string, dueDate: string, priority: Priority): TaskPatch
  {
    TaskPatch(
      title := Some(Trim(title)),
      description := Some(Some(Trim(description))),
      completed := None,
      inProgress := None,
      dueDate := Some(DueDateOf(dueDate)),
      priority := Some(Some(priority)),
      category := None)
  }

  /**
   * A task added through the form carries the trimmed title and description,
   * the chosen priority, and a due date exactly when one was picked.
   */
  lemma AddedTaskFromForm(title: string, description: string, dueDate: string, priority: Priority, id: string, now: int)
    ensures var t := NewTask(FormInput(title, description, dueDate, priority), id, now);
            t.title == Trim(title) && t.description == Some(Trim(description)) &&
            t.priority == Some(priority) && t.dueDate == DueDateOf(dueDate) &&
            !t.completed && !t.inProgress
  {
    var a, b := Trim(title), Trim(description);
    TrimIdempotent(title);
    TrimIdempotent(description);
    var t := NewTask(TaskInput(a, Some(b), DueDateOf(dueDate), Some(priority)), id, now);
    assert t.title == Trim(a) == a;
    assert t.description == Some(Trim(b)) == Some(b);
  }

  /**
   * An edit keeps the task's id, creation time and flags, and writes the
   * trimmed title and description, the due date and the priority.
   */
  lemma EditedTaskFromForm(t: Task, title: string, description: string, dueDate: string, priority: Priority)
    ensures var e := Merge(t, FormPatch(title, description, dueDate, priority));
            e.id == t.id && e.createdAt == t.createdAt &&
            e.completed == t.completed && e.inProgress == t.inProgress && e.category == t.category &&
            e.title == Trim(title) && e.description == Some(Trim(description)) &&
            e.dueDate == DueDateOf(dueDate) && e.priority == Some(priority)
  {
  }

  /** The form's state. */
  class TaskFormState {
    var title: string
    var description: string
    var dueDate: string
    var priority: Priority

    constructor ()
      ensures title == "" && description == "" && dueDate == "" && priority == Medium
    {
      title, description, dueDate, priority := "", "", "", Medium;
    }

    /**
     * The effect that runs when `editTask` changes: with a task to edit, its
     * fields are copied in (description `""` when absent, the first ten
     * characters of the due date, priority `medium` when absent).
     */
    method Prefill(editTask: Option<Task>)
      modifies this
      ensures editTask.None? ==> title == old(title) && description == old(description) &&
                                 dueDate == old(dueDate) && priority == old(priority)
      ensures editTask.Some? ==>
                title == editTask.value.title &&
                description == editTask.value.description.GetOr("") &&
                dueDate == DateInputOf(editTask.value.dueDate) &&
                priority == editTask.value.priority.GetOr(Medium)
    {
      if editTask.Some? {
        var t := editTask.value;
        title := t.title;
        description := t.description.GetOr("");
        dueDate := if Truthy(t.dueDate) then Lists.Take(t.dueDate.value, 10) else "";
        priority := t.priority.GetOr(Medium);
      }
    }

    /**
     * `submit`: a blank title does nothing and keeps the form open. Otherwise
     * the edited task is updated, or else a new task is added, but never both,
     * and the form closes once (`closed`).
     */
    method Submit(store: TaskStore, editTask: Option<Task>, newId: string, now: int) returns (closed: bool)
      requires editTask.None? ==> forall t :: t in store.tasks ==> t.id != newId
      modifies store
      ensures closed <==> !IsBlank(title)
      ensures !closed ==> store.tasks == old(store.tasks)
      ensures closed && editTask.Some? ==>
                store.tasks == UpdateAll(old(store.tasks), editTask.value.id,
                                         FormPatch(title, description, dueDate, priority))
      ensures closed && editTask.None? ==>
                store.tasks == [NewTask(FormInput(title, description, dueDate, priority), newId, now)]
                               + old(store.tasks)
    {
      var title, description, dueDate, priority := this.title, this.description, this.dueDate, this.priority;
      if Trim(title) == "" {
        return false;
      }
      if editTask.Some? {
        store.UpdateTask(editTask.value.id, FormPatch(title, description, dueDate, priority));
      } else {
        var _ := store.AddTask(FormInput(title, description, dueDate, priority), newId, now);
      }
      return true;
    }
  }
}
