/**
 * The form logic of the task editor (src/Components/TaskEditor.jsx): how the form is filled from the
 * task it edits, how tags toggle, and what submitting dispatches. Dates are milliseconds since the
 * epoch; a form date (`YYYY-MM-DD`) is the first millisecond of that UTC day. The clock, the local
 * midnight of today and the answer to `window.confirm` are parameters.
 */
module TaskEditor {
  import opened Js
  import opened Records
  import opened TasksSlice

  /** Milliseconds in a day. */
  const DayMs := 24 * 60 * 60 * 1000

  /** `formData` */
  datatype Form = Form(title: string, description: string, dueDate: Option<int>, priority: string,
                       status: string, tags: seq<string>)

  /** The form before any task is loaded. */
  const InitialForm := Form("", "", None, Medium, Todo, [])

  /** `isCreating`: no task was given, or it has no id yet. */
  predicate IsCreating(task: Val<Record>) {
    !task.Has? || !TruthyStr(task.v.id)
  }

  /** `d.toISOString().substring(0, 10)`, as the start of the UTC day holding `d`. */
  function DayOf(d: int): (r: int)
    ensures r % DayMs == 0 && r <= d < r + DayMs
  {
    d - d % DayMs
  }

  /** The form once the effect has run for `task` (it leaves the initial form when there is no task). */
  function FormFor(task: Val<Record>): (r: Form)
    ensures !task.Has? ==> r == InitialForm
    ensures task.Has? ==>
      (r.title == (if TruthyStr(task.v.title) then task.v.title.v else "")
       && r.description == (if TruthyStr(task.v.description) then task.v.description.v else "")
       && r.priority == (if TruthyStr(task.v.priority) then task.v.priority.v else Medium)
       && r.status == (if TruthyStr(task.v.status) then task.v.status.v else Todo)
       && r.tags == (if task.v.tags.Has? then task.v.tags.v else [])
       && (r.dueDate.Some? <==> task.v.dueDate.Has?)
       && (r.dueDate.Some? ==> r.dueDate.value <= task.v.dueDate.v < r.dueDate.value + DayMs))
  {
    if !task.Has? then InitialForm
    else
      var t := task.v;
      Form(OrStr(t.title, ""), OrStr(t.description, ""),
           if t.dueDate.Has? then Some(DayOf(t.dueDate.v)) else None,
           OrStr(t.priority, Medium), OrStr(t.status, Todo),
           if t.tags.Has? then t.tags.v else [])
  }

  /** `handleTagToggle(tag)`: removes every copy of a present tag, appends an absent one. */
  function EditorTagToggle(form: Form, tag: string): (r: Form)
    ensures r.(tags := form.tags) == form
    ensures tag in form.tags ==> tag !in r.tags && forall x | x != tag :: x in r.tags <==> x in form.tags
    ensures tag !in form.tags ==> r.tags == form.tags + [tag]
  {
    ToggleTagEffect(form.tags, tag);
    form.(tags := ToggleTag(form.tags, tag))
  }

  /** Toggling an absent tag twice gives the form back. */
  lemma EditorTagToggleTwice(form: Form, tag: string)
    requires tag !in form.tags
    ensures EditorTagToggle(EditorTagToggle(form, tag), tag) == form
  {
    ToggleTwiceRestores(form.tags, tag);
  }

  /** `finalTask`: the form fields, the list id, and the creation time or the edited task's id. */
  function FinalTask(form: Form, task: Val<Record>, listId: string, now: int): Record {
    var base := Empty.(title := Has(form.title), description := Has(form.description),
                       dueDate := if form.dueDate.Some? then Has(form.dueDate.value) else Null,
                       priority := Has(form.priority), status := Has(form.status), tags := Has(form.tags),
                       listId := Has(listId));
    if IsCreating(task) then base.(createdAt := Has(now)) else base.(id := task.v.id)
  }

  /** What a submit leaves behind: the message shown under the form and the thunk dispatched, if any. */
  datatype Submitted = Submitted(validationError: string, dispatched: Option<ThunkCall>)

  const TitleRequired := "Task title is required."

  /** `handleSubmit` up to the dispatch. */
  function Submit(form: Form, task: Val<Record>, listId: string, now: int, todayStart: int, confirmed: bool): Submitted {
    if Trim(form.title) == "" then Submitted(TitleRequired, None)
    else if form.dueDate.Some? && form.dueDate.value < todayStart && !confirmed then Submitted("", None)
    else
      var t := FinalTask(form, task, listId, now);
      Submitted("", Some(if IsCreating(task) then CreateTaskCall(listId, t) else UpdateTaskCall(listId, t)))
  }

  /**
   * A blank title shows the error and dispatches nothing; otherwise a thunk is dispatched iff a past
   * due date was confirmed: `createTask` when creating, `updateTaskThunk` when editing.
   */
  lemma SubmitSpec(form: Form, task: Val<Record>, listId: string, now: int, todayStart: int, confirmed: bool)
    ensures AllSpace(form.title) ==> Submit(form, task, listId, now, todayStart, confirmed) == Submitted(TitleRequired, None)
    ensures var r := Submit(form, task, listId, now, todayStart, confirmed);
      (r.dispatched.Some? <==> !AllSpace(form.title) && (form.dueDate.Some? && form.dueDate.value < todayStart ==> confirmed))
      && (r.dispatched.Some? ==>
            r.validationError == ""
            && (r.dispatched.value.CreateTaskCall? <==> !task.Has? || !TruthyStr(task.v.id))
            && !r.dispatched.value.DeleteTaskCall?
            && r.dispatched.value.listId == listId
            && r.dispatched.value.task == FinalTask(form, task, listId, now))
  {
    BlankIffAllSpace(form.title);
  }

  /**
   * The task sent carries the form's fields, `null` for an empty date, the list id, and either the
   * creation time (creating) or the edited task's id (editing), never both.
   */
  lemma FinalTaskSpec(form: Form, task: Val<Record>, listId: string, now: int)
    ensures var t := FinalTask(form, task, listId, now);
      t.title == Has(form.title) && t.description == Has(form.description) && t.priority == Has(form.priority)
      && t.status == Has(form.status) && t.tags == Has(form.tags) && t.listId == Has(listId)
      && (form.dueDate.None? <==> t.dueDate == Null)
      && (form.dueDate.Some? ==> t.dueDate == Has(form.dueDate.value))
      && (IsCreating(task) ==> t.createdAt == Has(now) && t.id == Absent)
      && (!IsCreating(task) ==> TruthyStr(t.id) && t.id == task.v.id && t.createdAt == Absent)
      && t.isOffline == Absent && t.syncFailed == Absent && t.markedForDeletion == Absent
  {
  }

  /** The submit button is disabled while the title is blank or a create or an update runs. */
  predicate SubmitDisabled(form: Form, op: OpStatus) {
    Trim(form.title) == "" || IsTrue(op.creating) || TruthyStr(op.updating)
  }

  /** An enabled button never leads to the blank-title error; a blank title always disables it. */
  lemma SubmitDisabledSpec(form: Form, op: OpStatus, task: Val<Record>, listId: string, now: int, todayStart: int, confirmed: bool)
    ensures SubmitDisabled(form, op) <==> AllSpace(form.title) || op.creating == Has(true) || (op.updating.Has? && op.updating.v != "")
    ensures !SubmitDisabled(form, op) ==> Submit(form, task, listId, now, todayStart, confirmed).validationError == ""
  {
    BlankIffAllSpace(form.title);
  }

  /**
   * A task loaded into the form and submitted unchanged is dispatched as an update that keeps its
   * id, title and tags, with its due time moved to the start of its day; no confirmation is needed
   * when that day is today or later.
   */
  lemma EditRoundTrip(t: Record, listId: string, now: int, todayStart: int)
    requires TruthyStr(t.id) && TruthyStr(t.title) && !AllSpace(t.title.v) && t.tags.Has?
    requires t.dueDate.Has? ==> DayOf(t.dueDate.v) >= todayStart
    ensures var r := Submit(FormFor(Has(t)), Has(t), listId, now, todayStart, false);
      r.validationError == "" && r.dispatched.Some? && r.dispatched.value.UpdateTaskCall?
      && r.dispatched.value.task.id == t.id && r.dispatched.value.task.title == t.title
      && r.dispatched.value.task.tags == t.tags
      && r.dispatched.value.task.dueDate == (if t.dueDate.Has? then Has(DayOf(t.dueDate.v)) else Null)
  {
    SubmitSpec(FormFor(Has(t)), Has(t), listId, now, todayStart, false);
  }
}
