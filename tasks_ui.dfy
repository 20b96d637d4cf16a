/**
 * The helpers of the task view (src/Components/TasksUI.jsx) that decide what it shows and what it
 * dispatches. The clock and the answers to `window.confirm` are parameters.
 */
module TasksUi {
  import opened Js
  import opened Records
  import opened Items
  import opened TaskSelectors
  import opened TasksSlice

  // ---------------------------------------------------------------------------
  // allTasks and dueSoonTasks

  /** The selector arguments behind `allTasks`: the list's tasks of every status and tag, by due date. */
  function AllTasksFilters(listId: Val<string>): Filters {
    Filters(listId, Has("all"), Has("all"), Some(ByDueDate), Has("asc"))
  }

  function AllTasks(items: seq<Record>, listId: Val<string>): seq<Record> {
    FilteredTasks(items, AllTasksFilters(listId))
  }

  /** `allTasks` holds every task of the list (marked ones included), earliest due date first. */
  lemma AllTasksSpec(items: seq<Record>, listId: Val<string>)
    ensures forall t :: t in AllTasks(items, listId) <==> t in items && (TruthyStr(listId) ==> t.listId == listId)
    ensures Sorted(AllTasks(items, listId), ByDueDate, true)
  {
    FilteredTasksSpec(items, AllTasksFilters(listId));
  }

  /** 48 hours in milliseconds. */
  const DueSoonWindow := 48 * 60 * 60 * 1000

  /** The test `dueSoonTasks` applies to one task. */
  predicate DueSoon(t: Record, now: int) {
    t.dueDate.Has? && t.status != Has(Done) && now <= t.dueDate.v <= now + DueSoonWindow
  }

  function DueSoonTasks(allTasks: seq<Record>, now: int): seq<Record> {
    Filter(allTasks, (t: Record) => DueSoon(t, now))
  }

  /**
   * The "due soon" section shows exactly the list's tasks that have a due date, are not done and fall
   * due within the next 48 hours, earliest first.
   */
  lemma DueSoonSpec(items: seq<Record>, listId: Val<string>, now: int)
    ensures forall t :: t in DueSoonTasks(AllTasks(items, listId), now) <==>
      t in items && (TruthyStr(listId) ==> t.listId == listId) && t.dueDate.Has? && t.status != Has(Done)
      && now <= t.dueDate.v <= now + 172800000
    ensures Sorted(DueSoonTasks(AllTasks(items, listId), now), ByDueDate, true)
  {
    AllTasksSpec(items, listId);
    FilterKeepsSorted(AllTasks(items, listId), (t: Record) => DueSoon(t, now), ByDueDate, true);
  }

  /** A filter of a sorted sequence is sorted. */
  lemma {:induction false} FilterKeepsSorted(s: seq<Record>, p: Record -> bool, f: SortField, asc: bool)
    requires Sorted(s, f, asc)
    ensures Sorted(Filter(s, p), f, asc)
    decreases |s|
  {
    if s != [] {
      var tail := s[1..];
      forall i, j | 0 <= i < j < |tail| ensures !Before(tail[j], tail[i], f, asc) {
        assert tail[i] == s[i + 1] && tail[j] == s[j + 1];
      }
      FilterKeepsSorted(tail, p, f, asc);
      if p(s[0]) {
        var rest := Filter(tail, p);
        var r := Filter(s, p);
        assert r == [s[0]] + rest;
        forall i, j | 0 <= i < j < |r| ensures !Before(r[j], r[i], f, asc) {
          assert r[j] == rest[j - 1];
          if i == 0 {
            assert r[j] in tail;
            var k :| 0 <= k < |tail| && tail[k] == r[j];
            assert s[k + 1] == r[j];
          } else {
            assert r[i] == rest[i - 1];
          }
        }
      }
    }
  }

  // ---------------------------------------------------------------------------
  // allTags

  /** `task.tags || []` */
  function TagsOrEmpty(t: Record): seq<string> {
    if t.tags.Has? then t.tags.v else []
  }

  /** The tags `allTags` adds to its set, task after task, with repetitions. */
  function ViewTagStream(tasks: seq<Record>): seq<string>
    decreases |tasks|
  {
    if tasks == [] then [] else ViewTagStream(tasks[..|tasks| - 1]) + TagsOrEmpty(tasks[|tasks| - 1])
  }

  /** `Array.from(tagSet)`: each tag once, in the order the set first received it. */
  function ViewAllTags(tasks: seq<Record>): seq<string> {
    Distinct(ViewTagStream(tasks))
  }

  lemma {:induction false} ViewTagStreamMembers(tasks: seq<Record>)
    ensures forall x :: x in ViewTagStream(tasks) <==> exists i | 0 <= i < |tasks| :: x in TagsOrEmpty(tasks[i])
    decreases |tasks|
  {
    if tasks != [] {
      var init := tasks[..|tasks| - 1];
      ViewTagStreamMembers(init);
      forall x | x in ViewTagStream(tasks) ensures exists i | 0 <= i < |tasks| :: x in TagsOrEmpty(tasks[i]) {
        if x in ViewTagStream(init) {
          var i :| 0 <= i < |init| && x in TagsOrEmpty(init[i]);
          assert tasks[i] == init[i];
        } else {
          assert x in TagsOrEmpty(tasks[|tasks| - 1]);
        }
      }
      forall x | exists i | 0 <= i < |tasks| :: x in TagsOrEmpty(tasks[i]) ensures x in ViewTagStream(tasks) {
        var i :| 0 <= i < |tasks| && x in TagsOrEmpty(tasks[i]);
        if i < |tasks| - 1 {
          assert init[i] == tasks[i];
        }
      }
    }
  }

  /**
   * `allTags` lists a tag iff some task of the view carries it, lists it once, and lists the tags in
   * the order in which they first appear.
   */
  lemma ViewAllTagsSpec(tasks: seq<Record>)
    ensures forall x :: x in ViewAllTags(tasks) <==> exists i | 0 <= i < |tasks| :: tasks[i].tags.Has? && x in tasks[i].tags.v
    ensures NoDuplicates(ViewAllTags(tasks))
    ensures forall i, j | 0 <= i < j < |ViewAllTags(tasks)| ::
      FirstIndex(ViewTagStream(tasks), ViewAllTags(tasks)[i]) < FirstIndex(ViewTagStream(tasks), ViewAllTags(tasks)[j])
  {
    DistinctSpec(ViewTagStream(tasks));
    ViewTagStreamMembers(tasks);
    forall i, j | 0 <= i < j < |ViewAllTags(tasks)|
      ensures FirstIndex(ViewTagStream(tasks), ViewAllTags(tasks)[i]) < FirstIndex(ViewTagStream(tasks), ViewAllTags(tasks)[j])
    {
      DistinctOrder(ViewTagStream(tasks), i, j);
    }
  }

  /**
   * Unlike `selectAllTags`, the view also lists the tags of tasks marked for deletion; over tasks none
   * of which is marked, the two agree.
   */
  lemma ViewTagsMatchSelector(tasks: seq<Record>)
    requires forall i | 0 <= i < |tasks| :: !IsTrue(tasks[i].markedForDeletion)
    ensures ViewAllTags(tasks) == AllTags(tasks)
  {
    ViewStreamIsSelectorStream(tasks);
  }

  lemma {:induction false} ViewStreamIsSelectorStream(tasks: seq<Record>)
    requires forall i | 0 <= i < |tasks| :: !IsTrue(tasks[i].markedForDeletion)
    ensures ViewTagStream(tasks) == TagStream(tasks)
    decreases |tasks|
  {
    if tasks != [] {
      var init := tasks[..|tasks| - 1];
      forall i | 0 <= i < |init| ensures !IsTrue(init[i].markedForDeletion) {
        assert init[i] == tasks[i];
      }
      ViewStreamIsSelectorStream(init);
      assert TagsOrEmpty(tasks[|tasks| - 1]) == VisitedTags(tasks[|tasks| - 1]);
    }
  }

  // ---------------------------------------------------------------------------
  // validateTask, handleCreateTask, handleUpdateTask

  /**
   * `validateTask(task)`, with `todayStart` the local midnight of today and `confirmed` the answer to
   * the past-due-date question (asked only when the due date is before `todayStart`).
   */
  function ValidateTask(task: Record, todayStart: int, confirmed: bool): bool {
    if !TruthyStr(task.title) || Trim(task.title.v) == "" then false
    else if task.dueDate.Has? && task.dueDate.v < todayStart && !confirmed then false
    else true
  }

  /** A task passes iff its title has a non-space character and a past due date was confirmed. */
  lemma ValidateTaskSpec(task: Record, todayStart: int, confirmed: bool)
    ensures ValidateTask(task, todayStart, confirmed) <==>
      task.title.Has? && !AllSpace(task.title.v) && (task.dueDate.Has? && task.dueDate.v < todayStart ==> confirmed)
  {
    if task.title.Has? {
      BlankIffAllSpace(task.title.v);
    }
  }

  /** `date || null` */
  function OrNull(d: Val<int>): Val<int> {
    if d.Has? then d else Null
  }

  function HandleCreateTask(newTask: Record, listId: string, now: int, todayStart: int, confirmed: bool): Option<ThunkCall> {
    if !ValidateTask(newTask, todayStart, confirmed) then None
    else Some(CreateTaskCall(listId, newTask.(listId := Has(listId), createdAt := Has(now), dueDate := OrNull(newTask.dueDate))))
  }

  /**
   * Creating from the draft dispatches `createTask` iff the draft validates; the task sent is the
   * draft with the list id, the creation time and a due date that is never missing.
   */
  lemma HandleCreateTaskSpec(newTask: Record, listId: string, now: int, todayStart: int, confirmed: bool)
    ensures var r := HandleCreateTask(newTask, listId, now, todayStart, confirmed);
      (r.Some? <==> newTask.title.Has? && !AllSpace(newTask.title.v)
                    && (newTask.dueDate.Has? && newTask.dueDate.v < todayStart ==> confirmed))
      && (r.Some? ==> r.value.CreateTaskCall? && r.value.listId == listId
                      && r.value.task.listId == Has(listId) && r.value.task.createdAt == Has(now)
                      && !r.value.task.dueDate.Absent?
                      && r.value.task.(listId := newTask.listId, createdAt := newTask.createdAt, dueDate := newTask.dueDate) == newTask)
  {
    ValidateTaskSpec(newTask, todayStart, confirmed);
  }

  function HandleUpdateTask(editing: Record, listId: string, todayStart: int, confirmed: bool): Option<ThunkCall> {
    if !ValidateTask(editing, todayStart, confirmed) then None
    else Some(UpdateTaskCall(listId, editing.(dueDate := OrNull(editing.dueDate))))
  }

  /** Saving an edit dispatches `updateTaskThunk` iff the edited task validates, with only a missing due date changed (to `null`). */
  lemma HandleUpdateTaskSpec(editing: Record, listId: string, todayStart: int, confirmed: bool)
    ensures var r := HandleUpdateTask(editing, listId, todayStart, confirmed);
      (r.Some? <==> editing.title.Has? && !AllSpace(editing.title.v)
                    && (editing.dueDate.Has? && editing.dueDate.v < todayStart ==> confirmed))
      && (r.Some? ==> r.value.UpdateTaskCall? && r.value.listId == listId
                      && !r.value.task.dueDate.Absent? && r.value.task.(dueDate := editing.dueDate) == editing)
  {
    ValidateTaskSpec(editing, todayStart, confirmed);
  }

  // ---------------------------------------------------------------------------
  // handleToggleStatus

  /** The status the toggle moves to: todo, then in progress, then done, then todo again. */
  function NextStatus(s: Val<string>): (r: string)
    ensures r == Todo || r == InProgress || r == Done
    ensures Has(r) != s
  {
    if s == Has(Todo) then InProgress
    else if s == Has(InProgress) then Done
    else Todo
  }

  /** Three toggles bring each of the three statuses back. */
  lemma StatusCycle(s: Val<string>)
    requires s == Has(Todo) || s == Has(InProgress) || s == Has(Done)
    ensures Has(NextStatus(Has(NextStatus(Has(NextStatus(s)))))) == s
  {
  }

  /** `handleToggleStatus(task)`: the update it dispatches. */
  function ToggleStatus(listId: string, task: Record): (r: ThunkCall)
    ensures r.UpdateTaskCall? && r.listId == listId
    ensures r.task.status != task.status && r.task.(status := task.status) == task
  {
    UpdateTaskCall(listId, task.(status := Has(NextStatus(task.status))))
  }

  // ---------------------------------------------------------------------------
  // handleTagToggle

  /** The two drafts of the view: the task being edited (`null` when none) and the new task. */
  datatype Drafts = Drafts(editing: Val<Record>, newTask: Record)

  /** `handleTagToggle(tag)`: toggles the tag on the task being edited if there is one, else on the new task. */
  function ViewTagToggle(d: Drafts, tag: string): (r: Drafts)
    ensures d.editing.Has? ==>
      (r.newTask == d.newTask && r.editing.Has?
       && r.editing.v == d.editing.v.(tags := Has(ToggleTag(TagsOrEmpty(d.editing.v), tag))))
    ensures !d.editing.Has? ==>
      (r.editing == d.editing && r.newTask == d.newTask.(tags := Has(ToggleTag(TagsOrEmpty(d.newTask), tag))))
  {
    var base := if d.editing.Has? then d.editing.v else d.newTask;
    var newTags := ToggleTag(TagsOrEmpty(base), tag);
    if d.editing.Has? then d.(editing := Has(d.editing.v.(tags := Has(newTags))))
    else d.(newTask := d.newTask.(tags := Has(newTags)))
  }

  /** The draft toggled: the one being edited if any, else the new task. */
  function Target(d: Drafts): Record {
    if d.editing.Has? then d.editing.v else d.newTask
  }

  /**
   * The toggle appends an absent tag at the end and removes every copy of a present one, on the
   * draft in use only; toggling an absent tag twice restores a draft whose tags were an array.
   */
  lemma ViewTagToggleSpec(d: Drafts, tag: string)
    ensures var after := TagsOrEmpty(Target(ViewTagToggle(d, tag)));
      (tag in TagsOrEmpty(Target(d)) ==>
         (tag !in after && forall x | x != tag :: x in after <==> x in TagsOrEmpty(Target(d))))
      && (tag !in TagsOrEmpty(Target(d)) ==> after == TagsOrEmpty(Target(d)) + [tag])
    ensures Target(d).tags.Has? && tag !in TagsOrEmpty(Target(d)) ==> ViewTagToggle(ViewTagToggle(d, tag), tag) == d
  {
    ToggleTagEffect(TagsOrEmpty(Target(d)), tag);
    if Target(d).tags.Has? && tag !in TagsOrEmpty(Target(d)) {
      ToggleTwiceRestores(TagsOrEmpty(Target(d)), tag);
    }
  }
}
