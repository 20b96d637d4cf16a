/**
 * The state of the tasks slice (src/redux/tasksSlice.jsx) and its reducers. Redux Toolkit runs each
 * case reducer on a draft that it updates in place; here the slice is an object whose methods update
 * its fields.
 */
module TasksSlice {
  import opened Js
  import opened Records
  import opened Items
  import opened TaskSelectors

  /** `operationStatus`: the id being updated, the id being deleted, whether a create runs. */
  datatype OpStatus = OpStatus(updating: Val<string>, deleting: Val<string>, creating: Val<bool>)

  const InitialOpStatus := OpStatus(Null, Null, Has(false))

  /** `{ ...status, ...patch }`: a field the patch does not carry keeps its value. */
  function MergeOp(status: OpStatus, patch: OpStatus): OpStatus {
    OpStatus(Pick(status.updating, patch.updating), Pick(status.deleting, patch.deleting),
             Pick(status.creating, patch.creating))
  }

  /** The thunk calls the components dispatch. */
  datatype ThunkCall =
    | CreateTaskCall(listId: string, task: Record)
    | UpdateTaskCall(listId: string, task: Record)
    | DeleteTaskCall(listId: string, id: string)

  /** The whole slice as one value, to state what a reducer leaves unchanged. */
  datatype View = View(items: seq<Record>, status: string, error: Val<string>, operationStatus: OpStatus,
                       online: bool, lastSync: Val<int>)

  class TasksState {
    var items: seq<Record>
    var status: string
    var error: Val<string>
    var operationStatus: OpStatus
    var online: bool
    var lastSync: Val<int>

    function Snapshot(): View
      reads this
    {
      View(items, status, error, operationStatus, online, lastSync)
    }

    /** `initialState`; `online` is `navigator.onLine` in a browser and `true` elsewhere. */
    constructor(browserOnline: Val<bool>)
      ensures Snapshot() == View([], "idle", Null, InitialOpStatus, if browserOnline.Has? then browserOnline.v else true, Null)
    {
      items := [];
      status := "idle";
      error := Null;
      operationStatus := InitialOpStatus;
      online := if browserOnline.Has? then browserOnline.v else true;
      lastSync := Null;
    }

    // -------------------------------------------------------------------------
    // reducers

    method AddTask(task: Record)
      modifies this
      ensures Snapshot() == old(Snapshot()).(items := old(items) + [task])
    {
      items := items + [task];
    }

    method UpdateTask(task: Record)
      modifies this
      ensures Snapshot() == old(Snapshot()).(items := ReplaceFirst(old(items), task))
    {
      items := ReplaceFirst(items, task);
    }

    method DeleteTask(id: Val<string>)
      modifies this
      ensures Snapshot() == old(Snapshot()).(items := RemoveId(old(items), id))
    {
      items := RemoveId(items, id);
    }

    method OptimisticUpdateTask(task: Record)
      modifies this
      ensures Snapshot() == old(Snapshot()).(items := ReplaceFirst(old(items), task))
    {
      items := ReplaceFirst(items, task);
    }

    method OptimisticDeleteTask(id: Val<string>)
      modifies this
      ensures Snapshot() == old(Snapshot()).(items := RemoveId(old(items), id))
    {
      items := RemoveId(items, id);
    }

    method SetOperationStatus(patch: OpStatus)
      modifies this
      ensures Snapshot() == old(Snapshot()).(operationStatus := MergeOp(old(operationStatus), patch))
    {
      operationStatus := MergeOp(operationStatus, patch);
    }

    method ClearError()
      modifies this
      ensures Snapshot() == old(Snapshot()).(error := Null)
    {
      error := Null;
    }

    method SetOnlineStatus(value: bool)
      modifies this
      ensures Snapshot() == old(Snapshot()).(online := value)
    {
      online := value;
    }

    method SetLastSync(value: Val<int>)
      modifies this
      ensures Snapshot() == old(Snapshot()).(lastSync := value)
    {
      lastSync := value;
    }

    // -------------------------------------------------------------------------
    // extraReducers: the lifecycle actions of the thunks

    method FetchTasksPending()
      modifies this
      ensures Snapshot() == old(Snapshot()).(status := "loading", error := Null)
    {
      status := "loading";
      error := Null;
    }

    method FetchTasksFulfilled(payload: seq<Record>)
      modifies this
      ensures Snapshot() == old(Snapshot()).(status := "succeeded", items := payload)
    {
      status := "succeeded";
      items := payload;
    }

    method FetchTasksRejected(message: Val<string>)
      modifies this
      ensures Snapshot() == old(Snapshot()).(status := "failed", error := message)
    {
      status := "failed";
      error := message;
    }

    method CreateTaskPending()
      modifies this
      ensures Snapshot() == old(Snapshot()).(operationStatus := old(operationStatus).(creating := Has(true)), error := Null)
    {
      operationStatus := operationStatus.(creating := Has(true));
      error := Null;
    }

    method CreateTaskFulfilled(task: Record)
      modifies this
      ensures Snapshot() == old(Snapshot()).(operationStatus := old(operationStatus).(creating := Has(false)),
                                              items := old(items) + [task])
    {
      operationStatus := operationStatus.(creating := Has(false));
      items := items + [task];
    }

    method CreateTaskRejected(message: Val<string>)
      modifies this
      ensures Snapshot() == old(Snapshot()).(operationStatus := old(operationStatus).(creating := Has(false)), error := message)
    {
      operationStatus := operationStatus.(creating := Has(false));
      error := message;
    }

    /** `updating` becomes `action.meta.arg.task.id`. */
    method UpdateTaskPending(taskId: Val<string>)
      modifies this
      ensures Snapshot() == old(Snapshot()).(operationStatus := old(operationStatus).(updating := taskId), error := Null)
    {
      operationStatus := operationStatus.(updating := taskId);
      error := Null;
    }

    method UpdateTaskFulfilled(task: Record)
      modifies this
      ensures Snapshot() == old(Snapshot()).(operationStatus := old(operationStatus).(updating := Null),
                                              items := ReplaceFirst(old(items), task))
    {
      operationStatus := operationStatus.(updating := Null);
      items := ReplaceFirst(items, task);
    }

    method UpdateTaskRejected(message: Val<string>)
      modifies this
      ensures Snapshot() == old(Snapshot()).(operationStatus := old(operationStatus).(updating := Null), error := message)
    {
      operationStatus := operationStatus.(updating := Null);
      error := message;
    }

    /** `deleting` becomes `action.meta.arg.id`. */
    method DeleteTaskPending(id: string)
      modifies this
      ensures Snapshot() == old(Snapshot()).(operationStatus := old(operationStatus).(deleting := Has(id)), error := Null)
    {
      operationStatus := operationStatus.(deleting := Has(id));
      error := Null;
    }

    method DeleteTaskFulfilled(id: string)
      modifies this
      ensures Snapshot() == old(Snapshot()).(operationStatus := old(operationStatus).(deleting := Null),
                                              items := RemoveId(old(items), Has(id)))
    {
      operationStatus := operationStatus.(deleting := Null);
      items := RemoveId(items, Has(id));
    }

    method DeleteTaskRejected(message: Val<string>)
      modifies this
      ensures Snapshot() == old(Snapshot()).(operationStatus := old(operationStatus).(deleting := Null), error := message)
    {
      operationStatus := operationStatus.(deleting := Null);
      error := message;
    }

    /** `syncOfflineTasks.fulfilled` stamps the time; there is no case for its other lifecycle actions. */
    method SyncOfflineTasksFulfilled(now: int)
      modifies this
      ensures Snapshot() == old(Snapshot()).(lastSync := Has(now))
    {
      lastSync := Has(now);
    }

    // -------------------------------------------------------------------------
    // selectFilteredTasks

    /**
     * `selectFilteredTasks(state, filters)`. The sort runs in place on `filtered`; when no list,
     * status or tag filter applies, `filtered` is `tasks.items` itself, so the store's array is
     * reordered too.
     */
    method SelectFilteredTasks(f: Filters) returns (r: seq<Record>)
      requires f.sortBy == Some(ByTitle) ==> TitleSortSafe(Narrowed(items, f))
      modifies this
      ensures r == FilteredTasks(old(items), f)
      ensures Snapshot() == old(Snapshot()).(items := if Narrows(f) then old(items) else r)
    {
      var filtered := Narrowed(items, f);
      NarrowedSpec(items, f);
      if f.sortBy.Some? {
        filtered := Sort(filtered, f.sortBy.value, f.sortOrder == Has("asc"));
        if !Narrows(f) {
          items := filtered;
        }
      }
      r := filtered;
    }
  }
}
