/**
 * The order in which an operation touches its collaborators: the Redux store (dispatches), the
 * local store and the remote store. Every call records one event, whether it succeeds or throws.
 */
module Trace {
  import opened Records

  datatype Table = TasksTable | ListsTable

  datatype LocalOp = ReadAll | ReadByList | Get | Put | Delete | BulkPut | Clear | Count

  datatype RemoteOp =
    | GetTasks(listId: string)       // getDocs(tasksRef(listId))
    | QueryLists(userId: string)     // getDocs(query(listsRef, where("userId", "==", userId)))
    | AddTask(listId: string)        // addDoc(tasksRef(listId), ...)
    | AddList                        // addDoc(listsRef, ...)
    | UpdateDoc(path: DocPath)
    | DeleteDoc(path: DocPath)

  /** Actions a thunk dispatches to the tasks slice while it runs. */
  datatype Action =
    | OptimisticUpdate(task: Record)
    | OptimisticDelete(id: string)
    | RefetchTasks(listId: string)   // dispatch(fetchTasks(listId)), not awaited

  datatype Event =
    | Dispatch(action: Action)
    | Local(table: Table, op: LocalOp)
    | Remote(call: RemoteOp)

  class Log {
    var events: seq<Event>

    constructor()
      ensures events == []
    {
      events := [];
    }

    method Add(e: Event)
      modifies this
      ensures events == old(events) + [e]
    {
      events := events + [e];
    }
  }

  /** `after` is `before` followed by more events. */
  predicate Extends(before: seq<Event>, after: seq<Event>) {
    |before| <= |after| && after[..|before|] == before
  }

  /** The last event of `es` is `e`. */
  predicate EndsWith(es: seq<Event>, e: Event) {
    |es| > 0 && es[|es| - 1] == e
  }

  /** No event of `es` is a call into the remote store. */
  predicate NoRemote(es: seq<Event>) {
    forall i | 0 <= i < |es| :: !es[i].Remote?
  }

  /** Whether `es` re-dispatches `fetchTasks`. */
  predicate Refetches(es: seq<Event>) {
    exists i | 0 <= i < |es| :: es[i].Dispatch? && es[i].action.RefetchTasks?
  }
}
