/**
 * The remote store (Firestore, src/lib/firebase.js): documents `lists/<id>` and
 * `lists/<listId>/tasks/<id>`. The SDK itself is not modelled; each call takes the outcome the
 * network gives it (`fault`) and, for `addDoc`, the id the server assigns.
 */
module Remote {
  import opened Js
  import opened Records
  import opened Trace

  /** The tasks of list `listId`, as `getDocs` yields them: in document id order, each `{ id, ...data }`. */
  function TaskDocs(docs: map<DocPath, Record>, listId: string): (r: seq<Record>)
    ensures |r| == |TaskIds(docs, listId)|
  {
    var ks := SortedKeys(TaskIds(docs, listId));
    seq(|ks|, i requires 0 <= i < |ks| => Merge(WithId(ks[i]), docs[TaskDoc(listId, ks[i])]))
  }

  /** The ids of the documents of `lists/<listId>/tasks`. */
  function TaskIds(docs: map<DocPath, Record>, listId: string): (r: set<string>)
    ensures forall k :: k in r <==> TaskDoc(listId, k) in docs
  {
    var r := set p | p in docs && p.TaskDoc? && p.listId == listId :: p.taskId;
    assert forall k | TaskDoc(listId, k) in docs :: k in r by {
      forall k | TaskDoc(listId, k) in docs ensures k in r {
        var p := TaskDoc(listId, k);
        assert p in docs && p.TaskDoc? && p.listId == listId;
      }
    }
    r
  }

  /** The lists whose `userId` field equals `userId`, as `getDocs(query(...))` yields them. */
  function ListDocs(docs: map<DocPath, Record>, userId: Val<string>): (r: seq<Record>)
    ensures |r| == |ListIds(docs, userId)|
  {
    var ks := SortedKeys(ListIds(docs, userId));
    seq(|ks|, i requires 0 <= i < |ks| => Merge(WithId(ks[i]), docs[ListDoc(ks[i])]))
  }

  /** The ids of the list documents whose `userId` field equals `userId`. */
  function ListIds(docs: map<DocPath, Record>, userId: Val<string>): (r: set<string>)
    ensures forall k :: k in r <==> ListDoc(k) in docs && docs[ListDoc(k)].userId == userId
  {
    var r := set p | p in docs && p.ListDoc? && docs[p].userId == userId :: p.id;
    assert forall k | ListDoc(k) in docs && docs[ListDoc(k)].userId == userId :: k in r by {
      forall k | ListDoc(k) in docs && docs[ListDoc(k)].userId == userId ensures k in r {
        var p := ListDoc(k);
        assert p in docs && p.ListDoc? && docs[p].userId == userId;
      }
    }
    r
  }

  /** `{ id: d.id, ...d.data() }`: the document id, unless the stored data carries an `id` of its own. */
  lemma TaskDocsAt(docs: map<DocPath, Record>, listId: string, i: int)
    requires 0 <= i < |TaskDocs(docs, listId)|
    ensures var k := SortedKeys(TaskIds(docs, listId))[i];
      TaskDoc(listId, k) in docs &&
      TaskDocs(docs, listId)[i] == Merge(WithId(k), docs[TaskDoc(listId, k)]) &&
      (docs[TaskDoc(listId, k)].id.Absent? ==> TaskDocs(docs, listId)[i].id == Has(k))
  {
  }

  /** The error `Promise.race` rejects with when the 8-second timer fires first. */
  const TimeoutError := Error(Absent, Has("Firebase timeout"))

  /** The error `where("userId", "==", undefined)` throws. */
  const QueryError := Error(Has("invalid-argument"), Has("Function where() called with invalid data"))

  /** Which promise of `Promise.race([getDocs, timeout])` settles first. */
  datatype Race = InTime | TimedOut

  class RemoteStore {
    var docs: map<DocPath, Record>

    constructor()
      ensures docs == map[]
    {
      docs := map[];
    }

    /** `getDocs(tasksRef(listId))`; an empty `listId` makes `tasksRef` throw before any call. */
    method GetTasks(listId: string, fault: Reply, log: Log) returns (out: Reply, rows: seq<Record>)
      modifies log
      ensures listId == "" ==> out == Fails(PathError) && log.events == old(log.events)
      ensures listId != "" ==> out == fault && log.events == old(log.events) + [Remote(RemoteOp.GetTasks(listId))]
      ensures rows == (if out.Ok? then TaskDocs(docs, listId) else [])
    {
      if listId == "" {
        return Fails(PathError), [];
      }
      log.Add(Remote(RemoteOp.GetTasks(listId)));
      out := fault;
      rows := if out.Ok? then TaskDocs(docs, listId) else [];
    }

    /** `getDocs(query(listsRef, where("userId", "==", userId)))`. */
    method QueryLists(userId: Val<string>, fault: Reply, log: Log) returns (out: Reply, rows: seq<Record>)
      modifies log
      ensures userId.Absent? ==> out == Fails(QueryError) && log.events == old(log.events)
      ensures !userId.Absent? ==> out == fault
      ensures !userId.Absent? ==> log.events == old(log.events) + [Remote(RemoteOp.QueryLists(if userId.Has? then userId.v else ""))]
      ensures rows == (if out.Ok? then ListDocs(docs, userId) else [])
    {
      if userId.Absent? {
        return Fails(QueryError), [];
      }
      log.Add(Remote(RemoteOp.QueryLists(if userId.Has? then userId.v else "")));
      out := fault;
      rows := if out.Ok? then ListDocs(docs, userId) else [];
    }

    /** `addDoc(tasksRef(listId), data)`: the server names the new document `newId`. */
    method AddTask(listId: Val<string>, data: Record, newId: string, fault: Reply, log: Log) returns (out: Reply)
      modifies this, log
      ensures !TruthyStr(listId) ==> out == Fails(PathError) && log.events == old(log.events)
      ensures TruthyStr(listId) ==> out == fault && log.events == old(log.events) + [Remote(RemoteOp.AddTask(listId.v))]
      ensures docs == (if out.Ok? then old(docs)[TaskDoc(listId.v, newId) := data] else old(docs))
    {
      if !TruthyStr(listId) {
        return Fails(PathError);
      }
      log.Add(Remote(RemoteOp.AddTask(listId.v)));
      out := fault;
      if out.Ok? {
        docs := docs[TaskDoc(listId.v, newId) := data];
      }
    }

    /** `addDoc(listsRef, data)`. */
    method AddList(data: Record, newId: string, fault: Reply, log: Log) returns (out: Reply)
      modifies this, log
      ensures out == fault
      ensures docs == (if out.Ok? then old(docs)[ListDoc(newId) := data] else old(docs))
      ensures log.events == old(log.events) + [Remote(RemoteOp.AddList)]
    {
      log.Add(Remote(RemoteOp.AddList));
      out := fault;
      if out.Ok? {
        docs := docs[ListDoc(newId) := data];
      }
    }

    /** `updateDoc(ref, data)`: merges `data` into an existing document; a missing one is an error. */
    method UpdateDoc(path: DocPath, data: Record, fault: Reply, log: Log) returns (out: Reply)
      modifies this, log
      ensures out == (if fault.Fails? then fault else if path !in old(docs) then Fails(NotFoundError) else Ok)
      ensures docs == (if out.Ok? then old(docs)[path := Merge(old(docs)[path], data)] else old(docs))
      ensures log.events == old(log.events) + [Remote(RemoteOp.UpdateDoc(path))]
    {
      log.Add(Remote(RemoteOp.UpdateDoc(path)));
      if fault.Fails? {
        return fault;
      }
      if path !in docs {
        return Fails(NotFoundError);
      }
      docs := docs[path := Merge(docs[path], data)];
      out := Ok;
    }

    /** `deleteDoc(ref)`: deleting a missing document succeeds. */
    method DeleteDoc(path: DocPath, fault: Reply, log: Log) returns (out: Reply)
      modifies this, log
      ensures out == fault
      ensures docs == (if out.Ok? then old(docs) - {path} else old(docs))
      ensures log.events == old(log.events) + [Remote(RemoteOp.DeleteDoc(path))]
    {
      log.Add(Remote(RemoteOp.DeleteDoc(path)));
      out := fault;
      if out.Ok? {
        docs := docs - {path};
      }
    }
  }
}
