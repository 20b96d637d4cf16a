/**
 * The asynchronous thunks of the tasks slice (src/redux/tasksSlice.jsx:25-282): each reads the
 * connectivity flag, talks to the local and the remote store, and settles. The outcome of every
 * store call, the clock and the fresh ids are inputs; what the thunk dispatches is recorded in the
 * log and applied to the slice.
 */
module TaskThunks {
  import opened Js
  import opened Records
  import opened Trace
  import opened Items
  import opened LocalDb
  import opened Remote
  import opened TasksSlice

  // ---------------------------------------------------------------------------
  // fetchTasks

  /** The catch of `fetchTasks` falls back to the cache for these errors and rethrows the others. */
  predicate IsNetworkError(e: Error, onlineNow: bool) {
    || e.code == Has("unavailable")
    || (e.message.Has? && (Includes(e.message.v, "network") || Includes(e.message.v, "failed") || Includes(e.message.v, "timeout")))
    || !onlineNow
  }

  /** A timed-out read is always a network error, so it always falls back to the cache. */
  lemma TimeoutIsNetworkError(onlineNow: bool)
    ensures IsNetworkError(TimeoutError, onlineNow)
  {
    assert OccursAt("Firebase timeout", "timeout", 9);
    IncludesAt("Firebase timeout", "timeout");
  }

  /** An error reported while the device is offline is always a network error. */
  lemma OfflineErrorIsNetworkError(e: Error)
    ensures IsNetworkError(e, false)
  {
  }

  /** A Firestore error with another code and a message naming none of the three words is rethrown. */
  lemma OtherErrorsAreRethrown(e: Error)
    requires e.code != Has("unavailable")
    requires e.message.Has? ==> !Includes(e.message.v, "network") && !Includes(e.message.v, "failed") && !Includes(e.message.v, "timeout")
    ensures !IsNetworkError(e, true)
  {
  }

  /** The error the `try` of an online `fetchTasks` ends with, if any. */
  function FetchError(listId: string, race: Race, remote: Reply): Option<Error> {
    if listId == "" then Some(PathError)
    else if race == TimedOut then Some(TimeoutError)
    else if remote.Fails? then Some(remote.error)
    else None
  }

  /** `dbLocal.tasks.where('listId').equals(listId).toArray()` inside a `try` that answers `[]`. */
  function CachedOrEmpty(tasks: map<string, Record>, listId: string, read: Reply): seq<Record> {
    if read.Ok? then ByListId(tasks, listId) else []
  }

  /**
   * `fetchTasks(listId)`. Offline it answers from the cache. Online it reads the remote list
   * (`race` says whether the 8-second timer won), upserts a non-empty result into the cache and
   * answers it; a network error falls back to the cache, `onlineAtCatch` being the connectivity
   * read again in the `catch`; any other error rejects.
   */
  method FetchTasks(db: LocalStore, rs: RemoteStore, log: Log, listId: string, online: bool, race: Race,
                    remote: Reply, cacheWrite: Reply, cacheRead: Reply, onlineAtCatch: bool)
    returns (res: Settled<seq<Record>>)
    requires db.Valid()
    modifies db, log
    ensures db.Valid() && db.lists == old(db.lists)
    ensures !online ==>
      && res == Fulfilled(CachedOrEmpty(old(db.tasks), listId, cacheRead))
      && db.tasks == old(db.tasks)
      && log.events == old(log.events) + [Local(TasksTable, LocalOp.ReadByList)]
    ensures online ==> FetchedOnline(old(db.tasks), db.tasks, rs.docs, old(log.events), log.events, res, listId, race,
                                     remote, cacheWrite, cacheRead, onlineAtCatch)
  {
    if !online {
      var out, rows := db.ReadByList(listId, cacheRead, log);
      return Fulfilled(rows);
    }
    res := FetchOnline(db, rs, log, listId, race, remote, cacheWrite, cacheRead, onlineAtCatch);
  }

  /**
   * The online path of `fetchTasks`: the remote read, the upsert of a non-empty result, and on an
   * error the cache fallback or the rejection.
   */
  predicate FetchedOnline(tasks: map<string, Record>, tasks': map<string, Record>, docs: map<DocPath, Record>,
                          events: seq<Event>, events': seq<Event>, res: Settled<seq<Record>>, listId: string,
                          race: Race, remote: Reply, cacheWrite: Reply, cacheRead: Reply, onlineAtCatch: bool)
  {
    var call := if listId == "" then [] else [Remote(RemoteOp.GetTasks(listId))];
    var fetched := TaskDocs(docs, listId);
    match FetchError(listId, race, remote)
    case None =>
      && res == Fulfilled(fetched)
      && (|fetched| > 0 ==> events' == events + call + [Local(TasksTable, LocalOp.BulkPut)])
      && (|fetched| == 0 ==> events' == events + call)
      && tasks' == (if |fetched| > 0 && BulkReply(fetched, cacheWrite).Ok? then PutAll(tasks, fetched) else tasks)
    case Some(e) =>
      && tasks' == tasks
      && (IsNetworkError(e, onlineAtCatch) ==>
        res == Fulfilled(CachedOrEmpty(tasks, listId, cacheRead))
        && events' == events + call + [Local(TasksTable, LocalOp.ReadByList)])
      && (!IsNetworkError(e, onlineAtCatch) ==> res == Rejected(e) && events' == events + call)
  }

  method FetchOnline(db: LocalStore, rs: RemoteStore, log: Log, listId: string, race: Race,
                     remote: Reply, cacheWrite: Reply, cacheRead: Reply, onlineAtCatch: bool)
    returns (res: Settled<seq<Record>>)
    requires db.Valid()
    modifies db, log
    ensures db.Valid() && db.lists == old(db.lists)
    ensures FetchedOnline(old(db.tasks), db.tasks, rs.docs, old(log.events), log.events, res, listId, race,
                          remote, cacheWrite, cacheRead, onlineAtCatch)
  {
    ghost var call := if listId == "" then [] else [Remote(RemoteOp.GetTasks(listId))];
    var out, fetched := rs.GetTasks(listId, remote, log);
    assert log.events == old(log.events) + call;
    var err := FetchError(listId, race, remote);
    if err.None? {
      assert fetched == TaskDocs(rs.docs, listId);
      if |fetched| > 0 {
        var _ := db.BulkPut(TasksTable, fetched, cacheWrite, log);
      }
      return Fulfilled(fetched);
    }
    if IsNetworkError(err.value, onlineAtCatch) {
      var _, rows := db.ReadByList(listId, cacheRead, log);
      return Fulfilled(rows);
    }
    return Rejected(err.value);
  }

  /** An online fetch that succeeds never removes a cached task: the cache only grows or is updated. */
  lemma FetchKeepsCachedTasks(tasks: map<string, Record>, fetched: seq<Record>, cacheWrite: Reply)
    requires BulkReply(fetched, cacheWrite).Ok?
    ensures tasks.Keys <= PutAll(tasks, fetched).Keys
    ensures forall k | k in tasks && k !in Ids(fetched) :: PutAll(tasks, fetched)[k] == tasks[k]
  {
    PutAllSpec(tasks, fetched);
  }

  // ---------------------------------------------------------------------------
  // createTask

  /** `taskWithDefaults` (src/redux/tasksSlice.jsx:96-106); `now` stands for `new Date().toISOString()`. */
  function WithDefaults(task: Record, listId: string, now: int, online: bool): (r: Record)
    ensures r.listId == Has(listId) && r.createdAt == Has(now)
    ensures r.tags == (if task.tags.Has? then task.tags else Has([]))
    ensures r.priority == Has(if TruthyStr(task.priority) then task.priority.v else Medium)
    ensures r.status == Has(if TruthyStr(task.status) then task.status.v else Todo)
    ensures r.isOffline == Has(!online) && r.syncFailed == Has(false)
    ensures r.(listId := task.listId, createdAt := task.createdAt, tags := task.tags, priority := task.priority,
               status := task.status, isOffline := task.isOffline, syncFailed := task.syncFailed) == task
  {
    task.(listId := Has(listId), createdAt := Has(now),
          tags := if task.tags.Has? then task.tags else Has([]),
          priority := Has(OrStr(task.priority, Medium)), status := Has(OrStr(task.status, Todo)),
          isOffline := Has(!online), syncFailed := Has(false))
  }

  /** `offline_${Date.now()}_${random}`: `suffix` stands for the nine base-36 digits. */
  function OfflineTaskId(nowMs: nat, suffix: string): (id: string)
    ensures IsLocalId(id)
  {
    assert (OfflinePrefix + (NatToString(nowMs) + "_" + suffix))[..|OfflinePrefix|] == OfflinePrefix;
    OfflinePrefix + (NatToString(nowMs) + "_" + suffix)
  }

  /** `tempId`: a fresh local id offline, `null` online. */
  function TempId(online: bool, nowMs: nat, suffix: string): Val<string> {
    if !online then Has(OfflineTaskId(nowMs, suffix)) else Null
  }

  /** The record the online failure path stores: offline, failed, under `tempId`. */
  function FallbackTask(withDefaults: Record, tempId: Val<string>): Record {
    withDefaults.(id := tempId, syncFailed := Has(true), isOffline := Has(true))
  }

  /**
   * `createTask({ listId, task })` as written. Offline it stores the record under a fresh
   * `offline_` id. Online it adds the remote document and caches `{ id: newId, ...taskWithDefaults }`,
   * ignoring a cache failure. When the remote add fails it stores the fallback record under
   * `tempId`, which is `null` online: the local store refuses that key, so the call always rejects.
   */
  method CreateTask(db: LocalStore, rs: RemoteStore, log: Log, listId: string, task: Record, online: bool,
                    now: int, nowMs: nat, suffix: string, newId: string, remote: Reply, local: Reply)
    returns (res: Settled<Record>)
    requires db.Valid()
    modifies db, rs, log
    ensures db.Valid() && db.lists == old(db.lists)
    ensures var d := WithDefaults(task, listId, now, online);
      !online ==>
        var r := d.(id := Has(OfflineTaskId(nowMs, suffix)));
        && rs.docs == old(rs.docs)
        && log.events == old(log.events) + [Local(TasksTable, LocalOp.Put)]
        && (local.Ok? ==> res == Fulfilled(r) && db.tasks == old(db.tasks)[r.id.v := r])
        && (local.Fails? ==> res == Rejected(local.error) && db.tasks == old(db.tasks))
    ensures var d := WithDefaults(task, listId, now, online);
      online && listId != "" && remote.Ok? ==>
        var r := Merge(WithId(newId), d);
        && rs.docs == old(rs.docs)[TaskDoc(listId, newId) := d]
        && log.events == old(log.events) + [Remote(RemoteOp.AddTask(listId)), Local(TasksTable, LocalOp.Put)]
        && res == Fulfilled(r)
        && db.tasks == (if PutReply(r, local).Ok? then old(db.tasks)[r.id.v := r] else old(db.tasks))
    ensures online && (listId == "" || remote.Fails?) ==>
      && rs.docs == old(rs.docs)
      && log.events == old(log.events) + (if listId == "" then [] else [Remote(RemoteOp.AddTask(listId))])
                                       + [Local(TasksTable, LocalOp.Put)]
      && res == Rejected(KeyError)
      && db.tasks == old(db.tasks)
  {
    var d := WithDefaults(task, listId, now, online);
    var tempId := TempId(online, nowMs, suffix);
    if !online {
      var offlineTask := d.(id := tempId);
      var out := db.Put(TasksTable, offlineTask, local, log);
      if out.Fails? {
        return Rejected(out.error);
      }
      return Fulfilled(offlineTask);
    }
    var added := rs.AddTask(Has(listId), d, newId, remote, log);
    if added.Ok? {
      var newTask := Merge(WithId(newId), d);
      var _ := db.Put(TasksTable, newTask, local, log);
      return Fulfilled(newTask);
    }
    var fallback := FallbackTask(d, tempId);
    var out := db.Put(TasksTable, fallback, local, log);
    if out.Fails? {
      return Rejected(out.error);
    }
    return Fulfilled(fallback);
  }

  /** Online, `tempId` is `null`, so the fallback record has no key and no store outcome saves it. */
  lemma OnlineFallbackIsRefused(task: Record, listId: string, now: int, nowMs: nat, suffix: string, fault: Reply)
    ensures PutReply(FallbackTask(WithDefaults(task, listId, now, true), TempId(true, nowMs, suffix)), fault) == Fails(KeyError)
  {
  }

  /**
   * `createTask` with the fallback path as evidently intended: the failed online create is kept
   * locally under a fresh `offline_` id, as an offline create is, so that the sweep can create it
   * remotely later.
   */
  method CreateTaskFixed(db: LocalStore, rs: RemoteStore, log: Log, listId: string, task: Record, online: bool,
                         now: int, nowMs: nat, suffix: string, newId: string, remote: Reply, local: Reply)
    returns (res: Settled<Record>)
    requires db.Valid()
    modifies db, rs, log
    ensures db.Valid() && db.lists == old(db.lists)
    ensures var d := WithDefaults(task, listId, now, online);
      !online ==>
        var r := d.(id := Has(OfflineTaskId(nowMs, suffix)));
        && rs.docs == old(rs.docs)
        && (local.Ok? ==> res == Fulfilled(r) && db.tasks == old(db.tasks)[r.id.v := r])
        && (local.Fails? ==> res == Rejected(local.error) && db.tasks == old(db.tasks))
    ensures var d := WithDefaults(task, listId, now, online);
      online && listId != "" && remote.Ok? ==>
        var r := Merge(WithId(newId), d);
        && rs.docs == old(rs.docs)[TaskDoc(listId, newId) := d]
        && res == Fulfilled(r)
        && db.tasks == (if PutReply(r, local).Ok? then old(db.tasks)[r.id.v := r] else old(db.tasks))
    ensures var d := WithDefaults(task, listId, now, online);
      online && (listId == "" || remote.Fails?) ==>
        var r := FallbackTask(d, Has(OfflineTaskId(nowMs, suffix)));
        && rs.docs == old(rs.docs)
        && (local.Ok? ==> res == Fulfilled(r) && db.tasks == old(db.tasks)[r.id.v := r])
        && (local.Fails? ==> res == Rejected(local.error) && db.tasks == old(db.tasks))
  {
    var d := WithDefaults(task, listId, now, online);
    var tempId := Has(OfflineTaskId(nowMs, suffix));
    if !online {
      var offlineTask := d.(id := tempId);
      var out := db.Put(TasksTable, offlineTask, local, log);
      if out.Fails? {
        return Rejected(out.error);
      }
      return Fulfilled(offlineTask);
    }
    var added := rs.AddTask(Has(listId), d, newId, remote, log);
    var fallback := FallbackTask(d, tempId);
    var stored := if added.Ok? then Merge(WithId(newId), d) else fallback;
    var out := db.Put(TasksTable, stored, local, log);
    if added.Ok? {
      return Fulfilled(stored);
    }
    if out.Fails? {
      return Rejected(out.error);
    }
    return Fulfilled(fallback);
  }

  /** The corrected fallback record is exactly what the sweep's create branch looks for. */
  lemma FixedFallbackIsSwept(task: Record, listId: string, now: int, nowMs: nat, suffix: string)
    requires !IsTrue(task.markedForDeletion)
    ensures var r := FallbackTask(WithDefaults(task, listId, now, true), Has(OfflineTaskId(nowMs, suffix)));
      r.id.Has? && IsLocalId(r.id.v) && IsTrue(r.isOffline) && !IsTrue(r.markedForDeletion) && r.listId == Has(listId)
  {
  }

  // ---------------------------------------------------------------------------
  // updateTaskThunk

  /** `{ ...task, isOffline: true, syncFailed: true, lastUpdated }`: the update kept for the next sync. */
  function Flagged(task: Record, now: int): Record {
    task.(isOffline := Has(true), syncFailed := Has(true), lastUpdated := Has(now))
  }

  /** `{ ...task, isOffline: false, syncFailed: false }`: the update the remote store has. */
  function Synced(task: Record): Record {
    task.(isOffline := Has(false), syncFailed := Has(false))
  }

  /** The error the `try` of an online update ends with, if any. */
  function UpdateError(docs: map<DocPath, Record>, listId: string, task: Record, remote: Reply, put: Reply): Option<Error> {
    match TaskPath(Has(listId), task.id)
    case None => Some(PathError)
    case Some(path) =>
      if remote.Fails? then Some(remote.error)
      else if path !in docs then Some(NotFoundError)
      else if PutReply(Synced(task), put).Fails? then Some(PutReply(Synced(task), put).error)
      else None
  }

  /** The remote documents after an online update: merged when `updateDoc` succeeded. */
  function UpdatedDocs(docs: map<DocPath, Record>, listId: string, task: Record, remote: Reply): map<DocPath, Record> {
    match TaskPath(Has(listId), task.id)
    case None => docs
    case Some(path) => if remote.Ok? && path in docs then docs[path := Merge(docs[path], task)] else docs
  }

  /** Offline, the update is stored flagged; when that write fails the thunk refetches and rejects. */
  method UpdateOffline(db: LocalStore, log: Log, listId: string, task: Record, now: int, put: Reply)
    returns (res: Settled<Record>)
    requires db.Valid()
    modifies db, log
    ensures db.Valid() && db.lists == old(db.lists)
    ensures var out := PutReply(Flagged(task, now), put);
      && (out.Ok? ==> res == Fulfilled(Flagged(task, now)) && db.tasks == old(db.tasks)[task.id.v := Flagged(task, now)]
                      && log.events == old(log.events) + [Local(TasksTable, LocalOp.Put)])
      && (out.Fails? ==> res == Rejected(out.error) && db.tasks == old(db.tasks)
                         && log.events == old(log.events) + [Local(TasksTable, LocalOp.Put), Dispatch(RefetchTasks(listId))])
  {
    var offlineTask := Flagged(task, now);
    var out := db.Put(TasksTable, offlineTask, put, log);
    if out.Ok? {
      return Fulfilled(offlineTask);
    }
    log.Add(Dispatch(RefetchTasks(listId)));
    return Rejected(out.error);
  }

  /**
   * Online, the remote document is merged and the cache gets the synced record; after any failure
   * the `catch` stores the record flagged instead, and only when that write fails too does it
   * refetch and reject with the first error.
   */
  method UpdateOnline(db: LocalStore, rs: RemoteStore, log: Log, listId: string, task: Record, now: int,
                      remote: Reply, firstPut: Reply, secondPut: Reply)
    returns (res: Settled<Record>)
    requires db.Valid()
    modifies db, rs, log
    ensures db.Valid() && db.lists == old(db.lists)
    ensures Extends(old(log.events), log.events)
    ensures rs.docs == UpdatedDocs(old(rs.docs), listId, task, remote)
    ensures match UpdateError(old(rs.docs), listId, task, remote, firstPut)
      case None => res == Fulfilled(Synced(task)) && db.tasks == old(db.tasks)[task.id.v := Synced(task)]
                   && !Refetches(log.events[|old(log.events)|..])
      case Some(e) =>
        var out := PutReply(Flagged(task, now), secondPut);
        && (out.Ok? ==> res == Fulfilled(Flagged(task, now)) && db.tasks == old(db.tasks)[task.id.v := Flagged(task, now)]
                        && !Refetches(log.events[|old(log.events)|..]))
        && (out.Fails? ==> res == Rejected(e) && db.tasks == old(db.tasks)
                           && EndsWith(log.events, Dispatch(RefetchTasks(listId))))
  {
    ghost var start := log.events;
    var err := UpdateTry(db, rs, log, listId, task, remote, firstPut);
    if err.None? {
      return Fulfilled(Synced(task));
    }
    ghost var mid := log.events;
    var offlineTask := Flagged(task, now);
    var out := db.Put(TasksTable, offlineTask, secondPut, log);
    if out.Ok? {
      assert log.events[|start|..] == mid[|start|..] + [Local(TasksTable, LocalOp.Put)];
      return Fulfilled(offlineTask);
    }
    log.Add(Dispatch(RefetchTasks(listId)));
    return Rejected(err.value);
  }

  /**
   * The `try` block of an online update: `updateDoc`, then the synced record is cached. It ends
   * with the error `UpdateError` names, and leaves the cache untouched when it fails.
   */
  method UpdateTry(db: LocalStore, rs: RemoteStore, log: Log, listId: string, task: Record, remote: Reply, put: Reply)
    returns (err: Option<Error>)
    requires db.Valid()
    modifies db, rs, log
    ensures db.Valid() && db.lists == old(db.lists)
    ensures Extends(old(log.events), log.events) && !Refetches(log.events[|old(log.events)|..])
    ensures rs.docs == UpdatedDocs(old(rs.docs), listId, task, remote)
    ensures err == UpdateError(old(rs.docs), listId, task, remote, put)
    ensures err.None? ==> db.tasks == old(db.tasks)[task.id.v := Synced(task)]
    ensures err.Some? ==> db.tasks == old(db.tasks)
  {
    var path := TaskPath(Has(listId), task.id);
    if path.None? {
      return Some(PathError);
    }
    var updated := rs.UpdateDoc(path.value, task, remote, log);
    if updated.Fails? {
      assert log.events[|old(log.events)|..] == [Remote(RemoteOp.UpdateDoc(path.value))];
      return Some(updated.error);
    }
    var out := db.Put(TasksTable, Synced(task), put, log);
    assert log.events[|old(log.events)|..] == [Remote(RemoteOp.UpdateDoc(path.value)), Local(TasksTable, LocalOp.Put)];
    if out.Ok? {
      return None;
    }
    return Some(out.error);
  }

  /**
   * `updateTaskThunk({ listId, task })`: the optimistic replace is dispatched before any store is
   * touched. Offline, and online after any failure, the task is stored flagged for the next sync
   * and the call resolves with it; only when that local write fails too does it dispatch a refetch
   * and reject.
   */
  method UpdateTaskThunk(db: LocalStore, rs: RemoteStore, st: TasksState, log: Log, listId: string, task: Record,
                         online: bool, now: int, remote: Reply, firstPut: Reply, secondPut: Reply)
    returns (res: Settled<Record>)
    requires db.Valid()
    modifies db, rs, st, log
    ensures db.Valid() && db.lists == old(db.lists)
    ensures st.Snapshot() == old(st.Snapshot()).(items := ReplaceFirst(old(st.items), task))
    ensures |log.events| > |old(log.events)| && log.events[..|old(log.events)| + 1] == old(log.events) + [Dispatch(OptimisticUpdate(task))]
    ensures !online ==> rs.docs == old(rs.docs)
    ensures !online ==>
      var out := PutReply(Flagged(task, now), firstPut);
      && (out.Ok? ==> res == Fulfilled(Flagged(task, now)) && db.tasks == old(db.tasks)[task.id.v := Flagged(task, now)]
                      && log.events == old(log.events) + [Dispatch(OptimisticUpdate(task)), Local(TasksTable, LocalOp.Put)])
      && (out.Fails? ==> res == Rejected(out.error) && db.tasks == old(db.tasks)
                         && log.events == old(log.events) + [Dispatch(OptimisticUpdate(task)), Local(TasksTable, LocalOp.Put),
                                                             Dispatch(RefetchTasks(listId))])
    ensures online ==> rs.docs == UpdatedDocs(old(rs.docs), listId, task, remote)
    ensures online ==>
      match UpdateError(old(rs.docs), listId, task, remote, firstPut)
      case None => res == Fulfilled(Synced(task)) && db.tasks == old(db.tasks)[task.id.v := Synced(task)]
      case Some(e) =>
        var out := PutReply(Flagged(task, now), secondPut);
        && (out.Ok? ==> res == Fulfilled(Flagged(task, now)) && db.tasks == old(db.tasks)[task.id.v := Flagged(task, now)])
        && (out.Fails? ==> res == Rejected(e) && db.tasks == old(db.tasks)
                           && EndsWith(log.events, Dispatch(RefetchTasks(listId))))
  {
    st.OptimisticUpdateTask(task);
    log.Add(Dispatch(OptimisticUpdate(task)));
    if !online {
      res := UpdateOffline(db, log, listId, task, now, firstPut);
    } else {
      res := UpdateOnline(db, rs, log, listId, task, now, remote, firstPut, secondPut);
    }
  }

  // ---------------------------------------------------------------------------
  // deleteTaskThunk

  /** `{ ...task, markedForDeletion: true, markedAt }`: the soft delete. */
  function Marked(task: Record, now: int): Record {
    task.(markedForDeletion := Has(true), markedAt := Has(now))
  }

  /**
   * `const task = await dbLocal.tasks.get(id); if (task) await dbLocal.tasks.put({ ...task,
   * markedForDeletion: true, markedAt })`: a stored task is marked, a missing one is left alone.
   */
  method SoftDelete(db: LocalStore, log: Log, id: string, now: int, get: Reply, put: Reply) returns (out: Reply)
    requires db.Valid()
    modifies db, log
    ensures db.Valid() && db.lists == old(db.lists)
    ensures out == (if get.Fails? then get else if id in old(db.tasks) then put else Ok)
    ensures db.tasks == (if get.Ok? && id in old(db.tasks) && put.Ok? then old(db.tasks)[id := Marked(old(db.tasks)[id], now)]
                         else old(db.tasks))
    ensures log.events == old(log.events) + [Local(TasksTable, LocalOp.Get)]
                          + (if get.Ok? && id in old(db.tasks) then [Local(TasksTable, LocalOp.Put)] else [])
  {
    var found;
    out, found := db.Get(TasksTable, id, get, log);
    if out.Fails? || found.Absent? {
      return;
    }
    assert found.v.id == Has(id);
    out := db.Put(TasksTable, Marked(found.v, now), put, log);
  }

  /** Offline, the task is only marked; a failure refetches and rejects. */
  method DeleteOffline(db: LocalStore, log: Log, listId: string, id: string, now: int, get: Reply, put: Reply)
    returns (res: Settled<string>)
    requires db.Valid()
    modifies db, log
    ensures db.Valid() && db.lists == old(db.lists)
    ensures Extends(old(log.events), log.events)
    ensures var out := if get.Fails? then get else if id in old(db.tasks) then put else Ok;
      && (out.Ok? ==> res == Fulfilled(id) && !Refetches(log.events[|old(log.events)|..]))
      && (out.Fails? ==> res == Rejected(out.error) && EndsWith(log.events, Dispatch(RefetchTasks(listId))))
    ensures db.tasks == (if get.Ok? && id in old(db.tasks) && put.Ok? then old(db.tasks)[id := Marked(old(db.tasks)[id], now)]
                         else old(db.tasks))
    ensures NoRemote(log.events[|old(log.events)|..])
  {
    var out := SoftDelete(db, log, id, now, get, put);
    if out.Ok? {
      return Fulfilled(id);
    }
    log.Add(Dispatch(RefetchTasks(listId)));
    return Rejected(out.error);
  }

  /**
   * Online, the remote document is deleted first and the cached record only after that; when
   * either step fails the `catch` falls back to the soft delete, and only when that fails too does
   * it refetch and reject with the first error.
   */
  method DeleteOnline(db: LocalStore, rs: RemoteStore, log: Log, listId: string, id: string, now: int,
                      remote: Reply, first: Reply, second: Reply, third: Reply)
    returns (res: Settled<string>)
    requires db.Valid()
    modifies db, rs, log
    ensures db.Valid() && db.lists == old(db.lists)
    ensures Extends(old(log.events), log.events)
    ensures var path := TaskPath(Has(listId), Has(id));
      && rs.docs == (if path.Some? && remote.Ok? then old(rs.docs) - {path.value} else old(rs.docs))
      && (path.Some? && remote.Ok? && first.Ok? ==> res == Fulfilled(id) && db.tasks == old(db.tasks) - {id})
      && (!(path.Some? && remote.Ok? && first.Ok?) ==>
            var e := if path.None? then PathError else if remote.Fails? then remote.error else first.error;
            var out := if second.Fails? then second else if id in old(db.tasks) then third else Ok;
            && (out.Ok? ==> res == Fulfilled(id))
            && (out.Fails? ==> res == Rejected(e) && EndsWith(log.events, Dispatch(RefetchTasks(listId))))
            && db.tasks == (if second.Ok? && id in old(db.tasks) && third.Ok? then old(db.tasks)[id := Marked(old(db.tasks)[id], now)]
                            else old(db.tasks)))
  {
    var err: Error;
    var path := TaskPath(Has(listId), Has(id));
    if path.None? {
      err := PathError;
    } else {
      var removed := rs.DeleteDoc(path.value, remote, log);
      if removed.Ok? {
        var out := db.Delete(TasksTable, id, first, log);
        if out.Ok? {
          return Fulfilled(id);
        }
        err := out.error;
      } else {
        err := removed.error;
      }
    }
    var out := SoftDelete(db, log, id, now, second, third);
    if out.Ok? {
      return Fulfilled(id);
    }
    log.Add(Dispatch(RefetchTasks(listId)));
    return Rejected(err);
  }

  /**
   * `deleteTaskThunk({ listId, id })`: the optimistic removal is dispatched first. Only a remote
   * delete followed by a local delete removes the record from the cache; offline, or after a
   * failure, an existing record is kept and marked for deletion, a missing one is left alone, and
   * the call resolves with `id`. When the marking itself fails it dispatches a refetch and rejects.
   */
  method DeleteTaskThunk(db: LocalStore, rs: RemoteStore, st: TasksState, log: Log, listId: string, id: string,
                         online: bool, now: int, remote: Reply, first: Reply, second: Reply, third: Reply)
    returns (res: Settled<string>)
    requires db.Valid()
    modifies db, rs, st, log
    ensures db.Valid() && db.lists == old(db.lists)
    ensures st.Snapshot() == old(st.Snapshot()).(items := RemoveId(old(st.items), Has(id)))
    ensures |log.events| > |old(log.events)| && log.events[..|old(log.events)| + 1] == old(log.events) + [Dispatch(OptimisticDelete(id))]
    // the record leaves the cache only after a successful remote delete
    ensures id in old(db.tasks) && id !in db.tasks ==>
      online && res == Fulfilled(id) && TaskPath(Has(listId), Has(id)).Some? && remote.Ok? && first.Ok?
    // otherwise it stays, marked or unchanged, and no other record changes
    ensures id in db.tasks ==>
      (id in old(db.tasks) && (db.tasks == old(db.tasks) || db.tasks == old(db.tasks)[id := Marked(old(db.tasks)[id], now)]))
    ensures forall k | k != id :: (k in db.tasks <==> k in old(db.tasks)) && (k in db.tasks ==> db.tasks[k] == old(db.tasks)[k])
    ensures !online ==> rs.docs == old(rs.docs)
    ensures !online ==>
      var out := if first.Fails? then first else if id in old(db.tasks) then second else Ok;
      && (out.Ok? ==> res == Fulfilled(id))
      && (out.Fails? ==> res == Rejected(out.error) && EndsWith(log.events, Dispatch(RefetchTasks(listId))))
      && db.tasks == (if first.Ok? && id in old(db.tasks) && second.Ok? then old(db.tasks)[id := Marked(old(db.tasks)[id], now)]
                      else old(db.tasks))
    ensures online ==>
      var path := TaskPath(Has(listId), Has(id));
      && rs.docs == (if path.Some? && remote.Ok? then old(rs.docs) - {path.value} else old(rs.docs))
      && (path.Some? && remote.Ok? && first.Ok? ==> res == Fulfilled(id) && db.tasks == old(db.tasks) - {id})
      && (!(path.Some? && remote.Ok? && first.Ok?) ==>
            var e := if path.None? then PathError else if remote.Fails? then remote.error else first.error;
            var out := if second.Fails? then second else if id in old(db.tasks) then third else Ok;
            && (out.Ok? ==> res == Fulfilled(id))
            && (out.Fails? ==> res == Rejected(e) && EndsWith(log.events, Dispatch(RefetchTasks(listId)))))
  {
    st.OptimisticDeleteTask(Has(id));
    log.Add(Dispatch(OptimisticDelete(id)));
    if !online {
      res := DeleteOffline(db, log, listId, id, now, first, second);
    } else {
      res := DeleteOnline(db, rs, log, listId, id, now, remote, first, second, third);
    }
  }
}
