/**
 * `syncOfflineTasks` (src/redux/tasksSlice.jsx:285-346): when online, every cached task that is
 * offline, failed or marked for deletion is pushed to the remote store one after the other. A step
 * that throws marks its task failed and the loop goes on; only a failure of that marking ends the
 * sweep and rejects the thunk.
 */
module TaskSync {
  import opened Js
  import opened Records
  import opened Trace
  import opened LocalDb
  import opened Remote
  import opened TaskSelectors

  /** What the stores answer to the calls of one step, in call order, and the id `addDoc` assigns. */
  datatype StepPlan = StepPlan(remote: Reply, newId: string, first: Reply, second: Reply, restore: Reply)

  /** The stores, the calls made and the first error, after the `try` block of one step. */
  datatype TryResult = TryResult(local: map<string, Record>, remote: map<DocPath, Record>, events: seq<Event>,
                                 err: Option<Error>)

  datatype Outcome = Synced | Failed | Aborted(error: Error)

  /** The stores and the calls made after one whole step, and how the step ended. */
  datatype After = After(local: map<string, Record>, remote: map<DocPath, Record>, events: seq<Event>, outcome: Outcome)

  /** `const { id, listId, isOffline, syncFailed, markedForDeletion, ...taskData } = task` */
  function UpdateData(t: Record): Record {
    t.(id := Absent, listId := Absent, isOffline := Absent, syncFailed := Absent, markedForDeletion := Absent)
  }

  /** `const { id, isOffline, syncFailed, markedForDeletion, ...taskData } = task` */
  function CreateData(t: Record): Record {
    t.(id := Absent, isOffline := Absent, syncFailed := Absent, markedForDeletion := Absent)
  }

  /** `{ ...task, isOffline: false, syncFailed: false }` */
  function Cleared(t: Record): Record {
    t.(isOffline := Has(false), syncFailed := Has(false))
  }

  /** `{ ...task, syncFailed: true }`: the record kept for the next attempt. */
  function FailedCopy(t: Record): Record {
    t.(syncFailed := Has(true))
  }

  /** The three kinds of step, tried in this order; any other selected task needs no call. */
  predicate IsDeletion(t: Record) {
    IsTrue(t.markedForDeletion)
  }

  predicate IsUpdate(t: Record)
    requires t.id.Has?
  {
    !IsDeletion(t) && IsTrue(t.isOffline) && !IsLocalId(t.id.v)
  }

  predicate IsCreation(t: Record)
    requires t.id.Has?
  {
    !IsDeletion(t) && IsTrue(t.isOffline) && IsLocalId(t.id.v)
  }

  /** `deleteDoc(getTaskDoc(task.listId, task.id))`, then `dbLocal.tasks.delete(task.id)`. */
  function TryDelete(local: map<string, Record>, remote: map<DocPath, Record>, t: Record, p: StepPlan): TryResult
    requires t.id.Has?
  {
    match TaskPath(t.listId, t.id)
    case None => TryResult(local, remote, [], Some(PathError))
    case Some(path) =>
      var calls := [Remote(RemoteOp.DeleteDoc(path))];
      if p.remote.Fails? then TryResult(local, remote, calls, Some(p.remote.error))
      else if p.first.Fails? then TryResult(local, remote - {path}, calls + [Local(TasksTable, LocalOp.Delete)], Some(p.first.error))
      else TryResult(local - {t.id.v}, remote - {path}, calls + [Local(TasksTable, LocalOp.Delete)], None)
  }

  /** `updateDoc(doc(tasksRef(listId), id), taskData)`, then the cleared record is cached. */
  function TryUpdate(local: map<string, Record>, remote: map<DocPath, Record>, t: Record, p: StepPlan): TryResult
    requires t.id.Has?
  {
    match TaskPath(t.listId, t.id)
    case None => TryResult(local, remote, [], Some(PathError))
    case Some(path) =>
      var calls := [Remote(RemoteOp.UpdateDoc(path))];
      if p.remote.Fails? then TryResult(local, remote, calls, Some(p.remote.error))
      else if path !in remote then TryResult(local, remote, calls, Some(NotFoundError))
      else
        var remote' := remote[path := Merge(remote[path], UpdateData(t))];
        if p.first.Fails? then TryResult(local, remote', calls + [Local(TasksTable, LocalOp.Put)], Some(p.first.error))
        else TryResult(local[t.id.v := Cleared(t)], remote', calls + [Local(TasksTable, LocalOp.Put)], None)
  }

  /**
   * `addDoc(tasksRef(task.listId), taskData)`, then the `offline_` record is deleted and
   * `{ ...taskData, id: newDoc.id }` is cached.
   */
  function TryCreate(local: map<string, Record>, remote: map<DocPath, Record>, t: Record, p: StepPlan): TryResult
    requires t.id.Has?
  {
    if !TruthyStr(t.listId) then TryResult(local, remote, [], Some(PathError))
    else
      var data := CreateData(t);
      var calls := [Remote(RemoteOp.AddTask(t.listId.v))];
      if p.remote.Fails? then TryResult(local, remote, calls, Some(p.remote.error))
      else
        var remote' := remote[TaskDoc(t.listId.v, p.newId) := data];
        var calls' := calls + [Local(TasksTable, LocalOp.Delete)];
        if p.first.Fails? then TryResult(local, remote', calls', Some(p.first.error))
        else if p.second.Fails? then TryResult(local - {t.id.v}, remote', calls' + [Local(TasksTable, LocalOp.Put)], Some(p.second.error))
        else TryResult((local - {t.id.v})[p.newId := data.(id := Has(p.newId))], remote', calls' + [Local(TasksTable, LocalOp.Put)], None)
  }

  /** The `try` block of one step. */
  function Try(local: map<string, Record>, remote: map<DocPath, Record>, t: Record, p: StepPlan): TryResult
    requires t.id.Has?
  {
    if IsDeletion(t) then TryDelete(local, remote, t, p)
    else if IsUpdate(t) then TryUpdate(local, remote, t, p)
    else if IsCreation(t) then TryCreate(local, remote, t, p)
    else TryResult(local, remote, [], None)
  }

  /** One step: the `try`, and on an error the `catch` that stores the task as failed. */
  function Attempt(local: map<string, Record>, remote: map<DocPath, Record>, t: Record, p: StepPlan): After
    requires t.id.Has?
  {
    var r := Try(local, remote, t, p);
    if r.err.None? then After(r.local, r.remote, r.events, Synced)
    else if p.restore.Ok? then After(r.local[t.id.v := FailedCopy(t)], r.remote, r.events + [Local(TasksTable, LocalOp.Put)], Failed)
    else After(r.local, r.remote, r.events + [Local(TasksTable, LocalOp.Put)], Aborted(p.restore.error))
  }

  // ---------------------------------------------------------------------------
  // The sweep

  /** The state of the sweep: the stores, the calls made, the two counters and the error that ended it. */
  datatype Progress = Progress(local: map<string, Record>, remote: map<DocPath, Record>, events: seq<Event>,
                               synced: nat, failed: nat, aborted: Option<Error>)

  function Start(local: map<string, Record>, remote: map<DocPath, Record>): Progress {
    Progress(local, remote, [], 0, 0, None)
  }

  /** `for (const task of offlineTasks)`: one more step, counted by how it ended. */
  function Step(pr: Progress, t: Record, p: StepPlan): Progress
    requires t.id.Has?
  {
    var a := Attempt(pr.local, pr.remote, t, p);
    Progress(a.local, a.remote, pr.events + a.events,
             pr.synced + (if a.outcome.Synced? then 1 else 0),
             pr.failed + (if a.outcome.Failed? then 1 else 0),
             if a.outcome.Aborted? then Some(a.outcome.error) else None)
  }

  predicate AllKeyed(sel: seq<Record>) {
    forall i | 0 <= i < |sel| :: sel[i].id.Has?
  }

  /**
   * The loop over the selected tasks from position `i` on; step `i` meets the outcomes `plans(i)`;
   * an abort ends it.
   */
  function SweepFrom(pr: Progress, sel: seq<Record>, i: nat, plans: nat -> StepPlan): Progress
    requires AllKeyed(sel)
    decreases |sel| - i
  {
    if i >= |sel| || pr.aborted.Some? then pr
    else SweepFrom(Step(pr, sel[i], plans(i)), sel, i + 1, plans)
  }

  /** The whole loop. */
  function Sweep(init: Progress, sel: seq<Record>, plans: nat -> StepPlan): Progress
    requires AllKeyed(sel)
  {
    SweepFrom(init, sel, 0, plans)
  }

  /**
   * Every task the sweep goes through is counted once: the counters add up to the number of
   * selected tasks, unless marking a failure itself failed and ended the sweep early.
   */
  lemma {:induction false} SweepFromCounts(pr: Progress, sel: seq<Record>, i: nat, plans: nat -> StepPlan)
    requires AllKeyed(sel) && pr.aborted.None? && i <= |sel|
    ensures var end := SweepFrom(pr, sel, i, plans);
      && (end.aborted.None? ==> end.synced + end.failed == pr.synced + pr.failed + (|sel| - i))
      && (end.aborted.Some? ==> end.synced + end.failed < pr.synced + pr.failed + (|sel| - i))
    decreases |sel| - i
  {
    if i < |sel| {
      var next := Step(pr, sel[i], plans(i));
      if next.aborted.None? {
        SweepFromCounts(next, sel, i + 1, plans);
      }
    }
  }

  lemma SweepCounts(init: Progress, sel: seq<Record>, plans: nat -> StepPlan)
    requires AllKeyed(sel) && init.aborted.None?
    ensures var end := Sweep(init, sel, plans);
      && (end.aborted.None? ==> end.synced + end.failed == init.synced + init.failed + |sel|)
      && (end.aborted.Some? ==> end.synced + end.failed < init.synced + init.failed + |sel|)
  {
    SweepFromCounts(init, sel, 0, plans);
  }

  /** A step keeps every cached record under its own id. */
  lemma AttemptKeyed(local: map<string, Record>, remote: map<DocPath, Record>, t: Record, p: StepPlan)
    requires t.id.Has? && Keyed(local)
    ensures Keyed(Attempt(local, remote, t, p).local)
  {
    TryEffect(local, remote, t, p);
  }

  /** The sweep keeps every cached record under its own id. */
  lemma {:induction false} SweepFromKeyed(pr: Progress, sel: seq<Record>, i: nat, plans: nat -> StepPlan)
    requires AllKeyed(sel) && Keyed(pr.local)
    ensures Keyed(SweepFrom(pr, sel, i, plans).local)
    decreases |sel| - i
  {
    if i < |sel| && pr.aborted.None? {
      AttemptKeyed(pr.local, pr.remote, sel[i], plans(i));
      SweepFromKeyed(Step(pr, sel[i], plans(i)), sel, i + 1, plans);
    }
  }

  /** The calls of the earlier steps stay at the front of the record of calls. */
  lemma {:induction false} SweepFromExtends(pr: Progress, sel: seq<Record>, i: nat, plans: nat -> StepPlan)
    requires AllKeyed(sel)
    ensures Extends(pr.events, SweepFrom(pr, sel, i, plans).events)
    decreases |sel| - i
  {
    if i < |sel| && pr.aborted.None? {
      var next := Step(pr, sel[i], plans(i));
      SweepFromExtends(next, sel, i + 1, plans);
      var rest := SweepFrom(next, sel, i + 1, plans).events;
      assert rest[..|pr.events|] == next.events[..|next.events|][..|pr.events|];
    }
  }

  /** A step changes the cache only at the task's own id and at the id `addDoc` assigned. */
  lemma AttemptFrame(local: map<string, Record>, remote: map<DocPath, Record>, t: Record, p: StepPlan)
    requires t.id.Has?
    ensures var a := Attempt(local, remote, t, p);
      forall k | k != t.id.v && k != p.newId :: (k in a.local <==> k in local) && (k in local ==> a.local[k] == local[k])
    ensures var a := Attempt(local, remote, t, p);
      !IsCreation(t) ==> forall k | k != t.id.v :: (k in a.local <==> k in local) && (k in local ==> a.local[k] == local[k])
  {
    TryEffect(local, remote, t, p);
    var a := Attempt(local, remote, t, p);
    forall k | k != t.id.v && k != p.newId
      ensures (k in a.local <==> k in local) && (k in local ==> a.local[k] == local[k])
    {
      assert SameAt(local, Try(local, remote, t, p).local, k);
    }
    if !IsCreation(t) {
      forall k | k != t.id.v
        ensures (k in a.local <==> k in local) && (k in local ==> a.local[k] == local[k])
      {
        assert SameAt(local, Try(local, remote, t, p).local, k);
      }
    }
  }

  /** Key `k` is cached in `m'` exactly as in `m`. */
  predicate SameAt(m: map<string, Record>, m': map<string, Record>, k: string) {
    (k in m' <==> k in m) && (k in m ==> m'[k] == m[k])
  }

  /** The `try` block keeps the cache keyed and touches only the task's id and the assigned id. */
  lemma TryEffect(local: map<string, Record>, remote: map<DocPath, Record>, t: Record, p: StepPlan)
    requires t.id.Has?
    ensures var r := Try(local, remote, t, p);
      (Keyed(local) ==> Keyed(r.local))
      && (forall k | k != t.id.v && k != p.newId :: SameAt(local, r.local, k))
      && (!IsCreation(t) ==> forall k | k != t.id.v :: SameAt(local, r.local, k))
  {
    if IsDeletion(t) {
      TryDeleteEffect(local, remote, t, p);
    } else if IsUpdate(t) {
      TryUpdateEffect(local, remote, t, p);
    } else if IsCreation(t) {
      TryCreateEffect(local, remote, t, p);
    }
  }

  lemma TryDeleteEffect(local: map<string, Record>, remote: map<DocPath, Record>, t: Record, p: StepPlan)
    requires t.id.Has?
    ensures var r := TryDelete(local, remote, t, p);
      (Keyed(local) ==> Keyed(r.local)) && forall k | k != t.id.v :: SameAt(local, r.local, k)
  {
  }

  lemma TryUpdateEffect(local: map<string, Record>, remote: map<DocPath, Record>, t: Record, p: StepPlan)
    requires t.id.Has?
    ensures var r := TryUpdate(local, remote, t, p);
      (Keyed(local) ==> Keyed(r.local)) && forall k | k != t.id.v :: SameAt(local, r.local, k)
  {
  }

  lemma TryCreateEffect(local: map<string, Record>, remote: map<DocPath, Record>, t: Record, p: StepPlan)
    requires t.id.Has?
    ensures var r := TryCreate(local, remote, t, p);
      (Keyed(local) ==> Keyed(r.local)) && forall k | k != t.id.v && k != p.newId :: SameAt(local, r.local, k)
  {
  }

  /** A completed deletion removes the task from both stores. */
  lemma DeletionSynced(local: map<string, Record>, remote: map<DocPath, Record>, t: Record, p: StepPlan)
    requires t.id.Has? && IsDeletion(t)
    ensures var a := Attempt(local, remote, t, p);
      a.outcome.Synced? <==> TaskPath(t.listId, t.id).Some? && p.remote.Ok? && p.first.Ok?
    ensures var a := Attempt(local, remote, t, p);
      a.outcome.Synced? ==> t.id.v !in a.local && TaskDoc(t.listId.v, t.id.v) !in a.remote
  {
  }

  /**
   * A completed update merges the task's fields, without its bookkeeping flags, into the existing
   * remote document, and caches the task with both flags cleared.
   */
  lemma UpdateSynced(local: map<string, Record>, remote: map<DocPath, Record>, t: Record, p: StepPlan)
    requires t.id.Has? && IsUpdate(t)
    ensures var a := Attempt(local, remote, t, p);
      a.outcome.Synced? <==> TaskPath(t.listId, t.id).Some? && p.remote.Ok? && TaskDoc(t.listId.v, t.id.v) in remote && p.first.Ok?
    ensures var a := Attempt(local, remote, t, p);
      a.outcome.Synced? ==>
        var path := TaskDoc(t.listId.v, t.id.v);
        && a.remote == remote[path := Merge(remote[path], UpdateData(t))]
        && a.local == local[t.id.v := Cleared(t)]
        && !NeedsSync(a.local[t.id.v])
  {
  }

  /**
   * A completed creation replaces the `offline_` record by one under the id the remote store
   * assigned, which no longer needs a sync, and stores the task's data remotely.
   */
  lemma CreationReplacesId(local: map<string, Record>, remote: map<DocPath, Record>, t: Record, p: StepPlan)
    requires t.id.Has? && IsCreation(t) && !IsLocalId(p.newId)
    ensures var a := Attempt(local, remote, t, p);
      a.outcome.Synced? <==> TruthyStr(t.listId) && p.remote.Ok? && p.first.Ok? && p.second.Ok?
    ensures var a := Attempt(local, remote, t, p);
      a.outcome.Synced? ==>
        && t.id.v !in a.local
        && p.newId in a.local && a.local[p.newId] == CreateData(t).(id := Has(p.newId))
        && !NeedsSync(a.local[p.newId])
        && a.remote == remote[TaskDoc(t.listId.v, p.newId) := CreateData(t)]
  {
    assert t.id.v != p.newId;
  }

  /**
   * A failed step leaves the cache as it was except that the task is stored with `syncFailed`,
   * whatever part of the step had already happened; the remote store may keep what the step did.
   */
  lemma FailureIsolated(local: map<string, Record>, remote: map<DocPath, Record>, t: Record, p: StepPlan)
    requires t.id.Has?
    ensures var a := Attempt(local, remote, t, p);
      a.outcome.Failed? <==> Try(local, remote, t, p).err.Some? && p.restore.Ok?
    ensures var a := Attempt(local, remote, t, p);
      a.outcome.Failed? ==> a.local == local[t.id.v := FailedCopy(t)]
  {
    var r := Try(local, remote, t, p);
    if IsCreation(t) && r.err.Some? && p.restore.Ok? {
      assert (local - {t.id.v})[t.id.v := FailedCopy(t)] == local[t.id.v := FailedCopy(t)];
    }
  }

  /**
   * A creation that failed after `addDoc` succeeded leaves the new remote document in place and the
   * `offline_` record still waiting, so the next sweep creates the task remotely a second time.
   */
  lemma CreationRetriedAfterAdd(local: map<string, Record>, remote: map<DocPath, Record>, t: Record, p: StepPlan)
    requires t.id.Has? && IsCreation(t) && TruthyStr(t.listId)
    requires p.remote.Ok? && (p.first.Fails? || p.second.Fails?) && p.restore.Ok?
    ensures var a := Attempt(local, remote, t, p);
      && a.outcome == Failed
      && TaskDoc(t.listId.v, p.newId) in a.remote
      && t.id.v in a.local && NeedsSync(a.local[t.id.v]) && IsCreation(a.local[t.id.v])
  {
  }

  /**
   * A task selected only because `syncFailed` is set matches none of the three kinds: it is counted
   * as synced, no call is made, and it keeps its flag, so it is selected again by every sweep.
   */
  lemma SyncFailedOnlyIsKept(local: map<string, Record>, remote: map<DocPath, Record>, t: Record, p: StepPlan)
    requires t.id.Has? && IsTrue(t.syncFailed) && !IsTrue(t.isOffline) && !IsTrue(t.markedForDeletion)
    ensures Attempt(local, remote, t, p) == After(local, remote, [], Synced)
    ensures NeedsSync(t)
  {
  }

  // ---------------------------------------------------------------------------
  // The imperative steps

  /** `{ synced, failed }` */
  datatype Counts = Counts(synced: nat, failed: nat)

  method SyncDeletion(db: LocalStore, rs: RemoteStore, log: Log, t: Record, p: StepPlan) returns (err: Option<Error>)
    requires db.Valid() && t.id.Has?
    modifies db, rs, log
    ensures db.Valid() && db.lists == old(db.lists)
    ensures var r := TryDelete(old(db.tasks), old(rs.docs), t, p);
      db.tasks == r.local && rs.docs == r.remote && log.events == old(log.events) + r.events && err == r.err
  {
    var path := TaskPath(t.listId, t.id);
    if path.None? {
      return Some(PathError);
    }
    var out := rs.DeleteDoc(path.value, p.remote, log);
    if out.Fails? {
      return Some(out.error);
    }
    out := db.Delete(TasksTable, t.id.v, p.first, log);
    if out.Fails? {
      return Some(out.error);
    }
    return None;
  }

  method SyncUpdate(db: LocalStore, rs: RemoteStore, log: Log, t: Record, p: StepPlan) returns (err: Option<Error>)
    requires db.Valid() && t.id.Has?
    modifies db, rs, log
    ensures db.Valid() && db.lists == old(db.lists)
    ensures var r := TryUpdate(old(db.tasks), old(rs.docs), t, p);
      db.tasks == r.local && rs.docs == r.remote && log.events == old(log.events) + r.events && err == r.err
  {
    var path := TaskPath(t.listId, t.id);
    if path.None? {
      return Some(PathError);
    }
    var out := rs.UpdateDoc(path.value, UpdateData(t), p.remote, log);
    if out.Fails? {
      return Some(out.error);
    }
    out := db.Put(TasksTable, Cleared(t), p.first, log);
    if out.Fails? {
      return Some(out.error);
    }
    return None;
  }

  method SyncCreation(db: LocalStore, rs: RemoteStore, log: Log, t: Record, p: StepPlan) returns (err: Option<Error>)
    requires db.Valid() && t.id.Has?
    modifies db, rs, log
    ensures db.Valid() && db.lists == old(db.lists)
    ensures var r := TryCreate(old(db.tasks), old(rs.docs), t, p);
      db.tasks == r.local && rs.docs == r.remote && log.events == old(log.events) + r.events && err == r.err
  {
    var data := CreateData(t);
    var out := rs.AddTask(t.listId, data, p.newId, p.remote, log);
    if out.Fails? {
      return Some(out.error);
    }
    out := db.Delete(TasksTable, t.id.v, p.first, log);
    if out.Fails? {
      return Some(out.error);
    }
    out := db.Put(TasksTable, data.(id := Has(p.newId)), p.second, log);
    if out.Fails? {
      return Some(out.error);
    }
    return None;
  }

  /** One pass of the loop body: the step that fits the task, then the `catch`. */
  method SyncOne(db: LocalStore, rs: RemoteStore, log: Log, t: Record, p: StepPlan) returns (outcome: Outcome)
    requires db.Valid() && t.id.Has?
    modifies db, rs, log
    ensures db.Valid() && db.lists == old(db.lists)
    ensures var a := Attempt(old(db.tasks), old(rs.docs), t, p);
      db.tasks == a.local && rs.docs == a.remote && log.events == old(log.events) + a.events && outcome == a.outcome
  {
    var err: Option<Error> := None;
    if IsDeletion(t) {
      err := SyncDeletion(db, rs, log, t, p);
    } else if IsUpdate(t) {
      err := SyncUpdate(db, rs, log, t, p);
    } else if IsCreation(t) {
      err := SyncCreation(db, rs, log, t, p);
    }
    if err.None? {
      return Synced;
    }
    var out := db.Put(TasksTable, FailedCopy(t), p.restore, log);
    if out.Fails? {
      return Aborted(out.error);
    }
    return Failed;
  }

  /** The tasks `dbLocal.tasks.filter(...).toArray()` selects all carry their key. */
  lemma SelectedAreKeyed(m: map<string, Record>)
    requires Keyed(m)
    ensures AllKeyed(NeedingSync(InKeyOrder(m)))
  {
    InKeyOrderSpec(m);
    var sel := NeedingSync(InKeyOrder(m));
    forall i | 0 <= i < |sel| ensures sel[i].id.Has? {
      assert sel[i] in InKeyOrder(m);
    }
  }

  lemma AppendAssoc(a: seq<Event>, b: seq<Event>, c: seq<Event>)
    ensures (a + b) + c == a + (b + c)
  {
  }

  /** The `for` loop: the stores and the calls end as `Sweep` says. */
  method RunSweep(db: LocalStore, rs: RemoteStore, log: Log, sel: seq<Record>, plans: nat -> StepPlan)
    returns (synced: nat, failed: nat, aborted: Option<Error>)
    requires db.Valid() && AllKeyed(sel)
    modifies db, rs, log
    ensures db.Valid() && db.lists == old(db.lists)
    ensures var end := Sweep(Start(old(db.tasks), old(rs.docs)), sel, plans);
      && db.tasks == end.local && rs.docs == end.remote && log.events == old(log.events) + end.events
      && synced == end.synced && failed == end.failed && aborted == end.aborted
  {
    ghost var end := Sweep(Start(db.tasks, rs.docs), sel, plans);
    ghost var pr := Start(db.tasks, rs.docs);
    synced, failed, aborted := 0, 0, None;
    var i := 0;
    while i < |sel| && aborted.None?
      invariant 0 <= i <= |sel|
      invariant db.Valid() && db.lists == old(db.lists)
      invariant SweepFrom(pr, sel, i, plans) == end
      invariant db.tasks == pr.local && rs.docs == pr.remote && log.events == old(log.events) + pr.events
      invariant synced == pr.synced && failed == pr.failed && aborted == pr.aborted
    {
      ghost var a := Attempt(pr.local, pr.remote, sel[i], plans(i));
      var outcome := SyncOne(db, rs, log, sel[i], plans(i));
      AppendAssoc(old(log.events), pr.events, a.events);
      pr := Step(pr, sel[i], plans(i));
      if outcome.Synced? {
        synced := synced + 1;
      } else if outcome.Failed? {
        failed := failed + 1;
      } else {
        aborted := Some(outcome.error);
      }
      i := i + 1;
    }
  }

  /**
   * `syncOfflineTasks()`. Offline it answers zero counts and touches nothing. Online it selects
   * the tasks needing a sync, in key order, and runs the sweep over them: the resulting stores and
   * calls are those of `Sweep`, and it resolves with the counters or rejects with the error that
   * aborted the sweep (or the error of the selection itself).
   */
  method SyncOfflineTasks(db: LocalStore, rs: RemoteStore, log: Log, online: bool, read: Reply, plans: nat -> StepPlan)
    returns (res: Settled<Counts>)
    requires db.Valid()
    modifies db, rs, log
    ensures db.Valid() && db.lists == old(db.lists)
    ensures !online ==>
      res == Fulfilled(Counts(0, 0)) && db.tasks == old(db.tasks) && rs.docs == old(rs.docs) && log.events == old(log.events)
    ensures online && read.Fails? ==>
      && res == Rejected(read.error) && db.tasks == old(db.tasks) && rs.docs == old(rs.docs)
      && log.events == old(log.events) + [Local(TasksTable, LocalOp.ReadAll)]
    ensures online && read.Ok? ==>
      var sel := NeedingSync(InKeyOrder(old(db.tasks)));
      AllKeyed(sel) &&
      var end := Sweep(Start(old(db.tasks), old(rs.docs)), sel, plans);
      && db.tasks == end.local && rs.docs == end.remote
      && log.events == old(log.events) + [Local(TasksTable, LocalOp.ReadAll)] + end.events
      && res == (if end.aborted.Some? then Rejected(end.aborted.value) else Fulfilled(Counts(end.synced, end.failed)))
  {
    if !online {
      return Fulfilled(Counts(0, 0));
    }
    var out, all := db.ReadAll(TasksTable, read, log);
    if out.Fails? {
      return Rejected(out.error);
    }
    var sel := NeedingSync(all);
    SelectedAreKeyed(db.tasks);
    var synced, failed, aborted := RunSweep(db, rs, log, sel, plans);
    if aborted.Some? {
      return Rejected(aborted.value);
    }
    return Fulfilled(Counts(synced, failed));
  }
}
