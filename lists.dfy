/**
 * The lists slice (src/redux/listsSlice.js): four thunks that write the local store first and the
 * remote store when online, and the reducers that apply their results to `state.lists`.
 */
module Lists {
  import opened Js
  import opened Records
  import opened Trace
  import opened Items
  import opened LocalDb
  import opened Remote

  // ---------------------------------------------------------------------------
  // fetchLists

  /**
   * `fetchLists(userId)`. Offline it answers the cached lists, and a failing read rejects. Online it
   * queries the user's lists, clears the cache and stores the result; if any of the three steps
   * throws it answers whatever the cache then holds, and only a failing read rejects.
   */
  method FetchLists(db: LocalStore, rs: RemoteStore, log: Log, userId: Val<string>, online: bool,
                    query: Reply, clear: Reply, bulk: Reply, read: Reply)
    returns (res: Settled<seq<Record>>)
    requires db.Valid()
    modifies db, log
    ensures db.Valid() && db.tasks == old(db.tasks)
    ensures !online ==>
      && db.lists == old(db.lists)
      && res == (if read.Ok? then Fulfilled(InKeyOrder(old(db.lists))) else Rejected(read.error))
      && log.events == old(log.events) + [Local(ListsTable, LocalOp.ReadAll)]
    ensures online ==>
      var fetched := ListDocs(rs.docs, userId);
      var asked := if userId.Absent? then Fails(QueryError) else query;
      var stored := asked.Ok? && clear.Ok? && BulkReply(fetched, bulk).Ok?;
      && (stored ==> res == Fulfilled(fetched) && db.lists == PutAll(map[], fetched))
      && (!stored ==>
            && db.lists == (if asked.Ok? && clear.Ok? then map[] else old(db.lists))
            && res == (if read.Ok? then Fulfilled(InKeyOrder(db.lists)) else Rejected(read.error)))
  {
    if !online {
      var out, rows := db.ReadAll(ListsTable, read, log);
      if out.Fails? {
        return Rejected(out.error);
      }
      return Fulfilled(rows);
    }
    var asked, fetched := rs.QueryLists(userId, query, log);
    if asked.Ok? {
      var cleared := db.Clear(ListsTable, clear, log);
      if cleared.Ok? {
        var stored := db.BulkPut(ListsTable, fetched, bulk, log);
        if stored.Ok? {
          return Fulfilled(fetched);
        }
      }
    }
    var out, rows := db.ReadAll(ListsTable, read, log);
    if out.Fails? {
      return Rejected(out.error);
    }
    return Fulfilled(rows);
  }

  /** The `i`-th fetched list is the `i`-th document in id order, under that id. */
  lemma ListDocsAt(docs: map<DocPath, Record>, userId: Val<string>, i: int)
    requires forall k | k in ListIds(docs, userId) :: docs[ListDoc(k)].id.Absent?
    requires 0 <= i < |ListDocs(docs, userId)|
    ensures var k := SortedKeys(ListIds(docs, userId))[i];
      ListDoc(k) in docs && ListDocs(docs, userId)[i] == Merge(WithId(k), docs[ListDoc(k)])
      && ListDocs(docs, userId)[i].id == Has(k)
  {
    var k := SortedKeys(ListIds(docs, userId))[i];
    assert k in ListIds(docs, userId);
  }

  /** The fetched lists carry distinct ids, the ids of the user's list documents. */
  lemma ListDocsIds(docs: map<DocPath, Record>, userId: Val<string>)
    requires forall k | k in ListIds(docs, userId) :: docs[ListDoc(k)].id.Absent?
    ensures var f := ListDocs(docs, userId);
      && (forall i | 0 <= i < |f| :: f[i].id.Has?)
      && (forall j, l | 0 <= j < l < |f| :: f[j].id != f[l].id)
      && Ids(f) == ListIds(docs, userId)
  {
    var ids := ListIds(docs, userId);
    var ks := SortedKeys(ids);
    var f := ListDocs(docs, userId);
    forall i | 0 <= i < |f| ensures f[i].id == Has(ks[i]) {
      ListDocsAt(docs, userId, i);
    }
    forall j, l | 0 <= j < l < |f| ensures f[j].id != f[l].id {
      LessIrreflexive(ks[j]);
    }
    forall k | k in ids ensures k in Ids(f) {
      var i :| 0 <= i < |ks| && ks[i] == k;
      assert f[i].id.v == k;
    }
  }

  /** Each of the user's lists is cached under its document id. */
  lemma CachedLists(docs: map<DocPath, Record>, userId: Val<string>)
    requires forall k | k in ListIds(docs, userId) :: docs[ListDoc(k)].id.Absent?
    ensures forall i | 0 <= i < |ListDocs(docs, userId)| :: ListDocs(docs, userId)[i].id.Has?
    ensures forall k | k in ListIds(docs, userId) ::
      k in PutAll(map[], ListDocs(docs, userId)) && PutAll(map[], ListDocs(docs, userId))[k] == Merge(WithId(k), docs[ListDoc(k)])
  {
    var ks := SortedKeys(ListIds(docs, userId));
    var f := ListDocs(docs, userId);
    ListDocsIds(docs, userId);
    forall k | k in ListIds(docs, userId) ensures k in PutAll(map[], f) && PutAll(map[], f)[k] == Merge(WithId(k), docs[ListDoc(k)]) {
      var i :| 0 <= i < |ks| && ks[i] == k;
      ListDocsAt(docs, userId, i);
      PutAllDistinct(map[], f, i);
    }
  }

  /**
   * When no stored list document carries an `id` field of its own, a completed online fetch leaves
   * the cache holding exactly the user's remote lists, each under its document id.
   */
  lemma CacheMirrorsRemote(docs: map<DocPath, Record>, userId: Val<string>)
    requires forall k | k in ListIds(docs, userId) :: docs[ListDoc(k)].id.Absent?
    ensures forall i | 0 <= i < |ListDocs(docs, userId)| :: ListDocs(docs, userId)[i].id.Has?
    ensures PutAll(map[], ListDocs(docs, userId)) == map k | k in ListIds(docs, userId) :: Merge(WithId(k), docs[ListDoc(k)])
  {
    CacheKeys(docs, userId);
    CachedLists(docs, userId);
    var cache := PutAll(map[], ListDocs(docs, userId));
    var want := map k | k in ListIds(docs, userId) :: Merge(WithId(k), docs[ListDoc(k)]);
    assert cache.Keys == want.Keys;
    forall k | k in cache ensures cache[k] == want[k] {
      assert k in ListIds(docs, userId);
    }
    assert cache == want;
  }

  /** The cache filled from the query holds exactly the ids of the user's list documents. */
  lemma CacheKeys(docs: map<DocPath, Record>, userId: Val<string>)
    requires forall k | k in ListIds(docs, userId) :: docs[ListDoc(k)].id.Absent?
    ensures forall i | 0 <= i < |ListDocs(docs, userId)| :: ListDocs(docs, userId)[i].id.Has?
    ensures PutAll(map[], ListDocs(docs, userId)).Keys == ListIds(docs, userId)
  {
    ListDocsIds(docs, userId);
    PutAllSpec(map[], ListDocs(docs, userId));
  }

  // ---------------------------------------------------------------------------
  // createList

  /** `{ name, userId, createdAt, isOffline }`; `now` stands for `new Date().toISOString()`. */
  function NewList(name: string, userId: string, now: int, online: bool): Record {
    Empty.(name := Has(name), userId := Has(userId), createdAt := Has(now), isOffline := Has(!online))
  }

  /** `offline_${Date.now()}` */
  function OfflineListId(nowMs: nat): (id: string)
    ensures IsLocalId(id)
  {
    assert (OfflinePrefix + NatToString(nowMs))[..|OfflinePrefix|] == OfflinePrefix;
    OfflinePrefix + NatToString(nowMs)
  }

  /**
   * `createList({ name, userId })`. The list is always cached under an `offline_` id first, and a
   * failure there rejects. Online, it is added remotely, the temporary record is replaced by one
   * under the remote id and that one is answered; a failure of any of these three steps answers the
   * temporary list instead. `onlineAtBuild` and `onlineAtCheck` are the two reads of the
   * connectivity flag.
   */
  method CreateList(db: LocalStore, rs: RemoteStore, log: Log, name: string, userId: string, now: int, nowMs: nat,
                    onlineAtBuild: bool, onlineAtCheck: bool, put: Reply, add: Reply, newId: string, del: Reply, put2: Reply)
    returns (res: Settled<Record>)
    requires db.Valid()
    modifies db, rs, log
    ensures db.Valid() && db.tasks == old(db.tasks)
    ensures var list := NewList(name, userId, now, onlineAtBuild);
      var id := OfflineListId(nowMs);
      var local := list.(id := Has(id));
      var synced := list.(id := Has(newId), isOffline := Has(false));
      && (put.Fails? ==> res == Rejected(put.error) && db.lists == old(db.lists) && rs.docs == old(rs.docs))
      && (put.Ok? && (!onlineAtCheck || add.Fails?) ==>
            res == Fulfilled(local) && db.lists == old(db.lists)[id := local] && rs.docs == old(rs.docs))
      && (put.Ok? && onlineAtCheck && add.Ok? ==> rs.docs == old(rs.docs)[ListDoc(newId) := list])
      && (put.Ok? && onlineAtCheck && add.Ok? && del.Fails? ==>
            res == Fulfilled(local) && db.lists == old(db.lists)[id := local])
      && (put.Ok? && onlineAtCheck && add.Ok? && del.Ok? && put2.Fails? ==>
            res == Fulfilled(local) && db.lists == old(db.lists) - {id})
      && (put.Ok? && onlineAtCheck && add.Ok? && del.Ok? && put2.Ok? ==>
            res == Fulfilled(synced) && db.lists == (old(db.lists) - {id})[newId := synced])
  {
    var list := NewList(name, userId, now, onlineAtBuild);
    var id := OfflineListId(nowMs);
    var localList := Merge(WithId(id), list);
    assert localList == list.(id := Has(id));
    var out := db.Put(ListsTable, localList, put, log);
    if out.Fails? {
      return Rejected(out.error);
    }
    if !onlineAtCheck {
      return Fulfilled(localList);
    }
    out := rs.AddList(list, newId, add, log);
    if out.Fails? {
      return Fulfilled(localList);
    }
    var syncedList := list.(id := Has(newId), isOffline := Has(false));
    out := db.Delete(ListsTable, id, del, log);
    if out.Fails? {
      return Fulfilled(localList);
    }
    assert (old(db.lists)[id := localList]) - {id} == old(db.lists) - {id};
    out := db.Put(ListsTable, syncedList, put2, log);
    if out.Fails? {
      return Fulfilled(localList);
    }
    return Fulfilled(syncedList);
  }

  // ---------------------------------------------------------------------------
  // renameList

  /** `getListDoc(id)`: Firestore refuses an empty path segment. */
  function ListPath(id: string): (p: Option<DocPath>)
    ensures p.Some? <==> id != ""
  {
    if id == "" then None else Some(ListDoc(id))
  }

  /** `{ name, lastUpdated }` */
  function Renaming(name: string, now: int): Record {
    Empty.(name := Has(name), lastUpdated := Has(now))
  }

  /** `{ ...original, ...updated }`, where a missing original spreads as `{}`. */
  function Renamed(original: Val<Record>, name: string, now: int): (r: Record)
    ensures r.name == Has(name) && r.lastUpdated == Has(now)
    ensures original.Has? ==> r == original.v.(name := Has(name), lastUpdated := Has(now))
    ensures !original.Has? ==> r.id.Absent?
  {
    Merge(if original.Has? then original.v else Empty, Renaming(name, now))
  }

  /**
   * `renameList({ id, name })`. The renamed list is cached first; a failing read or write rejects,
   * and so does renaming a list that is not cached, since the record then has no key. Online the
   * new name is merged into the remote document; the answer then carries `isOffline: false`, which
   * the cached copy does not get. A remote failure answers the renamed list as cached.
   */
  method RenameList(db: LocalStore, rs: RemoteStore, log: Log, id: string, name: string, now: int, online: bool,
                    get: Reply, put: Reply, upd: Reply)
    returns (res: Settled<Record>)
    requires db.Valid()
    modifies db, rs, log
    ensures db.Valid() && db.tasks == old(db.tasks)
    ensures get.Fails? ==> res == Rejected(get.error) && db.lists == old(db.lists) && rs.docs == old(rs.docs)
    ensures get.Ok? && id !in old(db.lists) ==>
      res == Rejected(KeyError) && db.lists == old(db.lists) && rs.docs == old(rs.docs)
    ensures get.Ok? && id in old(db.lists) ==>
      var newList := old(db.lists)[id].(name := Has(name), lastUpdated := Has(now));
      && (put.Fails? ==> res == Rejected(put.error) && db.lists == old(db.lists) && rs.docs == old(rs.docs))
      && (put.Ok? ==> db.lists == old(db.lists)[id := newList])
      && (put.Ok? && !online ==> res == Fulfilled(newList) && rs.docs == old(rs.docs))
      && (put.Ok? && online ==>
            var path := ListPath(id);
            var renamed := path.Some? && upd.Ok? && path.value in old(rs.docs);
            && rs.docs == (if renamed then old(rs.docs)[path.value := Merge(old(rs.docs)[path.value], Renaming(name, now))]
                           else old(rs.docs))
            && res == Fulfilled(if renamed then newList.(isOffline := Has(false)) else newList))
  {
    var updated := Renaming(name, now);
    var out, original := db.Get(ListsTable, id, get, log);
    if out.Fails? {
      return Rejected(out.error);
    }
    var newList := Renamed(original, name, now);
    out := db.Put(ListsTable, newList, put, log);
    if out.Fails? {
      return Rejected(out.error);
    }
    if !online {
      return Fulfilled(newList);
    }
    var path := ListPath(id);
    if path.None? {
      return Fulfilled(newList);
    }
    out := rs.UpdateDoc(path.value, updated, upd, log);
    if out.Fails? {
      return Fulfilled(newList);
    }
    return Fulfilled(newList.(isOffline := Has(false)));
  }

  // ---------------------------------------------------------------------------
  // removeList

  /**
   * `removeList(id)`. The cached list is deleted, and a failure there rejects; online the remote
   * document is deleted too, and a failure there is ignored. The list's tasks stay in both stores.
   */
  method RemoveList(db: LocalStore, rs: RemoteStore, log: Log, id: string, online: bool, del: Reply, remote: Reply)
    returns (res: Settled<string>)
    requires db.Valid()
    modifies db, rs, log
    ensures db.Valid() && db.tasks == old(db.tasks)
    ensures res == (if del.Ok? then Fulfilled(id) else Rejected(del.error))
    ensures db.lists == (if del.Ok? then old(db.lists) - {id} else old(db.lists))
    ensures rs.docs == (if del.Ok? && online && id != "" && remote.Ok? then old(rs.docs) - {ListDoc(id)} else old(rs.docs))
    ensures forall p | p in old(rs.docs) && p.TaskDoc? :: p in rs.docs && rs.docs[p] == old(rs.docs)[p]
  {
    var out := db.Delete(ListsTable, id, del, log);
    if out.Fails? {
      return Rejected(out.error);
    }
    if !online {
      return Fulfilled(id);
    }
    var path := ListPath(id);
    if path.Some? {
      var _ := rs.DeleteDoc(path.value, remote, log);
    }
    return Fulfilled(id);
  }

  // ---------------------------------------------------------------------------
  // The slice

  datatype ListsView = ListsView(items: seq<Record>, status: string, error: Val<string>)

  class ListsState {
    var items: seq<Record>
    var status: string
    var error: Val<string>

    function Snapshot(): ListsView
      reads this
    {
      ListsView(items, status, error)
    }

    constructor()
      ensures Snapshot() == ListsView([], "idle", Null)
    {
      items := [];
      status := "idle";
      error := Null;
    }

    method FetchListsPending()
      modifies this
      ensures Snapshot() == old(Snapshot()).(status := "loading")
    {
      status := "loading";
    }

    method FetchListsFulfilled(payload: seq<Record>)
      modifies this
      ensures Snapshot() == old(Snapshot()).(status := "succeeded", items := payload)
    {
      status := "succeeded";
      items := payload;
    }

    /** A list already shown (same id) is not shown twice. */
    method CreateListFulfilled(list: Record)
      modifies this
      ensures Snapshot() == old(Snapshot()).(items := AppendIfNew(old(items), list))
      ensures (forall i, j | 0 <= i < j < |old(items)| :: old(items)[i].id != old(items)[j].id) ==>
        forall i, j | 0 <= i < j < |items| :: items[i].id != items[j].id
    {
      if forall i, j | 0 <= i < j < |items| :: items[i].id != items[j].id {
        AppendIfNewKeepsIdsUnique(items, list);
      }
      items := AppendIfNew(items, list);
    }

    method RenameListFulfilled(list: Record)
      modifies this
      ensures Snapshot() == old(Snapshot()).(items := ReplaceFirst(old(items), list))
    {
      items := ReplaceFirst(items, list);
    }

    method RemoveListFulfilled(id: string)
      modifies this
      ensures Snapshot() == old(Snapshot()).(items := RemoveId(old(items), Has(id)))
      ensures forall l :: l in items <==> l in old(items) && l.id != Has(id)
    {
      RemoveIdSpec(items, Has(id));
      items := RemoveId(items, Has(id));
    }
  }
}
