/**
 * The on-device store (src/lib/indexedDB.js): a Dexie database with a `lists` table and a `tasks`
 * table, both keyed by the records' own `id` property, the tasks table also indexed by `listId`.
 */
module LocalDb {
  import opened Js
  import opened Records
  import opened Trace
  import opened Items

  /** Every record sits under its own `id`: IndexedDB keeps the key in the record (inline key). */
  predicate Keyed(m: map<string, Record>) {
    forall k | k in m :: m[k].id == Has(k)
  }

  /** `table.toArray()`: the records in ascending key order. */
  function InKeyOrder(m: map<string, Record>): (r: seq<Record>)
    ensures |r| == |m|
  {
    var ks := SortedKeys(m.Keys);
    seq(|ks|, i requires 0 <= i < |ks| => m[ks[i]])
  }

  /** `toArray()` lists every stored record once, in strictly ascending key order. */
  lemma InKeyOrderSpec(m: map<string, Record>)
    requires Keyed(m)
    ensures forall k | k in m :: m[k] in InKeyOrder(m)
    ensures forall i | 0 <= i < |InKeyOrder(m)| ::
      InKeyOrder(m)[i].id.Has? && InKeyOrder(m)[i].id.v in m && m[InKeyOrder(m)[i].id.v] == InKeyOrder(m)[i]
    ensures forall i, j | 0 <= i < j < |InKeyOrder(m)| :: Less(InKeyOrder(m)[i].id.v, InKeyOrder(m)[j].id.v)
  {
    var ks := SortedKeys(m.Keys);
    var r := InKeyOrder(m);
    forall i | 0 <= i < |r| ensures r[i].id == Has(ks[i]) && ks[i] in m && m[ks[i]] == r[i] {
      assert ks[i] in ks;
    }
    forall i, j | 0 <= i < j < |r| ensures Less(r[i].id.v, r[j].id.v) {
      assert r[i].id.v == ks[i] && r[j].id.v == ks[j];
    }
    forall k | k in m ensures m[k] in r {
      assert k in ks;
      var i :| 0 <= i < |ks| && ks[i] == k;
      assert r[i] == m[k];
    }
  }

  /** `where('listId').equals(listId).toArray()`: the index yields the list's records in key order. */
  function ByListId(m: map<string, Record>, listId: string): seq<Record> {
    Filter(InKeyOrder(m), (t: Record) => t.listId == Has(listId))
  }

  /** `where('listId').equals(listId)` finds exactly the stored records of that list. */
  lemma ByListIdSpec(m: map<string, Record>, listId: string)
    requires Keyed(m)
    ensures forall t :: t in ByListId(m, listId) <==> t in m.Values && t.listId == Has(listId)
  {
    InKeyOrderSpec(m);
  }

  /** Whether IndexedDB accepts the record's `id` as a key: `undefined` and `null` are not keys. */
  predicate HasKey(r: Record) {
    r.id.Has?
  }

  /** How `put(r)` ends when the store itself would answer `fault`. */
  function PutReply(r: Record, fault: Reply): Reply {
    if !HasKey(r) then Fails(KeyError) else fault
  }

  /** How `bulkPut(rs)` ends: it refuses the whole batch when one record has no valid key. */
  function BulkReply(rs: seq<Record>, fault: Reply): (out: Reply)
    ensures out.Ok? ==> forall i | 0 <= i < |rs| :: rs[i].id.Has?
  {
    if exists i | 0 <= i < |rs| :: !rs[i].id.Has? then Fails(KeyError) else fault
  }

  /** The table after `bulkPut(rs)`: each record upserted in turn, the last one with a key winning. */
  function PutAll(m: map<string, Record>, rs: seq<Record>): map<string, Record>
    requires forall i | 0 <= i < |rs| :: rs[i].id.Has?
    decreases |rs|
  {
    if rs == [] then m else PutAll(m[rs[0].id.v := rs[0]], rs[1..])
  }

  function Ids(rs: seq<Record>): set<string> {
    set i | 0 <= i < |rs| && rs[i].id.Has? :: rs[i].id.v
  }

  /**
   * `bulkPut` is an upsert: it removes nothing, the keys afterwards are the old ones and the
   * records' ids, and every key not among the records keeps its record.
   */
  lemma {:induction false} PutAllSpec(m: map<string, Record>, rs: seq<Record>)
    requires forall i | 0 <= i < |rs| :: rs[i].id.Has?
    ensures PutAll(m, rs).Keys == m.Keys + Ids(rs)
    ensures forall k | k in m && k !in Ids(rs) :: PutAll(m, rs)[k] == m[k]
    ensures forall k | k in Ids(rs) :: PutAll(m, rs)[k] in rs
    ensures Keyed(m) ==> Keyed(PutAll(m, rs))
    decreases |rs|
  {
    if rs != [] {
      PutAllSpec(m[rs[0].id.v := rs[0]], rs[1..]);
      assert Ids(rs) == {rs[0].id.v} + Ids(rs[1..]) by {
        forall k | k in Ids(rs) ensures k in {rs[0].id.v} + Ids(rs[1..]) {
          var i :| 0 <= i < |rs| && rs[i].id.Has? && rs[i].id.v == k;
          if i > 0 { assert rs[1..][i - 1] == rs[i]; }
        }
        forall k | k in Ids(rs[1..]) ensures k in Ids(rs) {
          var i :| 0 <= i < |rs[1..]| && rs[1..][i].id.Has? && rs[1..][i].id.v == k;
          assert rs[i + 1] == rs[1..][i];
        }
      }
    }
  }

  /** When the records' ids are distinct, `bulkPut` stores each of them under its own id. */
  lemma {:induction false} PutAllDistinct(m: map<string, Record>, rs: seq<Record>, i: int)
    requires forall j | 0 <= j < |rs| :: rs[j].id.Has?
    requires forall j, l | 0 <= j < l < |rs| :: rs[j].id != rs[l].id
    requires 0 <= i < |rs|
    ensures rs[i].id.v in PutAll(m, rs) && PutAll(m, rs)[rs[i].id.v] == rs[i]
    decreases |rs|
  {
    if i == 0 {
      PutAllSpec(m[rs[0].id.v := rs[0]], rs[1..]);
      assert rs[0].id.v !in Ids(rs[1..]);
    } else {
      PutAllDistinct(m[rs[0].id.v := rs[0]], rs[1..], i - 1);
    }
  }

  /** The local database: the `tasks` and `lists` tables of `TaskDB`. */
  class LocalStore {
    var tasks: map<string, Record>
    var lists: map<string, Record>

    ghost predicate Valid()
      reads this
    {
      Keyed(tasks) && Keyed(lists)
    }

    function Rows(t: Table): map<string, Record>
      reads this
    {
      if t == TasksTable then tasks else lists
    }

    constructor()
      ensures Valid() && tasks == map[] && lists == map[]
    {
      tasks := map[];
      lists := map[];
    }

    /** `table.put(r)`: upsert by `id`. */
    method Put(t: Table, r: Record, fault: Reply, log: Log) returns (out: Reply)
      requires Valid()
      modifies this, log
      ensures Valid()
      ensures out == PutReply(r, fault)
      ensures out.Ok? ==> r.id.Has? && Rows(t) == old(Rows(t))[r.id.v := r]
      ensures out.Fails? ==> Rows(t) == old(Rows(t))
      ensures Rows(Other(t)) == old(Rows(Other(t)))
      ensures log.events == old(log.events) + [Local(t, LocalOp.Put)]
    {
      log.Add(Local(t, LocalOp.Put));
      out := PutReply(r, fault);
      if out.Ok? {
        if t == TasksTable {
          tasks := tasks[r.id.v := r];
        } else {
          lists := lists[r.id.v := r];
        }
      }
    }

    /** `table.get(id)`: the record, or `undefined` when there is none. */
    method Get(t: Table, id: string, fault: Reply, log: Log) returns (out: Reply, found: Val<Record>)
      modifies log
      ensures out == fault
      ensures found == (if out.Ok? && id in Rows(t) then Has(Rows(t)[id]) else Absent)
      ensures log.events == old(log.events) + [Local(t, LocalOp.Get)]
    {
      log.Add(Local(t, LocalOp.Get));
      out := fault;
      found := if out.Ok? && id in Rows(t) then Has(Rows(t)[id]) else Absent;
    }

    /** `table.delete(id)`: deleting a missing key succeeds and changes nothing. */
    method Delete(t: Table, id: string, fault: Reply, log: Log) returns (out: Reply)
      requires Valid()
      modifies this, log
      ensures Valid()
      ensures out == fault
      ensures Rows(t) == (if out.Ok? then old(Rows(t)) - {id} else old(Rows(t)))
      ensures Rows(Other(t)) == old(Rows(Other(t)))
      ensures log.events == old(log.events) + [Local(t, LocalOp.Delete)]
    {
      log.Add(Local(t, LocalOp.Delete));
      out := fault;
      if out.Ok? {
        if t == TasksTable {
          tasks := tasks - {id};
        } else {
          lists := lists - {id};
        }
      }
    }

    /** `table.bulkPut(rs)`, modelled as all or nothing. */
    method BulkPut(t: Table, rs: seq<Record>, fault: Reply, log: Log) returns (out: Reply)
      requires Valid()
      modifies this, log
      ensures Valid()
      ensures out == BulkReply(rs, fault)
      ensures out.Ok? ==> Rows(t) == PutAll(old(Rows(t)), rs)
      ensures out.Fails? ==> Rows(t) == old(Rows(t))
      ensures Rows(Other(t)) == old(Rows(Other(t)))
      ensures log.events == old(log.events) + [Local(t, LocalOp.BulkPut)]
    {
      log.Add(Local(t, LocalOp.BulkPut));
      out := BulkReply(rs, fault);
      if out.Ok? {
        PutAllSpec(Rows(t), rs);
        if t == TasksTable {
          tasks := PutAll(tasks, rs);
        } else {
          lists := PutAll(lists, rs);
        }
      }
    }

    /** `table.clear()`. */
    method Clear(t: Table, fault: Reply, log: Log) returns (out: Reply)
      requires Valid()
      modifies this, log
      ensures Valid()
      ensures out == fault
      ensures Rows(t) == (if out.Ok? then map[] else old(Rows(t)))
      ensures Rows(Other(t)) == old(Rows(Other(t)))
      ensures log.events == old(log.events) + [Local(t, LocalOp.Clear)]
    {
      log.Add(Local(t, LocalOp.Clear));
      out := fault;
      if out.Ok? {
        if t == TasksTable {
          tasks := map[];
        } else {
          lists := map[];
        }
      }
    }

    /** `table.toArray()`. */
    method ReadAll(t: Table, fault: Reply, log: Log) returns (out: Reply, rows: seq<Record>)
      modifies log
      ensures out == fault
      ensures rows == (if out.Ok? then InKeyOrder(Rows(t)) else [])
      ensures log.events == old(log.events) + [Local(t, LocalOp.ReadAll)]
    {
      log.Add(Local(t, LocalOp.ReadAll));
      out := fault;
      rows := if out.Ok? then InKeyOrder(Rows(t)) else [];
    }

    /** `tasks.where('listId').equals(listId).toArray()`. */
    method ReadByList(listId: string, fault: Reply, log: Log) returns (out: Reply, rows: seq<Record>)
      modifies log
      ensures out == fault
      ensures rows == (if out.Ok? then ByListId(tasks, listId) else [])
      ensures log.events == old(log.events) + [Local(TasksTable, LocalOp.ReadByList)]
    {
      log.Add(Local(TasksTable, LocalOp.ReadByList));
      out := fault;
      rows := if out.Ok? then ByListId(tasks, listId) else [];
    }

    /** `table.count()`. */
    method Count(t: Table, fault: Reply, log: Log) returns (out: Reply, n: nat)
      modifies log
      ensures out == fault
      ensures n == (if out.Ok? then |Rows(t)| else 0)
      ensures log.events == old(log.events) + [Local(t, LocalOp.Count)]
    {
      log.Add(Local(t, LocalOp.Count));
      out := fault;
      n := if out.Ok? then |Rows(t)| else 0;
    }
  }

  function Other(t: Table): Table {
    if t == TasksTable then ListsTable else TasksTable
  }

  // ---------------------------------------------------------------------------
  // searchTasksInIndexedDB

  /** The lowercased title, or `''` when the task has none. */
  function TitleText(t: Record): string {
    if TruthyStr(t.title) then Lower(t.title.v) else ""
  }

  function DescriptionText(t: Record): string {
    if TruthyStr(t.description) then Lower(t.description.v) else ""
  }

  predicate Matches(t: Record, lowerKeyword: string) {
    Includes(TitleText(t), lowerKeyword) || Includes(DescriptionText(t), lowerKeyword)
  }

  /** The tasks of the snapshot `all` whose title or description contains `keyword`, ignoring case. */
  function SearchTasks(all: seq<Record>, keyword: string): seq<Record> {
    var lowerKeyword := Lower(keyword);
    Filter(all, (t: Record) => Matches(t, lowerKeyword))
  }

  /**
   * The search keeps exactly the matching tasks, in snapshot order, and adds no copies: its result
   * is a subsequence of the snapshot and a sub-multiset of it.
   */
  lemma SearchSpec(all: seq<Record>, keyword: string)
    ensures forall t :: t in SearchTasks(all, keyword) <==> t in all && Matches(t, Lower(keyword))
    ensures IsSubsequence(SearchTasks(all, keyword), all)
    ensures multiset(SearchTasks(all, keyword)) <= multiset(all)
  {
    var lk := Lower(keyword);
    FilterSubsequence(all, (t: Record) => Matches(t, lk));
    FilterMultiset(all, (t: Record) => Matches(t, lk));
  }

  /** An empty keyword matches every task. */
  lemma SearchEmptyKeyword(all: seq<Record>)
    ensures SearchTasks(all, "") == all
  {
    forall i | 0 <= i < |all| ensures Matches(all[i], Lower("")) {
      IncludesEmpty(TitleText(all[i]));
    }
    FilterAll(all, (t: Record) => Matches(t, Lower("")));
  }

  /** The result depends on the keyword only through its lowercase form. */
  lemma SearchCaseInsensitive(all: seq<Record>, keyword: string)
    ensures SearchTasks(all, keyword) == SearchTasks(all, Lower(keyword))
  {
    LowerIdempotent(keyword);
    FilterSame(all, (t: Record) => Matches(t, Lower(keyword)), (t: Record) => Matches(t, Lower(Lower(keyword))));
  }

  /** A task with neither title nor description counts as having empty ones: only `''` matches it. */
  lemma MissingTextIsEmpty(t: Record, lowerKeyword: string)
    requires !TruthyStr(t.title) && !TruthyStr(t.description)
    ensures Matches(t, lowerKeyword) <==> lowerKeyword == ""
  {
    IncludesEmpty("");
    if lowerKeyword != "" {
      assert !StartsWith("", lowerKeyword);
    }
  }

  /** `searchTasksInIndexedDB(keyword)`: a filter over `tasks.toArray()`; a failed read rejects. */
  method SearchTasksInIndexedDB(db: LocalStore, keyword: string, fault: Reply, log: Log)
    returns (res: Settled<seq<Record>>)
    modifies log
    ensures res == (if fault.Ok? then Fulfilled(SearchTasks(InKeyOrder(db.tasks), keyword)) else Rejected(fault.error))
    ensures log.events == old(log.events) + [Local(TasksTable, LocalOp.ReadAll)]
  {
    var out, all := db.ReadAll(TasksTable, fault, log);
    if out.Fails? {
      return Rejected(out.error);
    }
    res := Fulfilled(SearchTasks(all, keyword));
  }

  // ---------------------------------------------------------------------------
  // debugIndexedDB: each helper catches its error and answers a neutral value

  method GetAllTasks(db: LocalStore, fault: Reply, log: Log) returns (r: seq<Record>)
    modifies log
    ensures r == (if fault.Ok? then InKeyOrder(db.tasks) else [])
    ensures log.events == old(log.events) + [Local(TasksTable, LocalOp.ReadAll)]
  {
    var _, rows := db.ReadAll(TasksTable, fault, log);
    r := rows;
  }

  method GetTasksByListId(db: LocalStore, listId: string, fault: Reply, log: Log) returns (r: seq<Record>)
    modifies log
    ensures r == (if fault.Ok? then ByListId(db.tasks, listId) else [])
    ensures log.events == old(log.events) + [Local(TasksTable, LocalOp.ReadByList)]
  {
    var _, rows := db.ReadByList(listId, fault, log);
    r := rows;
  }

  /** The record (`Has`), `undefined` when missing (`Absent`), `null` after an error (`Null`). */
  method GetTaskById(db: LocalStore, id: string, fault: Reply, log: Log) returns (r: Val<Record>)
    modifies log
    ensures fault.Fails? ==> r == Null
    ensures fault.Ok? ==> r == (if id in db.tasks then Has(db.tasks[id]) else Absent)
    ensures log.events == old(log.events) + [Local(TasksTable, LocalOp.Get)]
  {
    var out, found := db.Get(TasksTable, id, fault, log);
    r := if out.Fails? then Null else found;
  }

  method GetTaskCount(db: LocalStore, fault: Reply, log: Log) returns (n: nat)
    modifies log
    ensures n == (if fault.Ok? then |db.tasks| else 0)
    ensures log.events == old(log.events) + [Local(TasksTable, LocalOp.Count)]
  {
    var _, c := db.Count(TasksTable, fault, log);
    n := c;
  }

  /** `clearAllTasks()`: a failed clear is swallowed and leaves the table as it was. */
  method ClearAllTasks(db: LocalStore, fault: Reply, log: Log)
    requires db.Valid()
    modifies db, log
    ensures db.Valid()
    ensures db.tasks == (if fault.Ok? then map[] else old(db.tasks))
    ensures db.lists == old(db.lists)
    ensures log.events == old(log.events) + [Local(TasksTable, LocalOp.Clear)]
  {
    var _ := db.Clear(TasksTable, fault, log);
  }
}
