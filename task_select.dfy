/**
 * The selectors of the tasks slice (src/redux/tasksSlice.jsx): pure functions of `state.tasks.items`,
 * and the comparator with which `selectFilteredTasks` sorts.
 */
module TaskSelectors {
  import opened Js
  import opened Records
  import opened Items

  /** `!task.markedForDeletion` */
  predicate Active(t: Record) {
    !IsTrue(t.markedForDeletion)
  }

  /** `task.isOffline || task.syncFailed || task.markedForDeletion` */
  predicate NeedsSync(t: Record) {
    IsTrue(t.isOffline) || IsTrue(t.syncFailed) || IsTrue(t.markedForDeletion)
  }

  /** `selectTasksByListId` */
  function ByList(items: seq<Record>, listId: Val<string>): seq<Record> {
    Filter(items, (t: Record) => t.listId == listId)
  }

  /** `selectActiveTasksByListId` */
  function ActiveByList(items: seq<Record>, listId: Val<string>): seq<Record> {
    Filter(items, (t: Record) => t.listId == listId && Active(t))
  }

  /** `selectTasksNeedingSync` */
  function NeedingSync(items: seq<Record>): seq<Record> {
    Filter(items, NeedsSync)
  }

  /**
   * The active selector keeps exactly the list's tasks that are not marked for deletion, in order;
   * it is the list selector with the soft-deleted records taken out.
   */
  lemma ActiveByListSpec(items: seq<Record>, listId: Val<string>)
    ensures forall t :: t in ActiveByList(items, listId) <==> t in items && t.listId == listId && !IsTrue(t.markedForDeletion)
    ensures ActiveByList(items, listId) == Filter(ByList(items, listId), Active)
    ensures IsSubsequence(ActiveByList(items, listId), items)
  {
    FilterFilter(items, (t: Record) => t.listId == listId, Active, (t: Record) => t.listId == listId && Active(t));
    FilterSubsequence(items, (t: Record) => t.listId == listId && Active(t));
  }

  /** The sync selector picks a record iff one of its three provenance flags is set. */
  lemma NeedingSyncSpec(items: seq<Record>)
    ensures forall t :: t in NeedingSync(items) <==>
      t in items && (t.isOffline == Has(true) || t.syncFailed == Has(true) || t.markedForDeletion == Has(true))
    ensures IsSubsequence(NeedingSync(items), items)
  {
    FilterSubsequence(items, NeedsSync);
  }

  // ---------------------------------------------------------------------------
  // selectTaskStats

  datatype Stats = Stats(total: nat, todo: nat, inProgress: nat, done: nat, offline: nat, needsSync: nat)

  /** The tasks the statistics count: the list's active tasks, or every active task when `listId` is falsy. */
  function StatsBase(items: seq<Record>, listId: Val<string>): seq<Record> {
    if TruthyStr(listId) then ActiveByList(items, listId) else Filter(items, Active)
  }

  function TaskStats(items: seq<Record>, listId: Val<string>): Stats {
    var l := StatsBase(items, listId);
    Stats(|l|,
      |Filter(l, (t: Record) => t.status == Has(Todo))|,
      |Filter(l, (t: Record) => t.status == Has(InProgress))|,
      |Filter(l, (t: Record) => t.status == Has(Done))|,
      |Filter(l, (t: Record) => IsTrue(t.isOffline))|,
      |Filter(l, (t: Record) => IsTrue(t.syncFailed))|)
  }

  /**
   * A task has one status at most, so the three status counts add up to no more than the total;
   * the flag counts are bounded by the total too.
   */
  lemma StatsBounds(items: seq<Record>, listId: Val<string>)
    ensures var s := TaskStats(items, listId);
      s.todo + s.inProgress + s.done <= s.total && s.offline <= s.total && s.needsSync <= s.total
  {
    var l := StatsBase(items, listId);
    FilterExclusive3(l, (t: Record) => t.status == Has(Todo), (t: Record) => t.status == Has(InProgress),
      (t: Record) => t.status == Has(Done));
  }

  /** A record marked for deletion is left out of every count: adding one changes no statistic. */
  lemma StatsIgnoreMarked(items: seq<Record>, listId: Val<string>, t: Record)
    requires IsTrue(t.markedForDeletion)
    ensures TaskStats(items + [t], listId) == TaskStats(items, listId)
  {
    FilterAppend(items, [t], (t: Record) => t.listId == listId && Active(t));
    FilterAppend(items, [t], Active);
    assert Filter([t], (t: Record) => t.listId == listId && Active(t)) == [];
    assert Filter([t], Active) == [];
    assert StatsBase(items + [t], listId) == StatsBase(items, listId);
  }

  /** The total counts exactly the active tasks the statistics are taken over. */
  lemma StatsTotal(items: seq<Record>, listId: Val<string>)
    ensures forall t :: t in StatsBase(items, listId) <==>
      t in items && !IsTrue(t.markedForDeletion) && (TruthyStr(listId) ==> t.listId == listId)
    ensures TaskStats(items, listId).total == |StatsBase(items, listId)|
  {
  }

  // ---------------------------------------------------------------------------
  // selectAllTags

  /** The tags of `t` that `selectAllTags` visits: those of an active task whose `tags` is an array. */
  function VisitedTags(t: Record): seq<string> {
    if t.tags.Has? && Active(t) then t.tags.v else []
  }

  /** Every visited tag, task after task, with repetitions. */
  function TagStream(items: seq<Record>): seq<string>
    decreases |items|
  {
    if items == [] then [] else TagStream(items[..|items| - 1]) + VisitedTags(items[|items| - 1])
  }

  /** What `Array.from(allTags)` returns: each visited tag once, in the order it was first added. */
  function AllTags(items: seq<Record>): seq<string> {
    Distinct(TagStream(items))
  }

  lemma {:induction false} TagStreamMembers(items: seq<Record>)
    ensures forall x :: x in TagStream(items) <==> exists i | 0 <= i < |items| :: x in VisitedTags(items[i])
    decreases |items|
  {
    if items != [] {
      var init := items[..|items| - 1];
      TagStreamMembers(init);
      forall x | x in TagStream(items) ensures exists i | 0 <= i < |items| :: x in VisitedTags(items[i]) {
        if x in TagStream(init) {
          var i :| 0 <= i < |init| && x in VisitedTags(init[i]);
          assert items[i] == init[i];
        } else {
          assert x in VisitedTags(items[|items| - 1]);
        }
      }
      forall x | exists i | 0 <= i < |items| :: x in VisitedTags(items[i]) ensures x in TagStream(items) {
        var i :| 0 <= i < |items| && x in VisitedTags(items[i]);
        if i < |items| - 1 {
          assert init[i] == items[i];
        }
      }
    }
  }

  /**
   * `selectAllTags` lists a tag iff some task not marked for deletion carries it, and lists each
   * such tag once.
   */
  lemma AllTagsSpec(items: seq<Record>)
    ensures forall x :: x in AllTags(items) <==>
      exists i | 0 <= i < |items| :: items[i].tags.Has? && !IsTrue(items[i].markedForDeletion) && x in items[i].tags.v
    ensures NoDuplicates(AllTags(items))
  {
    DistinctSpec(TagStream(items));
    TagStreamMembers(items);
  }

  /** `selectAllTags`: fills a `Set` task by task. */
  method SelectAllTags(items: seq<Record>) returns (tags: seq<string>)
    ensures tags == AllTags(items)
  {
    var seen: set<string> := {};
    tags := [];
    var i := 0;
    while i < |items|
      invariant 0 <= i <= |items|
      invariant tags == Distinct(TagStream(items[..i]))
      invariant forall x :: x in seen <==> x in tags
    {
      var t := items[i];
      TagStreamStep(items, i);
      if t.tags.Has? && !IsTrue(t.markedForDeletion) {
        seen, tags := AddTags(seen, tags, TagStream(items[..i]), t.tags.v);
      } else {
        assert TagStream(items[..i + 1]) == TagStream(items[..i]);
      }
      i := i + 1;
    }
    assert items[..i] == items;
  }

  lemma TagStreamStep(items: seq<Record>, i: int)
    requires 0 <= i < |items|
    ensures TagStream(items[..i + 1]) == TagStream(items[..i]) + VisitedTags(items[i])
    ensures VisitedTags(items[i]) == [] ==> TagStream(items[..i + 1]) == TagStream(items[..i])
  {
    assert items[..i + 1][..i] == items[..i];
  }

  /** `task.tags.forEach(tag => allTags.add(tag))`, where the set so far holds the distinct tags of `stream`. */
  method AddTags(seen: set<string>, tags: seq<string>, ghost stream: seq<string>, ts: seq<string>)
    returns (seen': set<string>, tags': seq<string>)
    requires tags == Distinct(stream)
    requires forall x :: x in seen <==> x in tags
    ensures tags' == Distinct(stream + ts)
    ensures forall x :: x in seen' <==> x in tags'
  {
    seen', tags' := seen, tags;
    var j := 0;
    assert stream + ts[..0] == stream;
    while j < |ts|
      invariant 0 <= j <= |ts|
      invariant tags' == Distinct(stream + ts[..j])
      invariant forall x :: x in seen' <==> x in tags'
    {
      var xs := stream + ts[..j];
      assert (xs + [ts[j]])[..|xs|] == xs;
      assert stream + ts[..j + 1] == xs + [ts[j]];
      if ts[j] !in seen' {
        seen' := seen' + {ts[j]};
        tags' := tags' + [ts[j]];
      }
      j := j + 1;
    }
    assert ts[..j] == ts;
  }

  // ---------------------------------------------------------------------------
  // selectFilteredTasks

  /** The `sortBy` options the task view offers. */
  datatype SortField = ByDueDate | ByPriority | ByCreatedAt | ByTitle

  /** `priorityOrder[p] || 0` */
  function PriorityRank(p: Val<string>): (r: int)
    ensures 0 <= r <= 3
    ensures r == 3 <==> p == Has(High)
    ensures r == 2 <==> p == Has(Medium)
    ensures r == 1 <==> p == Has(Low)
  {
    if p == Has(High) then 3 else if p == Has(Medium) then 2 else if p == Has(Low) then 1 else 0
  }

  /** The value the comparator compares. */
  datatype Key = Num(n: int) | Text(s: string)

  /**
   * `a[sortBy]` after the comparator's conversions: the priority rank, a date's time or 0, the
   * lowercased title. A title that is not a string never reaches `toLowerCase` when no task has one,
   * and every such value then compares as equal, as the empty string does here.
   */
  function KeyOf(t: Record, f: SortField): Key {
    match f
    case ByDueDate => Num(if t.dueDate.Has? then t.dueDate.v else 0)
    case ByCreatedAt => Num(if t.createdAt.Has? then t.createdAt.v else 0)
    case ByPriority => Num(PriorityRank(t.priority))
    case ByTitle => Text(if t.title.Has? then Lower(t.title.v) else "")
  }

  /** `aValue < bValue` on two converted values. */
  predicate KeyLess(a: Key, b: Key) {
    if a.Num? && b.Num? then a.n < b.n
    else if a.Text? && b.Text? then Less(a.s, b.s)
    else false
  }

  /** The comparator returns a negative number: `a` goes before `b`. */
  predicate Before(a: Record, b: Record, f: SortField, asc: bool) {
    if asc then KeyLess(KeyOf(a, f), KeyOf(b, f)) else KeyLess(KeyOf(b, f), KeyOf(a, f))
  }

  lemma KeyLessIrreflexive(a: Key)
    ensures !KeyLess(a, a)
  {
    if a.Text? { LessIrreflexive(a.s); }
  }

  lemma KeyLessTransitive(a: Key, b: Key, c: Key)
    requires KeyLess(a, b) && KeyLess(b, c)
    ensures KeyLess(a, c)
  {
    if a.Text? { LessTransitive(a.s, b.s, c.s); }
  }

  /** The comparator is a strict order: irreflexive and transitive. */
  lemma BeforeOrder(a: Record, b: Record, c: Record, f: SortField, asc: bool)
    ensures !Before(a, a, f, asc)
    ensures Before(a, b, f, asc) && Before(b, c, f, asc) ==> Before(a, c, f, asc)
  {
    KeyLessIrreflexive(KeyOf(a, f));
    if Before(a, b, f, asc) && Before(b, c, f, asc) {
      if asc {
        KeyLessTransitive(KeyOf(a, f), KeyOf(b, f), KeyOf(c, f));
      } else {
        KeyLessTransitive(KeyOf(c, f), KeyOf(b, f), KeyOf(a, f));
      }
    }
  }

  /** No element is placed before one it should follow. */
  predicate Sorted(s: seq<Record>, f: SortField, asc: bool) {
    forall i, j | 0 <= i < j < |s| :: !Before(s[j], s[i], f, asc)
  }

  /** Inserts `x` after every element it does not go before. */
  function Insert(x: Record, s: seq<Record>, f: SortField, asc: bool): seq<Record>
    decreases |s|
  {
    if s == [] then [x]
    else if Before(x, s[0], f, asc) then [x] + s
    else [s[0]] + Insert(x, s[1..], f, asc)
  }

  /** `filtered.sort(comparator)`: a stable sort, as `Array.prototype.sort` is. */
  function Sort(s: seq<Record>, f: SortField, asc: bool): seq<Record>
    decreases |s|
  {
    if s == [] then [] else Insert(s[|s| - 1], Sort(s[..|s| - 1], f, asc), f, asc)
  }

  lemma {:induction false} InsertSpec(x: Record, s: seq<Record>, f: SortField, asc: bool)
    requires Sorted(s, f, asc)
    ensures Sorted(Insert(x, s, f, asc), f, asc)
    ensures multiset(Insert(x, s, f, asc)) == multiset(s) + multiset{x}
    decreases |s|
  {
    InsertMultiset(x, s, f, asc);
    if s == [] {
    } else if Before(x, s[0], f, asc) {
      InsertFront(x, s, f, asc);
    } else {
      SortedTail(s, f, asc);
      InsertSpec(x, s[1..], f, asc);
      InsertMembers(x, s[1..], f, asc);
      HeadStaysFirst(s[0], x, s[1..], Insert(x, s[1..], f, asc), f, asc);
    }
  }

  lemma SortedTail(s: seq<Record>, f: SortField, asc: bool)
    requires Sorted(s, f, asc) && s != []
    ensures Sorted(s[1..], f, asc)
    ensures forall k | 0 <= k < |s[1..]| :: !Before(s[1..][k], s[0], f, asc)
  {
    var tail := s[1..];
    forall i, j | 0 <= i < j < |tail| ensures !Before(tail[j], tail[i], f, asc) {
      assert tail[i] == s[i + 1] && tail[j] == s[j + 1];
    }
    forall k | 0 <= k < |tail| ensures !Before(tail[k], s[0], f, asc) {
      assert tail[k] == s[k + 1];
    }
  }

  /** A head that no element of the tail nor `x` goes before stays first when `x` joins the sorted tail. */
  lemma HeadStaysFirst(h: Record, x: Record, tail: seq<Record>, rest: seq<Record>, f: SortField, asc: bool)
    requires forall k | 0 <= k < |tail| :: !Before(tail[k], h, f, asc)
    requires !Before(x, h, f, asc)
    requires forall y | y in rest :: y == x || y in tail
    requires Sorted(rest, f, asc)
    ensures Sorted([h] + rest, f, asc)
  {
    var r := [h] + rest;
    forall i, j | 0 <= i < j < |r| ensures !Before(r[j], r[i], f, asc) {
      assert r[j] == rest[j - 1];
      if i == 0 {
        if r[j] != x {
          assert rest[j - 1] in rest;
          var k :| 0 <= k < |tail| && tail[k] == r[j];
        }
      } else {
        assert r[i] == rest[i - 1];
      }
    }
  }

  /** The elements of an insertion are `x` and those of `s`. */
  lemma {:induction false} InsertMembers(x: Record, s: seq<Record>, f: SortField, asc: bool)
    ensures forall y | y in Insert(x, s, f, asc) :: y == x || y in s
    decreases |s|
  {
    if s != [] && !Before(x, s[0], f, asc) {
      InsertMembers(x, s[1..], f, asc);
    }
  }

  /** Insertion keeps every element and adds `x` once. */
  lemma {:induction false} InsertMultiset(x: Record, s: seq<Record>, f: SortField, asc: bool)
    ensures multiset(Insert(x, s, f, asc)) == multiset(s) + multiset{x}
    decreases |s|
  {
    if s != [] && !Before(x, s[0], f, asc) {
      InsertMultiset(x, s[1..], f, asc);
      assert s == [s[0]] + s[1..];
    }
  }

  /** An element that goes before the head of a sorted sequence can be put in front of it. */
  lemma InsertFront(x: Record, s: seq<Record>, f: SortField, asc: bool)
    requires Sorted(s, f, asc) && s != [] && Before(x, s[0], f, asc)
    ensures Sorted([x] + s, f, asc)
  {
    var r := [x] + s;
    forall i, j | 0 <= i < j < |r| ensures !Before(r[j], r[i], f, asc) {
      if i == 0 {
        assert r[j] == s[j - 1];
        BeforeOrder(s[j - 1], x, s[0], f, asc);
        BeforeOrder(s[0], s[0], s[0], f, asc);
      } else {
        assert r[i] == s[i - 1] && r[j] == s[j - 1];
      }
    }
  }

  /** Sorting orders the elements and keeps each of them exactly as often as it occurs. */
  lemma {:induction false} SortSpec(s: seq<Record>, f: SortField, asc: bool)
    ensures Sorted(Sort(s, f, asc), f, asc)
    ensures multiset(Sort(s, f, asc)) == multiset(s)
    decreases |s|
  {
    if s != [] {
      var init := s[..|s| - 1];
      SortSpec(init, f, asc);
      InsertSpec(s[|s| - 1], Sort(init, f, asc), f, asc);
      assert s == init + [s[|s| - 1]];
    }
  }

  /** Sorting by priority with any order but 'asc' puts a high-priority task first when there is one. */
  lemma HighPriorityFirst(s: seq<Record>, order: Val<string>)
    requires order != Has("asc")
    requires exists i | 0 <= i < |s| :: s[i].priority == Has(High)
    ensures Sort(s, ByPriority, order == Has("asc"))[0].priority == Has(High)
  {
    var r := Sort(s, ByPriority, false);
    SortSpec(s, ByPriority, false);
    var i :| 0 <= i < |s| && s[i].priority == Has(High);
    assert s[i] in multiset(r);
    var j :| 0 <= j < |r| && r[j] == s[i];
    if j > 0 {
      assert !Before(r[j], r[0], ByPriority, false);
    }
  }

  /** The arguments of `selectFilteredTasks`. */
  datatype Filters = Filters(listId: Val<string>, status: Val<string>, tag: Val<string>,
                             sortBy: Option<SortField>, sortOrder: Val<string>)

  predicate ByListApplies(f: Filters) { TruthyStr(f.listId) }
  predicate ByStatusApplies(f: Filters) { TruthyStr(f.status) && f.status.v != "all" }
  predicate ByTagApplies(f: Filters) { TruthyStr(f.tag) && f.tag.v != "all" }

  /** Whether one of the three filters runs, so that `filtered` is a new array and not `tasks.items`. */
  predicate Narrows(f: Filters) {
    ByListApplies(f) || ByStatusApplies(f) || ByTagApplies(f)
  }

  /** `task.tags && task.tags.includes(tag)` */
  predicate HasTag(t: Record, tag: Val<string>) {
    t.tags.Has? && tag.Has? && tag.v in t.tags.v
  }

  /** `filtered` before sorting: the three filters applied in turn. */
  function Narrowed(items: seq<Record>, f: Filters): seq<Record> {
    var a := if ByListApplies(f) then Filter(items, (t: Record) => t.listId == f.listId) else items;
    var b := if ByStatusApplies(f) then Filter(a, (t: Record) => t.status == f.status) else a;
    if ByTagApplies(f) then Filter(b, (t: Record) => HasTag(t, f.tag)) else b
  }

  /** Whether `t` passes every filter that applies. */
  predicate Keeps(f: Filters, t: Record) {
    (ByListApplies(f) ==> t.listId == f.listId)
    && (ByStatusApplies(f) ==> t.status == f.status)
    && (ByTagApplies(f) ==> HasTag(t, f.tag))
  }

  /**
   * With a title sort the comparator lowercases both titles only when `a`'s is a string, so it
   * throws when `a` has a string title and `b` has none, and answers 0 the other way round; whether
   * a mixed array throws depends on the engine's call order. The selector is defined here when
   * either every task or no task of the narrowed array has a string title.
   */
  predicate TitleSortSafe(s: seq<Record>) {
    (forall i | 0 <= i < |s| :: s[i].title.Has?) || (forall i | 0 <= i < |s| :: !s[i].title.Has?)
  }

  /** `selectFilteredTasks(state, filters)` */
  function FilteredTasks(items: seq<Record>, f: Filters): seq<Record>
    requires f.sortBy == Some(ByTitle) ==> TitleSortSafe(Narrowed(items, f))
  {
    var n := Narrowed(items, f);
    if f.sortBy.Some? then Sort(n, f.sortBy.value, f.sortOrder == Has("asc")) else n
  }

  /** The successive filters are one filter that keeps the tasks passing every applicable test, in order. */
  lemma NarrowedSpec(items: seq<Record>, f: Filters)
    ensures Narrowed(items, f) == Filter(items, (t: Record) => Keeps(f, t))
    ensures !Narrows(f) ==> Narrowed(items, f) == items
  {
    var p1 := (t: Record) => t.listId == f.listId;
    var p2 := (t: Record) => t.status == f.status;
    var p3 := (t: Record) => HasTag(t, f.tag);
    var k1 := (t: Record) => ByListApplies(f) ==> p1(t);
    var k12 := (t: Record) => k1(t) && (ByStatusApplies(f) ==> p2(t));
    var a := if ByListApplies(f) then Filter(items, p1) else items;
    if ByListApplies(f) {
      FilterSame(items, p1, k1);
    } else {
      FilterAll(items, k1);
    }
    assert a == Filter(items, k1);
    var b := if ByStatusApplies(f) then Filter(a, p2) else a;
    if ByStatusApplies(f) {
      FilterFilter(items, k1, p2, k12);
    } else {
      FilterSame(items, k1, k12);
    }
    assert b == Filter(items, k12);
    if ByTagApplies(f) {
      FilterFilter(items, k12, p3, (t: Record) => Keeps(f, t));
    } else {
      FilterSame(items, k12, (t: Record) => Keeps(f, t));
    }
  }

  /**
   * `selectFilteredTasks` returns exactly the tasks passing the applicable filters, each as often
   * as in the store, in comparator order when a sort is asked for and in store order otherwise.
   */
  lemma FilteredTasksSpec(items: seq<Record>, f: Filters)
    requires f.sortBy == Some(ByTitle) ==> TitleSortSafe(Narrowed(items, f))
    ensures multiset(FilteredTasks(items, f)) == multiset(Filter(items, (t: Record) => Keeps(f, t)))
    ensures forall t :: t in FilteredTasks(items, f) <==> t in items && Keeps(f, t)
    ensures f.sortBy.Some? ==> Sorted(FilteredTasks(items, f), f.sortBy.value, f.sortOrder == Has("asc"))
    ensures f.sortBy.None? ==> FilteredTasks(items, f) == Filter(items, (t: Record) => Keeps(f, t))
  {
    NarrowedSpec(items, f);
    if f.sortBy.Some? {
      SortSpec(Narrowed(items, f), f.sortBy.value, f.sortOrder == Has("asc"));
      var r := FilteredTasks(items, f);
      forall t ensures t in r <==> t in Narrowed(items, f) {
        assert t in r <==> t in multiset(r);
      }
    }
  }
}
