/**
 * The records the engine stores: tasks and lists are plain JavaScript objects, kept locally in
 * IndexedDB and remotely in Firestore. One datatype carries every property either kind uses; a
 * property an object does not have is `Absent`.
 */
module Records {
  import opened Js

  datatype Record = Record(
    id: Val<string>,
    listId: Val<string>,
    userId: Val<string>,
    name: Val<string>,
    title: Val<string>,
    description: Val<string>,
    status: Val<string>,
    priority: Val<string>,
    dueDate: Val<int>,          // a date as milliseconds since the epoch
    tags: Val<seq<string>>,
    createdAt: Val<int>,
    lastUpdated: Val<int>,
    // provenance
    isOffline: Val<bool>,
    syncFailed: Val<bool>,
    markedForDeletion: Val<bool>,
    markedAt: Val<int>)

  /** `{}` */
  const Empty := Record(Absent, Absent, Absent, Absent, Absent, Absent, Absent, Absent,
                        Absent, Absent, Absent, Absent, Absent, Absent, Absent, Absent)

  function Pick<T>(a: Val<T>, b: Val<T>): Val<T> {
    if b.Absent? then a else b
  }

  /** `{ ...a, ...b }`: every property `b` has (even `null`) overrides the one of `a`. */
  function Merge(a: Record, b: Record): Record {
    Record(
      Pick(a.id, b.id), Pick(a.listId, b.listId), Pick(a.userId, b.userId), Pick(a.name, b.name),
      Pick(a.title, b.title), Pick(a.description, b.description), Pick(a.status, b.status),
      Pick(a.priority, b.priority), Pick(a.dueDate, b.dueDate), Pick(a.tags, b.tags),
      Pick(a.createdAt, b.createdAt), Pick(a.lastUpdated, b.lastUpdated),
      Pick(a.isOffline, b.isOffline), Pick(a.syncFailed, b.syncFailed),
      Pick(a.markedForDeletion, b.markedForDeletion), Pick(a.markedAt, b.markedAt))
  }

  lemma MergeEmpty(a: Record)
    ensures Merge(a, Empty) == a && Merge(Empty, a) == a
  {
  }

  /** The object with only an `id`, as in `{ id: d.id, ...d.data() }`. */
  function WithId(id: string): Record {
    Empty.(id := Has(id))
  }

  /** Status and priority values. */
  const Todo := "todo"
  const InProgress := "inProgress"
  const Done := "done"
  const Low := "low"
  const Medium := "medium"
  const High := "high"

  /** Locally minted ids start with this prefix. */
  const OfflinePrefix := "offline_"

  predicate IsLocalId(id: string) {
    StartsWith(id, OfflinePrefix)
  }

  // ---------------------------------------------------------------------------
  // Outcomes of calls into the stores

  /** A thrown error: Firestore errors carry a `code`, every error a `message`. */
  datatype Error = Error(code: Val<string>, message: Val<string>)

  /** How one call into a store ends: it resolves, or it throws `error`. */
  datatype Reply = Ok | Fails(error: Error)

  /** How a thunk's promise settles. */
  datatype Settled<T> = Fulfilled(value: T) | Rejected(error: Error)

  /** The error IndexedDB throws when a record's `id` is not a valid key. */
  const KeyError := Error(Absent, Has("DataError"))

  /** The error Firestore throws for a document reference built from a missing or empty segment. */
  const PathError := Error(Has("invalid-argument"), Has("Invalid document reference"))

  /** The error Firestore throws when `updateDoc` addresses a document that does not exist. */
  const NotFoundError := Error(Has("not-found"), Has("No document to update"))

  // ---------------------------------------------------------------------------
  // Remote key space

  /** A document of the remote store: `lists/<id>` or `lists/<listId>/tasks/<id>`. */
  datatype DocPath = ListDoc(id: string) | TaskDoc(listId: string, taskId: string)

  /** `getTaskDoc(listId, id)`: Firestore refuses missing or empty path segments. */
  function TaskPath(listId: Val<string>, id: Val<string>): (p: Option<DocPath>)
    ensures p.Some? <==> TruthyStr(listId) && TruthyStr(id)
    ensures p.Some? ==> p.value == TaskDoc(listId.v, id.v)
  {
    if TruthyStr(listId) && TruthyStr(id) then Some(TaskDoc(listId.v, id.v)) else None
  }

  datatype Option<T> = None | Some(value: T)

  // ---------------------------------------------------------------------------
  // Tag lists

  /** `tags.includes(tag) ? tags.filter(t => t !== tag) : [...tags, tag]` */
  function ToggleTag(tags: seq<string>, tag: string): seq<string> {
    if tag in tags then Without(tags, tag) else tags + [tag]
  }

  /** `tags.filter(t => t !== tag)` */
  function Without(tags: seq<string>, tag: string): (r: seq<string>)
    ensures forall x :: x in r <==> x in tags && x != tag
  {
    if tags == [] then []
    else if tags[0] == tag then Without(tags[1..], tag)
    else [tags[0]] + Without(tags[1..], tag)
  }

  lemma {:induction false} WithoutAbsent(tags: seq<string>, tag: string)
    requires tag !in tags
    ensures Without(tags, tag) == tags
  {
    if tags != [] {
      WithoutAbsent(tags[1..], tag);
    }
  }

  /** Toggling removes every occurrence of a present tag and appends an absent one at the end. */
  lemma ToggleTagEffect(tags: seq<string>, tag: string)
    ensures tag in tags ==> tag !in ToggleTag(tags, tag)
    ensures tag in tags ==> forall x | x != tag :: x in ToggleTag(tags, tag) <==> x in tags
    ensures tag !in tags ==> ToggleTag(tags, tag) == tags + [tag]
  {
  }

  /** Toggling an absent tag twice gives the original tag list back. */
  lemma ToggleTwiceRestores(tags: seq<string>, tag: string)
    requires tag !in tags
    ensures ToggleTag(ToggleTag(tags, tag), tag) == tags
  {
    assert ToggleTag(tags, tag) == tags + [tag];
    WithoutLast(tags, tag);
  }

  lemma {:induction false} WithoutLast(tags: seq<string>, tag: string)
    requires tag !in tags
    ensures Without(tags + [tag], tag) == tags
  {
    if tags == [] {
      assert [tag][1..] == [];
    } else {
      assert (tags + [tag])[1..] == tags[1..] + [tag];
      WithoutLast(tags[1..], tag);
    }
  }

  // ---------------------------------------------------------------------------
  // `Array.from(set)` after adding values one by one: first appearance order

  /** The values of `xs` without later repetitions, in first-appearance order. */
  function Distinct(xs: seq<string>): seq<string>
    decreases |xs|
  {
    if xs == [] then []
    else
      var d := Distinct(xs[..|xs| - 1]);
      if xs[|xs| - 1] in d then d else d + [xs[|xs| - 1]]
  }

  predicate NoDuplicates(xs: seq<string>) {
    forall i, j | 0 <= i < j < |xs| :: xs[i] != xs[j]
  }

  /** `Distinct` lists every value of its input, each exactly once. */
  lemma {:induction false} DistinctSpec(xs: seq<string>)
    ensures forall x :: x in Distinct(xs) <==> x in xs
    ensures NoDuplicates(Distinct(xs))
    decreases |xs|
  {
    if xs != [] {
      var init := xs[..|xs| - 1];
      DistinctSpec(init);
      assert xs == init + [xs[|xs| - 1]];
    }
  }

  /** Each value appears in `Distinct(xs)` before the values whose first appearance in `xs` is later. */
  lemma {:induction false} DistinctOrder(xs: seq<string>, i: int, j: int)
    requires 0 <= i < j < |Distinct(xs)|
    ensures FirstIndex(xs, Distinct(xs)[i]) < FirstIndex(xs, Distinct(xs)[j])
    decreases |xs|
  {
    DistinctSpec(xs);
    var init := xs[..|xs| - 1];
    var d := Distinct(init);
    DistinctSpec(init);
    var last := xs[|xs| - 1];
    if j < |d| {
      DistinctOrder(init, i, j);
      FirstIndexPrefix(xs, d[i]);
      FirstIndexPrefix(xs, d[j]);
    } else {
      assert last !in d && Distinct(xs)[j] == last && Distinct(xs)[i] == d[i];
      FirstIndexPrefix(xs, d[i]);
      assert last !in init;
      FirstIndexIs(xs, last, |xs| - 1);
      FirstIndexBound(init, d[i]);
    }
  }

  /** The position of the first occurrence of `x` in `xs` (`|xs|` when absent). */
  function FirstIndex(xs: seq<string>, x: string): (r: nat)
    ensures r <= |xs|
    ensures r < |xs| ==> xs[r] == x
    decreases |xs|
  {
    if xs == [] then 0 else if xs[0] == x then 0 else 1 + FirstIndex(xs[1..], x)
  }

  lemma {:induction false} FirstIndexBound(xs: seq<string>, x: string)
    requires x in xs
    ensures FirstIndex(xs, x) < |xs|
  {
    if xs[0] != x { FirstIndexBound(xs[1..], x); }
  }

  lemma {:induction false} FirstIndexPrefix(xs: seq<string>, x: string)
    requires |xs| > 0 && x in xs[..|xs| - 1]
    ensures FirstIndex(xs, x) == FirstIndex(xs[..|xs| - 1], x)
  {
    if xs[0] != x {
      assert xs[1..][..|xs[1..]| - 1] == xs[..|xs| - 1][1..];
      FirstIndexPrefix(xs[1..], x);
    }
  }

  lemma {:induction false} FirstIndexIs(xs: seq<string>, x: string, k: int)
    requires 0 <= k < |xs| && xs[k] == x && x !in xs[..k]
    ensures FirstIndex(xs, x) == k
  {
    if k > 0 {
      assert xs[1..][..k - 1] == xs[1..k];
      FirstIndexIs(xs[1..], x, k - 1);
    }
  }
}
