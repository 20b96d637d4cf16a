/**
 * The array operations the reducers of both slices perform on `state.items`: `findIndex` by id
 * followed by an index assignment, `filter` by id, and `find` before `push`.
 */
module Items {
  import opened Js
  import opened Records

  /** `items.findIndex(t => t.id === id)`: the first position holding that id, or -1. */
  function FindIndex(items: seq<Record>, id: Val<string>): (r: int)
    ensures -1 <= r < |items|
    ensures r == -1 <==> forall i | 0 <= i < |items| :: items[i].id != id
    ensures r != -1 ==> items[r].id == id && forall i | 0 <= i < r :: items[i].id != id
    decreases |items|
  {
    if items == [] then -1
    else if items[0].id == id then 0
    else
      var k := FindIndex(items[1..], id);
      if k == -1 then -1 else k + 1
  }

  /** `const i = items.findIndex(t => t.id === r.id); if (i !== -1) items[i] = r`. */
  function ReplaceFirst(items: seq<Record>, r: Record): seq<Record> {
    var i := FindIndex(items, r.id);
    if i == -1 then items else items[i := r]
  }

  /**
   * Only the first item carrying `r`'s id is replaced; every other position, later duplicates of
   * that id included, keeps its item; and with no item of that id nothing changes.
   */
  lemma ReplaceFirstSpec(items: seq<Record>, r: Record)
    ensures |ReplaceFirst(items, r)| == |items|
    ensures (forall i | 0 <= i < |items| :: items[i].id != r.id) ==> ReplaceFirst(items, r) == items
    ensures forall k | 0 <= k < |items| && items[k].id == r.id && (forall i | 0 <= i < k :: items[i].id != r.id) ::
      ReplaceFirst(items, r) == items[k := r]
    ensures forall j | 0 <= j < |items| && ReplaceFirst(items, r)[j] != items[j] ::
      ReplaceFirst(items, r)[j] == r && j == FindIndex(items, r.id)
  {
    forall k | 0 <= k < |items| && items[k].id == r.id && (forall i | 0 <= i < k :: items[i].id != r.id)
      ensures FindIndex(items, r.id) == k
    {
    }
  }

  /** `items.filter(t => t.id !== id)` */
  function RemoveId(items: seq<Record>, id: Val<string>): seq<Record>
    decreases |items|
  {
    if items == [] then []
    else if items[0].id == id then RemoveId(items[1..], id)
    else [items[0]] + RemoveId(items[1..], id)
  }

  /** After the filter no item carries `id`; every other item stays, in order and with its multiplicity. */
  lemma RemoveIdSpec(items: seq<Record>, id: Val<string>)
    ensures forall t :: t in RemoveId(items, id) <==> t in items && t.id != id
    ensures forall t: Record | t.id != id :: multiset(RemoveId(items, id))[t] == multiset(items)[t]
    ensures (forall i | 0 <= i < |items| :: items[i].id != id) ==> RemoveId(items, id) == items
  {
    RemoveIdMembers(items, id);
    RemoveIdCounts(items, id);
    if forall i | 0 <= i < |items| :: items[i].id != id {
      RemoveIdNoMatch(items, id);
    }
  }

  lemma {:induction false} RemoveIdMembers(items: seq<Record>, id: Val<string>)
    ensures forall t :: t in RemoveId(items, id) <==> t in items && t.id != id
    decreases |items|
  {
    if items != [] {
      RemoveIdMembers(items[1..], id);
      assert items == [items[0]] + items[1..];
    }
  }

  lemma {:induction false} RemoveIdCounts(items: seq<Record>, id: Val<string>)
    ensures forall t: Record | t.id != id :: multiset(RemoveId(items, id))[t] == multiset(items)[t]
    decreases |items|
  {
    if items != [] {
      RemoveIdCounts(items[1..], id);
      assert items == [items[0]] + items[1..];
      assert multiset(items) == multiset{items[0]} + multiset(items[1..]);
    }
  }

  lemma {:induction false} RemoveIdNoMatch(items: seq<Record>, id: Val<string>)
    requires forall i | 0 <= i < |items| :: items[i].id != id
    ensures RemoveId(items, id) == items
    decreases |items|
  {
    if items != [] {
      RemoveIdNoMatch(items[1..], id);
      assert items == [items[0]] + items[1..];
    }
  }

  /** Whether some item carries `id`: `items.find(t => t.id === id)` is truthy. */
  predicate HasId(items: seq<Record>, id: Val<string>) {
    exists i | 0 <= i < |items| :: items[i].id == id
  }

  /** `if (!items.find(l => l.id === r.id)) items.push(r)`. */
  function AppendIfNew(items: seq<Record>, r: Record): (out: seq<Record>)
    ensures HasId(items, r.id) ==> out == items
    ensures !HasId(items, r.id) ==> out == items + [r]
  {
    if FindIndex(items, r.id) != -1 then items else items + [r]
  }

  /** Appending only new ids never creates a second item with the same id. */
  lemma AppendIfNewKeepsIdsUnique(items: seq<Record>, r: Record)
    requires forall i, j | 0 <= i < j < |items| :: items[i].id != items[j].id
    ensures var out := AppendIfNew(items, r); forall i, j | 0 <= i < j < |out| :: out[i].id != out[j].id
  {
  }

  // ---------------------------------------------------------------------------
  // `Array.prototype.filter`

  /** `s.filter(p)`: the elements satisfying `p`, in order. */
  function Filter(s: seq<Record>, p: Record -> bool): (r: seq<Record>)
    ensures |r| <= |s|
    ensures forall t :: t in r <==> t in s && p(t)
    decreases |s|
  {
    if s == [] then []
    else if p(s[0]) then [s[0]] + Filter(s[1..], p)
    else Filter(s[1..], p)
  }

  /** A filter every element passes returns its input. */
  lemma {:induction false} FilterAll(s: seq<Record>, p: Record -> bool)
    requires forall i | 0 <= i < |s| :: p(s[i])
    ensures Filter(s, p) == s
    decreases |s|
  {
    if s != [] {
      FilterAll(s[1..], p);
      assert s == [s[0]] + s[1..];
    }
  }

  /** Two successive filters are one filter by the conjunction. */
  lemma {:induction false} FilterFilter(s: seq<Record>, p: Record -> bool, q: Record -> bool, pq: Record -> bool)
    requires forall t :: pq(t) == (p(t) && q(t))
    ensures Filter(Filter(s, p), q) == Filter(s, pq)
    decreases |s|
  {
    if s != [] {
      FilterFilter(s[1..], p, q, pq);
    }
  }

  /** Filters that agree on the elements give the same result. */
  lemma {:induction false} FilterSame(s: seq<Record>, p: Record -> bool, q: Record -> bool)
    requires forall i | 0 <= i < |s| :: p(s[i]) == q(s[i])
    ensures Filter(s, p) == Filter(s, q)
    decreases |s|
  {
    if s != [] {
      FilterSame(s[1..], p, q);
    }
  }

  /** A filter keeps each element at most as often as it occurs. */
  lemma {:induction false} FilterMultiset(s: seq<Record>, p: Record -> bool)
    ensures multiset(Filter(s, p)) <= multiset(s)
    decreases |s|
  {
    if s != [] {
      FilterMultiset(s[1..], p);
      assert s == [s[0]] + s[1..];
    }
  }

  lemma {:induction false} FilterAppend(a: seq<Record>, b: seq<Record>, p: Record -> bool)
    ensures Filter(a + b, p) == Filter(a, p) + Filter(b, p)
    decreases |a|
  {
    if a == [] {
      assert a + b == b;
    } else {
      FilterAppend(a[1..], b, p);
      assert (a + b)[1..] == a[1..] + b;
    }
  }

  /** Filters by mutually exclusive predicates together keep no more elements than the input has. */
  lemma {:induction false} FilterExclusive3(s: seq<Record>, p: Record -> bool, q: Record -> bool, r: Record -> bool)
    requires forall t :: !(p(t) && q(t)) && !(p(t) && r(t)) && !(q(t) && r(t))
    ensures |Filter(s, p)| + |Filter(s, q)| + |Filter(s, r)| <= |s|
    decreases |s|
  {
    if s != [] {
      FilterExclusive3(s[1..], p, q, r);
    }
  }

  /** `a` is `b` with some elements left out, the others in their order. */
  predicate IsSubsequence(a: seq<Record>, b: seq<Record>)
    decreases |b|
  {
    a == [] || (b != [] && ((a[0] == b[0] && IsSubsequence(a[1..], b[1..])) || IsSubsequence(a, b[1..])))
  }

  /** A filter keeps the order of what it keeps. */
  lemma {:induction false} FilterSubsequence(s: seq<Record>, p: Record -> bool)
    ensures IsSubsequence(Filter(s, p), s)
    decreases |s|
  {
    if s != [] {
      FilterSubsequence(s[1..], p);
      if p(s[0]) {
        assert ([s[0]] + Filter(s[1..], p))[1..] == Filter(s[1..], p);
      }
    }
  }
}
