// The order of an object's keys after sorting: a stable sort by a comparison under which different keys may tie,
// and then the order in which JavaScript keeps properties, integer-like keys first.
module KeyOrder {
  import opened Wrappers

  type Compare = (string, string) -> int

  // localeCompare as a total preorder; different keys may compare equal.
  ghost predicate TotalPreorder(compare: Compare) {
    && (forall a, b :: compare(a, b) <= 0 || compare(b, a) <= 0)
    && (forall a, b, c :: compare(a, b) <= 0 && compare(b, c) <= 0 ==> compare(a, c) <= 0)
    && (forall a, b :: compare(a, b) > 0 ==> compare(b, a) < 0)
  }

  predicate DistinctKeys(keys: seq<string>) { forall i, j :: 0 <= i < j < |keys| ==> keys[i] != keys[j] }

  // ----- Sorting -----

  // A stable insertion sort, as Array.prototype.sort is stable: an element goes behind those that compare equal.
  function Insert(compare: Compare, key: string, sorted: seq<string>): (r: seq<string>)
    ensures multiset(r) == multiset{key} + multiset(sorted)
  {
    if sorted == [] || compare(key, sorted[0]) <= 0 then [key] + sorted
    else
      assert sorted == [sorted[0]] + sorted[1..];
      [sorted[0]] + Insert(compare, key, sorted[1..])
  }

  function Sort(compare: Compare, keys: seq<string>): (r: seq<string>)
    ensures multiset(r) == multiset(keys)
  {
    if keys == [] then []
    else
      assert keys == [keys[0]] + keys[1..];
      Insert(compare, keys[0], Sort(compare, keys[1..]))
  }

  ghost predicate Sorted(compare: Compare, keys: seq<string>) {
    forall i, j :: 0 <= i < j < |keys| ==> compare(keys[i], keys[j]) <= 0
  }

  predicate FirstOf(compare: Compare, key: string, keys: seq<string>) { forall k :: k in keys ==> compare(key, k) <= 0 }

  lemma PrependSorted(compare: Compare, key: string, keys: seq<string>)
    requires Sorted(compare, keys) && FirstOf(compare, key, keys)
    ensures Sorted(compare, [key] + keys)
  {
  }

  lemma HeadFirst(compare: Compare, key: string, sorted: seq<string>)
    requires TotalPreorder(compare) && Sorted(compare, sorted) && sorted != []
    ensures FirstOf(compare, sorted[0], sorted[1..])
    ensures compare(key, sorted[0]) <= 0 ==> FirstOf(compare, key, sorted)
    ensures compare(key, sorted[0]) > 0 ==> compare(sorted[0], key) <= 0
  {
    forall i | 0 <= i < |sorted| && compare(key, sorted[0]) <= 0
      ensures compare(key, sorted[i]) <= 0
    {
      assert i > 0 ==> compare(sorted[0], sorted[i]) <= 0;
    }
  }

  lemma FirstOfInserted(compare: Compare, first: string, key: string, keys: seq<string>)
    requires FirstOf(compare, first, keys) && compare(first, key) <= 0
    ensures FirstOf(compare, first, Insert(compare, key, keys))
  {
    assert forall k :: k in Insert(compare, key, keys) ==> k in multiset(Insert(compare, key, keys));
  }

  lemma {:induction false} InsertSorted(compare: Compare, key: string, sorted: seq<string>)
    requires TotalPreorder(compare) && Sorted(compare, sorted)
    ensures Sorted(compare, Insert(compare, key, sorted))
  {
    if sorted != [] {
      HeadFirst(compare, key, sorted);
      TailSorted(compare, sorted);
      InsertSorted(compare, key, sorted[1..]);
      hide TotalPreorder, Sorted, FirstOf;
      if compare(key, sorted[0]) <= 0 {
        PrependSorted(compare, key, sorted);
      } else {
        FirstOfInserted(compare, sorted[0], key, sorted[1..]);
        PrependSorted(compare, sorted[0], Insert(compare, key, sorted[1..]));
      }
    }
  }

  lemma {:induction false} SortSorts(compare: Compare, keys: seq<string>)
    requires TotalPreorder(compare)
    ensures Sorted(compare, Sort(compare, keys))
  {
    if keys != [] {
      SortSorts(compare, keys[1..]);
      InsertSorted(compare, keys[0], Sort(compare, keys[1..]));
    }
  }

  // No two of the keys compare equal.
  predicate NoTies(compare: Compare, keys: multiset<string>) {
    forall a, b :: a in keys && b in keys && compare(a, b) <= 0 && compare(b, a) <= 0 ==> a == b
  }

  lemma HeadIsLeast(compare: Compare, a: seq<string>, b: seq<string>)
    requires a != [] && multiset(a) == multiset(b) && Sorted(compare, a) && Sorted(compare, b) && NoTies(compare, multiset(a)) && TotalPreorder(compare)
    ensures b != [] && a[0] == b[0]
  {
    assert a[0] in multiset(a) && |multiset(a)| == |a| && |multiset(b)| == |b|;
    assert b[0] in multiset(b);
    assert a[0] in b && b[0] in a;
    var i :| 0 <= i < |b| && b[i] == a[0];
    var j :| 0 <= j < |a| && a[j] == b[0];
    assert compare(b[0], b[i]) <= 0 && compare(a[0], a[j]) <= 0;
  }

  lemma TailMultiset(a: seq<string>)
    requires a != []
    ensures multiset(a[1..]) == multiset(a) - multiset{a[0]}
  {
    assert a == [a[0]] + a[1..];
  }

  lemma TailSorted(compare: Compare, a: seq<string>)
    requires a != [] && Sorted(compare, a)
    ensures Sorted(compare, a[1..])
    ensures NoTies(compare, multiset(a)) ==> NoTies(compare, multiset(a[1..]))
  {
    TailMultiset(a);
  }

  // Without ties the sorted order of a collection of keys is unique.
  lemma {:induction false} SortedIsUnique(compare: Compare, a: seq<string>, b: seq<string>)
    requires TotalPreorder(compare) && multiset(a) == multiset(b) && Sorted(compare, a) && Sorted(compare, b) && NoTies(compare, multiset(a))
    ensures a == b
    decreases |a|
  {
    hide TotalPreorder, Sorted, NoTies;
    if a == [] {
      EmptyMultiset(b);
    } else {
      HeadIsLeast(compare, a, b);
      TailMultiset(a);
      TailMultiset(b);
      TailSorted(compare, a);
      TailSorted(compare, b);
      SortedIsUnique(compare, a[1..], b[1..]);
      HeadAndTail(a, b);
    }
  }

  lemma EmptyMultiset(b: seq<string>)
    requires multiset(b) == multiset{}
    ensures b == []
  {
    assert |multiset(b)| == |b|;
  }

  lemma HeadAndTail(a: seq<string>, b: seq<string>)
    requires a != [] && b != [] && a[0] == b[0] && a[1..] == b[1..]
    ensures a == b
  {
    assert a == [a[0]] + a[1..] && b == [b[0]] + b[1..];
  }

  lemma SameSort(compare: Compare, a: seq<string>, b: seq<string>)
    requires TotalPreorder(compare) && multiset(a) == multiset(b) && NoTies(compare, multiset(a))
    ensures Sort(compare, a) == Sort(compare, b)
  {
    hide TotalPreorder, Sorted, NoTies;
    SortSorts(compare, a);
    SortSorts(compare, b);
    SortedIsUnique(compare, Sort(compare, a), Sort(compare, b));
  }

  // ----- Stability -----

  predicate Precedes(keys: seq<string>, k: string, l: string) {
    exists i, j :: 0 <= i < j < |keys| && keys[i] == k && keys[j] == l
  }

  lemma PrecedesAt(keys: seq<string>, i: nat, j: nat)
    requires i < j < |keys|
    ensures Precedes(keys, keys[i], keys[j])
  {
  }

  lemma PrecedesInTail(x: string, keys: seq<string>, k: string, l: string)
    ensures Precedes(keys, k, l) ==> Precedes([x] + keys, k, l)
    ensures l in keys ==> Precedes([x] + keys, x, l)
  {
    var all := [x] + keys;
    if Precedes(keys, k, l) {
      var i, j :| 0 <= i < j < |keys| && keys[i] == k && keys[j] == l;
      PrecedesAt(all, i + 1, j + 1);
    }
    if l in keys {
      var j :| 0 <= j < |keys| && keys[j] == l;
      PrecedesAt(all, 0, j + 1);
    }
  }

  lemma PrecedesHead(x: string, keys: seq<string>, k: string, l: string)
    requires Precedes([x] + keys, k, l)
    ensures Precedes(keys, k, l) || (k == x && l in keys)
  {
    var all := [x] + keys;
    var i, j :| 0 <= i < j < |all| && all[i] == k && all[j] == l;
    assert keys[j - 1] == l;
    if i > 0 {
      assert keys[i - 1] == k;
    }
  }

  // Inserting does not swap what is there, and goes in front of what compares no less.
  lemma {:induction false} InsertPrecedes(compare: Compare, x: string, sorted: seq<string>, k: string, l: string)
    ensures Precedes(sorted, k, l) ==> Precedes(Insert(compare, x, sorted), k, l)
    ensures l in sorted && compare(x, l) <= 0 ==> Precedes(Insert(compare, x, sorted), x, l)
    decreases |sorted|
  {
    if sorted == [] || compare(x, sorted[0]) <= 0 {
      PrecedesInTail(x, sorted, k, l);
    } else {
      var rest := sorted[1..];
      var inserted := Insert(compare, x, rest);
      assert sorted == [sorted[0]] + rest;
      InsertPrecedes(compare, x, rest, k, l);
      InsertHas(compare, x, rest, l);
      PrecedesInTail(sorted[0], inserted, k, l);
      PrecedesInTail(sorted[0], inserted, x, l);
      if Precedes(sorted, k, l) {
        PrecedesHead(sorted[0], rest, k, l);
      }
    }
  }

  lemma InsertHas(compare: Compare, x: string, sorted: seq<string>, k: string)
    ensures k in Insert(compare, x, sorted) <==> k == x || k in sorted
  {
    assert k in multiset(Insert(compare, x, sorted)) <==> k == x || k in multiset(sorted);
  }

  lemma SortHas(compare: Compare, keys: seq<string>, k: string)
    ensures k in Sort(compare, keys) <==> k in keys
  {
    assert k in multiset(Sort(compare, keys)) <==> k in multiset(keys);
  }

  // Keys that tie, or that are in order already, are not swapped.
  lemma {:induction false} SortPrecedes(compare: Compare, keys: seq<string>, k: string, l: string)
    requires compare(k, l) <= 0 && Precedes(keys, k, l)
    ensures Precedes(Sort(compare, keys), k, l)
    decreases |keys|
  {
    var rest := keys[1..];
    assert keys == [keys[0]] + rest;
    PrecedesHead(keys[0], rest, k, l);
    SortHas(compare, rest, l);
    InsertPrecedes(compare, keys[0], Sort(compare, rest), k, l);
    if Precedes(rest, k, l) {
      SortPrecedes(compare, rest, k, l);
    }
  }

  lemma PrecedesOnce(keys: seq<string>, k: string, l: string)
    requires DistinctKeys(keys) && Precedes(keys, k, l)
    ensures k != l && !Precedes(keys, l, k)
  {
    var i, j :| 0 <= i < j < |keys| && keys[i] == k && keys[j] == l;
    forall m, n | 0 <= m < n < |keys|
      ensures !(keys[m] == l && keys[n] == k)
    {
    }
  }

  // ----- Distinct keys as multisets -----

  lemma {:induction false} DistinctMeansOnce(keys: seq<string>, k: string)
    requires DistinctKeys(keys)
    ensures multiset(keys)[k] <= 1
  {
    if keys != [] {
      assert keys == [keys[0]] + keys[1..];
      DistinctMeansOnce(keys[1..], k);
      if k == keys[0] {
        assert k !in keys[1..];
      }
    }
  }

  lemma OnceMeansDistinct(keys: seq<string>, i: nat, j: nat)
    requires i < j < |keys| && multiset(keys)[keys[i]] <= 1
    ensures keys[i] != keys[j]
  {
    assert keys == keys[..j] + keys[j..];
    assert keys[i] in keys[..j] && keys[j] in keys[j..];
    assert multiset(keys)[keys[i]] == multiset(keys[..j])[keys[i]] + multiset(keys[j..])[keys[i]];
    assert multiset(keys[..j])[keys[i]] > 0 && multiset(keys[j..])[keys[j]] > 0;
  }

  lemma DistinctPermuted(a: seq<string>, b: seq<string>)
    requires DistinctKeys(a) && multiset(a) == multiset(b)
    ensures DistinctKeys(b)
  {
    forall i, j | 0 <= i < j < |b|
      ensures b[i] != b[j]
    {
      DistinctMeansOnce(a, b[i]);
      OnceMeansDistinct(b, i, j);
    }
  }

  lemma SameDistinct(a: seq<string>, b: seq<string>)
    requires DistinctKeys(a) && DistinctKeys(b) && forall k :: k in a <==> k in b
    ensures multiset(a) == multiset(b)
  {
    forall k
      ensures multiset(a)[k] == multiset(b)[k]
    {
      DistinctMeansOnce(a, k);
      DistinctMeansOnce(b, k);
      assert k in multiset(a) <==> k in a;
      assert k in multiset(b) <==> k in b;
    }
  }

  // ----- The order of an object's own properties -----

  // `index` is the array index that a key denotes, if it does.
  datatype Platform = Platform(compare: Compare, index: string -> Option<nat>)

  ghost predicate IndicesDiffer(p: Platform) {
    forall a, b :: p.index(a).Some? && p.index(a) == p.index(b) ==> a == b
  }

  predicate Ordinary(p: Platform, key: string) { p.index(key).None? }

  function Filter(p: Platform, ordinary: bool, keys: seq<string>): seq<string> {
    if keys == [] then []
    else (if Ordinary(p, keys[0]) == ordinary then [keys[0]] else []) + Filter(p, ordinary, keys[1..])
  }

  function Number(p: Platform, key: string): int { if p.index(key).Some? then p.index(key).value else -1 }

  function ByIndex(p: Platform): Compare { (a, b) => Number(p, a) - Number(p, b) }

  // Integer-like keys ascending, then the others in the order in which they were created.
  function Layout(p: Platform, keys: seq<string>): seq<string> {
    Sort(ByIndex(p), Filter(p, false, keys)) + Filter(p, true, keys)
  }

  // The keys of an object whose properties were created in sorted order.
  function Order(p: Platform, keys: seq<string>): seq<string> { Layout(p, Sort(p.compare, keys)) }

  lemma {:induction false} FilterCounts(p: Platform, ordinary: bool, keys: seq<string>, k: string)
    ensures multiset(Filter(p, ordinary, keys))[k] == if Ordinary(p, k) == ordinary then multiset(keys)[k] else 0
    decreases |keys|
  {
    if keys != [] {
      assert keys == [keys[0]] + keys[1..];
      FilterCounts(p, ordinary, keys[1..], k);
    }
  }

  lemma LayoutPermutes(p: Platform, keys: seq<string>)
    ensures multiset(Layout(p, keys)) == multiset(keys)
  {
    forall k
      ensures multiset(Layout(p, keys))[k] == multiset(keys)[k]
    {
      FilterCounts(p, true, keys, k);
      FilterCounts(p, false, keys, k);
    }
  }

  lemma OrderPermutes(p: Platform, keys: seq<string>)
    ensures multiset(Order(p, keys)) == multiset(keys)
  {
    LayoutPermutes(p, Sort(p.compare, keys));
  }

  lemma FilterPermuted(p: Platform, ordinary: bool, a: seq<string>, b: seq<string>)
    requires multiset(a) == multiset(b)
    ensures multiset(Filter(p, ordinary, a)) == multiset(Filter(p, ordinary, b))
  {
    forall k
      ensures multiset(Filter(p, ordinary, a))[k] == multiset(Filter(p, ordinary, b))[k]
    {
      FilterCounts(p, ordinary, a, k);
      FilterCounts(p, ordinary, b, k);
    }
  }

  lemma FilterHas(p: Platform, ordinary: bool, keys: seq<string>, k: string)
    ensures k in Filter(p, ordinary, keys) <==> k in keys && Ordinary(p, k) == ordinary
  {
    FilterCounts(p, ordinary, keys, k);
    assert k in multiset(Filter(p, ordinary, keys)) <==> k in Filter(p, ordinary, keys);
    assert k in multiset(keys) <==> k in keys;
  }

  lemma {:induction false} FilterSorted(p: Platform, keys: seq<string>)
    requires Sorted(p.compare, keys)
    ensures Sorted(p.compare, Filter(p, true, keys))
    decreases |keys|
  {
    if keys != [] {
      var rest := Filter(p, true, keys[1..]);
      FilterSorted(p, keys[1..]);
      forall k | k in rest
        ensures p.compare(keys[0], k) <= 0
      {
        FilterHas(p, true, keys[1..], k);
      }
      PrependSorted(p.compare, keys[0], rest);
    }
  }

  // No two ordinary keys tie. An integer-like key may: its place does not depend on the sort.
  ghost predicate OrdinaryTieFree(p: Platform, keys: seq<string>) {
    forall a, b :: a in keys && b in keys && Ordinary(p, a) && Ordinary(p, b) && p.compare(a, b) <= 0 && p.compare(b, a) <= 0 ==> a == b
  }

  lemma ByIndexIsTotal(p: Platform)
    ensures TotalPreorder(ByIndex(p))
  {
  }

  lemma IndicesDoNotTie(p: Platform, keys: seq<string>)
    requires IndicesDiffer(p)
    ensures NoTies(ByIndex(p), multiset(Filter(p, false, keys)))
  {
    hide Filter;
    var x := Filter(p, false, keys);
    forall k, l | k in multiset(x) && l in multiset(x) && ByIndex(p)(k, l) <= 0 && ByIndex(p)(l, k) <= 0
      ensures k == l
    {
      FilterHas(p, false, keys, k);
      FilterHas(p, false, keys, l);
      assert p.index(k) == p.index(l);
    }
  }

  lemma IndexedPartIsUnique(p: Platform, a: seq<string>, b: seq<string>)
    requires IndicesDiffer(p) && multiset(a) == multiset(b)
    ensures Sort(ByIndex(p), Filter(p, false, a)) == Sort(ByIndex(p), Filter(p, false, b))
  {
    hide Sort, Filter, NoTies, TotalPreorder, IndicesDiffer;
    FilterPermuted(p, false, a, b);
    ByIndexIsTotal(p);
    IndicesDoNotTie(p, a);
    SameSort(ByIndex(p), Filter(p, false, a), Filter(p, false, b));
  }

  lemma OrdinaryKeysDoNotTie(p: Platform, keys: seq<string>)
    requires OrdinaryTieFree(p, keys)
    ensures NoTies(p.compare, multiset(Filter(p, true, Sort(p.compare, keys))))
  {
    hide Filter, Sort;
    var sorted := Sort(p.compare, keys);
    var x := Filter(p, true, sorted);
    forall k, l | k in multiset(x) && l in multiset(x) && p.compare(k, l) <= 0 && p.compare(l, k) <= 0
      ensures k == l
    {
      FilterHas(p, true, sorted, k);
      FilterHas(p, true, sorted, l);
      SortHas(p.compare, keys, k);
      SortHas(p.compare, keys, l);
    }
  }

  lemma OrdinaryPartIsUnique(p: Platform, a: seq<string>, b: seq<string>)
    requires TotalPreorder(p.compare) && multiset(a) == multiset(b) && OrdinaryTieFree(p, a)
    ensures Filter(p, true, Sort(p.compare, a)) == Filter(p, true, Sort(p.compare, b))
  {
    hide Sort, Filter, NoTies, TotalPreorder, OrdinaryTieFree, Sorted;
    var x, y := Sort(p.compare, a), Sort(p.compare, b);
    SortSorts(p.compare, a);
    SortSorts(p.compare, b);
    FilterSorted(p, x);
    FilterSorted(p, y);
    FilterPermuted(p, true, x, y);
    OrdinaryKeysDoNotTie(p, a);
    SortedIsUnique(p.compare, Filter(p, true, x), Filter(p, true, y));
  }

  // The order depends on the set of keys alone when no two ordinary ones tie.
  lemma OrderIsUnique(p: Platform, a: seq<string>, b: seq<string>)
    requires TotalPreorder(p.compare) && IndicesDiffer(p) && multiset(a) == multiset(b) && OrdinaryTieFree(p, a)
    ensures Order(p, a) == Order(p, b)
  {
    IndexedPartIsUnique(p, Sort(p.compare, a), Sort(p.compare, b));
    OrdinaryPartIsUnique(p, a, b);
  }

  lemma {:induction false} FilterPrecedes(p: Platform, keys: seq<string>, k: string, l: string)
    requires Ordinary(p, k) && Ordinary(p, l) && Precedes(keys, k, l)
    ensures Precedes(Filter(p, true, keys), k, l)
    decreases |keys|
  {
    var rest := keys[1..];
    assert keys == [keys[0]] + rest;
    PrecedesHead(keys[0], rest, k, l);
    FilterHas(p, true, rest, l);
    PrecedesInTail(keys[0], Filter(p, true, rest), k, l);
    if Precedes(rest, k, l) {
      FilterPrecedes(p, rest, k, l);
      assert [] + Filter(p, true, rest) == Filter(p, true, rest);
    }
  }

  lemma PrecedesBehind(a: seq<string>, b: seq<string>, k: string, l: string)
    requires Precedes(b, k, l)
    ensures Precedes(a + b, k, l)
  {
    var i, j :| 0 <= i < j < |b| && b[i] == k && b[j] == l;
    assert (a + b)[|a| + i] == k && (a + b)[|a| + j] == l;
  }

  // Ordinary keys that tie keep the order in which they come.
  lemma OrderPrecedes(p: Platform, keys: seq<string>, k: string, l: string)
    requires Ordinary(p, k) && Ordinary(p, l) && p.compare(k, l) <= 0 && Precedes(keys, k, l)
    ensures Precedes(Order(p, keys), k, l)
  {
    var sorted := Sort(p.compare, keys);
    SortPrecedes(p.compare, keys, k, l);
    FilterPrecedes(p, sorted, k, l);
    PrecedesBehind(Sort(ByIndex(p), Filter(p, false, sorted)), Filter(p, true, sorted), k, l);
  }

  // Where a key comes: array indices first and ascending, the ordinary keys after them.
  lemma LayoutAscends(p: Platform, keys: seq<string>, i: nat, j: nat)
    requires i < j < |Layout(p, keys)|
    ensures var a, b := Layout(p, keys)[i], Layout(p, keys)[j];
            && (p.index(b).Some? ==> p.index(a).Some? && p.index(a).value <= p.index(b).value)
            && (p.index(a).None? ==> p.index(b).None?)
  {
    var indexed, rest := Sort(ByIndex(p), Filter(p, false, keys)), Filter(p, true, keys);
    ByIndexIsTotal(p);
    SortSorts(ByIndex(p), Filter(p, false, keys));
    forall k | k in indexed
      ensures !Ordinary(p, k)
    {
      SortHas(ByIndex(p), Filter(p, false, keys), k);
      FilterHas(p, false, keys, k);
    }
    forall k | k in rest
      ensures Ordinary(p, k)
    {
      FilterHas(p, true, keys, k);
    }
    if j < |indexed| {
      assert ByIndex(p)(indexed[i], indexed[j]) <= 0;
      assert indexed[i] in indexed && indexed[j] in indexed;
    } else {
      assert Layout(p, keys)[j] == rest[j - |indexed|];
      assert rest[j - |indexed|] in rest;
    }
  }
}
