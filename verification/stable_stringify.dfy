// The recursion of stableStringify with its `seen` set: it computes the ordered form exactly of the values in
// which no object occurs twice, and cuts every later occurrence.
module StableStringifier {
  import opened Wrappers
  import opened KeyOrder
  import opened StableJson

  // ----- What it computes, for every value -----

  const CIRCULAR: Json := Leaf(Text("[Circular]"))

  function Width(v: Json): nat {
    match v
    case Leaf(_) => 0
    case Arr(_, items) => |items|
    case Obj(_, fields) => |fields|
    case Date(_, _) => 0
  }

  // The ordered value and the objects seen after it.
  function Stringified(p: Platform, v: Json, seen: set<int>): (Json, set<int>)
    decreases v, Width(v) + 1
  {
    if v.Leaf? then (v, seen)
    else if v.ref in seen then (CIRCULAR, seen)
    else if v.Date? then (Obj(0, []), seen + {v.ref})
    else if v.Arr? then
      var (items, after) := ItemsUpTo(p, v, seen + {v.ref}, |v.items|);
      (Arr(0, items), after)
    else
      var (acc, after) := FieldsUpTo(p, v, seen + {v.ref}, |v.fields|);
      (Obj(0, Laid(p, acc)), after)
  }

  function ItemsUpTo(p: Platform, v: Json, seen: set<int>, n: nat): (seq<Json>, set<int>)
    requires v.Arr? && n <= |v.items|
    decreases v, n
  {
    if n == 0 then ([], seen)
    else
      var (items, before) := ItemsUpTo(p, v, seen, n - 1);
      var (item, after) := Stringified(p, v.items[n - 1], before);
      (items + [item], after)
  }

  // The fields are visited in sorted order.
  function FieldsUpTo(p: Platform, v: Json, seen: set<int>, n: nat): (seq<Field>, set<int>)
    requires v.Obj? && n <= |v.fields|
    decreases v, n
  {
    if n == 0 then ([], seen)
    else
      var (acc, before) := FieldsUpTo(p, v, seen, n - 1);
      var (field, after) := StringifiedField(p, v.fields[IndexOf(v.fields, SortedKeys(p, v.fields)[n - 1])], before);
      (acc + [field], after)
  }

  function StringifiedField(p: Platform, f: Field, seen: set<int>): (Field, set<int>)
    decreases f, 0
  {
    var (value, after) := Stringified(p, f.value, seen);
    (Field(f.key, value), after)
  }

  class Stringifier {
    const p: Platform
    var seen: set<int>

    constructor (p: Platform)
      ensures this.p == p && seen == {}
    {
      this.p := p;
      seen := {};
    }

    method Stringify(val: Json) returns (ordered: Json)
      modifies this
      ensures (ordered, seen) == Stringified(p, val, old(seen))
      decreases val
    {
      if val.Leaf? { return val; }
      if val.ref in seen { return CIRCULAR; }
      seen := seen + {val.ref};
      if val.Date? { return Obj(0, []); }
      if val.Arr? {
        var items: seq<Json> := [];
        for i := 0 to |val.items|
          invariant (items, seen) == ItemsUpTo(p, val, old(seen) + {val.ref}, i)
        {
          var item := Stringify(val.items[i]);
          items := items + [item];
        }
        ordered := Arr(0, items);
      } else {
        var keys := SortedKeys(p, val.fields);
        var acc: seq<Field> := [];
        for i := 0 to |keys|
          invariant (acc, seen) == FieldsUpTo(p, val, old(seen) + {val.ref}, i)
        {
          var field := val.fields[IndexOf(val.fields, keys[i])];
          assert field < val;
          var value := Stringify(field.value);
          acc := acc + [Field(field.key, value)];
        }
        ordered := Obj(0, Laid(p, acc));
      }
    }

    // `text` is JSON.stringify.
    method StableStringify(value: Json, text: Json -> string) returns (s: string)
      modifies this
      ensures s == text(Resorted(p, Stringified(p, value, {}).0))
    {
      seen := {};
      var ordered := Stringify(value);
      s := text(Resorted(p, ordered));
    }
  }

  // ----- Trees -----

  // The objects and arrays of a value.
  function Refs(v: Json): set<int>
    decreases v
  {
    match v
    case Leaf(_) => {}
    case Arr(ref, items) => {ref} + set i, r | 0 <= i < |items| && r in Refs(items[i]) :: r
    case Obj(ref, fields) => {ref} + set i, r | 0 <= i < |fields| && r in FieldRefs(fields[i]) :: r
    case Date(ref, _) => {ref}
  }

  function FieldRefs(f: Field): set<int>
    decreases f
  {
    Refs(f.value)
  }

  // A tree: no object or array occurs twice, and no object has a key twice.
  predicate Tree(v: Json)
    decreases v
  {
    match v
    case Leaf(_) => true
    case Arr(ref, items) =>
      && (forall i :: 0 <= i < |items| ==> Tree(items[i]) && ref !in Refs(items[i]))
      && (forall i, j :: 0 <= i < j < |items| ==> Refs(items[i]) !! Refs(items[j]))
    case Obj(ref, fields) =>
      && DistinctKeys(Keys(fields))
      && (forall i :: 0 <= i < |fields| ==> TreeField(fields[i]) && ref !in FieldRefs(fields[i]))
      && (forall i, j :: 0 <= i < j < |fields| ==> FieldRefs(fields[i]) !! FieldRefs(fields[j]))
    case Date(_, _) => true
  }

  predicate TreeField(f: Field)
    decreases f
  {
    Tree(f.value)
  }

  lemma SortedIndicesDiffer(p: Platform, fields: seq<Field>, i: nat, j: nat)
    requires DistinctKeys(Keys(fields)) && i < j < |fields|
    ensures IndexOf(fields, SortedKeys(p, fields)[i]) != IndexOf(fields, SortedKeys(p, fields)[j])
  {
    hide SortedKeys, IndexOf, Keys;
    var keys := SortedKeys(p, fields);
    DistinctPermuted(Keys(fields), keys);
    assert fields[IndexOf(fields, keys[i])].key == keys[i] && fields[IndexOf(fields, keys[j])].key == keys[j];
  }

  lemma EveryFieldIsSorted(p: Platform, fields: seq<Field>, j: nat) returns (i: nat)
    requires DistinctKeys(Keys(fields)) && j < |fields|
    ensures i < |fields| && IndexOf(fields, SortedKeys(p, fields)[i]) == j
  {
    var keys := SortedKeys(p, fields);
    assert Keys(fields)[j] in multiset(Keys(fields));
    assert fields[j].key in keys;
    i :| 0 <= i < |keys| && keys[i] == fields[j].key;
    var k := IndexOf(fields, keys[i]);
    assert Keys(fields)[k] == Keys(fields)[j];
  }

  // The objects seen after the first n children.
  function ItemRefs(items: seq<Json>, n: nat): set<int>
    requires n <= |items|
  {
    set i, r | 0 <= i < n && r in Refs(items[i]) :: r
  }

  function SortedRefs(p: Platform, fields: seq<Field>, n: nat): set<int>
    requires n <= |fields|
  {
    set i, r | 0 <= i < n && r in FieldRefs(fields[IndexOf(fields, SortedKeys(p, fields)[i])]) :: r
  }

  lemma NoItemRefs(items: seq<Json>)
    ensures ItemRefs(items, 0) == {}
  {
  }

  lemma ItemRefsGrow(items: seq<Json>, n: nat)
    requires n < |items|
    ensures ItemRefs(items, n + 1) == ItemRefs(items, n) + Refs(items[n])
  {
  }

  lemma ItemStep(val: Json, i: nat)
    requires val.Arr? && Tree(val) && i < |val.items|
    ensures Tree(val.items[i]) && Refs(val.items[i]) <= Refs(val)
    ensures Refs(val.items[i]) !! {val.ref} + ItemRefs(val.items, i)
    ensures ItemRefs(val.items, i + 1) == ItemRefs(val.items, i) + Refs(val.items[i])
  {
  }

  lemma ItemsAll(val: Json)
    requires val.Arr?
    ensures Refs(val) == {val.ref} + ItemRefs(val.items, |val.items|) && ItemRefs(val.items, 0) == {}
  {
  }

  lemma FieldStep(p: Platform, val: Json, i: nat)
    requires val.Obj? && Tree(val) && i < |val.fields|
    ensures var f := val.fields[IndexOf(val.fields, SortedKeys(p, val.fields)[i])];
            && TreeField(f) && FieldRefs(f) <= Refs(val)
            && FieldRefs(f) !! {val.ref} + SortedRefs(p, val.fields, i)
            && SortedRefs(p, val.fields, i + 1) == SortedRefs(p, val.fields, i) + FieldRefs(f)
  {
    hide SortedKeys, IndexOf, DistinctKeys;
    var fields, keys := val.fields, SortedKeys(p, val.fields);
    forall j | 0 <= j < i
      ensures FieldRefs(fields[IndexOf(fields, keys[j])]) !! FieldRefs(fields[IndexOf(fields, keys[i])])
    {
      SortedIndicesDiffer(p, fields, j, i);
    }
  }

  lemma FieldsAll(p: Platform, val: Json)
    requires val.Obj? && Tree(val)
    ensures Refs(val) == {val.ref} + SortedRefs(p, val.fields, |val.fields|) && SortedRefs(p, val.fields, 0) == {}
  {
    hide SortedKeys, IndexOf, DistinctKeys;
    var fields := val.fields;
    forall r | r in Refs(val) && r != val.ref
      ensures r in SortedRefs(p, fields, |fields|)
    {
      var j :| 0 <= j < |fields| && r in FieldRefs(fields[j]);
      var i := EveryFieldIsSorted(p, fields, j);
    }
  }

  // ----- On a tree nothing is cut -----

  lemma {:induction false} TreeIsOrdered(p: Platform, v: Json, seen: set<int>)
    requires Tree(v) && Refs(v) !! seen
    ensures Stringified(p, v, seen) == (Canon(p, v), seen + Refs(v))
    decreases v, Width(v) + 2
  {
    if v.Arr? {
      TreeItemsOrdered(p, v, seen);
    } else if v.Obj? {
      TreeFieldsOrdered(p, v, seen);
    } else if v.Leaf? {
      assert seen + {} == seen;
    }
  }

  lemma {:induction false} TreeItemsOrdered(p: Platform, v: Json, seen: set<int>)
    requires v.Arr? && Tree(v) && Refs(v) !! seen
    ensures Stringified(p, v, seen) == (Canon(p, v), seen + Refs(v))
    decreases v, Width(v) + 1
  {
    hide Canon, ItemRefs, ItemsUpTo, Refs, Tree;
    ItemsAll(v);
    ItemsOrdered(p, v, seen, |v.items|);
    CanonOfItems(p, v, ItemsUpTo(p, v, seen + {v.ref}, |v.items|).0);
    assert v.ref in Refs(v);
    assert seen + {v.ref} + ItemRefs(v.items, |v.items|) == seen + Refs(v);
  }

  lemma {:induction false} TreeFieldsOrdered(p: Platform, v: Json, seen: set<int>)
    requires v.Obj? && Tree(v) && Refs(v) !! seen
    ensures Stringified(p, v, seen) == (Canon(p, v), seen + Refs(v))
    decreases v, Width(v) + 1
  {
    hide Canon, SortedRefs, SortedKeys, FieldsUpTo, Refs, Tree, IndexOf, Laid;
    FieldsAll(p, v);
    FieldsOrdered(p, v, seen, |v.fields|);
    CanonOfFields(p, v, FieldsUpTo(p, v, seen + {v.ref}, |v.fields|).0);
    assert v.ref in Refs(v);
    assert seen + {v.ref} + SortedRefs(p, v.fields, |v.fields|) == seen + Refs(v);
  }

  lemma {:induction false} ItemsOrdered(p: Platform, v: Json, seen: set<int>, n: nat)
    requires v.Arr? && Tree(v) && Refs(v) !! seen && n <= |v.items|
    ensures var (items, after) := ItemsUpTo(p, v, seen + {v.ref}, n);
            && |items| == n && (forall i :: 0 <= i < n ==> items[i] == Canon(p, v.items[i]))
            && after == seen + {v.ref} + ItemRefs(v.items, n)
    decreases v, n
  {
    hide Canon, Refs, Tree, ItemRefs;
    ItemsAll(v);
    if n == 0 {
      assert seen + {v.ref} + ItemRefs(v.items, 0) == seen + {v.ref};
    } else {
      ItemStep(v, n - 1);
      ItemsOrdered(p, v, seen, n - 1);
      var before := seen + {v.ref} + ItemRefs(v.items, n - 1);
      TreeIsOrdered(p, v.items[n - 1], before);
      assert before + Refs(v.items[n - 1]) == seen + {v.ref} + ItemRefs(v.items, n);
    }
  }

  lemma {:induction false} FieldsOrdered(p: Platform, v: Json, seen: set<int>, n: nat)
    requires v.Obj? && Tree(v) && Refs(v) !! seen && n <= |v.fields|
    ensures var (acc, after) := FieldsUpTo(p, v, seen + {v.ref}, n);
            && |acc| == n
            && (forall i :: 0 <= i < n ==> acc[i] == CanonField(p, v.fields[IndexOf(v.fields, SortedKeys(p, v.fields)[i])]))
            && after == seen + {v.ref} + SortedRefs(p, v.fields, n)
    decreases v, n
  {
    hide Canon, Refs, Tree, SortedRefs, SortedKeys, IndexOf;
    FieldsAll(p, v);
    if n == 0 {
      assert seen + {v.ref} + SortedRefs(p, v.fields, 0) == seen + {v.ref};
    } else {
      FieldStep(p, v, n - 1);
      FieldsOrdered(p, v, seen, n - 1);
      var f, before := v.fields[IndexOf(v.fields, SortedKeys(p, v.fields)[n - 1])], seen + {v.ref} + SortedRefs(p, v.fields, n - 1);
      assert f < v;
      FieldOrdered(p, f, before);
      assert before + FieldRefs(f) == seen + {v.ref} + SortedRefs(p, v.fields, n);
    }
  }

  lemma {:induction false} FieldOrdered(p: Platform, f: Field, seen: set<int>)
    requires TreeField(f) && FieldRefs(f) !! seen
    ensures StringifiedField(p, f, seen) == (CanonField(p, f), seen + FieldRefs(f))
    decreases f, 0
  {
    TreeIsOrdered(p, f.value, seen);
  }

  lemma CanonOfItems(p: Platform, val: Json, items: seq<Json>)
    requires val.Arr? && |items| == |val.items| && forall j :: 0 <= j < |items| ==> items[j] == Canon(p, val.items[j])
    ensures Arr(0, items) == Canon(p, val)
  {
    assert items == Canon(p, val).items;
  }

  lemma CanonOfFields(p: Platform, val: Json, acc: seq<Field>)
    requires val.Obj? && |acc| == |val.fields|
    requires forall j :: 0 <= j < |acc| ==> acc[j] == CanonField(p, val.fields[IndexOf(val.fields, SortedKeys(p, val.fields)[j])])
    ensures Obj(0, Laid(p, acc)) == Canon(p, val)
  {
    hide SortedKeys, IndexOf, Laid;
    var keys := SortedKeys(p, val.fields);
    assert acc == seq(|keys|, i requires 0 <= i < |keys| => CanonField(p, val.fields[IndexOf(val.fields, keys[i])]));
  }

  // The text of a tree is the text of its ordered form, so every theorem of StableJson is about it.
  lemma TextOfTree(p: Platform, text: Json -> string, v: Json)
    requires Tree(v)
    ensures text(Resorted(p, Stringified(p, v, {}).0)) == StableStringify(p, text, v)
  {
    TreeIsOrdered(p, v, {});
  }

  // ----- Elsewhere something is cut -----

  lemma {:induction false} UncutIsTree(p: Platform, v: Json, seen: set<int>)
    requires Proper(v) && Stringified(p, v, seen).0 == Canon(p, v)
    ensures Tree(v) && Refs(v) !! seen
    decreases v, Width(v) + 1
  {
    if v.Arr? {
      UncutItems(p, v, seen, |v.items|);
      ItemsMakeTree(v, seen);
    } else if v.Obj? {
      hide Canon, SortedKeys, IndexOf, Tree, Refs, Laid;
      FieldsUpToKeys(p, v, seen + {v.ref}, |v.fields|);
      UncutFieldsAre(p, v, FieldsUpTo(p, v, seen + {v.ref}, |v.fields|).0);
      UncutFields(p, v, seen, |v.fields|);
      FieldsMakeTree(p, v, seen);
    }
  }

  // The first n children are trees, and what each of them holds was not met before it.
  ghost predicate ItemsApart(v: Json, seen: set<int>, n: nat)
    requires v.Arr? && n <= |v.items|
  {
    forall i :: 0 <= i < n ==> Tree(v.items[i]) && Refs(v.items[i]) !! seen + {v.ref} + ItemRefs(v.items, i)
  }

  lemma {:induction false} UncutItems(p: Platform, v: Json, seen: set<int>, n: nat)
    requires v.Arr? && Proper(v) && v.ref !in seen && n <= |v.items|
    requires var items := ItemsUpTo(p, v, seen + {v.ref}, n).0;
             |items| == n && forall i :: 0 <= i < n ==> items[i] == Canon(p, v.items[i])
    ensures ItemsApart(v, seen, n) && ItemsUpTo(p, v, seen + {v.ref}, n).1 == seen + {v.ref} + ItemRefs(v.items, n)
    decreases v, n
  {
    hide Canon, Tree, Refs, Stringified, ItemRefs;
    if n == 0 {
      NoItemRefs(v.items);
      assert seen + {v.ref} + {} == seen + {v.ref};
    } else {
      var (items, before) := ItemsUpTo(p, v, seen + {v.ref}, n - 1);
      var all := ItemsUpTo(p, v, seen + {v.ref}, n).0;
      assert all == items + [Stringified(p, v.items[n - 1], before).0];
      assert items == all[..n - 1];
      UncutItems(p, v, seen, n - 1);
      UncutIsTree(p, v.items[n - 1], before);
      TreeIsOrdered(p, v.items[n - 1], before);
      ItemRefsGrow(v.items, n - 1);
      assert before + Refs(v.items[n - 1]) == seen + {v.ref} + ItemRefs(v.items, n);
    }
  }

  lemma ItemsMakeTree(v: Json, seen: set<int>)
    requires v.Arr? && v.ref !in seen && ItemsApart(v, seen, |v.items|)
    ensures Tree(v) && Refs(v) !! seen
  {
    forall i, j | 0 <= i < j < |v.items|
      ensures Refs(v.items[i]) !! Refs(v.items[j])
    {
      assert Refs(v.items[i]) <= ItemRefs(v.items, j);
    }
    ItemsAll(v);
  }

  ghost function SortedField(p: Platform, v: Json, i: nat): Field
    requires v.Obj? && i < |v.fields|
  {
    v.fields[IndexOf(v.fields, SortedKeys(p, v.fields)[i])]
  }

  lemma SortedRefsGrow(p: Platform, v: Json, n: nat)
    requires v.Obj? && n < |v.fields|
    ensures SortedRefs(p, v.fields, n + 1) == SortedRefs(p, v.fields, n) + FieldRefs(SortedField(p, v, n))
  {
    hide SortedKeys, IndexOf, FieldRefs;
    forall r
      ensures r in SortedRefs(p, v.fields, n + 1) <==> r in SortedRefs(p, v.fields, n) || r in FieldRefs(SortedField(p, v, n))
    {
      if r in SortedRefs(p, v.fields, n + 1) {
        var i :| 0 <= i < n + 1 && r in FieldRefs(v.fields[IndexOf(v.fields, SortedKeys(p, v.fields)[i])]);
        assert i == n ==> r in FieldRefs(SortedField(p, v, n));
      }
      if r in FieldRefs(SortedField(p, v, n)) {
        assert r in FieldRefs(v.fields[IndexOf(v.fields, SortedKeys(p, v.fields)[n])]);
      }
    }
  }

  ghost predicate FieldsApart(p: Platform, v: Json, seen: set<int>, n: nat)
    requires v.Obj? && n <= |v.fields|
  {
    forall i :: 0 <= i < n ==>
      TreeField(SortedField(p, v, i)) && FieldRefs(SortedField(p, v, i)) !! seen + {v.ref} + SortedRefs(p, v.fields, i)
  }

  // The layout of the fields does not lose any of them.
  lemma UncutFieldsAre(p: Platform, v: Json, acc: seq<Field>)
    requires v.Obj? && Proper(v) && |acc| == |v.fields| && (forall i :: 0 <= i < |acc| ==> acc[i].key == SortedKeys(p, v.fields)[i])
    requires Obj(0, Laid(p, acc)) == Canon(p, v)
    ensures forall i :: 0 <= i < |acc| ==> acc[i] == CanonField(p, SortedField(p, v, i))
  {
    hide Laid, SortedKeys, Get;
    var keys := SortedKeys(p, v.fields);
    DistinctPermuted(Keys(v.fields), keys);
    assert Keys(acc) == keys;
    DistinctIsRegular(acc);
    LaidIs(p, acc);
    CanonObject(p, v);
    forall i | 0 <= i < |acc|
      ensures acc[i] == CanonField(p, SortedField(p, v, i))
    {
      assert Get(acc, acc[i].key) == Some(acc[i].value);
      SortedGet(p, v, i);
    }
  }

  lemma SortedGet(p: Platform, v: Json, i: nat)
    requires v.Obj? && i < |v.fields|
    ensures SortedField(p, v, i).key == SortedKeys(p, v.fields)[i]
    ensures Get(v.fields, SortedKeys(p, v.fields)[i]) == Some(SortedField(p, v, i).value)
  {
  }

  lemma {:induction false} FieldsUpToKeys(p: Platform, v: Json, seen: set<int>, n: nat)
    requires v.Obj? && n <= |v.fields|
    ensures var acc := FieldsUpTo(p, v, seen, n).0;
            |acc| == n && forall i :: 0 <= i < n ==> acc[i].key == SortedKeys(p, v.fields)[i]
    decreases n
  {
    if n > 0 {
      FieldsUpToKeys(p, v, seen, n - 1);
    }
  }

  lemma NoSortedRefs(p: Platform, fields: seq<Field>)
    ensures SortedRefs(p, fields, 0) == {}
  {
  }

  lemma {:induction false} UncutFieldIsTree(p: Platform, f: Field, seen: set<int>)
    requires ProperField(f) && StringifiedField(p, f, seen).0 == CanonField(p, f)
    ensures TreeField(f) && FieldRefs(f) !! seen
    decreases f, 0
  {
    UncutIsTree(p, f.value, seen);
  }

  lemma {:induction false} UncutFields(p: Platform, v: Json, seen: set<int>, n: nat)
    requires v.Obj? && Proper(v) && v.ref !in seen && n <= |v.fields|
    requires var acc := FieldsUpTo(p, v, seen + {v.ref}, n).0;
             |acc| == n && forall i :: 0 <= i < n ==> acc[i] == CanonField(p, SortedField(p, v, i))
    ensures FieldsApart(p, v, seen, n) && FieldsUpTo(p, v, seen + {v.ref}, n).1 == seen + {v.ref} + SortedRefs(p, v.fields, n)
    decreases v, n
  {
    hide Canon, Tree, TreeField, Refs, FieldRefs, SortedKeys, IndexOf, Stringified, SortedRefs, CanonField;
    if n == 0 {
      NoSortedRefs(p, v.fields);
      assert seen + {v.ref} + {} == seen + {v.ref};
    } else {
      var (acc, before) := FieldsUpTo(p, v, seen + {v.ref}, n - 1);
      var f := SortedField(p, v, n - 1);
      hide FieldsApart, FieldsUpTo, SortedField;
      FieldsStep(p, v, seen + {v.ref}, n - 1);
      UncutFields(p, v, seen, n - 1);
      FieldSmaller(p, v, n - 1);
      UncutFieldIsTree(p, f, before);
      FieldOrdered(p, f, before);
      FieldsApartStep(p, v, seen, n - 1);
      SortedRefsGrow(p, v, n - 1);
      assert before + FieldRefs(f) == seen + {v.ref} + SortedRefs(p, v.fields, n);
    }
  }

  lemma FieldSmaller(p: Platform, v: Json, i: nat)
    requires v.Obj? && i < |v.fields|
    ensures SortedField(p, v, i) < v && (Proper(v) ==> ProperField(SortedField(p, v, i)))
  {
    hide SortedKeys, IndexOf;
  }

  lemma FieldsApartStep(p: Platform, v: Json, seen: set<int>, n: nat)
    requires v.Obj? && n < |v.fields| && FieldsApart(p, v, seen, n) && TreeField(SortedField(p, v, n))
    requires FieldRefs(SortedField(p, v, n)) !! seen + {v.ref} + SortedRefs(p, v.fields, n)
    ensures FieldsApart(p, v, seen, n + 1)
  {
    hide SortedField, TreeField, FieldRefs, SortedRefs;
  }

  lemma FieldsStep(p: Platform, v: Json, seen: set<int>, n: nat)
    requires v.Obj? && n < |v.fields|
    ensures var (acc, before) := FieldsUpTo(p, v, seen, n);
            var (field, after) := StringifiedField(p, SortedField(p, v, n), before);
            FieldsUpTo(p, v, seen, n + 1) == (acc + [field], after)
  {
    hide SortedKeys, IndexOf, Stringified;
  }

  lemma FieldsMakeTree(p: Platform, v: Json, seen: set<int>)
    requires v.Obj? && Proper(v) && v.ref !in seen && FieldsApart(p, v, seen, |v.fields|)
    ensures Tree(v) && Refs(v) !! seen
  {
    hide SortedKeys, IndexOf, DistinctKeys;
    var fields := v.fields;
    forall i, j | 0 <= i < |fields| && 0 <= j < |fields| && i != j
      ensures FieldRefs(fields[i]) !! FieldRefs(fields[j])
    {
      var x := EveryFieldIsSorted(p, fields, i);
      var y := EveryFieldIsSorted(p, fields, j);
      assert SortedField(p, v, x) == fields[i] && SortedField(p, v, y) == fields[j];
      if x < y {
        assert FieldRefs(fields[i]) <= SortedRefs(p, fields, y);
      } else {
        assert FieldRefs(fields[j]) <= SortedRefs(p, fields, x);
      }
    }
    forall i | 0 <= i < |fields|
      ensures TreeField(fields[i]) && FieldRefs(fields[i]) !! seen + {v.ref}
    {
      var x := EveryFieldIsSorted(p, fields, i);
      assert SortedField(p, v, x) == fields[i];
    }
  }

  // Nothing is cut of a value exactly when it is a tree. A value that shares an object is no tree, with a cycle
  // or without.
  lemma UncutIffTree(p: Platform, v: Json)
    requires Proper(v)
    ensures Stringified(p, v, {}).0 == Canon(p, v) <==> Tree(v)
  {
    if Tree(v) {
      TreeIsOrdered(p, v, {});
    }
    if Stringified(p, v, {}).0 == Canon(p, v) {
      UncutIsTree(p, v, {});
    }
  }

  // One object in two places of an array, without any cycle: its second occurrence is cut.
  lemma SharedIsCut(p: Platform, v: Json, ref: int)
    requires Tree(v) && !v.Leaf? && ref !in Refs(v)
    ensures Stringified(p, Arr(ref, [v, v]), {}).0 == Arr(0, [Canon(p, v), CIRCULAR])
  {
    hide Canon;
    var pair := Arr(ref, [v, v]);
    TreeIsOrdered(p, v, {ref});
    var after := {ref} + Refs(v);
    assert v.ref in Refs(v);
    assert Stringified(p, v, after) == (CIRCULAR, after);
    assert {} + {ref} == {ref};
    assert ItemsUpTo(p, pair, {ref}, 0) == ([], {ref});
    assert [] + [Canon(p, v)] == [Canon(p, v)];
    assert ItemsUpTo(p, pair, {ref}, 1) == ([Canon(p, v)], after);
    assert [Canon(p, v)] + [CIRCULAR] == [Canon(p, v), CIRCULAR];
    assert ItemsUpTo(p, pair, {ref}, 2) == ([Canon(p, v), CIRCULAR], after);
  }
}
