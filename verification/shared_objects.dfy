// The recursion of stableStringify over values that share objects: what it makes of an object whose children
// are new, or were seen before as a whole.
module SharedObjects {
  import opened Wrappers
  import opened KeyOrder
  import opened StableJson
  import opened StableStringifier

  // ----- Only the objects inside a value matter to it -----

  lemma {:induction false} SeenGrows(p: Platform, v: Json, seen: set<int>)
    ensures seen <= Stringified(p, v, seen).1 <= seen + Refs(v)
    ensures !v.Leaf? ==> v.ref in Stringified(p, v, seen).1
    decreases v, Width(v) + 1
  {
    if v.Arr? && v.ref !in seen {
      SeenGrowsOverItems(p, v, seen + {v.ref}, |v.items|);
    } else if v.Obj? && v.ref !in seen {
      SeenGrowsOverFields(p, v, seen + {v.ref}, |v.fields|);
    }
  }

  lemma {:induction false} SeenGrowsOverItems(p: Platform, v: Json, seen: set<int>, n: nat)
    requires v.Arr? && n <= |v.items|
    ensures seen <= ItemsUpTo(p, v, seen, n).1 <= seen + Refs(v)
    decreases v, n
  {
    if n > 0 {
      SeenGrowsOverItems(p, v, seen, n - 1);
      SeenGrows(p, v.items[n - 1], ItemsUpTo(p, v, seen, n - 1).1);
      assert Refs(v.items[n - 1]) <= Refs(v);
    }
  }

  lemma {:induction false} SeenGrowsOverFields(p: Platform, v: Json, seen: set<int>, n: nat)
    requires v.Obj? && n <= |v.fields|
    ensures seen <= FieldsUpTo(p, v, seen, n).1 <= seen + Refs(v)
    decreases v, n
  {
    hide SortedKeys, IndexOf;
    if n > 0 {
      SeenGrowsOverFields(p, v, seen, n - 1);
      var f := SortedField(p, v, n - 1);
      assert f < v;
      SeenGrows(p, f.value, FieldsUpTo(p, v, seen, n - 1).1);
      assert FieldRefs(f) <= Refs(v);
    }
  }

  // Objects seen elsewhere change nothing.
  lemma {:induction false} SeenElsewhere(p: Platform, v: Json, seen: set<int>, extra: set<int>)
    requires Refs(v) !! extra
    ensures Stringified(p, v, seen + extra) == (Stringified(p, v, seen).0, Stringified(p, v, seen).1 + extra)
    decreases v, Width(v) + 1
  {
    if !v.Leaf? && v.ref !in seen {
      assert v.ref in Refs(v);
      assert seen + extra + {v.ref} == seen + {v.ref} + extra;
      if v.Arr? {
        SeenElsewhereItems(p, v, seen + {v.ref}, extra, |v.items|);
      } else if v.Obj? {
        SeenElsewhereFields(p, v, seen + {v.ref}, extra, |v.fields|);
      }
    }
  }

  lemma {:induction false} SeenElsewhereItems(p: Platform, v: Json, seen: set<int>, extra: set<int>, n: nat)
    requires v.Arr? && Refs(v) !! extra && n <= |v.items|
    ensures ItemsUpTo(p, v, seen + extra, n) == (ItemsUpTo(p, v, seen, n).0, ItemsUpTo(p, v, seen, n).1 + extra)
    decreases v, n
  {
    if n > 0 {
      SeenElsewhereItems(p, v, seen, extra, n - 1);
      assert Refs(v.items[n - 1]) <= Refs(v);
      SeenElsewhere(p, v.items[n - 1], ItemsUpTo(p, v, seen, n - 1).1, extra);
    }
  }

  lemma {:induction false} SeenElsewhereFields(p: Platform, v: Json, seen: set<int>, extra: set<int>, n: nat)
    requires v.Obj? && Refs(v) !! extra && n <= |v.fields|
    ensures FieldsUpTo(p, v, seen + extra, n) == (FieldsUpTo(p, v, seen, n).0, FieldsUpTo(p, v, seen, n).1 + extra)
    decreases v, n
  {
    hide SortedKeys, IndexOf;
    if n > 0 {
      SeenElsewhereFields(p, v, seen, extra, n - 1);
      var f := SortedField(p, v, n - 1);
      assert f < v && FieldRefs(f) <= Refs(v);
      SeenElsewhere(p, f.value, FieldsUpTo(p, v, seen, n - 1).1, extra);
    }
  }

  // What becomes of a value none of whose objects was seen before.
  function Alone(p: Platform, v: Json): Json { Stringified(p, v, {}).0 }

  lemma NewIsAlone(p: Platform, v: Json, seen: set<int>)
    requires Refs(v) !! seen
    ensures Stringified(p, v, seen).0 == Alone(p, v)
  {
    SeenElsewhere(p, v, {}, seen);
    assert {} + seen == seen;
  }

  // ----- An object whose children are new or known -----

  function Patched(p: Platform, x: Json, seen: set<int>): Json {
    if x.Leaf? then x else if x.ref in seen then CIRCULAR else Alone(p, x)
  }

  predicate IsNew(x: Json, seen: set<int>) { !x.Leaf? && x.ref !in seen }

  predicate NewOrKnown(x: Json, seen: set<int>) { x.Leaf? || x.ref in seen || Refs(x) !! seen }

  // Different children hold different objects; each is new as a whole or was seen before.
  ghost predicate Patchwork(v: Json, seen: set<int>) {
    && v.Obj? && DistinctKeys(Keys(v.fields)) && v.ref !in seen
    && (forall i :: 0 <= i < |v.fields| ==> NewOrKnown(v.fields[i].value, seen + {v.ref}))
    && (forall i, j :: 0 <= i < j < |v.fields| ==> FieldRefs(v.fields[i]) !! FieldRefs(v.fields[j]))
  }

  // What has been seen after some of the children.
  ghost predicate SeenAfter(v: Json, seen: set<int>, after: set<int>)
    requires v.Obj?
  {
    && seen + {v.ref} <= after
    && (forall r :: r in after && r !in seen + {v.ref} ==>
          exists i :: 0 <= i < |v.fields| && r in FieldRefs(v.fields[i]) && IsNew(v.fields[i].value, seen + {v.ref}))
  }

  lemma SortedFieldsApart(p: Platform, v: Json, i: nat, j: nat)
    requires v.Obj? && DistinctKeys(Keys(v.fields)) && i < j < |v.fields|
    requires forall i, j :: 0 <= i < j < |v.fields| ==> FieldRefs(v.fields[i]) !! FieldRefs(v.fields[j])
    ensures FieldRefs(SortedField(p, v, i)) !! FieldRefs(SortedField(p, v, j))
  {
    hide SortedKeys, IndexOf, FieldRefs;
    SortedIndicesDiffer(p, v.fields, i, j);
  }

  ghost predicate PatchedUpTo(p: Platform, v: Json, seen: set<int>, n: nat)
    requires v.Obj? && n <= |v.fields|
  {
    var (acc, after) := FieldsUpTo(p, v, seen + {v.ref}, n);
    && |acc| == n && seen + {v.ref} <= after
    && (forall i :: 0 <= i < n ==> acc[i].value == Patched(p, SortedField(p, v, i).value, seen + {v.ref}))
    && (forall i :: 0 <= i < n && !SortedField(p, v, i).value.Leaf? ==> SortedField(p, v, i).value.ref in after)
    && (forall r :: r in after && r !in seen + {v.ref} ==> SeenIn(p, v, seen, n, r))
  }

  ghost predicate SeenIn(p: Platform, v: Json, seen: set<int>, n: nat, r: int)
    requires v.Obj? && n <= |v.fields|
  {
    exists i :: 0 <= i < n && r in FieldRefs(SortedField(p, v, i)) && IsNew(SortedField(p, v, i).value, seen + {v.ref})
  }

  lemma {:induction false} PatchFields(p: Platform, v: Json, seen: set<int>, n: nat)
    requires Patchwork(v, seen) && n <= |v.fields|
    ensures PatchedUpTo(p, v, seen, n)
    decreases n
  {
    hide SortedKeys, IndexOf, DistinctKeys, Stringified, Refs;
    if n > 0 {
      PatchFields(p, v, seen, n - 1);
      PatchField(p, v, seen, n - 1);
    }
  }

  lemma PatchField(p: Platform, v: Json, seen: set<int>, n: nat)
    requires v.Obj? && Patchwork(v, seen) && n < |v.fields| && PatchedUpTo(p, v, seen, n)
    ensures PatchedUpTo(p, v, seen, n + 1)
  {
    hide SortedField, DistinctKeys, Stringified, Refs, Patchwork, Patched, FieldsUpTo;
    var (acc, before) := FieldsUpTo(p, v, seen + {v.ref}, n);
    var x := SortedField(p, v, n).value;
    var (value, after) := Stringified(p, x, before);
    StillNew(p, v, seen, n, before);
    OneChild(p, x, seen + {v.ref}, before);
    FieldsStep(p, v, seen + {v.ref}, n);
    forall r | r in after && r !in seen + {v.ref}
      ensures SeenIn(p, v, seen, n + 1, r)
    {
      if r in before {
        assert SeenIn(p, v, seen, n, r);
      } else {
        assert r in FieldRefs(SortedField(p, v, n)) && IsNew(x, seen + {v.ref});
      }
    }
  }

  // A child that was new to the object is new when its turn comes.
  lemma StillNew(p: Platform, v: Json, seen: set<int>, n: nat, before: set<int>)
    requires Patchwork(v, seen) && n < |v.fields| && seen + {v.ref} <= before
    requires forall r :: r in before && r !in seen + {v.ref} ==> SeenIn(p, v, seen, n, r)
    ensures var x := SortedField(p, v, n).value;
            x.Leaf? || x.ref in seen + {v.ref} || Refs(x) !! before
  {
    hide SortedKeys, IndexOf, DistinctKeys;
    var f := SortedField(p, v, n);
    assert NewOrKnown(f.value, seen + {v.ref});
    forall r | r in FieldRefs(f) && r in before
      ensures r in seen + {v.ref}
    {
      if r !in seen + {v.ref} {
        var i :| 0 <= i < n && r in FieldRefs(SortedField(p, v, i)) && IsNew(SortedField(p, v, i).value, seen + {v.ref});
        SortedFieldsApart(p, v, i, n);
      }
    }
  }

  lemma OneChild(p: Platform, x: Json, seen: set<int>, before: set<int>)
    requires seen <= before && (x.Leaf? || x.ref in seen || Refs(x) !! before)
    ensures var (value, after) := Stringified(p, x, before);
            && value == Patched(p, x, seen) && before <= after && (!x.Leaf? ==> x.ref in after)
            && (forall r :: r in after && r !in before ==> r in Refs(x) && !x.Leaf? && x.ref !in seen)
  {
    SeenGrows(p, x, before);
    if !x.Leaf? && x.ref !in seen {
      NewIsAlone(p, x, before);
      assert x.ref in Refs(x);
    }
  }

  function PatchedOf(p: Platform, x: Option<Json>, seen: set<int>): Option<Json> {
    if x.Some? then Some(Patched(p, x.value, seen)) else None
  }

  // The object with its keys in order and under each key the child, patched.
  lemma PatchedObject(p: Platform, v: Json, seen: set<int>)
    requires Patchwork(v, seen)
    ensures var r := Stringified(p, v, seen).0;
            && r.Obj? && r.ref == 0 && Keys(r.fields) == Order(p, Keys(v.fields)) && Regular(r.fields)
            && forall k :: Get(r.fields, k) == PatchedOf(p, Get(v.fields, k), seen + {v.ref})
  {
    hide SortedKeys, IndexOf, DistinctKeys, Patched, Refs, Laid, Get;
    var acc := FieldsUpTo(p, v, seen + {v.ref}, |v.fields|).0;
    PatchFields(p, v, seen, |v.fields|);
    FieldsUpToKeys(p, v, seen + {v.ref}, |v.fields|);
    assert Keys(acc) == SortedKeys(p, v.fields);
    LaidIs(p, acc);
    OrderOfSorted(p, v.fields);
    assert Stringified(p, v, seen).0 == Obj(0, Laid(p, acc));
    forall k
      ensures Get(acc, k) == PatchedOf(p, Get(v.fields, k), seen + {v.ref})
    {
      PatchedAt(p, v, acc, seen + {v.ref}, k);
    }
  }

  lemma OrderOfSorted(p: Platform, fields: seq<Field>)
    ensures Layout(p, SortedKeys(p, fields)) == Order(p, Keys(fields))
  {
  }

  lemma PatchedAt(p: Platform, v: Json, acc: seq<Field>, seen: set<int>, key: string)
    requires v.Obj? && |acc| == |v.fields| && Keys(acc) == SortedKeys(p, v.fields)
    requires forall i :: 0 <= i < |acc| ==> acc[i].value == Patched(p, SortedField(p, v, i).value, seen)
    ensures Get(acc, key) == PatchedOf(p, Get(v.fields, key), seen)
  {
    hide Patched;
    HasKey(acc, key);
    HasKey(v.fields, key);
    Permuted(v.fields, Keys(acc));
    var i := IndexOf(acc, key);
    if i < |acc| {
      assert Keys(acc)[i] == key;
      SortedGet(p, v, i);
    }
  }

  // What has been seen after the object: its own children, if they were new, and every child's own identity.
  lemma SeenAfterObject(p: Platform, v: Json, seen: set<int>)
    requires Patchwork(v, seen)
    ensures SeenAfter(v, seen, Stringified(p, v, seen).1)
    ensures forall i :: 0 <= i < |v.fields| && !v.fields[i].value.Leaf? ==> v.fields[i].value.ref in Stringified(p, v, seen).1
  {
    hide SortedKeys, IndexOf, DistinctKeys, Refs, Laid, Patched, FieldRefs;
    PatchFields(p, v, seen, |v.fields|);
    var after := FieldsUpTo(p, v, seen + {v.ref}, |v.fields|).1;
    forall r | r in after && r !in seen + {v.ref}
      ensures exists i :: 0 <= i < |v.fields| && r in FieldRefs(v.fields[i]) && IsNew(v.fields[i].value, seen + {v.ref})
    {
      var i :| 0 <= i < |v.fields| && r in FieldRefs(SortedField(p, v, i)) && IsNew(SortedField(p, v, i).value, seen + {v.ref});
      var j := IndexOf(v.fields, SortedKeys(p, v.fields)[i]);
      assert IsNew(v.fields[j].value, seen + {v.ref});
    }
    forall j | 0 <= j < |v.fields| && !v.fields[j].value.Leaf?
      ensures v.fields[j].value.ref in after
    {
      var i := EveryFieldIsSorted(p, v.fields, j);
      assert SortedField(p, v, i) == v.fields[j];
    }
  }

  // ----- Identities do not show -----

  lemma {:induction false} StringifiedIsAnonymous(p: Platform, v: Json, seen: set<int>)
    ensures Anonymous(Stringified(p, v, seen).0)
    decreases v, Width(v) + 1
  {
    if v.Arr? && v.ref !in seen {
      AnonymousItems(p, v, seen + {v.ref}, |v.items|);
    } else if v.Obj? && v.ref !in seen {
      AnonymousFields(p, v, seen + {v.ref}, |v.fields|);
      LaidIsAnonymous(p, FieldsUpTo(p, v, seen + {v.ref}, |v.fields|).0);
    }
  }

  lemma {:induction false} AnonymousItems(p: Platform, v: Json, seen: set<int>, n: nat)
    requires v.Arr? && n <= |v.items|
    ensures forall x :: x in ItemsUpTo(p, v, seen, n).0 ==> Anonymous(x)
    decreases v, n
  {
    if n > 0 {
      AnonymousItems(p, v, seen, n - 1);
      StringifiedIsAnonymous(p, v.items[n - 1], ItemsUpTo(p, v, seen, n - 1).1);
    }
  }

  lemma {:induction false} AnonymousFields(p: Platform, v: Json, seen: set<int>, n: nat)
    requires v.Obj? && n <= |v.fields|
    ensures forall f :: f in FieldsUpTo(p, v, seen, n).0 ==> AnonymousField(f)
    decreases v, n
  {
    hide SortedKeys, IndexOf, Stringified;
    if n > 0 {
      AnonymousFields(p, v, seen, n - 1);
      var f := SortedField(p, v, n - 1);
      assert f < v;
      StringifiedIsAnonymous(p, f.value, FieldsUpTo(p, v, seen, n - 1).1);
      FieldsStep(p, v, seen, n - 1);
    }
  }

  lemma LaidIsAnonymous(p: Platform, fields: seq<Field>)
    requires forall f :: f in fields ==> AnonymousField(f)
    ensures Anonymous(Obj(0, Laid(p, fields)))
  {
    LaidIs(p, fields);
    var laid := Laid(p, fields);
    hide Laid;
    forall i | 0 <= i < |laid|
      ensures AnonymousField(laid[i])
    {
      assert Get(laid, laid[i].key) == Get(fields, laid[i].key);
      assert AnonymousField(fields[IndexOf(fields, laid[i].key)]);
    }
  }
}
