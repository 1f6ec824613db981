// stableStringify: the text of a value with the keys of every object sorted, so that two values that differ in
// key order only get the same text, and with it the same cache key.
module StableJson {
  import opened Wrappers
  import opened KeyOrder

  datatype Primitive = Text(string) | Number(int) | Flag(bool) | Null

  // Arrays, objects and dates carry the identity that the `seen` set remembers.
  datatype Json =
    | Leaf(value: Primitive)
    | Arr(ref: int, items: seq<Json>)
    | Obj(ref: int, fields: seq<Field>)
    | Date(ref: int, time: int)

  datatype Field = Field(key: string, value: Json)

  function Keys(fields: seq<Field>): (keys: seq<string>)
    ensures |keys| == |fields| && forall i :: 0 <= i < |fields| ==> keys[i] == fields[i].key
  {
    seq(|fields|, i requires 0 <= i < |fields| => fields[i].key)
  }

  // Objects have no key twice.
  predicate Proper(v: Json)
    decreases v
  {
    match v
    case Leaf(_) => true
    case Arr(_, items) => forall i :: 0 <= i < |items| ==> Proper(items[i])
    case Obj(_, fields) => DistinctKeys(Keys(fields)) && forall i :: 0 <= i < |fields| ==> ProperField(fields[i])
    case Date(_, _) => true
  }

  predicate ProperField(f: Field)
    decreases f
  {
    Proper(f.value)
  }

  // ----- Fields by key -----

  function IndexOf(fields: seq<Field>, key: string): (i: nat)
    ensures i <= |fields| && (i < |fields| ==> fields[i].key == key)
    ensures forall j :: 0 <= j < i ==> fields[j].key != key
  {
    if fields == [] || fields[0].key == key then 0 else 1 + IndexOf(fields[1..], key)
  }

  function Get(fields: seq<Field>, key: string): Option<Json> {
    if IndexOf(fields, key) < |fields| then Some(fields[IndexOf(fields, key)].value) else None
  }

  // Properties created in this order from the fields of another object.
  function Pick(fields: seq<Field>, order: seq<string>): seq<Field>
    requires forall k :: k in order ==> IndexOf(fields, k) < |fields|
  {
    seq(|order|, i requires 0 <= i < |order| => fields[IndexOf(fields, order[i])])
  }

  lemma HasKey(fields: seq<Field>, key: string)
    ensures IndexOf(fields, key) < |fields| <==> key in Keys(fields)
    ensures Get(fields, key).Some? <==> key in Keys(fields)
  {
    var i := IndexOf(fields, key);
    if i < |fields| {
      assert Keys(fields)[i] == key;
    }
    if key in Keys(fields) {
      var j :| 0 <= j < |fields| && Keys(fields)[j] == key;
      assert fields[j].key == key;
    }
  }

  lemma Permuted(fields: seq<Field>, order: seq<string>)
    requires multiset(order) == multiset(Keys(fields))
    ensures forall k :: k in order <==> k in Keys(fields)
    ensures forall k :: k in order ==> IndexOf(fields, k) < |fields|
  {
    forall k
      ensures k in order <==> k in Keys(fields)
    {
      assert k in order <==> k in multiset(order);
      assert k in Keys(fields) <==> k in multiset(Keys(fields));
    }
    forall k | k in order
      ensures IndexOf(fields, k) < |fields|
    {
      HasKey(fields, k);
    }
  }

  // The first field of a key is every field of that key.
  predicate Regular(fields: seq<Field>) {
    forall i :: 0 <= i < |fields| ==> Get(fields, fields[i].key) == Some(fields[i].value)
  }

  lemma DistinctIsRegular(fields: seq<Field>)
    requires DistinctKeys(Keys(fields))
    ensures Regular(fields)
  {
    forall i | 0 <= i < |fields|
      ensures Get(fields, fields[i].key) == Some(fields[i].value)
    {
      var j := IndexOf(fields, fields[i].key);
      assert j <= i;
      assert Keys(fields)[j] == Keys(fields)[i];
    }
  }

  lemma EqualFields(f: seq<Field>, g: seq<Field>)
    requires Regular(f) && Regular(g) && Keys(f) == Keys(g)
    requires forall k :: Get(f, k) == Get(g, k)
    ensures f == g
  {
    forall i | 0 <= i < |f|
      ensures f[i] == g[i]
    {
      assert Keys(f)[i] == Keys(g)[i];
      assert Get(f, f[i].key) == Get(g, g[i].key);
    }
  }

  lemma PickIs(fields: seq<Field>, order: seq<string>)
    requires forall k :: k in order ==> IndexOf(fields, k) < |fields|
    ensures Keys(Pick(fields, order)) == order && Regular(Pick(fields, order))
    ensures forall k :: Get(Pick(fields, order), k) == if k in order then Get(fields, k) else None
  {
    var picked := Pick(fields, order);
    assert Keys(picked) == order;
    forall k
      ensures Get(picked, k) == if k in order then Get(fields, k) else None
    {
      HasKey(picked, k);
    }
  }

  // What Object.keys and JSON.stringify see of properties created in the given order.
  function Laid(p: Platform, fields: seq<Field>): seq<Field> {
    LayoutPermutes(p, Keys(fields));
    Permuted(fields, Layout(p, Keys(fields)));
    Pick(fields, Layout(p, Keys(fields)))
  }

  // The properties of one object created anew in sorted order.
  function Arranged(p: Platform, fields: seq<Field>): seq<Field> {
    Permuted(fields, Sort(p.compare, Keys(fields)));
    Laid(p, Pick(fields, Sort(p.compare, Keys(fields))))
  }

  lemma LaidIs(p: Platform, fields: seq<Field>)
    ensures Keys(Laid(p, fields)) == Layout(p, Keys(fields)) && Regular(Laid(p, fields))
    ensures forall k :: Get(Laid(p, fields), k) == Get(fields, k)
  {
    LayoutPermutes(p, Keys(fields));
    Permuted(fields, Layout(p, Keys(fields)));
    PickIs(fields, Layout(p, Keys(fields)));
    forall k
      ensures Get(Laid(p, fields), k) == Get(fields, k)
    {
      HasKey(fields, k);
    }
  }

  lemma ArrangedIs(p: Platform, fields: seq<Field>)
    ensures Keys(Arranged(p, fields)) == Order(p, Keys(fields)) && Regular(Arranged(p, fields))
    ensures forall k :: Get(Arranged(p, fields), k) == Get(fields, k)
  {
    hide Laid, Layout, Sort, Get, Regular;
    var order := Sort(p.compare, Keys(fields));
    Permuted(fields, order);
    PickIs(fields, order);
    LaidIs(p, Pick(fields, order));
    forall k
      ensures Get(Arranged(p, fields), k) == Get(fields, k)
    {
      HasKey(fields, k);
    }
  }

  // ----- The ordered form -----

  // The sorted keys of an object, each of them a key of it.
  function SortedKeys(p: Platform, fields: seq<Field>): (keys: seq<string>)
    ensures multiset(keys) == multiset(Keys(fields)) && |keys| == |fields|
    ensures forall i :: 0 <= i < |keys| ==> IndexOf(fields, keys[i]) < |fields|
  {
    var keys := Sort(p.compare, Keys(fields));
    Permuted(fields, keys);
    assert |multiset(keys)| == |keys| && |multiset(Keys(fields))| == |fields|;
    assert forall i :: 0 <= i < |keys| ==> keys[i] in keys;
    keys
  }

  // A date is an object of which Object.keys shows nothing.
  function Canon(p: Platform, v: Json): Json
    decreases v
  {
    match v
    case Leaf(_) => v
    case Arr(_, items) => Arr(0, seq(|items|, i requires 0 <= i < |items| => Canon(p, items[i])))
    case Obj(_, fields) =>
      var keys := SortedKeys(p, fields);
      Obj(0, Laid(p, seq(|keys|, i requires 0 <= i < |keys| => CanonField(p, fields[IndexOf(fields, keys[i])]))))
    case Date(_, _) => Obj(0, [])
  }

  function CanonField(p: Platform, f: Field): Field
    decreases f
  {
    Field(f.key, Canon(p, f.value))
  }

  // The keys of the outermost object are sorted once more.
  function Resorted(p: Platform, v: Json): Json {
    if v.Obj? then Obj(0, Arranged(p, v.fields)) else v
  }

  // `text` is JSON.stringify.
  function StableStringify(p: Platform, text: Json -> string, v: Json): string { text(Resorted(p, Canon(p, v))) }

  function CanonOf(p: Platform, v: Option<Json>): Option<Json> { if v.Some? then Some(Canon(p, v.value)) else None }

  // The ordered form of an object: its keys in order, under each key the ordered form of its value.
  lemma CanonObject(p: Platform, v: Json)
    requires v.Obj?
    ensures Canon(p, v).Obj?
    ensures var f := Canon(p, v).fields;
            && Keys(f) == Order(p, Keys(v.fields)) && Regular(f)
            && forall k :: Get(f, k) == CanonOf(p, Get(v.fields, k))
  {
    var keys := SortedKeys(p, v.fields);
    var acc := seq(|keys|, i requires 0 <= i < |keys| => CanonField(p, v.fields[IndexOf(v.fields, keys[i])]));
    assert Canon(p, v) == Obj(0, Laid(p, acc));
    assert Keys(acc) == keys;
    LaidIs(p, acc);
    Permuted(v.fields, keys);
    hide Laid, Layout;
    forall k
      ensures Get(acc, k) == CanonOf(p, Get(v.fields, k))
    {
      HasKey(acc, k);
      HasKey(v.fields, k);
    }
  }

  // ----- Independence of key order -----

  // The same value up to the order of the keys of its objects, at every level.
  predicate SameUpToOrder(a: Json, b: Json)
    decreases a
  {
    match a
    case Leaf(_) => a == b
    case Arr(_, items) => b.Arr? && |items| == |b.items| && forall i :: 0 <= i < |items| ==> SameUpToOrder(items[i], b.items[i])
    case Obj(_, fields) =>
      b.Obj? && multiset(Keys(fields)) == multiset(Keys(b.fields)) &&
      forall i :: 0 <= i < |fields| ==> SameField(fields[i], b.fields)
    case Date(_, time) => b.Date? && b.time == time
  }

  predicate SameField(f: Field, others: seq<Field>)
    decreases f
  {
    Get(others, f.key).Some? && SameUpToOrder(f.value, Get(others, f.key).value)
  }

  // No object has two ordinary keys that localeCompare cannot tell apart.
  ghost predicate TieFree(p: Platform, v: Json)
    decreases v
  {
    match v
    case Leaf(_) => true
    case Arr(_, items) => forall i :: 0 <= i < |items| ==> TieFree(p, items[i])
    case Obj(_, fields) => OrdinaryTieFree(p, Keys(fields)) && forall i :: 0 <= i < |fields| ==> TieFreeField(p, fields[i])
    case Date(_, _) => true
  }

  ghost predicate TieFreeField(p: Platform, f: Field)
    decreases f
  {
    TieFree(p, f.value)
  }

  lemma {:induction false} SameCanon(p: Platform, a: Json, b: Json)
    requires TotalPreorder(p.compare) && IndicesDiffer(p) && TieFree(p, a) && SameUpToOrder(a, b)
    ensures Canon(p, a) == Canon(p, b)
    decreases a
  {
    match a {
      case Leaf(_) =>
      case Arr(_, items) =>
        forall i | 0 <= i < |items|
          ensures Canon(p, items[i]) == Canon(p, b.items[i])
        {
          SameCanon(p, items[i], b.items[i]);
        }
        assert Canon(p, a).items == Canon(p, b).items;
      case Obj(_, fields) =>
        CanonObject(p, a);
        CanonObject(p, b);
        OrderIsUnique(p, Keys(fields), Keys(b.fields));
        forall k
          ensures CanonOf(p, Get(fields, k)) == CanonOf(p, Get(b.fields, k))
        {
          SameCanonAt(p, a, b, k);
        }
        EqualFields(Canon(p, a).fields, Canon(p, b).fields);
      case Date(_, _) =>
    }
  }

  lemma {:induction false} SameCanonAt(p: Platform, a: Json, b: Json, key: string)
    requires TotalPreorder(p.compare) && IndicesDiffer(p) && a.Obj? && TieFree(p, a) && SameUpToOrder(a, b)
    ensures CanonOf(p, Get(a.fields, key)) == CanonOf(p, Get(b.fields, key))
    decreases a, 0
  {
    HasKey(a.fields, key);
    HasKey(b.fields, key);
    Permuted(b.fields, Keys(a.fields));
    if Get(a.fields, key).Some? {
      var f := a.fields[IndexOf(a.fields, key)];
      assert f < a && SameField(f, b.fields) && TieFreeField(p, f);
      SameCanon(p, f.value, Get(b.fields, key).value);
    }
  }

  // The text does not depend on the order in which keys were inserted, at any level.
  lemma SameText(p: Platform, text: Json -> string, a: Json, b: Json)
    requires TotalPreorder(p.compare) && IndicesDiffer(p) && TieFree(p, a) && SameUpToOrder(a, b)
    ensures StableStringify(p, text, a) == StableStringify(p, text, b)
  {
    SameCanon(p, a, b);
  }

  // ----- Dates -----

  // What Object.keys shows of a value: its dates are objects without keys.
  function Undated(v: Json): Json
    decreases v
  {
    match v
    case Leaf(_) => v
    case Arr(ref, items) => Arr(ref, seq(|items|, i requires 0 <= i < |items| => Undated(items[i])))
    case Obj(ref, fields) => Obj(ref, seq(|fields|, i requires 0 <= i < |fields| => UndatedField(fields[i])))
    case Date(ref, _) => Obj(ref, [])
  }

  function UndatedField(f: Field): Field
    decreases f
  {
    Field(f.key, Undated(f.value))
  }

  predicate Dateless(v: Json)
    decreases v
  {
    match v
    case Leaf(_) => true
    case Arr(_, items) => forall i :: 0 <= i < |items| ==> Dateless(items[i])
    case Obj(_, fields) => forall i :: 0 <= i < |fields| ==> DatelessField(fields[i])
    case Date(_, _) => false
  }

  predicate DatelessField(f: Field)
    decreases f
  {
    Dateless(f.value)
  }

  lemma {:induction false} UndatedIsDateless(v: Json)
    ensures Dateless(Undated(v)) && (Proper(v) ==> Proper(Undated(v)))
    decreases v
  {
    match v {
      case Leaf(_) =>
      case Arr(_, items) =>
        forall i | 0 <= i < |items|
          ensures Dateless(Undated(items[i])) && (Proper(items[i]) ==> Proper(Undated(items[i])))
        {
          UndatedIsDateless(items[i]);
        }
      case Obj(_, fields) =>
        forall i | 0 <= i < |fields|
          ensures DatelessField(UndatedField(fields[i])) && (ProperField(fields[i]) ==> ProperField(UndatedField(fields[i])))
        {
          UndatedIsDateless(fields[i].value);
        }
        assert Keys(Undated(v).fields) == Keys(fields);
      case Date(_, _) =>
    }
  }

  lemma {:induction false} UndatedIsTieFree(p: Platform, v: Json)
    requires TieFree(p, v)
    ensures TieFree(p, Undated(v))
    decreases v
  {
    match v {
      case Leaf(_) =>
      case Arr(_, items) =>
        forall i | 0 <= i < |items|
          ensures TieFree(p, Undated(items[i]))
        {
          UndatedIsTieFree(p, items[i]);
        }
      case Obj(_, fields) =>
        forall i | 0 <= i < |fields|
          ensures TieFreeField(p, UndatedField(fields[i]))
        {
          assert TieFreeField(p, fields[i]);
          UndatedIsTieFree(p, fields[i].value);
        }
        assert Keys(Undated(v).fields) == Keys(fields);
      case Date(_, _) =>
    }
  }

  lemma {:induction false} SameIndex(f: seq<Field>, g: seq<Field>, key: string)
    requires Keys(f) == Keys(g)
    ensures IndexOf(f, key) == IndexOf(g, key)
  {
    var i, j := IndexOf(f, key), IndexOf(g, key);
    assert forall n :: 0 <= n < |f| ==> Keys(f)[n] == Keys(g)[n];
  }

  lemma {:induction false} CanonUndated(p: Platform, v: Json)
    ensures Canon(p, Undated(v)) == Canon(p, v)
    decreases v
  {
    match v {
      case Leaf(_) =>
      case Arr(_, items) =>
        forall i | 0 <= i < |items|
          ensures Canon(p, Undated(items[i])) == Canon(p, items[i])
        {
          CanonUndated(p, items[i]);
        }
        assert Canon(p, Undated(v)).items == Canon(p, v).items;
      case Obj(_, fields) =>
        assert Keys(Undated(v).fields) == Keys(fields);
        forall k
          ensures CanonOf(p, Get(Undated(v).fields, k)) == CanonOf(p, Get(fields, k))
        {
          CanonUndatedAt(p, v, k);
        }
        SameFieldsSameCanon(p, Undated(v), v);
      case Date(ref, _) => EmptyCanon(p, ref);
    }
  }

  lemma UndatedObject(v: Json)
    requires v.Obj?
    ensures Undated(v).Obj? && |Undated(v).fields| == |v.fields| && Keys(Undated(v).fields) == Keys(v.fields)
    ensures forall i :: 0 <= i < |v.fields| ==> Undated(v).fields[i].value == Undated(v.fields[i].value)
  {
    var g := Undated(v).fields;
    assert forall i :: 0 <= i < |g| ==> g[i] == UndatedField(v.fields[i]);
    assert forall i :: 0 <= i < |g| ==> Keys(g)[i] == Keys(v.fields)[i];
  }

  lemma {:induction false} CanonUndatedAt(p: Platform, v: Json, key: string)
    requires v.Obj?
    ensures CanonOf(p, Get(Undated(v).fields, key)) == CanonOf(p, Get(v.fields, key))
    decreases v, 0
  {
    UndatedObject(v);
    SameIndex(Undated(v).fields, v.fields, key);
    if Get(v.fields, key).Some? {
      CanonUndated(p, v.fields[IndexOf(v.fields, key)].value);
    }
  }

  lemma SameFieldsSameCanon(p: Platform, a: Json, b: Json)
    requires a.Obj? && b.Obj? && Keys(a.fields) == Keys(b.fields)
    requires forall k :: CanonOf(p, Get(a.fields, k)) == CanonOf(p, Get(b.fields, k))
    ensures Canon(p, a) == Canon(p, b)
  {
    hide CanonOf, Get, Canon;
    CanonObject(p, a);
    CanonObject(p, b);
    EqualFields(Canon(p, a).fields, Canon(p, b).fields);
    ZeroRef(p, a);
    ZeroRef(p, b);
  }

  lemma ZeroRef(p: Platform, v: Json)
    requires v.Obj?
    ensures Canon(p, v).Obj? && Canon(p, v).ref == 0
  {
  }

  lemma EmptyCanon(p: Platform, ref: int)
    ensures Canon(p, Obj(ref, [])) == Obj(0, [])
  {
    CanonObject(p, Obj(ref, []));
    OrderPermutes(p, []);
    assert |multiset(Order(p, Keys([])))| == 0;
  }

  // ----- Nothing else is identified -----

  // Without identities and dates, as ordered forms are.
  predicate Anonymous(v: Json)
    decreases v
  {
    match v
    case Leaf(_) => true
    case Arr(ref, items) => ref == 0 && forall i :: 0 <= i < |items| ==> Anonymous(items[i])
    case Obj(ref, fields) => ref == 0 && forall i :: 0 <= i < |fields| ==> AnonymousField(fields[i])
    case Date(_, _) => false
  }

  predicate AnonymousField(f: Field)
    decreases f
  {
    Anonymous(f.value)
  }

  // Values with one text differ at most in their identities, which JSON.stringify does not show.
  ghost predicate Injective(text: Json -> string) {
    forall a, b :: Anonymous(a) && Anonymous(b) && text(a) == text(b) ==> a == b
  }

  lemma {:induction false} CanonIsAnonymous(p: Platform, v: Json)
    ensures Anonymous(Canon(p, v))
    decreases v
  {
    if v.Arr? {
      forall i | 0 <= i < |v.items|
        ensures Anonymous(Canon(p, v).items[i])
      {
        CanonIsAnonymous(p, v.items[i]);
      }
    } else if v.Obj? {
      CanonObject(p, v);
      var f := Canon(p, v).fields;
      forall i | 0 <= i < |f|
        ensures AnonymousField(f[i])
      {
        assert Get(f, f[i].key) == CanonOf(p, Get(v.fields, f[i].key));
        var g := v.fields[IndexOf(v.fields, f[i].key)];
        assert g < v;
        CanonIsAnonymous(p, g.value);
      }
    }
  }

  lemma ResortedIsAnonymous(p: Platform, v: Json)
    requires Anonymous(v)
    ensures Anonymous(Resorted(p, v))
  {
    if v.Obj? {
      var f := Arranged(p, v.fields);
      ArrangedIs(p, v.fields);
      hide Arranged;
      forall i | 0 <= i < |f|
        ensures AnonymousField(f[i])
      {
        assert Get(f, f[i].key) == Get(v.fields, f[i].key);
        assert AnonymousField(v.fields[IndexOf(v.fields, f[i].key)]);
      }
    }
  }

  lemma EqualText(p: Platform, text: Json -> string, a: Json, b: Json)
    requires Injective(text) && StableStringify(p, text, a) == StableStringify(p, text, b)
    ensures Resorted(p, Canon(p, a)) == Resorted(p, Canon(p, b))
  {
    CanonIsAnonymous(p, a);
    CanonIsAnonymous(p, b);
    ResortedIsAnonymous(p, Canon(p, a));
    ResortedIsAnonymous(p, Canon(p, b));
  }

  lemma {:induction false} CanonTells(p: Platform, a: Json, b: Json)
    requires Proper(a) && Dateless(a) && Dateless(b) && Canon(p, a) == Canon(p, b)
    ensures SameUpToOrder(a, b)
    decreases a
  {
    match a {
      case Leaf(_) =>
      case Arr(_, items) =>
        forall i | 0 <= i < |items|
          ensures SameUpToOrder(items[i], b.items[i])
        {
          assert Canon(p, a).items[i] == Canon(p, items[i]) && Canon(p, b).items[i] == Canon(p, b.items[i]);
          CanonTells(p, items[i], b.items[i]);
        }
      case Obj(_, fields) =>
        CanonObject(p, a);
        CanonObject(p, b);
        OrderPermutes(p, Keys(fields));
        OrderPermutes(p, Keys(b.fields));
        FieldsTell(p, a, b);
      case Date(_, _) => assert false;
    }
  }

  lemma {:induction false} FieldsTell(p: Platform, a: Json, b: Json)
    requires Proper(a) && a.Obj? && b.Obj? && multiset(Keys(a.fields)) == multiset(Keys(b.fields))
    requires Dateless(a) && Dateless(b)
    requires forall k :: CanonOf(p, Get(a.fields, k)) == CanonOf(p, Get(b.fields, k))
    ensures SameUpToOrder(a, b)
    decreases a, 0
  {
    DistinctIsRegular(a.fields);
    forall i | 0 <= i < |a.fields|
      ensures SameField(a.fields[i], b.fields)
    {
      var f := a.fields[i];
      assert f < a && ProperField(f) && DatelessField(f);
      assert Get(a.fields, f.key) == Some(f.value);
      assert CanonOf(p, Get(b.fields, f.key)) == Some(Canon(p, f.value));
      assert DatelessField(b.fields[IndexOf(b.fields, f.key)]);
      CanonTells(p, f.value, Get(b.fields, f.key).value);
    }
  }

  lemma ResortedTells(p: Platform, a: Json, b: Json)
    requires Proper(a) && Dateless(a) && Dateless(b) && Resorted(p, Canon(p, a)) == Resorted(p, Canon(p, b))
    ensures SameUpToOrder(a, b)
  {
    if a.Obj? && b.Obj? {
      var f, g := Canon(p, a).fields, Canon(p, b).fields;
      CanonObject(p, a);
      CanonObject(p, b);
      ArrangedIs(p, f);
      ArrangedIs(p, g);
      OrderPermutes(p, Keys(a.fields));
      OrderPermutes(p, Keys(b.fields));
      OrderPermutes(p, Keys(f));
      OrderPermutes(p, Keys(g));
      assert forall k :: Get(f, k) == Get(g, k);
      FieldsTell(p, a, b);
    } else {
      CanonTells(p, a, b);
    }
  }

  // Values with the same text are the same up to key order once every date is an object without keys.
  lemma EqualTextMeansSame(p: Platform, text: Json -> string, a: Json, b: Json)
    requires Injective(text) && Proper(a) && StableStringify(p, text, a) == StableStringify(p, text, b)
    ensures SameUpToOrder(Undated(a), Undated(b))
  {
    EqualText(p, text, a, b);
    CanonUndated(p, a);
    CanonUndated(p, b);
    UndatedIsDateless(a);
    UndatedIsDateless(b);
    ResortedTells(p, Undated(a), Undated(b));
  }

  // The text tells everything about a value without ties but the order of its keys and its dates.
  lemma SameTextIff(p: Platform, text: Json -> string, a: Json, b: Json)
    requires TotalPreorder(p.compare) && IndicesDiffer(p) && Injective(text) && Proper(a) && TieFree(p, a)
    ensures StableStringify(p, text, a) == StableStringify(p, text, b) <==> SameUpToOrder(Undated(a), Undated(b))
  {
    if SameUpToOrder(Undated(a), Undated(b)) {
      UndatedIsTieFree(p, a);
      SameCanon(p, Undated(a), Undated(b));
      CanonUndated(p, a);
      CanonUndated(p, b);
    }
    if StableStringify(p, text, a) == StableStringify(p, text, b) {
      EqualTextMeansSame(p, text, a, b);
    }
  }

  // ----- Ties show -----

  lemma {:induction false} SameAsItself(v: Json)
    requires Proper(v)
    ensures SameUpToOrder(v, v)
    decreases v
  {
    match v {
      case Leaf(_) =>
      case Arr(_, items) =>
        forall i | 0 <= i < |items|
          ensures SameUpToOrder(items[i], items[i])
        {
          SameAsItself(items[i]);
        }
      case Obj(_, fields) =>
        DistinctIsRegular(fields);
        forall i | 0 <= i < |fields|
          ensures SameField(fields[i], fields)
        {
          assert fields[i] < v && ProperField(fields[i]);
          SameAsItself(fields[i].value);
        }
      case Date(_, _) =>
    }
  }

  // The ordered forms differ, also after the outermost object is sorted again.
  ghost predicate ToldApart(p: Platform, a: Json, b: Json) {
    Canon(p, a) != Canon(p, b) && Resorted(p, Canon(p, a)) != Resorted(p, Canon(p, b))
  }

  lemma ItemTold(p: Platform, a: Json, i: nat, item: Json)
    requires a.Arr? && i < |a.items| && Proper(a) && Proper(item)
    requires SameUpToOrder(a.items[i], item) && Canon(p, a.items[i]) != Canon(p, item)
    ensures var b := Arr(a.ref, a.items[i := item]);
            Proper(b) && SameUpToOrder(a, b) && ToldApart(p, a, b)
  {
    var b := Arr(a.ref, a.items[i := item]);
    forall j | 0 <= j < |a.items|
      ensures SameUpToOrder(a.items[j], b.items[j])
    {
      if j != i {
        SameAsItself(a.items[j]);
      }
    }
    assert Canon(p, a).items[i] == Canon(p, a.items[i]) && Canon(p, b).items[i] == Canon(p, item);
  }

  // Two objects with a key under which their ordered forms differ.
  lemma KeyTold(p: Platform, a: Json, b: Json, key: string)
    requires a.Obj? && b.Obj? && CanonOf(p, Get(a.fields, key)) != CanonOf(p, Get(b.fields, key))
    ensures ToldApart(p, a, b)
  {
    CanonObject(p, a);
    CanonObject(p, b);
    ArrangedIs(p, Canon(p, a).fields);
    ArrangedIs(p, Canon(p, b).fields);
    hide Arranged, Canon, Get;
    assert Get(Canon(p, a).fields, key) != Get(Canon(p, b).fields, key);
    assert Get(Arranged(p, Canon(p, a).fields), key) != Get(Arranged(p, Canon(p, b).fields), key);
  }

  lemma FieldTold(p: Platform, a: Json, i: nat, value: Json)
    requires a.Obj? && i < |a.fields| && Proper(a) && Proper(value)
    requires SameUpToOrder(a.fields[i].value, value) && Canon(p, a.fields[i].value) != Canon(p, value)
    ensures var b := Obj(a.ref, a.fields[i := Field(a.fields[i].key, value)]);
            Proper(b) && SameUpToOrder(a, b) && ToldApart(p, a, b)
  {
    var key := a.fields[i].key;
    var g := a.fields[i := Field(key, value)];
    var b := Obj(a.ref, g);
    assert Keys(g) == Keys(a.fields);
    DistinctIsRegular(a.fields);
    DistinctIsRegular(g);
    forall j | 0 <= j < |g|
      ensures ProperField(g[j]) && SameField(a.fields[j], g)
    {
      assert ProperField(a.fields[j]);
      assert Get(g, g[j].key) == Some(g[j].value);
      if j != i {
        SameAsItself(a.fields[j].value);
      }
    }
    assert Get(a.fields, key) == Some(a.fields[i].value) && Get(g, g[i].key) == Some(g[i].value);
    KeyTold(p, a, b, key);
  }

  function Swapped(fields: seq<Field>, i: nat, j: nat): seq<Field>
    requires i < |fields| && j < |fields|
  {
    fields[i := fields[j]][j := fields[i]]
  }

  lemma SwapPermutes(fields: seq<Field>, i: nat, j: nat)
    requires i < j < |fields| && DistinctKeys(Keys(fields))
    ensures multiset(Keys(Swapped(fields, i, j))) == multiset(Keys(fields)) && DistinctKeys(Keys(Swapped(fields, i, j)))
  {
    var keys := Keys(fields);
    var swapped := keys[i := keys[j]][j := keys[i]];
    assert Keys(Swapped(fields, i, j)) == swapped;
    assert multiset(swapped) == multiset(keys);
    DistinctPermuted(keys, swapped);
  }

  lemma SwapIsSame(a: Json, i: nat, j: nat)
    requires a.Obj? && Proper(a) && i < j < |a.fields|
    ensures var b := Obj(a.ref, Swapped(a.fields, i, j)); Proper(b) && SameUpToOrder(a, b)
  {
    var f, g := a.fields, Swapped(a.fields, i, j);
    SwapPermutes(f, i, j);
    DistinctIsRegular(g);
    forall m | 0 <= m < |f|
      ensures SameField(f[m], g)
    {
      var n := if m == i then j else if m == j then i else m;
      assert g[n] == f[m] && ProperField(f[m]);
      assert Get(g, g[n].key) == Some(g[n].value);
      SameAsItself(f[m].value);
    }
    forall m | 0 <= m < |g|
      ensures ProperField(g[m])
    {
      var n := if m == i then j else if m == j then i else m;
      assert g[m] == f[n] && ProperField(f[n]);
    }
  }

  lemma OrderKeeps(p: Platform, keys: seq<string>, k: string, l: string)
    requires DistinctKeys(keys) && Ordinary(p, k) && Ordinary(p, l) && p.compare(k, l) <= 0 && Precedes(keys, k, l)
    ensures DistinctKeys(Order(p, keys)) && Precedes(Order(p, keys), k, l) && !Precedes(Order(p, keys), l, k)
  {
    hide Order, Precedes, DistinctKeys;
    OrderPrecedes(p, keys, k, l);
    OrderPermutes(p, keys);
    DistinctPermuted(keys, Order(p, keys));
    PrecedesOnce(Order(p, keys), k, l);
  }

  // The keys of the ordered form, and after the second sort.
  lemma FinalKeys(p: Platform, v: Json)
    requires v.Obj?
    ensures Canon(p, v).Obj? && Keys(Canon(p, v).fields) == Order(p, Keys(v.fields))
    ensures Resorted(p, Canon(p, v)).Obj? && Keys(Resorted(p, Canon(p, v)).fields) == Order(p, Order(p, Keys(v.fields)))
  {
    CanonObject(p, v);
    ArrangedIs(p, Canon(p, v).fields);
  }

  // Keys in the one order and in the other.
  lemma OrderTold(p: Platform, a: Json, b: Json, k: string, l: string)
    requires a.Obj? && b.Obj? && DistinctKeys(Keys(a.fields)) && DistinctKeys(Keys(b.fields))
    requires Ordinary(p, k) && Ordinary(p, l) && p.compare(k, l) <= 0 && p.compare(l, k) <= 0
    requires Precedes(Keys(a.fields), k, l) && Precedes(Keys(b.fields), l, k)
    ensures ToldApart(p, a, b)
  {
    hide Order, Precedes, DistinctKeys, Canon, Resorted, Ordinary;
    FinalKeys(p, a);
    FinalKeys(p, b);
    OrderKeeps(p, Keys(a.fields), k, l);
    OrderKeeps(p, Order(p, Keys(a.fields)), k, l);
    OrderKeeps(p, Keys(b.fields), l, k);
    OrderKeeps(p, Order(p, Keys(b.fields)), l, k);
  }

  // Two ordinary keys of one object that tie: swapping them shows.
  lemma TieTold(p: Platform, a: Json, i: nat, j: nat)
    requires a.Obj? && Proper(a) && i < j < |a.fields|
    requires var k, l := a.fields[i].key, a.fields[j].key;
             Ordinary(p, k) && Ordinary(p, l) && p.compare(k, l) <= 0 && p.compare(l, k) <= 0
    ensures var b := Obj(a.ref, Swapped(a.fields, i, j));
            Proper(b) && SameUpToOrder(a, b) && ToldApart(p, a, b)
  {
    var b := Obj(a.ref, Swapped(a.fields, i, j));
    SwapIsSame(a, i, j);
    PrecedesAt(Keys(a.fields), i, j);
    PrecedesAt(Keys(b.fields), i, j);
    OrderTold(p, a, b, a.fields[i].key, a.fields[j].key);
  }

  // A value with a tie somewhere has a reordering with another ordered form.
  lemma {:induction false} TiesAreTold(p: Platform, a: Json) returns (b: Json)
    requires Proper(a) && !TieFree(p, a)
    ensures Proper(b) && SameUpToOrder(a, b) && ToldApart(p, a, b)
    decreases a
  {
    hide ToldApart, SameUpToOrder;
    if a.Arr? {
      var i :| 0 <= i < |a.items| && !TieFree(p, a.items[i]);
      var item := TiesAreTold(p, a.items[i]);
      assert Canon(p, a.items[i]) != Canon(p, item) by { ApartIsDifferent(p, a.items[i], item); }
      ItemTold(p, a, i, item);
      b := Arr(a.ref, a.items[i := item]);
    } else if OrdinaryTieFree(p, Keys(a.fields)) {
      var i :| 0 <= i < |a.fields| && !TieFreeField(p, a.fields[i]);
      assert a.fields[i] < a && ProperField(a.fields[i]);
      var value := TiesAreTold(p, a.fields[i].value);
      assert Canon(p, a.fields[i].value) != Canon(p, value) by { ApartIsDifferent(p, a.fields[i].value, value); }
      FieldTold(p, a, i, value);
      b := Obj(a.ref, a.fields[i := Field(a.fields[i].key, value)]);
    } else {
      var i, j := FindTie(p, a);
      TieTold(p, a, i, j);
      b := Obj(a.ref, Swapped(a.fields, i, j));
    }
  }

  lemma ApartIsDifferent(p: Platform, a: Json, b: Json)
    requires ToldApart(p, a, b)
    ensures Canon(p, a) != Canon(p, b)
  {
  }

  lemma FindTie(p: Platform, a: Json) returns (i: nat, j: nat)
    requires a.Obj? && !OrdinaryTieFree(p, Keys(a.fields))
    ensures i < j < |a.fields|
    ensures var k, l := a.fields[i].key, a.fields[j].key;
            Ordinary(p, k) && Ordinary(p, l) && p.compare(k, l) <= 0 && p.compare(l, k) <= 0
  {
    var keys := Keys(a.fields);
    var k, l :| k in keys && l in keys && Ordinary(p, k) && Ordinary(p, l) && p.compare(k, l) <= 0 && p.compare(l, k) <= 0 && k != l;
    var m :| 0 <= m < |keys| && keys[m] == k;
    var n :| 0 <= n < |keys| && keys[n] == l;
    i, j := if m < n then m else n, if m < n then n else m;
  }

  // Exactly when the text of a value does not depend on key order: when no object of it has two ordinary keys
  // that tie.
  lemma OrderShowsIff(p: Platform, text: Json -> string, a: Json)
    requires TotalPreorder(p.compare) && IndicesDiffer(p) && Injective(text) && Proper(a)
    ensures TieFree(p, a) <==>
            forall b :: Proper(b) && SameUpToOrder(a, b) ==> StableStringify(p, text, a) == StableStringify(p, text, b)
  {
    if TieFree(p, a) {
      forall b | Proper(b) && SameUpToOrder(a, b)
        ensures StableStringify(p, text, a) == StableStringify(p, text, b)
      {
        SameText(p, text, a, b);
      }
    } else {
      var b := TiesAreTold(p, a);
      if StableStringify(p, text, a) == StableStringify(p, text, b) {
        EqualText(p, text, a, b);
        assert false;
      }
    }
  }
}
