// The cache key of a page: the text of a list request. Two requests share a key exactly when they ask for the
// same once their dates are left out.
module PageKeys {
  import opened Wrappers
  import opened KeyOrder
  import opened StableJson
  import opened StableStringifier
  import opened SharedObjects
  import opened Filters
  import opened FilterTexts

  // ----- The request and its key -----

  datatype Query = Query(where: Where, page: nat, limit: nat, sortBy: string, order: string)

  // What a request asks for; the same with its dates left out.
  datatype Asked = Asked(where: seq<map<string, Condition>>, page: nat, limit: nat, sortBy: string, order: string)

  function AskedBy(q: Query): Asked { Asked(Meaning(q.where), q.page, q.limit, q.sortBy, q.order) }

  function UndatedAsked(q: Query): Asked { AskedBy(q).(where := UndatedMeaning(Meaning(q.where))) }

  // select and relations, if there are any; their objects are none of the filter's.
  datatype Selection = Selection(select: Option<Json>, relations: Option<Json>)

  predicate ProperPart(v: Option<Json>) { v.Some? ==> Proper(v.value) && Tree(v.value) && forall r :: r in Refs(v.value) ==> r < 0 }

  function PartRefs(v: Option<Json>): set<int> { if v.Some? then Refs(v.value) else {} }

  type Shape = s: Selection | ProperPart(s.select) && ProperPart(s.relations) && PartRefs(s.select) !! PartRefs(s.relations)
    witness Selection(None, None)

  function Part(key: string, v: Option<Json>): seq<Field> { if v.Some? then [Field(key, v.value)] else [] }

  function DataFields(q: Query, s: Shape): seq<Field> {
    [Field("where", WhereValue(q.where)), Field("page", Leaf(Number(q.page))), Field("limit", Leaf(Number(q.limit))),
     Field("sortBy", Leaf(Text(q.sortBy))), Field("order", Leaf(Text(q.order)))] +
    Part("select", s.select) + Part("relations", s.relations)
  }

  function DataValue(q: Query, s: Shape): Json { Obj(0, DataFields(q, s)) }

  function DataForm(p: Platform, q: Query, s: Shape): (r: Json)
    ensures r.Obj?
  {
    Alone(p, DataValue(q, s))
  }

  // The text that buildCacheKey hashes; `text` is JSON.stringify.
  function PageText(p: Platform, text: Json -> string, q: Query, s: Shape): string { text(Resorted(p, DataForm(p, q, s))) }

  function DataKeys(s: Shape): seq<string> {
    ["where", "page", "limit", "sortBy", "order"] + (if s.select.Some? then ["select"] else []) +
    (if s.relations.Some? then ["relations"] else [])
  }

  lemma DataFieldsAre(q: Query, s: Shape)
    ensures Keys(DataFields(q, s)) == DataKeys(s) && DistinctKeys(DataKeys(s))
  {
    hide WhereValue;
    var f := DataFields(q, s);
    assert forall i :: 0 <= i < |f| ==> f[i].key == DataKeys(s)[i];
  }

  function DataAt(q: Query, s: Shape, key: string): Option<Json> {
    if key == "where" then Some(WhereValue(q.where))
    else if key == "page" then Some(Leaf(Number(q.page)))
    else if key == "limit" then Some(Leaf(Number(q.limit)))
    else if key == "sortBy" then Some(Leaf(Text(q.sortBy)))
    else if key == "order" then Some(Leaf(Text(q.order)))
    else if key == "select" then s.select
    else if key == "relations" then s.relations
    else None
  }

  lemma DataGet(q: Query, s: Shape, key: string)
    ensures Get(DataFields(q, s), key) == DataAt(q, s, key)
  {
    hide WhereValue, Get, DataFields, DataKeys, DataAt;
    var f := DataFields(q, s);
    DataFieldsAre(q, s);
    DistinctIsRegular(f);
    HasKey(f, key);
    if key in Keys(f) {
      var i :| 0 <= i < |f| && Keys(f)[i] == key;
      DataAtField(q, s, i);
    } else {
      NoDataAt(q, s, key);
    }
  }

  lemma DataAtField(q: Query, s: Shape, i: nat)
    requires i < |DataFields(q, s)|
    ensures DataAt(q, s, DataFields(q, s)[i].key) == Some(DataFields(q, s)[i].value)
  {
    hide WhereValue;
  }

  lemma NoDataAt(q: Query, s: Shape, key: string)
    requires key !in DataKeys(s)
    ensures DataAt(q, s, key) == None
  {
    hide WhereValue;
    var keys := DataKeys(s);
    assert keys[0] == "where" && keys[1] == "page" && keys[2] == "limit" && keys[3] == "sortBy" && keys[4] == "order";
    assert s.select.Some? ==> keys[5] == "select";
    assert s.relations.Some? ==> keys[|keys| - 1] == "relations";
  }

  lemma WhereRefs(w: Where)
    ensures forall r :: r in Refs(WhereValue(w)) ==> r > 0
  {
    hide Alternatives;
    forall i | 0 <= i < |Alternatives(w)|
      ensures forall r :: r in Refs(AlternativeValue(w, i)) ==> r > 0
    {
      AlternativeRefs(w, i);
    }
  }

  lemma AlternativeRefs(w: Where, i: nat)
    requires i < |Alternatives(w)|
    ensures forall r :: r in Refs(AlternativeValue(w, i)) ==> r > 0
  {
    hide Alternatives, ConditionValue;
    AlternativeFields(w, i);
    var f := AlternativeValue(w, i).fields;
    forall j | 0 <= j < |f|
      ensures forall r :: r in FieldRefs(f[j]) ==> r > 0
    {
      var column := Alternatives(w)[i][j];
      ConditionIsTree(column.condition, RefOf(w, i, column));
    }
  }

  lemma DataIsPatchwork(q: Query, s: Shape)
    ensures Patchwork(DataValue(q, s), {})
  {
    hide WhereValue, DistinctKeys;
    var f := DataFields(q, s);
    DataFieldsAre(q, s);
    WhereRefs(q.where);
    assert f[0] == Field("where", WhereValue(q.where));
    forall i | 1 <= i < 5
      ensures f[i].value.Leaf?
    {
    }
    forall i | 0 <= i < |f|
      ensures FieldRefs(f[i]) == FieldPart(q, s, i)
    {
    }
  }

  function FieldPart(q: Query, s: Shape, i: nat): set<int> {
    if i == 0 then Refs(WhereValue(q.where))
    else if i < 5 then {}
    else if i == 5 && s.select.Some? then PartRefs(s.select)
    else PartRefs(s.relations)
  }

  // What the text shows: of the filter its ordered form, of anything else everything but key order.
  lemma DataShown(p: Platform, q: Query, s: Shape)
    ensures var r := DataForm(p, q, s);
            && r.Obj? && r.ref == 0 && Keys(r.fields) == Order(p, DataKeys(s)) && Regular(r.fields)
            && forall k :: Get(r.fields, k) == PatchedOf(p, Get(DataFields(q, s), k), {0})
  {
    hide DataFields, Patched, Order, Get;
    DataFieldsAre(q, s);
    DataIsPatchwork(q, s);
    PatchedObject(p, DataValue(q, s), {});
    assert {} + {0} == {0};
  }

  // What the text shows under each key.
  function ShownUnder(p: Platform, q: Query, s: Shape, key: string): Option<Json> {
    if key == "where" then Some(Alone(p, WhereValue(q.where)))
    else if key == "select" then CanonOf(p, s.select)
    else if key == "relations" then CanonOf(p, s.relations)
    else DataAt(q, s, key)
  }

  lemma DataParts(p: Platform, q: Query, s: Shape, key: string)
    ensures Get(DataForm(p, q, s).fields, key) == ShownUnder(p, q, s, key)
  {
    hide DataFields, Get, Canon, Alone, DataForm, DataValue, Regular, Order, WhereValue;
    DataShown(p, q, s);
    DataGet(q, s, key);
    WherePatched(p, q.where);
    PartPatched(p, s.select);
    PartPatched(p, s.relations);
  }

  lemma WherePatched(p: Platform, w: Where)
    ensures Patched(p, WhereValue(w), {0}) == Alone(p, WhereValue(w))
  {
    hide Alternatives, Alone, DataForm;
    WhereRefs(w);
    assert !WhereValue(w).Leaf? && WhereValue(w).ref in Refs(WhereValue(w));
  }

  lemma PartPatched(p: Platform, v: Option<Json>)
    requires ProperPart(v)
    ensures PatchedOf(p, v, {0}) == CanonOf(p, v)
  {
    if v.Some? {
      AloneIsCanon(p, v.value);
      if v.value.Leaf? {
        LeafCanon(p, v.value.value);
      } else {
        assert v.value.ref in Refs(v.value);
      }
    }
  }

  // ----- Which requests share a key -----

  // The same up to key order and dates.
  predicate SamePart(v: Option<Json>, w: Option<Json>) {
    if v.Some? then w.Some? && SameUpToOrder(Undated(v.value), Undated(w.value)) else w.None?
  }

  predicate SameShape(s: Shape, t: Shape) { SamePart(s.select, t.select) && SamePart(s.relations, t.relations) }

  lemma SameShapeAsItself(s: Shape)
    ensures SameShape(s, s)
  {
    if s.select.Some? {
      UndatedIsDateless(s.select.value);
      SameAsItself(Undated(s.select.value));
    }
    if s.relations.Some? {
      UndatedIsDateless(s.relations.value);
      SameAsItself(Undated(s.relations.value));
    }
  }

  // Requests with one key ask for the same but for their dates.
  lemma KeyTells(p: Platform, text: Json -> string, a: Query, s: Shape, b: Query, t: Shape)
    requires Injective(text) && PageText(p, text, a, s) == PageText(p, text, b, t)
    ensures UndatedAsked(a) == UndatedAsked(b) && SameShape(s, t)
  {
    hide Alone, DataForm, DataValue, Resorted, Meaning, UndatedMeaning, Injective, PageText;
    SameForm(p, text, a, s, b, t);
    WhereTells(p, a, s, b, t);
    SelectionTells(p, a, s, b, t);
    RestTells(p, a, s, b, t);
  }

  lemma WhereTells(p: Platform, a: Query, s: Shape, b: Query, t: Shape)
    requires Resorted(p, DataForm(p, a, s)) == Resorted(p, DataForm(p, b, t))
    ensures UndatedMeaning(Meaning(a.where)) == UndatedMeaning(Meaning(b.where))
  {
    hide Alone, DataForm, DataValue, WhereValue, Resorted, Meaning, UndatedMeaning;
    UnderTells(p, a, s, b, t, "where");
    FilterTells(p, a.where, b.where);
  }

  lemma SelectionTells(p: Platform, a: Query, s: Shape, b: Query, t: Shape)
    requires Resorted(p, DataForm(p, a, s)) == Resorted(p, DataForm(p, b, t))
    ensures SameShape(s, t)
  {
    hide Alone, DataForm, DataValue, WhereValue, Resorted, SamePart, CanonOf;
    UnderTells(p, a, s, b, t, "select");
    PartTells(p, s.select, t.select);
    UnderTells(p, a, s, b, t, "relations");
    PartTells(p, s.relations, t.relations);
  }

  lemma RestTells(p: Platform, a: Query, s: Shape, b: Query, t: Shape)
    requires Resorted(p, DataForm(p, a, s)) == Resorted(p, DataForm(p, b, t))
    ensures a.page == b.page && a.limit == b.limit && a.sortBy == b.sortBy && a.order == b.order
  {
    hide Alone, DataForm, DataValue, WhereValue, Resorted;
    UnderTells(p, a, s, b, t, "page");
    UnderTells(p, a, s, b, t, "limit");
    UnderTells(p, a, s, b, t, "sortBy");
    UnderTells(p, a, s, b, t, "order");
  }

  lemma UnderTells(p: Platform, a: Query, s: Shape, b: Query, t: Shape, key: string)
    requires Resorted(p, DataForm(p, a, s)) == Resorted(p, DataForm(p, b, t))
    ensures ShownUnder(p, a, s, key) == ShownUnder(p, b, t, key)
  {
    hide Alone, DataForm, DataValue, Get, Arranged, ShownUnder, Order;
    DataShown(p, a, s);
    DataShown(p, b, t);
    ArrangedIs(p, DataForm(p, a, s).fields);
    ArrangedIs(p, DataForm(p, b, t).fields);
    DataParts(p, a, s, key);
    DataParts(p, b, t, key);
  }

  lemma SameForm(p: Platform, text: Json -> string, a: Query, s: Shape, b: Query, t: Shape)
    requires Injective(text) && PageText(p, text, a, s) == PageText(p, text, b, t)
    ensures Resorted(p, DataForm(p, a, s)) == Resorted(p, DataForm(p, b, t))
  {
    hide Stringified, DataValue, Resorted;
    StringifiedIsAnonymous(p, DataValue(a, s), {});
    StringifiedIsAnonymous(p, DataValue(b, t), {});
    ResortedIsAnonymous(p, DataForm(p, a, s));
    ResortedIsAnonymous(p, DataForm(p, b, t));
  }

  lemma PartTells(p: Platform, v: Option<Json>, w: Option<Json>)
    requires ProperPart(v) && ProperPart(w) && CanonOf(p, v) == CanonOf(p, w)
    ensures SamePart(v, w)
  {
    hide Canon, SameUpToOrder, Undated, Refs, Tree;
    if v.Some? {
      CanonUndated(p, v.value);
      CanonUndated(p, w.value);
      UndatedIsDateless(v.value);
      UndatedIsDateless(w.value);
      CanonTells(p, Undated(v.value), Undated(w.value));
    }
  }

  ghost predicate PartTieFree(p: Platform, v: Option<Json>) { v.Some? ==> TieFree(p, v.value) }

  // No two keys of the request tie: columns, or keys of its selection.
  ghost predicate KeysTieFree(p: Platform, q: Query, s: Shape) {
    NamesTieFree(p, q.where) && PartTieFree(p, s.select) && PartTieFree(p, s.relations)
  }

  lemma PartFollows(p: Platform, v: Option<Json>, w: Option<Json>)
    requires TotalPreorder(p.compare) && IndicesDiffer(p) && PartTieFree(p, v) && SamePart(v, w)
    ensures CanonOf(p, v) == CanonOf(p, w)
  {
    if v.Some? {
      UndatedIsTieFree(p, v.value);
      SameCanon(p, Undated(v.value), Undated(w.value));
      CanonUndated(p, v.value);
      CanonUndated(p, w.value);
    }
  }

  // Two requests share a key exactly when they ask for the same once every date is left out.
  lemma SameKeyIff(p: Platform, text: Json -> string, a: Query, s: Shape, b: Query, t: Shape)
    requires TotalPreorder(p.compare) && IndicesDiffer(p) && Injective(text) && KeysTieFree(p, a, s)
    ensures PageText(p, text, a, s) == PageText(p, text, b, t) <==> UndatedAsked(a) == UndatedAsked(b) && SameShape(s, t)
  {
    hide PageText, Meaning, UndatedMeaning, SameOrder, SamePart, CanonOf;
    if PageText(p, text, a, s) == PageText(p, text, b, t) {
      KeyTells(p, text, a, s, b, t);
    }
    if UndatedAsked(a) == UndatedAsked(b) && SameShape(s, t) {
      TieFreeOrder(p, a.where, b.where);
      PartFollows(p, s.select, t.select);
      PartFollows(p, s.relations, t.relations);
      KeyFollows(p, text, a, s, b, t);
    }
  }

  lemma KeyFollows(p: Platform, text: Json -> string, a: Query, s: Shape, b: Query, t: Shape)
    requires UndatedAsked(a) == UndatedAsked(b) && SameOrder(p, a.where, b.where)
    requires CanonOf(p, s.select) == CanonOf(p, t.select) && CanonOf(p, s.relations) == CanonOf(p, t.relations)
    ensures PageText(p, text, a, s) == PageText(p, text, b, t)
  {
    hide Alone, DataForm, DataFields, WhereValue, Meaning, Get, UndatedMeaning, Canon, SameOrder;
    FilterFollows(p, a.where, b.where);
    DataShown(p, a, s);
    DataShown(p, b, t);
    var r, u := DataForm(p, a, s), DataForm(p, b, t);
    forall k
      ensures Get(r.fields, k) == Get(u.fields, k)
    {
      SameUnder(p, a, s, b, t, k);
    }
    EqualFields(r.fields, u.fields);
  }

  lemma SameUnder(p: Platform, a: Query, s: Shape, b: Query, t: Shape, key: string)
    requires Alone(p, WhereValue(a.where)) == Alone(p, WhereValue(b.where))
    requires a.page == b.page && a.limit == b.limit && a.sortBy == b.sortBy && a.order == b.order
    requires CanonOf(p, s.select) == CanonOf(p, t.select) && CanonOf(p, s.relations) == CanonOf(p, t.relations)
    ensures Get(DataForm(p, a, s).fields, key) == Get(DataForm(p, b, t).fields, key)
  {
    hide DataValue, Alone, DataForm, WhereValue, Get, Canon;
    DataParts(p, a, s, key);
    DataParts(p, b, t, key);
  }
}
