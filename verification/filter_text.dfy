// What stableStringify shows of a filter. Dates do not show, and an operator object that several alternatives
// share shows once.
module FilterTexts {
  import opened Wrappers
  import opened KeyOrder
  import opened StableJson
  import opened StableStringifier
  import opened SharedObjects
  import opened Filters

  // ----- Conditions as objects -----

  function TypeOf(c: Condition): string {
    match c
    case Is(_) => ""
    case Not(_) => "not"
    case In(_) => "in"
    case Between(_, _) => "between"
    case MoreThanOrEqual(_) => "moreThanOrEqual"
    case LessThanOrEqual(_) => "lessThanOrEqual"
    case Like(_) => "like"
    case ILike(_) => "ilike"
  }

  function Texts(texts: seq<string>): seq<Json> { seq(|texts|, i requires 0 <= i < |texts| => Leaf(Text(texts[i]))) }

  // The value that an operator object holds; its own objects are numbered from `ref` on.
  function ValueOf(c: Condition, ref: int): Json {
    match c
    case Is(text) => Leaf(Text(text))
    case Not(text) => Leaf(Text(text))
    case In(texts) => Arr(ref, Texts(texts))
    case Between(from, to) => Arr(ref, [Date(ref + 1, from), Date(ref + 2, to)])
    case MoreThanOrEqual(from) => Date(ref, from)
    case LessThanOrEqual(to) => Date(ref, to)
    case Like(text) => Leaf(Text(text))
    case ILike(text) => Leaf(Text(text))
  }

  // A text stands for itself; any other condition is an operator object, of which the type and the value tell.
  function ConditionValue(c: Condition, ref: int): Json {
    if c.Is? then Leaf(Text(c.text))
    else Obj(ref, [Field("_type", Leaf(Text(TypeOf(c)))), Field("_value", ValueOf(c, ref + 1))])
  }

  lemma ConditionIsTree(c: Condition, ref: int)
    ensures Tree(ConditionValue(c, ref)) && Proper(ConditionValue(c, ref))
    ensures forall r :: r in Refs(ConditionValue(c, ref)) ==> ref <= r < ref + 4
    ensures if c.Is? then ConditionValue(c, ref) == Leaf(Text(c.text))
            else !ConditionValue(c, ref).Leaf? && ConditionValue(c, ref).ref == ref
  {
    ValueIsTree(c, ref + 1);
    var v := ConditionValue(c, ref);
    if !c.Is? {
      var fields := v.fields;
      assert Keys(fields) == ["_type", "_value"];
      assert FieldRefs(fields[0]) == {} && TreeField(fields[0]) && ProperField(fields[0]);
      assert FieldRefs(fields[1]) == Refs(ValueOf(c, ref + 1)) && TreeField(fields[1]) && ProperField(fields[1]);
    }
  }

  lemma ValueIsTree(c: Condition, ref: int)
    ensures Tree(ValueOf(c, ref)) && Proper(ValueOf(c, ref))
    ensures forall r :: r in Refs(ValueOf(c, ref)) ==> ref <= r < ref + 3
  {
    if c.In? {
      assert forall i :: 0 <= i < |c.texts| ==> Refs(ValueOf(c, ref).items[i]) == {};
    } else if c.Between? {
      var items := ValueOf(c, ref).items;
      assert Refs(items[0]) == {ref + 1} && Refs(items[1]) == {ref + 2};
    }
  }

  // ----- What the ordered form of a condition tells -----

  // The ordered form does not depend on how objects are numbered.
  function Shown(p: Platform, c: Condition): Json { Canon(p, ConditionValue(c, 0)) }

  lemma ShownIs(p: Platform, c: Condition, ref: int)
    ensures Canon(p, ConditionValue(c, ref)) == Shown(p, c)
    ensures Shown(p, UndatedCondition(c)) == Shown(p, c)
    ensures if c.Is? then Shown(p, c) == Leaf(Text(c.text)) else Shown(p, c).Obj?
    ensures Shown(p, c) == CIRCULAR <==> c == Is("[Circular]")
  {
    if c.Is? {
      LeafCanon(p, Text(c.text));
    } else {
      hide Canon, ValueOf;
      OperatorShown(p, c, ref);
    }
  }

  lemma OperatorShown(p: Platform, c: Condition, ref: int)
    requires !c.Is?
    ensures Canon(p, ConditionValue(c, ref)) == Shown(p, c) == Shown(p, UndatedCondition(c))
    ensures Shown(p, c).Obj?
  {
    hide Canon, ValueOf, Get, Keys;
    CanonOfValue(p, c, ref + 1, 1);
    SameCondition(p, c, c, ref);
    CanonOfValue(p, c, 1, 1);
    SameCondition(p, UndatedCondition(c), c, 0);
    CanonObject(p, ConditionValue(c, 0));
  }

  lemma SameCondition(p: Platform, a: Condition, b: Condition, ref: int)
    requires !a.Is? && !b.Is? && TypeOf(a) == TypeOf(b) && Canon(p, ValueOf(a, ref + 1)) == Canon(p, ValueOf(b, 1))
    ensures Canon(p, ConditionValue(a, ref)) == Shown(p, b)
  {
    hide Canon, TypeOf, ValueOf, Get, Keys;
    ConditionFields(p, a, ref);
    ConditionFields(p, b, 0);
    SameFieldsSameCanon(p, ConditionValue(a, ref), ConditionValue(b, 0));
  }

  lemma ConditionFields(p: Platform, c: Condition, ref: int)
    requires !c.Is?
    ensures var f := ConditionValue(c, ref).fields;
            && Keys(f) == ["_type", "_value"]
            && Get(f, "_type") == Some(Leaf(Text(TypeOf(c)))) && Get(f, "_value") == Some(ValueOf(c, ref + 1))
            && forall k :: k != "_type" && k != "_value" ==> Get(f, k) == None
  {
    var f := ConditionValue(c, ref).fields;
    assert f == [f[0]] + [f[1]] && f[1..] == [f[1]] && f[1..][1..] == [];
    assert f[0].key == "_type" && f[1].key == "_value" && "_type" != "_value";
    assert Keys(f) == ["_type", "_value"];
  }

  lemma CanonOfValue(p: Platform, c: Condition, ref: int, ref': int)
    ensures Canon(p, ValueOf(c, ref)) == Canon(p, ValueOf(c, ref'))
    ensures Canon(p, ValueOf(UndatedCondition(c), ref)) == Canon(p, ValueOf(c, ref'))
  {
    match c {
      case In(texts) =>
        assert Canon(p, ValueOf(c, ref)).items == Canon(p, ValueOf(c, ref')).items;
      case Between(from, to) =>
        assert Canon(p, ValueOf(c, ref)).items == [Obj(0, []), Obj(0, [])];
        assert Canon(p, ValueOf(c, ref')).items == [Obj(0, []), Obj(0, [])];
        assert Canon(p, ValueOf(UndatedCondition(c), ref)).items == [Obj(0, []), Obj(0, [])];
      case _ =>
    }
  }

  // It tells everything but the dates.
  lemma ShownTells(p: Platform, a: Condition, b: Condition)
    ensures Shown(p, a) == Shown(p, b) <==> UndatedCondition(a) == UndatedCondition(b)
  {
    hide Shown, Canon, TypeOf, ValueOf;
    ShownIs(p, a, 0);
    ShownIs(p, b, 0);
    if Shown(p, a) == Shown(p, b) && !a.Is? {
      TypeTells(p, a, b);
      ValueTells(p, a, b);
    }
  }

  lemma ValueTells(p: Platform, a: Condition, b: Condition)
    requires !a.Is? && !b.Is? && TypeOf(a) == TypeOf(b) && Canon(p, ValueOf(a, 1)) == Canon(p, ValueOf(b, 1))
    ensures UndatedCondition(a) == UndatedCondition(b)
  {
    hide Canon;
    if a.In? {
      TextsTell(p, a.texts, b.texts);
    } else if a.Not? || IsSearch(a) {
      LeafCanon(p, Text(a.text));
      LeafCanon(p, Text(b.text));
    }
  }

  lemma ShownFields(p: Platform, c: Condition)
    requires !c.Is?
    ensures Shown(p, c).Obj? && Get(Shown(p, c).fields, "_type") == Some(Leaf(Text(TypeOf(c))))
    ensures Get(Shown(p, c).fields, "_value") == Some(Canon(p, ValueOf(c, 1)))
  {
    hide Canon, TypeOf, ValueOf, Get, Keys, Regular;
    CanonObject(p, ConditionValue(c, 0));
    ConditionFields(p, c, 0);
    LeafCanon(p, Text(TypeOf(c)));
  }

  lemma TypeTells(p: Platform, a: Condition, b: Condition)
    requires !a.Is? && !b.Is? && Shown(p, a) == Shown(p, b)
    ensures TypeOf(a) == TypeOf(b) && Canon(p, ValueOf(a, 1)) == Canon(p, ValueOf(b, 1))
  {
    hide Shown, Canon, TypeOf, ValueOf, Get;
    ShownFields(p, a);
    ShownFields(p, b);
  }

  lemma LeafCanon(p: Platform, x: Primitive)
    ensures Canon(p, Leaf(x)) == Leaf(x)
  {
  }

  lemma TextsTell(p: Platform, a: seq<string>, b: seq<string>)
    requires Canon(p, Arr(1, Texts(a))) == Canon(p, Arr(1, Texts(b)))
    ensures a == b
  {
    var x, y := Canon(p, Arr(1, Texts(a))).items, Canon(p, Arr(1, Texts(b))).items;
    assert forall i :: 0 <= i < |a| ==> x[i] == Leaf(Text(a[i]));
    assert forall i :: 0 <= i < |b| ==> y[i] == Leaf(Text(b[i]));
  }

  // ----- The filter as objects -----

  // Alternatives share the operator objects of the base, which its columns number; a search operator is its own.
  function RefOf(w: Where, i: nat, column: Column): int {
    if IsSearch(column.condition) then 10 * i + 16 else 10 * Position(w.base, column.name) + 10
  }

  function ColumnValue(w: Where, i: nat, column: Column): Field {
    Field(column.name, ConditionValue(column.condition, RefOf(w, i, column)))
  }

  function AlternativeValue(w: Where, i: nat): Json
    requires i < |Alternatives(w)|
  {
    var columns := Alternatives(w)[i];
    Obj(10 * i + 15, seq(|columns|, j requires 0 <= j < |columns| => ColumnValue(w, i, columns[j])))
  }

  function WhereValue(w: Where): Json {
    if |Alternatives(w)| == 1 then AlternativeValue(w, 0)
    else Arr(1, seq(|Alternatives(w)|, i requires 0 <= i < |Alternatives(w)| => AlternativeValue(w, i)))
  }

  // An operator of the base shows in the first alternative that has it, and is cut from the later ones.
  predicate ShownBefore(ms: seq<map<string, Condition>>, i: nat, name: string)
    requires i <= |ms|
  {
    exists k :: 0 <= k < i && HasBase(ms, k, name)
  }

  predicate HasBase(ms: seq<map<string, Condition>>, k: nat, name: string)
    requires k < |ms|
  {
    name in ms[k] && !IsSearch(ms[k][name])
  }

  function ShownAt(p: Platform, ms: seq<map<string, Condition>>, i: nat, name: string): Option<Json>
    requires i < |ms|
  {
    if name !in ms[i] then None
    else if !ms[i][name].Is? && HasBase(ms, i, name) && ShownBefore(ms, i, name) then Some(CIRCULAR)
    else Some(Shown(p, ms[i][name]))
  }

  // A column of an alternative is the base's, or the one that the alternative searches.
  lemma ColumnOf(w: Where, i: nat, column: Column)
    requires i < |Alternatives(w)| && column in Alternatives(w)[i]
    ensures if IsSearch(column.condition) then w.search.Some? && column.name == w.search.value.fields[i] else column in w.base
  {
    hide Put;
  }

  // What every alternative says about a column without search operator is what the base says.
  lemma BaseColumn(w: Where, i: nat, column: Column)
    requires i < |Alternatives(w)| && column in Alternatives(w)[i] && !IsSearch(column.condition)
    ensures column in w.base
    ensures Position(w.base, column.name) < |w.base| && w.base[Position(w.base, column.name)] == column
  {
    hide Put, Position;
    ColumnOf(w, i, column);
    PositionOf(w.base, column);
  }

  lemma MeaningAt(w: Where, i: nat, column: Column)
    requires i < |Alternatives(w)| && column in Alternatives(w)[i]
    ensures column.name in Meaning(w)[i] && Meaning(w)[i][column.name] == column.condition
  {
    hide Alternatives;
  }

  lemma ColumnNamed(w: Where, i: nat, name: string) returns (column: Column)
    requires i < |Alternatives(w)| && name in Meaning(w)[i]
    ensures column in Alternatives(w)[i] && column.name == name && column.condition == Meaning(w)[i][name]
  {
    hide Alternatives;
    column :| column in Alternatives(w)[i] && column.name == name;
  }

  // What the walk over the alternatives has seen before the i-th: earlier alternatives, and the operators of the
  // base that they show.
  ghost predicate WalkedTo(w: Where, i: nat, seen: set<int>)
    requires i <= |Alternatives(w)|
  {
    && (forall r :: r in seen ==> r < 10 || OfItem(i, r) || OfBase(w, i, r))
    && (forall j :: 0 <= j < |w.base| && !w.base[j].condition.Is? && ShownBefore(Meaning(w), i, w.base[j].name) ==> 10 * j + 10 in seen)
  }

  predicate OfItem(i: nat, r: int) { 10 < r && r % 10 >= 5 && r / 10 <= i }

  ghost predicate OfBase(w: Where, i: nat, r: int)
    requires i <= |Alternatives(w)|
  {
    10 <= r && r % 10 < 5 && r / 10 - 1 < |w.base| && ShownBefore(Meaning(w), i, w.base[r / 10 - 1].name)
  }

  // One column of the i-th alternative: a text, its own search operator, or an operator of the base.
  lemma ColumnShown(p: Platform, w: Where, i: nat, seen: set<int>, column: Column)
    requires i < |Alternatives(w)| && WalkedTo(w, i, seen) && column in Alternatives(w)[i]
    ensures var x := ColumnValue(w, i, column).value;
            && NewOrKnown(x, seen + {10 * i + 15})
            && Some(Patched(p, x, seen + {10 * i + 15})) == ShownAt(p, Meaning(w), i, column.name)
  {
    hide Alternatives, Meaning, ConditionValue, Position, Canon, ShownBefore, Shown, Alone;
    var c, ref := column.condition, RefOf(w, i, column);
    var x := ConditionValue(c, ref);
    MeaningAt(w, i, column);
    ConditionIsTree(c, ref);
    ShownIs(p, c, ref);
    AloneIsCanon(p, x);
    if !c.Is? && !IsSearch(c) {
      BaseColumn(w, i, column);
      assert HasBase(Meaning(w), i, column.name);
      BaseIsNew(w, i, seen, column);
    } else if !c.Is? {
      SearchIsNew(w, i, seen, column);
    }
  }

  lemma AloneIsCanon(p: Platform, v: Json)
    requires Tree(v)
    ensures Alone(p, v) == Canon(p, v)
  {
    TreeIsOrdered(p, v, {});
  }

  lemma Numbered(r: int, m: int, low: int)
    requires 0 <= m && (low == 0 || low == 5) && 10 * m + low <= r < 10 * m + low + 5
    ensures r / 10 == m && (r % 10 < 5 <==> low == 0)
  {
  }

  lemma SearchIsNew(w: Where, i: nat, seen: set<int>, column: Column)
    requires i < |Alternatives(w)| && WalkedTo(w, i, seen) && IsSearch(column.condition)
    ensures Refs(ColumnValue(w, i, column).value) !! seen + {10 * i + 15}
  {
    hide ConditionValue, OfItem, OfBase, WalkedTo, Alternatives;
    ConditionIsTree(column.condition, 10 * i + 16);
    forall r | 10 * i + 15 < r < 10 * i + 20
      ensures r !in seen
    {
      ItemIsNew(w, i, seen, r);
    }
  }

  lemma ItemIsNew(w: Where, i: nat, seen: set<int>, r: int)
    requires i < |Alternatives(w)| && WalkedTo(w, i, seen) && 10 * i + 15 <= r < 10 * i + 20
    ensures r !in seen
  {
    hide Alternatives, ShownBefore;
    Numbered(r, i + 1, 5);
  }

  lemma BaseIsNew(w: Where, i: nat, seen: set<int>, column: Column)
    requires i < |Alternatives(w)| && WalkedTo(w, i, seen) && column in w.base && !column.condition.Is? && !IsSearch(column.condition)
    requires Position(w.base, column.name) < |w.base| && w.base[Position(w.base, column.name)] == column
    ensures var x := ColumnValue(w, i, column).value;
            !x.Leaf? && if ShownBefore(Meaning(w), i, column.name) then x.ref in seen else Refs(x) !! seen + {10 * i + 15}
  {
    hide ConditionValue, Position, OfItem, OfBase, Alternatives, Meaning, ShownBefore;
    var j := Position(w.base, column.name);
    ConditionIsTree(column.condition, 10 * j + 10);
    if !ShownBefore(Meaning(w), i, column.name) {
      forall r | 10 * j + 10 <= r < 10 * j + 14
        ensures r !in seen && r != 10 * i + 15
      {
        OperatorIsNew(w, i, seen, j, r);
      }
    }
  }

  lemma OperatorIsNew(w: Where, i: nat, seen: set<int>, j: nat, r: int)
    requires i < |Alternatives(w)| && WalkedTo(w, i, seen) && j < |w.base| && 10 * j + 10 <= r < 10 * j + 14
    requires !ShownBefore(Meaning(w), i, w.base[j].name)
    ensures r !in seen && r != 10 * i + 15
  {
    hide Alternatives, Meaning, ShownBefore;
    Numbered(r, j + 1, 0);
    Numbered(10 * i + 15, i + 1, 5);
  }

  lemma AlternativeFields(w: Where, i: nat)
    requires i < |Alternatives(w)|
    ensures var f := AlternativeValue(w, i).fields;
            && Keys(f) == Names(Alternatives(w)[i]) && DistinctKeys(Keys(f))
            && forall j :: 0 <= j < |f| ==> f[j] == ColumnValue(w, i, Alternatives(w)[i][j])
  {
    hide Alternatives, ColumnValue, DistinctKeys;
    var f := AlternativeValue(w, i).fields;
    assert forall j :: 0 <= j < |f| ==> f[j].key == Alternatives(w)[i][j].name by { FieldNames(w, i); }
    assert Keys(f) == Names(Alternatives(w)[i]);
  }

  lemma FieldNames(w: Where, i: nat)
    requires i < |Alternatives(w)|
    ensures forall column :: ColumnValue(w, i, column).key == column.name
  {
  }

  lemma ColumnsApart(w: Where, i: nat, a: Column, b: Column)
    requires i < |Alternatives(w)| && a in Alternatives(w)[i] && b in Alternatives(w)[i] && a.name != b.name
    ensures FieldRefs(ColumnValue(w, i, a)) !! FieldRefs(ColumnValue(w, i, b))
  {
    hide Alternatives, Position, ConditionValue;
    ConditionIsTree(a.condition, RefOf(w, i, a));
    ConditionIsTree(b.condition, RefOf(w, i, b));
    ColumnOf(w, i, a);
    ColumnOf(w, i, b);
    assert RefOf(w, i, a) <= RefOf(w, i, b) - 4 || RefOf(w, i, b) <= RefOf(w, i, a) - 4 by { RefsApart(w, i, a, b); }
  }

  lemma RefsApart(w: Where, i: nat, a: Column, b: Column)
    requires i < |Alternatives(w)| && a in Alternatives(w)[i] && b in Alternatives(w)[i] && a.name != b.name
    ensures RefOf(w, i, a) <= RefOf(w, i, b) - 4 || RefOf(w, i, b) <= RefOf(w, i, a) - 4
  {
    hide Alternatives, Position;
    ColumnOf(w, i, a);
    ColumnOf(w, i, b);
    if !IsSearch(a.condition) {
      PositionOf(w.base, a);
    }
    if !IsSearch(b.condition) {
      PositionOf(w.base, b);
    }
  }

  lemma AlternativeIsPatchwork(p: Platform, w: Where, i: nat, seen: set<int>)
    requires i < |Alternatives(w)| && WalkedTo(w, i, seen)
    ensures Patchwork(AlternativeValue(w, i), seen)
  {
    hide Alternatives, ColumnValue, DistinctKeys, WalkedTo, FieldRefs, Refs, NewOrKnown;
    var columns, v := Alternatives(w)[i], AlternativeValue(w, i);
    AlternativeFields(w, i);
    ItemIsNew(w, i, seen, v.ref);
    forall j | 0 <= j < |columns|
      ensures NewOrKnown(v.fields[j].value, seen + {v.ref})
    {
      ColumnShown(p, w, i, seen, columns[j]);
    }
    forall j, k | 0 <= j < k < |columns|
      ensures FieldRefs(v.fields[j]) !! FieldRefs(v.fields[k])
    {
      NamesDiffer(columns, j, k);
      ColumnsApart(w, i, columns[j], columns[k]);
    }
  }

  // An alternative in its place.
  ghost predicate AlternativeShown(p: Platform, w: Where, i: nat, r: Json)
    requires i < |Alternatives(w)|
  {
    && r.Obj? && r.ref == 0 && Keys(r.fields) == Order(p, Names(Alternatives(w)[i])) && Regular(r.fields)
    && forall name :: Get(r.fields, name) == ShownAt(p, Meaning(w), i, name)
  }

  lemma ShowAlternative(p: Platform, w: Where, i: nat, seen: set<int>)
    requires i < |Alternatives(w)| && WalkedTo(w, i, seen)
    ensures AlternativeShown(p, w, i, Stringified(p, AlternativeValue(w, i), seen).0)
  {
    hide Alternatives, ColumnValue, DistinctKeys, WalkedTo, Stringified, Patched, Order, Get, ShownAt, Regular;
    var columns, v := Alternatives(w)[i], AlternativeValue(w, i);
    AlternativeFields(w, i);
    AlternativeIsPatchwork(p, w, i, seen);
    PatchedObject(p, v, seen);
    forall name
      ensures PatchedOf(p, Get(v.fields, name), seen + {v.ref}) == ShownAt(p, Meaning(w), i, name)
    {
      ShowColumn(p, w, i, seen, name);
    }
  }

  lemma ShowColumn(p: Platform, w: Where, i: nat, seen: set<int>, name: string)
    requires i < |Alternatives(w)| && WalkedTo(w, i, seen)
    ensures var v := AlternativeValue(w, i);
            PatchedOf(p, Get(v.fields, name), seen + {v.ref}) == ShownAt(p, Meaning(w), i, name)
  {
    hide Alternatives, DistinctKeys, WalkedTo, Patched, Shown, IndexOf, ConditionValue, ShownBefore;
    var columns, f := Alternatives(w)[i], AlternativeValue(w, i).fields;
    AlternativeFields(w, i);
    HasKey(f, name);
    if name in Meaning(w)[i] {
      var column := ColumnNamed(w, i, name);
      var j :| 0 <= j < |columns| && columns[j] == column;
      assert Keys(f)[j] == name;
    }
    var j := IndexOf(f, name);
    if j < |f| {
      ColumnShown(p, w, i, seen, columns[j]);
      MeaningAt(w, i, columns[j]);
    }
  }

  lemma WalkOn(p: Platform, w: Where, i: nat, seen: set<int>)
    requires i < |Alternatives(w)| && WalkedTo(w, i, seen)
    ensures WalkedTo(w, i + 1, Stringified(p, AlternativeValue(w, i), seen).1)
  {
    hide Alternatives, ColumnValue, DistinctKeys, Stringified, ShownBefore, FieldRefs, OfItem, OfBase, Meaning;
    var columns, v := Alternatives(w)[i], AlternativeValue(w, i);
    var after := Stringified(p, v, seen).1;
    AlternativeFields(w, i);
    AlternativeIsPatchwork(p, w, i, seen);
    SeenAfterObject(p, v, seen);
    forall r | r in after
      ensures r < 10 || OfItem(i + 1, r) || OfBase(w, i + 1, r)
    {
      if r in seen {
        EarlierIsLater(w, i, r);
      } else if r == v.ref {
        ItemIsLater(i, r);
      } else {
        var j :| 0 <= j < |v.fields| && r in FieldRefs(v.fields[j]) && IsNew(v.fields[j].value, seen + {v.ref});
        ColumnIsLater(w, i, columns[j], r);
      }
    }
    forall j | 0 <= j < |w.base| && !w.base[j].condition.Is? && ShownBefore(Meaning(w), i + 1, w.base[j].name)
      ensures 10 * j + 10 in after
    {
      if !ShownBefore(Meaning(w), i, w.base[j].name) {
        var k := BaseIsShown(w, i, j);
        assert v.fields[k].value.ref == 10 * j + 10;
      }
    }
  }

  lemma EarlierIsLater(w: Where, i: nat, r: int)
    requires i < |Alternatives(w)| && (r < 10 || OfItem(i, r) || OfBase(w, i, r))
    ensures r < 10 || OfItem(i + 1, r) || OfBase(w, i + 1, r)
  {
    hide Alternatives, Meaning;
  }

  lemma ItemIsLater(i: nat, r: int)
    requires 10 * i + 15 <= r < 10 * i + 20
    ensures OfItem(i + 1, r)
  {
    Numbered(r, i + 1, 5);
  }

  lemma ColumnIsLater(w: Where, i: nat, column: Column, r: int)
    requires i < |Alternatives(w)| && column in Alternatives(w)[i] && r in FieldRefs(ColumnValue(w, i, column))
    ensures OfItem(i + 1, r) || OfBase(w, i + 1, r)
  {
    hide Alternatives, ConditionValue, Position, Meaning;
    ConditionIsTree(column.condition, RefOf(w, i, column));
    if IsSearch(column.condition) {
      ItemIsLater(i, r);
    } else {
      BaseColumn(w, i, column);
      MeaningAt(w, i, column);
      var j := Position(w.base, column.name);
      Numbered(r, j + 1, 0);
      assert HasBase(Meaning(w), i, column.name);
    }
  }

  // A base operator that shows for the first time in the i-th alternative is one of its children.
  lemma BaseIsShown(w: Where, i: nat, j: nat) returns (k: nat)
    requires i < |Alternatives(w)| && j < |w.base| && !w.base[j].condition.Is?
    requires ShownBefore(Meaning(w), i + 1, w.base[j].name) && !ShownBefore(Meaning(w), i, w.base[j].name)
    ensures k < |Alternatives(w)[i]|
    ensures var x := ColumnValue(w, i, Alternatives(w)[i][k]).value; !x.Leaf? && x.ref == 10 * j + 10
  {
    hide Alternatives, ConditionValue, Position, Meaning;
    var name := w.base[j].name;
    assert HasBase(Meaning(w), i, name);
    var column := ColumnNamed(w, i, name);
    BaseColumn(w, i, column);
    var m := Position(w.base, name);
    SameName(w.base, m, j);
    ConditionIsTree(column.condition, 10 * j + 10);
    k :| 0 <= k < |Alternatives(w)[i]| && Alternatives(w)[i][k] == column;
  }

  // ----- The whole filter -----

  ghost predicate WhereShown(p: Platform, w: Where, r: Json) {
    var n := |Alternatives(w)|;
    if n == 1 then AlternativeShown(p, w, 0, r)
    else r.Arr? && r.ref == 0 && |r.items| == n && forall i :: 0 <= i < n ==> AlternativeShown(p, w, i, r.items[i])
  }

  lemma {:induction false} WalkItems(p: Platform, w: Where, n: nat)
    requires |Alternatives(w)| > 1 && n <= |Alternatives(w)|
    ensures var (items, after) := ItemsUpTo(p, WhereValue(w), {1}, n);
            |items| == n && WalkedTo(w, n, after) && forall i :: 0 <= i < n ==> AlternativeShown(p, w, i, items[i])
    decreases n
  {
    hide Alternatives, AlternativeShown, Stringified, WalkedTo, AlternativeValue;
    if n == 0 {
      NothingWalked(w, {1});
    } else {
      WalkItems(p, w, n - 1);
      var before := ItemsUpTo(p, WhereValue(w), {1}, n - 1).1;
      ShowAlternative(p, w, n - 1, before);
      WalkOn(p, w, n - 1, before);
    }
  }

  lemma NothingWalked(w: Where, seen: set<int>)
    requires seen <= {1}
    ensures WalkedTo(w, 0, seen)
  {
  }

  lemma ShowWhere(p: Platform, w: Where)
    ensures WhereShown(p, w, Alone(p, WhereValue(w)))
  {
    hide Alternatives, AlternativeShown, WalkedTo, AlternativeValue;
    NothingWalked(w, {});
    if |Alternatives(w)| == 1 {
      ShowAlternative(p, w, 0, {});
    } else {
      assert {} + {1} == {1};
      WalkItems(p, w, |Alternatives(w)|);
    }
  }

  // ----- What it tells -----

  ghost predicate Consistent(ms: seq<map<string, Condition>>) {
    forall i, k, name :: 0 <= i < |ms| && 0 <= k < |ms| && HasBase(ms, i, name) && HasBase(ms, k, name) ==> ms[i][name] == ms[k][name]
  }

  lemma MeaningIsConsistent(w: Where)
    ensures Consistent(Meaning(w))
  {
    hide Alternatives, Position;
    var ms := Meaning(w);
    forall i, k, name | 0 <= i < |ms| && 0 <= k < |ms| && HasBase(ms, i, name) && HasBase(ms, k, name)
      ensures ms[i][name] == ms[k][name]
    {
      var a := ColumnNamed(w, i, name);
      var b := ColumnNamed(w, k, name);
      BaseColumn(w, i, a);
      BaseColumn(w, k, b);
    }
  }

  lemma FirstShown(ms: seq<map<string, Condition>>, i: nat, name: string) returns (k: nat)
    requires i <= |ms| && ShownBefore(ms, i, name)
    ensures k < i && HasBase(ms, k, name) && !ShownBefore(ms, k, name)
  {
    k := 0;
    while !HasBase(ms, k, name)
      invariant k < i && !ShownBefore(ms, k, name)
      decreases i - k
    {
      var later :| 0 <= later < i && HasBase(ms, later, name);
      assert !ShownBefore(ms, k + 1, name);
      k := k + 1;
    }
  }

  // A cut tells as much as the place where the operator shows.
  lemma CutTells(p: Platform, ms: seq<map<string, Condition>>, ns: seq<map<string, Condition>>, i: nat, name: string)
    requires |ms| == |ns| && i < |ms| && Consistent(ms) && Consistent(ns)
    requires forall k, x :: 0 <= k < |ms| ==> ShownAt(p, ms, k, x) == ShownAt(p, ns, k, x)
    requires name in ms[i] && !ms[i][name].Is? && HasBase(ms, i, name) && ShownBefore(ms, i, name)
    ensures name in ns[i] && UndatedCondition(ns[i][name]) == UndatedCondition(ms[i][name])
  {
    hide ShownAt, UndatedCondition;
    var k := FirstShown(ms, i, name);
    assert ShownAt(p, ms, k, name) == ShownAt(p, ns, k, name);
    assert ShownAt(p, ms, i, name) == ShownAt(p, ns, i, name);
    CutAt(p, ms, ns, k, i, name);
  }

  lemma CutAt(p: Platform, ms: seq<map<string, Condition>>, ns: seq<map<string, Condition>>, k: nat, i: nat, name: string)
    requires |ms| == |ns| && k < i < |ms| && Consistent(ns)
    requires HasBase(ms, k, name) && !ShownBefore(ms, k, name) && HasBase(ms, i, name) && ShownBefore(ms, i, name)
    requires ms[k][name] == ms[i][name] && !ms[i][name].Is?
    requires ShownAt(p, ms, k, name) == ShownAt(p, ns, k, name) && ShownAt(p, ms, i, name) == ShownAt(p, ns, i, name)
    ensures name in ns[i] && UndatedCondition(ns[i][name]) == UndatedCondition(ms[i][name])
  {
    hide Shown, ShownBefore, Consistent, UndatedCondition;
    var c, d, e := ms[k][name], ns[k][name], ns[i][name];
    ShownIs(p, c, 0);
    ShownTells(p, d, c);
    SameKind(d, c);
    ShownIs(p, e, 0);
    assert HasBase(ns, k, name) && HasBase(ns, i, name);
    assert d == e by { ConsistentAt(ns, k, i, name); }
  }

  lemma ConsistentAt(ms: seq<map<string, Condition>>, i: nat, k: nat, name: string)
    requires Consistent(ms) && i < |ms| && k < |ms| && HasBase(ms, i, name) && HasBase(ms, k, name)
    ensures ms[i][name] == ms[k][name]
  {
  }

  lemma MeaningTells(p: Platform, ms: seq<map<string, Condition>>, ns: seq<map<string, Condition>>)
    requires |ms| == |ns| && Consistent(ms) && Consistent(ns)
    requires forall k, x :: 0 <= k < |ms| ==> ShownAt(p, ms, k, x) == ShownAt(p, ns, k, x)
    ensures UndatedMeaning(ms) == UndatedMeaning(ns)
  {
    hide Consistent, UndatedCondition;
    forall i | 0 <= i < |ms|
      ensures UndatedMap(ms[i]) == UndatedMap(ns[i])
    {
      forall name
        ensures name in ms[i] <==> name in ns[i]
        ensures name in ms[i] ==> UndatedCondition(ms[i][name]) == UndatedCondition(ns[i][name])
      {
        NameTells(p, ms, ns, i, name);
      }
    }
  }

  lemma NameTells(p: Platform, ms: seq<map<string, Condition>>, ns: seq<map<string, Condition>>, i: nat, name: string)
    requires |ms| == |ns| && i < |ms| && Consistent(ms) && Consistent(ns)
    requires forall k, x :: 0 <= k < |ms| ==> ShownAt(p, ms, k, x) == ShownAt(p, ns, k, x)
    ensures name in ms[i] <==> name in ns[i]
    ensures name in ms[i] ==> UndatedCondition(ms[i][name]) == UndatedCondition(ns[i][name])
  {
    hide Consistent, Shown, ShownBefore, UndatedCondition;
    assert ShownAt(p, ms, i, name) == ShownAt(p, ns, i, name);
    if name in ms[i] {
      if !ms[i][name].Is? && HasBase(ms, i, name) && ShownBefore(ms, i, name) {
        CutTells(p, ms, ns, i, name);
      } else if !ns[i][name].Is? && HasBase(ns, i, name) && ShownBefore(ns, i, name) {
        CutTells(p, ns, ms, i, name);
      } else {
        ShownTells(p, ms[i][name], ns[i][name]);
      }
    }
  }

  // Dates are not seen, whatever is cut.
  lemma ShownAtUndated(p: Platform, ms: seq<map<string, Condition>>, i: nat, name: string)
    requires i < |ms|
    ensures ShownAt(p, UndatedMeaning(ms), i, name) == ShownAt(p, ms, i, name)
  {
    hide Shown, UndatedCondition;
    var us := UndatedMeaning(ms);
    forall k | 0 <= k < |ms|
      ensures HasBase(us, k, name) <==> HasBase(ms, k, name)
    {
      if name in ms[k] {
        SameKind(UndatedCondition(ms[k][name]), ms[k][name]);
        UndatedTwice(ms[k][name]);
      }
    }
    assert ShownBefore(us, i, name) <==> ShownBefore(ms, i, name);
    hide HasBase, ShownBefore;
    if name in ms[i] {
      ShownIs(p, ms[i][name], 0);
      SameKind(UndatedCondition(ms[i][name]), ms[i][name]);
      UndatedTwice(ms[i][name]);
    }
  }

  lemma FilterTells(p: Platform, a: Where, b: Where)
    requires Alone(p, WhereValue(a)) == Alone(p, WhereValue(b))
    ensures UndatedMeaning(Meaning(a)) == UndatedMeaning(Meaning(b))
  {
    hide Alternatives, WhereValue, Alone, Meaning, ShownAt, Order, Regular;
    ShowWhere(p, a);
    ShowWhere(p, b);
    var r := Alone(p, WhereValue(a));
    forall i, name | 0 <= i < |Meaning(a)|
      ensures ShownAt(p, Meaning(a), i, name) == ShownAt(p, Meaning(b), i, name)
    {
      var x := if |Meaning(a)| == 1 then r else r.items[i];
      assert AlternativeShown(p, a, i, x) && AlternativeShown(p, b, i, x);
    }
    MeaningIsConsistent(a);
    MeaningIsConsistent(b);
    MeaningTells(p, Meaning(a), Meaning(b));
  }

  // No two columns tie.
  ghost predicate NamesTieFree(p: Platform, w: Where) {
    forall i :: 0 <= i < |Alternatives(w)| ==> OrdinaryTieFree(p, Names(Alternatives(w)[i]))
  }

  // Their columns come out in one order.
  ghost predicate SameOrder(p: Platform, a: Where, b: Where) {
    && |Alternatives(a)| == |Alternatives(b)|
    && forall i :: 0 <= i < |Alternatives(a)| ==> Order(p, Names(Alternatives(a)[i])) == Order(p, Names(Alternatives(b)[i]))
  }

  lemma TieFreeOrder(p: Platform, a: Where, b: Where)
    requires TotalPreorder(p.compare) && IndicesDiffer(p) && NamesTieFree(p, a)
    requires UndatedMeaning(Meaning(a)) == UndatedMeaning(Meaning(b))
    ensures SameOrder(p, a, b)
  {
    hide Alternatives, Meaning, OrdinaryTieFree, TotalPreorder, IndicesDiffer, Order;
    assert |Meaning(a)| == |UndatedMeaning(Meaning(a))| == |Meaning(b)|;
    forall i | 0 <= i < |Alternatives(a)|
      ensures Order(p, Names(Alternatives(a)[i])) == Order(p, Names(Alternatives(b)[i]))
    {
      SameNames(a, b, i);
      OrderIsUnique(p, Names(Alternatives(a)[i]), Names(Alternatives(b)[i]));
    }
  }

  lemma FilterFollows(p: Platform, a: Where, b: Where)
    requires SameOrder(p, a, b) && UndatedMeaning(Meaning(a)) == UndatedMeaning(Meaning(b))
    ensures Alone(p, WhereValue(a)) == Alone(p, WhereValue(b))
  {
    hide Alternatives, WhereValue, Alone, Meaning, AlternativeShown, UndatedMap, Order;
    ShowWhere(p, a);
    ShowWhere(p, b);
    assert |Meaning(a)| == |UndatedMeaning(Meaning(a))| == |Meaning(b)|;
    var r, t := Alone(p, WhereValue(a)), Alone(p, WhereValue(b));
    if |Meaning(a)| == 1 {
      AlternativeFollows(p, a, b, 0, r, t);
    } else {
      forall i | 0 <= i < |Meaning(a)|
        ensures r.items[i] == t.items[i]
      {
        AlternativeFollows(p, a, b, i, r.items[i], t.items[i]);
      }
      assert r.items == t.items;
    }
  }

  lemma AlternativeFollows(p: Platform, a: Where, b: Where, i: nat, r: Json, t: Json)
    requires i < |Alternatives(a)| && i < |Alternatives(b)|
    requires Order(p, Names(Alternatives(a)[i])) == Order(p, Names(Alternatives(b)[i]))
    requires UndatedMeaning(Meaning(a)) == UndatedMeaning(Meaning(b))
    requires AlternativeShown(p, a, i, r) && AlternativeShown(p, b, i, t)
    ensures r == t
  {
    hide Alternatives, Meaning, ShownAt, Order, Regular, Get, UndatedMap;
    forall name
      ensures Get(r.fields, name) == Get(t.fields, name)
    {
      ShownAtUndated(p, Meaning(a), i, name);
      ShownAtUndated(p, Meaning(b), i, name);
    }
    EqualFields(r.fields, t.fields);
  }

  lemma NameIsMeant(w: Where, i: nat, name: string)
    requires i < |Alternatives(w)|
    ensures name in Names(Alternatives(w)[i]) <==> name in Meaning(w)[i]
  {
    hide Alternatives;
    var columns := Alternatives(w)[i];
    if name in Names(columns) {
      var j :| 0 <= j < |columns| && Names(columns)[j] == name;
      assert columns[j] in columns;
    }
    if name in Meaning(w)[i] {
      var column := ColumnNamed(w, i, name);
      var j :| 0 <= j < |columns| && columns[j] == column;
      assert Names(columns)[j] == name;
    }
  }

  lemma SameNames(a: Where, b: Where, i: nat)
    requires i < |Alternatives(a)| && i < |Alternatives(b)| && UndatedMeaning(Meaning(a)) == UndatedMeaning(Meaning(b))
    ensures multiset(Names(Alternatives(a)[i])) == multiset(Names(Alternatives(b)[i]))
  {
    hide Alternatives, Meaning;
    assert UndatedMap(Meaning(a)[i]) == UndatedMeaning(Meaning(a))[i] == UndatedMap(Meaning(b)[i]);
    forall name
      ensures name in Names(Alternatives(a)[i]) <==> name in Names(Alternatives(b)[i])
    {
      NameIsMeant(a, i, name);
      NameIsMeant(b, i, name);
      assert name in UndatedMap(Meaning(a)[i]) <==> name in Meaning(a)[i];
      assert name in UndatedMap(Meaning(b)[i]) <==> name in Meaning(b)[i];
    }
    SameDistinct(Names(Alternatives(a)[i]), Names(Alternatives(b)[i]));
  }
}
