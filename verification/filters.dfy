// The filter of a list request as the query builder makes it and as the database reads it: conditions on columns,
// in one object or in a list of alternatives.
module Filters {
  import opened Wrappers
  import opened KeyOrder

  // ----- Conditions -----

  datatype Condition =
    | Is(text: string)
    | Not(text: string)
    | In(texts: seq<string>)
    | Between(from: int, to: int)
    | MoreThanOrEqual(from: int)
    | LessThanOrEqual(to: int)
    | Like(text: string)
    | ILike(text: string)

  predicate IsSearch(c: Condition) { c.Like? || c.ILike? }

  // Without its dates.
  function UndatedCondition(c: Condition): Condition {
    match c
    case Between(_, _) => Between(0, 0)
    case MoreThanOrEqual(_) => MoreThanOrEqual(0)
    case LessThanOrEqual(_) => LessThanOrEqual(0)
    case _ => c
  }

  // ----- Filters -----

  datatype Column = Column(name: string, condition: Condition)

  function Names(columns: seq<Column>): (names: seq<string>)
    ensures |names| == |columns| && forall i :: 0 <= i < |columns| ==> names[i] == columns[i].name
  {
    seq(|columns|, i requires 0 <= i < |columns| => columns[i].name)
  }

  // An object of conditions: no column twice.
  type Columns = columns: seq<Column> | DistinctKeys(Names(columns)) witness []

  function Position(columns: seq<Column>, name: string): (i: nat)
    ensures i <= |columns| && (i < |columns| ==> columns[i].name == name)
    ensures forall j :: 0 <= j < i ==> columns[j].name != name
  {
    if columns == [] || columns[0].name == name then 0 else 1 + Position(columns[1..], name)
  }

  // Setting a property replaces it in place or adds it at the end.
  function Put(columns: Columns, name: string, condition: Condition): (r: Columns)
    ensures forall c :: c in r ==> c in columns || c == Column(name, condition)
    ensures Column(name, condition) in r
    ensures forall c :: c in columns && c.name != name ==> c in r
  {
    var i := Position(columns, name);
    var r := if i < |columns| then columns[i := Column(name, condition)] else columns + [Column(name, condition)];
    assert forall j :: 0 <= j < |columns| && columns[j].name != name ==> r[j] == columns[j];
    assert i == |columns| ==> forall j :: 0 <= j < |columns| ==> r[j] == columns[j];
    assert r[i] == Column(name, condition);
    assert DistinctKeys(Names(r));
    r
  }

  // Search fields beyond the first turn the filter into a list of alternatives, each with all the conditions and
  // its own search operator.
  datatype Search = Search(operator: Condition, fields: seq<string>)

  datatype Filter = Filter(base: Columns, search: Option<Search>)

  predicate ProperFilter(w: Filter) {
    && (forall c :: c in w.base ==> !IsSearch(c.condition))
    && (w.search.Some? ==> IsSearch(w.search.value.operator) && w.search.value.fields != [])
  }

  type Where = w: Filter | ProperFilter(w) witness Filter([], None)

  function Alternatives(w: Where): (r: seq<Columns>)
    ensures |r| > 0
  {
    if w.search.None? then [w.base]
    else
      var (operator, fields) := (w.search.value.operator, w.search.value.fields);
      seq(|fields|, i requires 0 <= i < |fields| => Put(w.base, fields[i], operator))
  }

  // What the database makes of a filter: the order of columns is nothing to it.
  function AsMap(columns: Columns): map<string, Condition> {
    map c | c in columns :: c.name := c.condition
  }

  function Meaning(w: Where): (ms: seq<map<string, Condition>>)
    ensures |ms| == |Alternatives(w)|
  {
    seq(|Alternatives(w)|, i requires 0 <= i < |Alternatives(w)| => AsMap(Alternatives(w)[i]))
  }

  lemma PositionOf(columns: Columns, column: Column)
    requires column in columns
    ensures Position(columns, column.name) < |columns| && columns[Position(columns, column.name)] == column
  {
    hide Position, DistinctKeys;
    var j :| 0 <= j < |columns| && columns[j] == column;
    SameName(columns, Position(columns, column.name), j);
  }

  lemma SameName(columns: Columns, j: nat, k: nat)
    requires j < |columns| && k < |columns| && columns[j].name == columns[k].name
    ensures j == k
  {
    assert Names(columns)[j] == Names(columns)[k];
  }

  lemma NamesDiffer(columns: Columns, j: nat, k: nat)
    requires j < k < |columns|
    ensures columns[j].name != columns[k].name
  {
    assert Names(columns)[j] != Names(columns)[k];
  }

  // ----- Without dates -----

  lemma SameKind(c: Condition, d: Condition)
    ensures UndatedCondition(c) == UndatedCondition(d) ==> (c.Is? <==> d.Is?) && (IsSearch(c) <==> IsSearch(d))
  {
  }

  function UndatedMap(m: map<string, Condition>): map<string, Condition> {
    map name | name in m :: UndatedCondition(m[name])
  }

  function UndatedMeaning(ms: seq<map<string, Condition>>): seq<map<string, Condition>> {
    seq(|ms|, i requires 0 <= i < |ms| => UndatedMap(ms[i]))
  }

  lemma UndatedTwice(c: Condition)
    ensures UndatedCondition(UndatedCondition(c)) == UndatedCondition(c)
  {
  }

  // ----- Which rows a filter admits -----

  datatype Cell = TextCell(text: string) | TimeCell(time: int)

  // `like` and `ilike` are the pattern matches of the database.
  datatype Patterns = Patterns(like: (string, string) -> bool, ilike: (string, string) -> bool)

  predicate Admits(p: Patterns, cell: Cell, c: Condition) {
    match c
    case Is(text) => cell == TextCell(text)
    case Not(text) => cell != TextCell(text)
    case In(texts) => cell.TextCell? && cell.text in texts
    case Between(from, to) => cell.TimeCell? && from <= cell.time <= to
    case MoreThanOrEqual(from) => cell.TimeCell? && from <= cell.time
    case LessThanOrEqual(to) => cell.TimeCell? && cell.time <= to
    case Like(text) => cell.TextCell? && p.like(text, cell.text)
    case ILike(text) => cell.TextCell? && p.ilike(text, cell.text)
  }

  predicate AdmitsColumn(p: Patterns, row: map<string, Cell>, name: string, c: Condition) { name in row && Admits(p, row[name], c) }

  predicate AdmitsRow(p: Patterns, row: map<string, Cell>, conditions: map<string, Condition>) {
    forall name :: name in conditions ==> AdmitsColumn(p, row, name, conditions[name])
  }

  predicate Finds(p: Patterns, row: map<string, Cell>, w: Where) {
    exists i :: 0 <= i < |Meaning(w)| && AdmitsRow(p, row, Meaning(w)[i])
  }

  lemma PutMap(columns: Columns, name: string, c: Condition)
    ensures AsMap(Put(columns, name, c)) == AsMap(columns)[name := c]
  {
    hide Position, DistinctKeys;
    var r := Put(columns, name, c);
    forall k
      ensures k in AsMap(r) <==> k in AsMap(columns) || k == name
      ensures k in AsMap(r) ==> AsMap(r)[k] == if k == name then c else AsMap(columns)[k]
    {
      PutAt(columns, name, c, k);
    }
  }

  lemma MapAt(columns: Columns, column: Column)
    requires column in columns
    ensures column.name in AsMap(columns) && AsMap(columns)[column.name] == column.condition
  {
  }

  lemma PutAt(columns: Columns, name: string, c: Condition, k: string)
    ensures var m := AsMap(Put(columns, name, c));
            && (k in m <==> k in AsMap(columns) || k == name)
            && (k in m ==> m[k] == if k == name then c else AsMap(columns)[k])
  {
    var r := Put(columns, name, c);
    hide Put;
    MapAt(r, Column(name, c));
    if k != name {
      if k in AsMap(columns) {
        var column :| column in columns && column.name == k;
        MapAt(columns, column);
        MapAt(r, column);
      }
      if k in AsMap(r) {
        var column :| column in r && column.name == k;
        MapAt(r, column);
        MapAt(columns, column);
      }
    }
  }
}
