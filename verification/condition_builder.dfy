// ConditionBuilder: the filter of a list request, and which requests get filters that differ in dates only.
module ConditionBuilder {
  import opened Wrappers
  import opened KeyOrder
  import opened StableJson
  import opened Filters
  import opened FilterTexts
  import opened PageKeys

  const REMOVED := "removed"

  // A text or a list of texts.
  datatype Choice = One(text: string) | Many(texts: seq<string>)

  datatype Dto = Dto(
    status: Option<Choice>, ids: Option<Choice>, userId: Option<string>,
    fromDate: Option<int>, toDate: Option<int>, dateFilterField: Option<string>,
    query: Option<string>, caseSensitive: Option<int>, fields: Option<Choice>)

  datatype Calendar = Calendar(startOfDay: int -> int, endOfDay: int -> int)

  // The empty text counts as absent, an empty list does not.
  predicate Given(c: Option<Choice>) { c.Some? && c.value != One("") }

  function TextOr(text: Option<string>, otherwise: string): string {
    if text.Some? && text.value != "" then text.value else otherwise
  }

  predicate NoSearch(columns: Columns) { forall c :: c in columns ==> !IsSearch(c.condition) }

  function ChoiceCondition(c: Choice): (r: Condition)
    ensures !IsSearch(r)
  {
    match c
    case One(text) => Is(text)
    case Many(texts) => In(texts)
  }

  function AddChoice(conditions: Columns, name: string, c: Option<Choice>): (r: Columns)
    requires NoSearch(conditions)
    ensures NoSearch(r)
  {
    if Given(c) then Put(conditions, name, ChoiceCondition(c.value)) else conditions
  }

  function AddUser(conditions: Columns, userId: Option<string>): (r: Columns)
    requires NoSearch(conditions)
    ensures NoSearch(r)
  {
    if TextOr(userId, "") != "" then Put(conditions, "userId", Is(userId.value)) else conditions
  }

  function DateCondition(cal: Calendar, fromDate: Option<int>, toDate: Option<int>): (c: Option<Condition>)
    ensures c.Some? ==> !IsSearch(c.value)
  {
    if fromDate.Some? && toDate.Some? then Some(Between(cal.startOfDay(fromDate.value), cal.endOfDay(toDate.value)))
    else if fromDate.Some? then Some(MoreThanOrEqual(cal.startOfDay(fromDate.value)))
    else if toDate.Some? then Some(LessThanOrEqual(cal.endOfDay(toDate.value)))
    else None
  }

  function AddDates(cal: Calendar, conditions: Columns, dto: Dto): (r: Columns)
    requires NoSearch(conditions)
    ensures NoSearch(r)
  {
    var c := DateCondition(cal, dto.fromDate, dto.toDate);
    if c.Some? then Put(conditions, TextOr(dto.dateFilterField, "createdAt"), c.value) else conditions
  }

  function SearchFields(defaultField: string, fields: Option<Choice>): seq<string> {
    if !Given(fields) then [defaultField] else match fields.value case One(text) => [text] case Many(texts) => texts
  }

  // With an empty list of fields the property that is set is the text of undefined.
  function AddSearch(conditions: Columns, dto: Dto, defaultField: string): Where
    requires NoSearch(conditions)
  {
    var query := TextOr(dto.query, "");
    if query == "" then Filter(conditions, None)
    else
      var pattern := "%" + query + "%";
      var operator := if dto.caseSensitive == Some(1) then Like(pattern) else ILike(pattern);
      var fields := SearchFields(defaultField, dto.fields);
      Filter(conditions, Some(Search(operator, if fields == [] then ["undefined"] else fields)))
  }

  function Conditions(cal: Calendar, dto: Dto): (r: Columns)
    ensures NoSearch(r)
  {
    var a := AddChoice([Column("status", Not(REMOVED))], "status", dto.status);
    var b := AddChoice(a, "id", dto.ids);
    AddDates(cal, AddUser(b, dto.userId), dto)
  }

  function Build(cal: Calendar, dto: Dto, defaultField: string): Where {
    AddSearch(Conditions(cal, dto), dto, defaultField)
  }

  // The fields a request may search; the answer is a bad request if it names any other.
  function PrepareFields(searchable: seq<string>, fields: Option<Choice>): (r: Option<seq<string>>)
    ensures fields == None || fields == Some(One("")) ==> r == Some(searchable)
    ensures forall text :: text != "" && fields == Some(One(text)) ==> r == if text in searchable then Some([text]) else None
    ensures forall texts :: fields == Some(Many(texts)) ==> r == if forall f :: f in texts ==> f in searchable then Some(texts) else None
  {
    if !Given(fields) then Some(searchable)
    else
      var asked := SearchFields("", fields);
      if forall f :: f in asked ==> f in searchable then Some(asked) else None
  }

  // ----- Which rows a request admits -----

  // The conditions of the base as a map: what is set later replaces what was set before.
  function BaseMap(cal: Calendar, dto: Dto): map<string, Condition> {
    var a := map["status" := if Given(dto.status) then ChoiceCondition(dto.status.value) else Not("removed")];
    var b := if Given(dto.ids) then a["id" := ChoiceCondition(dto.ids.value)] else a;
    var c := if TextOr(dto.userId, "") != "" then b["userId" := Is(dto.userId.value)] else b;
    var date := DateCondition(cal, dto.fromDate, dto.toDate);
    if date.Some? then c[DateColumn(dto) := date.value] else c
  }

  function DateColumn(dto: Dto): string { TextOr(dto.dateFilterField, "createdAt") }

  lemma ChoiceMap(conditions: Columns, name: string, c: Option<Choice>)
    requires NoSearch(conditions)
    ensures AsMap(AddChoice(conditions, name, c)) == if Given(c) then AsMap(conditions)[name := ChoiceCondition(c.value)] else AsMap(conditions)
  {
    hide Put, AsMap;
    if Given(c) {
      PutMap(conditions, name, ChoiceCondition(c.value));
    }
  }

  lemma UserMap(conditions: Columns, userId: Option<string>)
    requires NoSearch(conditions)
    ensures AsMap(AddUser(conditions, userId)) ==
            if TextOr(userId, "") != "" then AsMap(conditions)["userId" := Is(userId.value)] else AsMap(conditions)
  {
    hide Put, AsMap;
    if TextOr(userId, "") != "" {
      PutMap(conditions, "userId", Is(userId.value));
    }
  }

  lemma DateMap(cal: Calendar, conditions: Columns, dto: Dto)
    requires NoSearch(conditions)
    ensures var c := DateCondition(cal, dto.fromDate, dto.toDate);
            AsMap(AddDates(cal, conditions, dto)) == if c.Some? then AsMap(conditions)[DateColumn(dto) := c.value] else AsMap(conditions)
  {
    hide Put, AsMap;
    var c := DateCondition(cal, dto.fromDate, dto.toDate);
    if c.Some? {
      PutMap(conditions, DateColumn(dto), c.value);
    }
  }

  lemma BaseConditions(cal: Calendar, dto: Dto)
    ensures AsMap(Conditions(cal, dto)) == BaseMap(cal, dto)
  {
    OneColumn(Column("status", Not(REMOVED)));
    hide Put, AsMap, AddChoice, AddUser, AddDates, ChoiceCondition, DateCondition, DateColumn;
    var start: Columns := [Column("status", Not(REMOVED))];
    var a := AddChoice(start, "status", dto.status);
    var b := AddChoice(a, "id", dto.ids);
    ChoiceMap(start, "status", dto.status);
    ChoiceMap(a, "id", dto.ids);
    UserMap(b, dto.userId);
    DateMap(cal, AddUser(b, dto.userId), dto);
  }

  lemma OneColumn(column: Column)
    ensures AsMap([column]) == map[column.name := column.condition]
  {
    assert column in [column];
  }

  // The fields that a request searches.
  function Searched(dto: Dto, defaultField: string): seq<string> {
    var fields := if Given(dto.fields) then (match dto.fields.value case One(text) => [text] case Many(texts) => texts) else [defaultField];
    if TextOr(dto.query, "") == "" then [] else if fields == [] then ["undefined"] else fields
  }

  function SearchCondition(dto: Dto): Condition {
    var pattern := "%" + TextOr(dto.query, "") + "%";
    if dto.caseSensitive == Some(1) then Like(pattern) else ILike(pattern)
  }

  // The alternatives: the base, once for every searched field with its search on top, or the base alone.
  lemma BuildMeans(cal: Calendar, dto: Dto, defaultField: string)
    ensures var ms, fields := Meaning(Build(cal, dto, defaultField)), Searched(dto, defaultField);
            && |ms| == (if fields == [] then 1 else |fields|)
            && (fields == [] ==> ms[0] == BaseMap(cal, dto))
            && forall i :: 0 <= i < |fields| ==> ms[i] == BaseMap(cal, dto)[fields[i] := SearchCondition(dto)]
  {
    hide Put, AsMap, Conditions, BaseMap;
    BaseConditions(cal, dto);
    var base, fields := Conditions(cal, dto), Searched(dto, defaultField);
    forall i | 0 <= i < |fields|
      ensures AsMap(Put(base, fields[i], SearchCondition(dto))) == BaseMap(cal, dto)[fields[i] := SearchCondition(dto)]
    {
      PutMap(base, fields[i], SearchCondition(dto));
    }
  }

  // Dates and searches are about other columns than status, id and userId, and than each other.
  predicate NoClash(dto: Dto, defaultField: string) {
    && DateColumn(dto) !in {"status", "id", "userId"}
    && forall f :: f in Searched(dto, defaultField) ==> f !in {"status", "id", "userId", DateColumn(dto)}
  }

  predicate Chosen(row: map<string, Cell>, name: string, c: Choice) {
    name in row && row[name].TextCell? && if c.One? then row[name].text == c.text else row[name].text in c.texts
  }

  // The row's date is within the days of the request.
  predicate InDays(cal: Calendar, row: map<string, Cell>, dto: Dto) {
    dto.fromDate.Some? || dto.toDate.Some? ==>
      && DateColumn(dto) in row && row[DateColumn(dto)].TimeCell?
      && (dto.fromDate.Some? ==> cal.startOfDay(dto.fromDate.value) <= row[DateColumn(dto)].time)
      && (dto.toDate.Some? ==> row[DateColumn(dto)].time <= cal.endOfDay(dto.toDate.value))
  }

  // What a request asks of a row besides its search.
  predicate Wanted(cal: Calendar, row: map<string, Cell>, dto: Dto) {
    && (if Given(dto.status) then Chosen(row, "status", dto.status.value) else "status" in row && row["status"] != TextCell("removed"))
    && (Given(dto.ids) ==> Chosen(row, "id", dto.ids.value))
    && (TextOr(dto.userId, "") != "" ==> "userId" in row && row["userId"] == TextCell(dto.userId.value))
    && InDays(cal, row, dto)
  }

  predicate MatchesSearch(p: Patterns, row: map<string, Cell>, dto: Dto, field: string) {
    && field in row && row[field].TextCell?
    && var pattern := "%" + TextOr(dto.query, "") + "%";
       if dto.caseSensitive == Some(1) then p.like(pattern, row[field].text) else p.ilike(pattern, row[field].text)
  }

  // A request finds exactly the rows that it asks for, with its search in one of the searched fields.
  lemma FindsIff(p: Patterns, cal: Calendar, dto: Dto, defaultField: string, row: map<string, Cell>)
    requires NoClash(dto, defaultField)
    ensures Finds(p, row, Build(cal, dto, defaultField)) <==>
            Wanted(cal, row, dto) &&
            (TextOr(dto.query, "") == "" || exists f :: f in Searched(dto, defaultField) && MatchesSearch(p, row, dto, f))
  {
    hide Build, BaseMap, Wanted, MatchesSearch, AdmitsRow, Meaning;
    var ms, fields := Meaning(Build(cal, dto, defaultField)), Searched(dto, defaultField);
    BuildMeans(cal, dto, defaultField);
    BaseAdmits(p, cal, dto, row);
    assert fields == [] <==> TextOr(dto.query, "") == "";
    if fields == [] {
      assert ms[0] == BaseMap(cal, dto);
    } else {
      forall i | 0 <= i < |fields|
        ensures AdmitsRow(p, row, ms[i]) <==> Wanted(cal, row, dto) && MatchesSearch(p, row, dto, fields[i])
      {
        SearchAdmits(p, cal, dto, defaultField, row, fields[i]);
      }
    }
  }

  lemma BaseAdmits(p: Patterns, cal: Calendar, dto: Dto, row: map<string, Cell>)
    requires DateColumn(dto) !in {"status", "id", "userId"}
    ensures AdmitsRow(p, row, BaseMap(cal, dto)) <==> Wanted(cal, row, dto)
  {
    var m := BaseMap(cal, dto);
    var date := DateColumn(dto);
    assert AdmitsRow(p, row, m) <==>
           && AdmitsColumn(p, row, "status", m["status"])
           && ("id" in m ==> AdmitsColumn(p, row, "id", m["id"]))
           && ("userId" in m ==> AdmitsColumn(p, row, "userId", m["userId"]))
           && (date in m ==> AdmitsColumn(p, row, date, m[date]));
  }

  lemma SearchAdmits(p: Patterns, cal: Calendar, dto: Dto, defaultField: string, row: map<string, Cell>, field: string)
    requires NoClash(dto, defaultField) && field in Searched(dto, defaultField)
    ensures AdmitsRow(p, row, BaseMap(cal, dto)[field := SearchCondition(dto)]) <==>
            Wanted(cal, row, dto) && MatchesSearch(p, row, dto, field)
  {
    hide Wanted, Searched;
    BaseAdmits(p, cal, dto, row);
    var m := BaseMap(cal, dto);
    assert field !in m;
    var n := m[field := SearchCondition(dto)];
    assert forall name :: name in n <==> name in m || name == field;
    assert AdmitsColumn(p, row, field, SearchCondition(dto)) <==> MatchesSearch(p, row, dto, field);
    hide BaseMap, AdmitsColumn, MatchesSearch, SearchCondition;
    assert AdmitsRow(p, row, n) <==> AdmitsRow(p, row, m) && AdmitsColumn(p, row, field, n[field]);
  }

  // A request that does not name a status is meant to leave out what is removed. Every alternative does exactly
  // when neither the dates nor the search take the place of that condition.
  lemma RemovedLeftOutIff(cal: Calendar, dto: Dto, defaultField: string)
    requires !Given(dto.status)
    ensures (forall i :: 0 <= i < |Meaning(Build(cal, dto, defaultField))| ==>
               "status" in Meaning(Build(cal, dto, defaultField))[i] && Meaning(Build(cal, dto, defaultField))[i]["status"] == Not("removed")) <==>
            ((dto.fromDate.None? && dto.toDate.None?) || DateColumn(dto) != "status") && "status" !in Searched(dto, defaultField)
  {
    hide Build, Meaning;
    var ms, fields := Meaning(Build(cal, dto, defaultField)), Searched(dto, defaultField);
    BuildMeans(cal, dto, defaultField);
    if "status" in fields {
      var i :| 0 <= i < |fields| && fields[i] == "status";
      assert ms[i]["status"] == SearchCondition(dto);
    } else {
      forall i | 0 <= i < |ms|
        ensures "status" in ms[i] && ms[i]["status"] == BaseMap(cal, dto)["status"]
      {
      }
      assert "status" in ms[0] && ms[0]["status"] == BaseMap(cal, dto)["status"];
    }
  }

  // ----- Requests that differ in their days only -----

  // The same request for other days.
  function Redated(dto: Dto, fromDate: int, toDate: int): Dto {
    dto.(fromDate := if dto.fromDate.Some? then Some(fromDate) else None, toDate := if dto.toDate.Some? then Some(toDate) else None)
  }

  lemma {:induction false} SamePosition(a: Columns, b: Columns, name: string)
    requires Names(a) == Names(b)
    ensures Position(a, name) == Position(b, name)
  {
    var i, j := Position(a, name), Position(b, name);
    assert forall k :: 0 <= k < |a| ==> Names(a)[k] == Names(b)[k];
  }

  // Column by column the same but for dates.
  ghost predicate AlikeColumns(a: Columns, b: Columns) {
    |a| == |b| && forall i :: 0 <= i < |a| ==> a[i].name == b[i].name && UndatedCondition(a[i].condition) == UndatedCondition(b[i].condition)
  }

  lemma PutAlike(a: Columns, b: Columns, name: string, c: Condition, d: Condition)
    requires AlikeColumns(a, b) && UndatedCondition(c) == UndatedCondition(d)
    ensures AlikeColumns(Put(a, name, c), Put(b, name, d))
  {
    hide UndatedCondition, Position;
    assert Names(a) == Names(b);
    SamePosition(a, b, name);
  }

  lemma AlikeMaps(a: Columns, b: Columns)
    requires AlikeColumns(a, b)
    ensures UndatedMap(AsMap(a)) == UndatedMap(AsMap(b)) && Names(a) == Names(b)
  {
    hide UndatedCondition, AsMap;
    assert AlikeColumns(b, a);
    forall name
      ensures name in AsMap(a) <==> name in AsMap(b)
      ensures name in AsMap(a) ==> UndatedCondition(AsMap(a)[name]) == UndatedCondition(AsMap(b)[name])
    {
      if name in AsMap(a) {
        AlikeAt(a, b, name);
      }
      if name in AsMap(b) {
        AlikeAt(b, a, name);
      }
    }
  }

  lemma AlikeAt(a: Columns, b: Columns, name: string)
    requires AlikeColumns(a, b) && name in AsMap(a)
    ensures name in AsMap(b) && UndatedCondition(AsMap(a)[name]) == UndatedCondition(AsMap(b)[name])
  {
    hide UndatedCondition;
    var i :| 0 <= i < |a| && a[i].name == name;
    assert a[i] in a && b[i] in b;
    assert AsMap(a)[name] == a[i].condition && AsMap(b)[name] == b[i].condition;
  }

  lemma AlikeFilters(a: Where, b: Where)
    requires AlikeColumns(a.base, b.base) && a.search == b.search
    ensures UndatedMeaning(Meaning(a)) == UndatedMeaning(Meaning(b)) && |Alternatives(a)| == |Alternatives(b)|
    ensures forall i :: 0 <= i < |Alternatives(a)| ==> Names(Alternatives(a)[i]) == Names(Alternatives(b)[i])
  {
    hide UndatedCondition, AsMap, UndatedMap, Put;
    forall i | 0 <= i < |Alternatives(a)|
      ensures UndatedMap(Meaning(a)[i]) == UndatedMap(Meaning(b)[i]) && Names(Alternatives(a)[i]) == Names(Alternatives(b)[i])
    {
      if a.search.Some? {
        var (operator, name) := (a.search.value.operator, a.search.value.fields[i]);
        PutAlike(a.base, b.base, name, operator, operator);
      }
      AlikeMaps(Alternatives(a)[i], Alternatives(b)[i]);
    }
  }

  lemma ConditionsAlike(cal: Calendar, dto: Dto, fromDate: int, toDate: int)
    ensures AlikeColumns(Conditions(cal, dto), Conditions(cal, Redated(dto, fromDate, toDate)))
  {
    hide Put;
    var columns := AddUser(AddChoice(AddChoice([Column("status", Not(REMOVED))], "status", dto.status), "id", dto.ids), dto.userId);
    var c := DateCondition(cal, dto.fromDate, dto.toDate);
    if c.Some? {
      var other := Redated(dto, fromDate, toDate);
      PutAlike(columns, columns, TextOr(dto.dateFilterField, "createdAt"), c.value, DateCondition(cal, other.fromDate, other.toDate).value);
    }
  }

  // Whatever a request asks for, the same request for other days has the same key.
  lemma RedatedSharesKey(p: Platform, text: Json -> string, cal: Calendar, dto: Dto, defaultField: string, q: Query, s: Shape,
                         fromDate: int, toDate: int)
    requires q.where == Build(cal, dto, defaultField)
    ensures var other := q.(where := Build(cal, Redated(dto, fromDate, toDate), defaultField));
            && UndatedAsked(q) == UndatedAsked(other)
            && PageText(p, text, q, s) == PageText(p, text, other, s)
  {
    hide PageText, Alternatives, Meaning, Conditions, UndatedMeaning, Order;
    ConditionsAlike(cal, dto, fromDate, toDate);
    var other := q.(where := Build(cal, Redated(dto, fromDate, toDate), defaultField));
    AlikeFilters(q.where, other.where);
    assert SameOrder(p, q.where, other.where);
    KeyFollows(p, text, q, s, other, s);
  }
}
