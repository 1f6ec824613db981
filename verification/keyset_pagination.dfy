// BaseService.listCursor: keyset pagination by (sortBy, id). A row is a map from column to value; the
// repository's findAndCount is "filter, sort, take".
module KeysetPagination {
  import opened Wrappers

  datatype Row = Row(cells: map<string, int>)

  // A cell; every row of a table has the two key columns.
  function At(row: Row, column: string): int { if column in row.cells then row.cells[column] else 0 }

  datatype Order = ASC | DESC

  datatype Cond = Is(v: int) | MoreThan(v: int) | LessThan(v: int) | Test(accepts: int -> bool)

  type Where = map<string, Cond>

  datatype CursorToken = CursorToken(key: string, order: Order, value: map<string, int>)

  predicate Meets(x: int, c: Cond) {
    match c
    case Is(v) => x == v
    case MoreThan(v) => x > v
    case LessThan(v) => x < v
    case Test(accepts) => accepts(x)
  }

  predicate Satisfies(row: Row, where: Where) {
    forall c :: c in where ==> c in row.cells && Meets(row.cells[c], where[c])
  }

  predicate SatisfiesAny(row: Row, wheres: seq<Where>) {
    exists i :: 0 <= i < |wheres| && Satisfies(row, wheres[i])
  }

  function Cmp(order: Order, v: int): Cond { if order == ASC then MoreThan(v) else LessThan(v) }

  // buildCursorBoundaryWhere: an alternative of two conjunctions; each object literal overrides the columns it names.
  function BuildCursorBoundaryWhere(where: Where, sortBy: string, idKey: string, order: Order, boundary: Option<map<string, int>>): seq<Where> {
    if boundary.None? || sortBy !in boundary.value || idKey !in boundary.value then [where]
    else
      var primaryVal, idVal := boundary.value[sortBy], boundary.value[idKey];
      [where[sortBy := Cmp(order, primaryVal)],
       where[sortBy := Is(primaryVal)][idKey := Cmp(order, idVal)]]
  }

  // Lexicographic (sortBy, id) order, ascending or descending in both columns.
  predicate Precedes(a: Row, b: Row, sortBy: string, idKey: string, order: Order) {
    if order == ASC then At(a, sortBy) < At(b, sortBy) || (At(a, sortBy) == At(b, sortBy) && At(a, idKey) < At(b, idKey))
    else At(b, sortBy) < At(a, sortBy) || (At(a, sortBy) == At(b, sortBy) && At(b, idKey) < At(a, idKey))
  }

  predicate Keyed(row: Row, sortBy: string, idKey: string) { sortBy in row.cells && idKey in row.cells }

  // A table: rows by id, each with both key columns.
  ghost predicate IsTable(table: map<int, Row>, sortBy: string, idKey: string) {
    forall id :: id in table ==> Keyed(table[id], sortBy, idKey) && At(table[id], idKey) == id
  }

  ghost predicate StrictlyOrdered(rows: seq<Row>, sortBy: string, idKey: string, order: Order) {
    forall i, j :: 0 <= i < j < |rows| ==> Precedes(rows[i], rows[j], sortBy, idKey, order)
  }

  // What findAndCount answers: the first `take` matching rows in order.
  ghost predicate IsPage(page: seq<Row>, rows: set<Row>, sortBy: string, idKey: string, order: Order, take: nat) {
    && |page| <= take
    && StrictlyOrdered(page, sortBy, idKey, order)
    && (forall r :: r in page ==> r in rows)
    && (|page| < take ==> forall r :: r in rows ==> r in page)
    && (forall r, p :: r in rows && r !in page && p in page ==> Precedes(p, r, sortBy, idKey, order))
  }

  function Matching(table: map<int, Row>, wheres: seq<Where>): set<Row> {
    set id | id in table && SatisfiesAny(table[id], wheres) :: table[id]
  }

  class Repository {
    var rows: map<int, Row>

    constructor (rows: map<int, Row>)
      ensures this.rows == rows
    {
      this.rows := rows;
    }

    // The least remaining row, again and again.
    method FindAndCount(wheres: seq<Where>, sortBy: string, idKey: string, order: Order, take: nat) returns (page: seq<Row>)
      requires IsTable(rows, sortBy, idKey)
      ensures IsPage(page, Matching(rows, wheres), sortBy, idKey, order, take)
    {
      var all := Matching(rows, wheres);
      var rest := all;
      page := [];
      while |page| < take && rest != {}
        invariant |page| <= take
        invariant rest <= all
        invariant forall r :: r in all <==> r in rest || r in page
        invariant forall r :: r in page ==> r in all
        invariant forall r, p :: r in rest && p in page ==> Precedes(p, r, sortBy, idKey, order)
        invariant StrictlyOrdered(page, sortBy, idKey, order)
        decreases |rest|
      {
        var least := LeastRow(rest, sortBy, idKey, order);
        page := page + [least];
        rest := rest - {least};
      }
    }

    method LeastRow(rows: set<Row>, sortBy: string, idKey: string, order: Order) returns (least: Row)
      requires rows != {}
      requires forall r, s :: r in rows && s in rows && r != s ==> At(r, idKey) != At(s, idKey)
      ensures least in rows
      ensures forall r :: r in rows && r != least ==> Precedes(least, r, sortBy, idKey, order)
    {
      var rest := rows;
      least :| least in rest;
      rest := rest - {least};
      while rest != {}
        invariant least in rows && least !in rest && rest <= rows
        invariant forall r :: r in rows && r !in rest && r != least ==> Precedes(least, r, sortBy, idKey, order)
        decreases |rest|
      {
        var r :| r in rest;
        rest := rest - {r};
        if Precedes(r, least, sortBy, idKey, order) {
          least := r;
        }
      }
    }
  }

  class BaseService {
    const repo: Repository
    const idKey: string

    constructor (repo: Repository, idKey: string)
      ensures this.repo == repo && this.idKey == idKey
    {
      this.repo := repo;
      this.idKey := idKey;
    }

    // One page and the token of the next one; `token` is the decoded cursor, whose order wins over the request's.
    method ListCursor(limit: nat, sortBy: string, order: Order, where: Where, token: Option<CursorToken>)
      returns (result: seq<Row>, nextCursor: Option<CursorToken>, direction: Order)
      requires IsTable(repo.rows, sortBy, idKey)
      ensures direction == (if token.Some? then token.value.order else order)
      ensures IsPage(result, Matching(repo.rows, BuildCursorBoundaryWhere(where, sortBy, idKey, direction, BoundaryOf(token))),
                     sortBy, idKey, direction, limit)
      ensures nextCursor == NextToken(result, sortBy, idKey, direction)
      ensures nextCursor.None? <==> result == []
      ensures nextCursor.Some? ==>
                var last := result[|result| - 1];
                nextCursor.value == CursorToken(sortBy, direction, map[sortBy := At(last, sortBy), idKey := At(last, idKey)])
    {
      direction := if token.Some? then token.value.order else order;
      var boundary := if token.Some? then Some(token.value.value) else None;
      var whereToUse := BuildCursorBoundaryWhere(where, sortBy, idKey, direction, boundary);
      result := repo.FindAndCount(whereToUse, sortBy, idKey, direction, limit);
      if |result| > 0 {
        var last := result[|result| - 1];
        nextCursor := Some(CursorToken(sortBy, direction, KeyOf(last, sortBy, idKey)));
      } else {
        nextCursor := None;
      }
    }
  }

  function KeyOf(row: Row, sortBy: string, idKey: string): map<string, int> {
    map[sortBy := At(row, sortBy), idKey := At(row, idKey)]
  }

  function BoundaryOf(token: Option<CursorToken>): Option<map<string, int>> {
    if token.Some? then Some(token.value.value) else None
  }

  function NextToken(page: seq<Row>, sortBy: string, idKey: string, order: Order): Option<CursorToken>
  {
    if page == [] then None else Some(CursorToken(sortBy, order, KeyOf(page[|page| - 1], sortBy, idKey)))
  }

  // A filter with one more condition, on a column that it does not name.
  lemma OneMoreCondition(where: Where, column: string, cond: Cond, row: Row)
    requires column !in where && column in row.cells
    ensures Satisfies(row, where[column := cond]) <==> Satisfies(row, where) && Meets(row.cells[column], cond)
  {
    var more := where[column := cond];
    assert forall c :: c in where ==> c in more && more[c] == where[c];
  }

  // The rewritten filter is the filter and "after the boundary", when the filter names neither key column.
  lemma BoundaryWhereIsExact(where: Where, sortBy: string, idKey: string, order: Order, last: Row, row: Row)
    requires sortBy !in where && idKey !in where
    requires Keyed(last, sortBy, idKey) && Keyed(row, sortBy, idKey)
    ensures SatisfiesAny(row, BuildCursorBoundaryWhere(where, sortBy, idKey, order, Some(KeyOf(last, sortBy, idKey)))) <==>
            Satisfies(row, where) && Precedes(last, row, sortBy, idKey, order)
  {
    var ws := BuildCursorBoundaryWhere(where, sortBy, idKey, order, Some(KeyOf(last, sortBy, idKey)));
    var level := where[sortBy := Is(At(last, sortBy))];
    var after := Cmp(order, At(last, idKey));
    assert ws == [where[sortBy := Cmp(order, At(last, sortBy))], level[idKey := after]];
    OneMoreCondition(where, sortBy, Cmp(order, At(last, sortBy)), row);
    if sortBy == idKey {
      assert level[idKey := after] == where[idKey := after];
    } else {
      OneMoreCondition(where, sortBy, Is(At(last, sortBy)), row);
      OneMoreCondition(level, idKey, after, row);
    }
    hide Satisfies;
    assert SatisfiesAny(row, ws) <==> Satisfies(row, ws[0]) || Satisfies(row, ws[1]);
  }
}
