// Walks with BaseService.listCursor: page after page, each from the token of the page before, over a table
// that other callers may change between two pages.
module CursorWalk {
  import opened Wrappers
  import opened KeysetPagination
  import opened CursorBoundary

  datatype Query = Query(where: Where, sortBy: string, idKey: string, order: Order, take: nat)

  type Table = map<int, Row>

  // A condition on the sort column that holds of every later value once it holds: "from", walking up, or "to",
  // walking down. No condition is one.
  ghost predicate Closed(q: Query) {
    forall v, later :: Allows(q.where, q.sortBy, v) && Meets(later, Cmp(q.order, v)) ==> Allows(q.where, q.sortBy, later)
  }

  // The filter does not name the id, its condition on the sort column is closed in the walk's direction, and a
  // page has room for a row.
  ghost predicate Walkable(q: Query) {
    q.take > 0 && q.idKey !in q.where && Closed(q)
  }

  // The token that page k is asked with.
  function TokenFor(q: Query, pages: seq<seq<Row>>, k: nat): Option<CursorToken>
    requires k <= |pages|
  {
    if k == 0 then None else NextToken(pages[k - 1], q.sortBy, q.idKey, q.order)
  }

  // The direction of a page: its token's, if it has one.
  function Direction(q: Query, token: Option<CursorToken>): Order { if token.Some? then token.value.order else q.order }

  // What ListCursor ensures of one page.
  ghost predicate Answers(q: Query, table: Table, token: Option<CursorToken>, page: seq<Row>) {
    IsPage(page, Matching(table, BuildCursorBoundaryWhere(q.where, q.sortBy, q.idKey, Direction(q, token), BoundaryOf(token))),
           q.sortBy, q.idKey, Direction(q, token), q.take)
  }

  // tables[k] is the table when page k is read; only the last page may be empty.
  ghost predicate IsWalk(q: Query, tables: seq<Table>, pages: seq<seq<Row>>) {
    && |tables| == |pages|
    && (forall k :: 0 <= k < |pages| ==> IsTable(tables[k], q.sortBy, q.idKey))
    && (forall k :: 0 <= k < |pages| ==> Answers(q, tables[k], TokenFor(q, pages, k), pages[k]))
    && (forall k :: 0 <= k < |pages| - 1 ==> pages[k] != [])
  }

  predicate Ended(pages: seq<seq<Row>>) { |pages| > 0 && pages[|pages| - 1] == [] }

  function Concat(pages: seq<seq<Row>>): seq<Row> {
    if pages == [] then [] else Concat(pages[..|pages| - 1]) + pages[|pages| - 1]
  }

  // A row's sort column never changes while the row exists (its id is its key).
  ghost predicate KeysFixed(q: Query, tables: seq<Table>) {
    forall k, l, id :: 0 <= k < |tables| && 0 <= l < |tables| && id in tables[k] && id in tables[l] ==>
      At(tables[k][id], q.sortBy) == At(tables[l][id], q.sortBy)
  }

  ghost predicate MatchesThroughout(q: Query, tables: seq<Table>, id: int) {
    forall k :: 0 <= k < |tables| ==> id in tables[k] && Satisfies(tables[k][id], q.where)
  }

  predicate Before(q: Query, a: Row, b: Row) { Precedes(a, b, q.sortBy, q.idKey, q.order) }

  // ----- One page -----

  predicate HasRow(table: Table, r: Row, idKey: string) { At(r, idKey) in table && table[At(r, idKey)] == r }

  // The rows a page may hold: in the table, in the filter, behind the boundary row.
  predicate Eligible(q: Query, table: Table, after: Option<Row>, r: Row) {
    HasRow(table, r, q.idKey) && Satisfies(r, q.where) && (after.Some? ==> Before(q, after.value, r))
  }

  // The page is the first `take` eligible rows in order.
  ghost predicate PageAfter(q: Query, table: Table, after: Option<Row>, page: seq<Row>) {
    && StrictlyOrdered(page, q.sortBy, q.idKey, q.order)
    && |page| <= q.take
    && (forall r :: r in page ==> Eligible(q, table, after, r) && Keyed(r, q.sortBy, q.idKey))
    && (forall r {:trigger Eligible(q, table, after, r)} :: Eligible(q, table, after, r) && r !in page ==> page != [] && |page| == q.take && Before(q, page[|page| - 1], r))
  }

  lemma FirstPage(q: Query, table: Table, page: seq<Row>)
    requires Walkable(q) && IsTable(table, q.sortBy, q.idKey) && Answers(q, table, None, page)
    ensures PageAfter(q, table, None, page)
  {
    var rows := Matching(table, [q.where]);
    forall r
      ensures r in rows <==> Eligible(q, table, None, r)
    {
      assert SatisfiesAny(r, [q.where]) <==> Satisfies(r, q.where) by {
        assert [q.where][0] == q.where;
      }
    }
    PageOfRows(q, table, None, rows, page);
  }

  // Behind a row of the filter the rewritten filter is the filter and "behind that row".
  lemma BoundaryIsFilter(q: Query, last: Row, row: Row)
    requires Walkable(q) && Keyed(last, q.sortBy, q.idKey) && Satisfies(last, q.where) && Keyed(row, q.sortBy, q.idKey)
    ensures SatisfiesAny(row, BuildCursorBoundaryWhere(q.where, q.sortBy, q.idKey, q.order, Some(KeyOf(last, q.sortBy, q.idKey)))) <==>
            Satisfies(row, q.where) && Before(q, last, row)
  {
    if q.sortBy == q.idKey || q.sortBy !in q.where {
      BoundaryWhereIsExact(q.where, q.sortBy, q.idKey, q.order, last, row);
    } else {
      assert Satisfies(last, q.where - {q.sortBy, q.idKey});
      assert Allows(q.where, q.sortBy, At(last, q.sortBy));
      BoundaryKeepsFilterIff(q.where, q.sortBy, q.idKey, q.order, last, last);
    }
  }

  lemma NextPage(q: Query, table: Table, last: Row, page: seq<Row>)
    requires Walkable(q) && IsTable(table, q.sortBy, q.idKey) && Keyed(last, q.sortBy, q.idKey) && Satisfies(last, q.where)
    requires Answers(q, table, NextToken([last], q.sortBy, q.idKey, q.order), page)
    ensures PageAfter(q, table, Some(last), page)
  {
    var wheres := BuildCursorBoundaryWhere(q.where, q.sortBy, q.idKey, q.order, Some(KeyOf(last, q.sortBy, q.idKey)));
    var rows := Matching(table, wheres);
    forall r
      ensures r in rows <==> Eligible(q, table, Some(last), r)
    {
      if HasRow(table, r, q.idKey) {
        BoundaryIsFilter(q, last, r);
      }
    }
    PageOfRows(q, table, Some(last), rows, page);
  }

  lemma PageOfRows(q: Query, table: Table, after: Option<Row>, rows: set<Row>, page: seq<Row>)
    requires q.take > 0 && IsTable(table, q.sortBy, q.idKey)
    requires forall r :: r in rows <==> Eligible(q, table, after, r)
    requires IsPage(page, rows, q.sortBy, q.idKey, q.order, q.take)
    ensures PageAfter(q, table, after, page)
  {
    forall r | Eligible(q, table, after, r) && r !in page
      ensures page != [] && |page| == q.take && Before(q, page[|page| - 1], r)
    {
      assert r in rows;
      assert |page| == q.take;
      assert page[|page| - 1] in page;
    }
  }

  // ----- The whole walk -----

  function Last(page: seq<Row>): Row
    requires page != []
  {
    page[|page| - 1]
  }

  // The row that page k starts behind.
  function After(pages: seq<seq<Row>>, k: nat): Option<Row>
    requires k <= |pages|
  {
    if k == 0 || pages[k - 1] == [] then None else Some(Last(pages[k - 1]))
  }

  // The same walk, told by boundary rows instead of tokens and rewritten filters.
  ghost predicate Steps(q: Query, tables: seq<Table>, pages: seq<seq<Row>>) {
    && |tables| == |pages|
    && (forall k :: 0 <= k < |pages| - 1 ==> pages[k] != [])
    && (forall k :: 0 <= k < |pages| ==> PageAfter(q, tables[k], After(pages, k), pages[k]))
  }

  lemma {:induction false} WalkStep(q: Query, tables: seq<Table>, pages: seq<seq<Row>>, k: nat)
    requires Walkable(q) && IsWalk(q, tables, pages) && k < |pages|
    ensures PageAfter(q, tables[k], After(pages, k), pages[k])
    decreases k
  {
    hide PageAfter, Answers, NextToken, IsTable;
    assert Answers(q, tables[k], TokenFor(q, pages, k), pages[k]);
    if k == 0 {
      FirstPage(q, tables[0], pages[0]);
    } else {
      WalkStep(q, tables, pages, k - 1);
      var last := Last(pages[k - 1]);
      assert last in pages[k - 1];
      PageRowsKeyed(q, tables[k - 1], After(pages, k - 1), pages[k - 1], last);
      SameToken(q, pages[k - 1]);
      NextPage(q, tables[k], last, pages[k]);
    }
  }

  lemma SameToken(q: Query, page: seq<Row>)
    requires page != []
    ensures NextToken(page, q.sortBy, q.idKey, q.order) == NextToken([Last(page)], q.sortBy, q.idKey, q.order)
  {
  }

  lemma PageRowsKeyed(q: Query, table: Table, after: Option<Row>, page: seq<Row>, r: Row)
    requires PageAfter(q, table, after, page) && r in page
    ensures Keyed(r, q.sortBy, q.idKey) && Satisfies(r, q.where)
  {
  }

  lemma AllSteps(q: Query, tables: seq<Table>, pages: seq<seq<Row>>)
    requires Walkable(q) && IsWalk(q, tables, pages)
    ensures Steps(q, tables, pages)
  {
    forall k | 0 <= k < |pages|
      ensures PageAfter(q, tables[k], After(pages, k), pages[k])
    {
      WalkStep(q, tables, pages, k);
    }
  }

  // Every row of a page was in the table then and met the filter.
  lemma PageRowsMatch(q: Query, tables: seq<Table>, pages: seq<seq<Row>>, k: nat, r: Row)
    requires Steps(q, tables, pages) && k < |pages| && r in pages[k]
    ensures HasRow(tables[k], r, q.idKey) && Satisfies(r, q.where)
    ensures k > 0 ==> Before(q, Last(pages[k - 1]), r)
  {
    assert PageAfter(q, tables[k], After(pages, k), pages[k]);
  }

  lemma ConcatHas(pages: seq<seq<Row>>, k: nat, r: Row)
    requires k < |pages| && r in pages[k]
    ensures r in Concat(pages)
  {
    if k < |pages| - 1 {
      ConcatHas(pages[..|pages| - 1], k, r);
    }
  }

  lemma ConcatFrom(pages: seq<seq<Row>>, r: Row) returns (k: nat)
    requires r in Concat(pages)
    ensures k < |pages| && r in pages[k]
  {
    if r in pages[|pages| - 1] {
      k := |pages| - 1;
    } else {
      k := ConcatFrom(pages[..|pages| - 1], r);
    }
  }

  lemma JoinOrdered(q: Query, a: seq<Row>, b: seq<Row>)
    requires StrictlyOrdered(a, q.sortBy, q.idKey, q.order) && StrictlyOrdered(b, q.sortBy, q.idKey, q.order)
    requires a != [] ==> forall r :: r in b ==> Before(q, Last(a), r)
    ensures StrictlyOrdered(a + b, q.sortBy, q.idKey, q.order)
  {
    var s := a + b;
    forall i, j | 0 <= i < j < |s|
      ensures Before(q, s[i], s[j])
    {
      if i < |a| <= j {
        assert s[j] in b && Before(q, Last(a), s[j]);
        assert i < |a| - 1 ==> Before(q, a[i], Last(a));
      }
    }
  }

  lemma StepsPrefix(q: Query, tables: seq<Table>, pages: seq<seq<Row>>, n: nat)
    requires Steps(q, tables, pages) && n <= |pages|
    ensures Steps(q, tables[..n], pages[..n])
  {
    forall k | 0 <= k < n
      ensures PageAfter(q, tables[..n][k], After(pages[..n], k), pages[..n][k])
    {
      assert After(pages[..n], k) == After(pages, k);
    }
  }

  // The last page of some steps: ordered, and behind the page before it.
  lemma LastStep(q: Query, tables: seq<Table>, pages: seq<seq<Row>>, n: nat)
    requires Steps(q, tables, pages) && n + 1 == |pages|
    ensures |tables| == |pages| && StrictlyOrdered(pages[n], q.sortBy, q.idKey, q.order)
    ensures n > 0 ==> pages[n - 1] != [] && forall r :: r in pages[n] ==> Before(q, Last(pages[n - 1]), r)
  {
    assert PageAfter(q, tables[n], After(pages, n), pages[n]);
  }

  lemma LastOfConcat(pages: seq<seq<Row>>, n: nat)
    requires n + 1 == |pages| && (n > 0 ==> pages[n - 1] != [])
    ensures Concat(pages) == Concat(pages[..n]) + pages[n]
    ensures Concat(pages[..n]) != [] ==> n > 0 && Last(Concat(pages[..n])) == Last(pages[n - 1])
  {
    var front := Concat(pages[..n]);
    assert Concat(pages) == front + pages[n];
    if n > 0 {
      var head, last := Concat(pages[..n][..n - 1]), pages[n - 1];
      assert front == head + last;
      hide Concat;
      assert front[|front| - 1] == last[|last| - 1];
    }
  }

  lemma {:induction false} StepsAreOrdered(q: Query, tables: seq<Table>, pages: seq<seq<Row>>)
    requires Steps(q, tables, pages)
    ensures StrictlyOrdered(Concat(pages), q.sortBy, q.idKey, q.order)
    decreases |pages|
  {
    if pages != [] {
      hide Steps, PageAfter, StrictlyOrdered, Before;
      var n := |pages| - 1;
      LastStep(q, tables, pages, n);
      StepsPrefix(q, tables, pages, n);
      StepsAreOrdered(q, tables[..n], pages[..n]);
      LastOfConcat(pages, n);
      JoinOrdered(q, Concat(pages[..n]), pages[n]);
    }
  }

  // The pages of any walk, one after the other, are in strict (sortBy, id) order, whatever happened to the
  // table, and hold only rows that were in the table and met the filter when they were read.
  lemma WalkIsOrdered(q: Query, tables: seq<Table>, pages: seq<seq<Row>>)
    requires Walkable(q) && IsWalk(q, tables, pages)
    ensures StrictlyOrdered(Concat(pages), q.sortBy, q.idKey, q.order)
    ensures forall k, r :: 0 <= k < |pages| && r in pages[k] ==> HasRow(tables[k], r, q.idKey) && Satisfies(r, q.where)
  {
    AllSteps(q, tables, pages);
    StepsAreOrdered(q, tables, pages);
    forall k, r | 0 <= k < |pages| && r in pages[k]
      ensures HasRow(tables[k], r, q.idKey) && Satisfies(r, q.where)
    {
      PageRowsMatch(q, tables, pages, k, r);
    }
  }

  // In terms of cells: going up, a later row has a larger value in the sort column, or the same and a larger id;
  // going down, a smaller one.
  lemma WalkGoesOneWay(q: Query, tables: seq<Table>, pages: seq<seq<Row>>, i: nat, j: nat)
    requires Walkable(q) && IsWalk(q, tables, pages) && i < j < |Concat(pages)|
    ensures var a, b := Concat(pages)[i].cells, Concat(pages)[j].cells;
            && q.sortBy in a && q.sortBy in b && q.idKey in a && q.idKey in b
            && (q.order == ASC ==> a[q.sortBy] < b[q.sortBy] || (a[q.sortBy] == b[q.sortBy] && a[q.idKey] < b[q.idKey]))
            && (q.order == DESC ==> a[q.sortBy] > b[q.sortBy] || (a[q.sortBy] == b[q.sortBy] && a[q.idKey] > b[q.idKey]))
  {
    var all := Concat(pages);
    WalkIsOrdered(q, tables, pages);
    AllSteps(q, tables, pages);
    var k := ConcatFrom(pages, all[i]);
    var l := ConcatFrom(pages, all[j]);
    PageRowsKeyed(q, tables[k], After(pages, k), pages[k], all[i]);
    PageRowsKeyed(q, tables[l], After(pages, l), pages[l], all[j]);
  }

  // A row meets a filter when it has every column that the filter names, with a value that its condition takes.
  lemma FilterMeans(row: Row, where: Where)
    ensures Satisfies(row, where) <==>
            forall column :: column in where ==>
              column in row.cells &&
              match where[column] {
                case Is(v) => row.cells[column] == v
                case MoreThan(v) => v < row.cells[column]
                case LessThan(v) => row.cells[column] < v
                case Test(accepts) => accepts(row.cells[column])
              }
  {
  }

  // No row is returned twice, in any state it had.
  lemma NoRowTwice(q: Query, tables: seq<Table>, pages: seq<seq<Row>>, i: nat, j: nat)
    requires Walkable(q) && IsWalk(q, tables, pages) && KeysFixed(q, tables)
    requires i < |Concat(pages)| && j < |Concat(pages)|
    requires At(Concat(pages)[i], q.idKey) == At(Concat(pages)[j], q.idKey)
    ensures i == j
  {
    var all := Concat(pages);
    WalkIsOrdered(q, tables, pages);
    var k := ConcatFrom(pages, all[i]);
    var l := ConcatFrom(pages, all[j]);
    assert HasRow(tables[k], all[i], q.idKey) && HasRow(tables[l], all[j], q.idKey);
    assert At(all[i], q.sortBy) == At(all[j], q.sortBy);
    NotInOrder(q, all, i, j);
    NotInOrder(q, all, j, i);
  }

  lemma NotInOrder(q: Query, all: seq<Row>, i: nat, j: nat)
    requires StrictlyOrdered(all, q.sortBy, q.idKey, q.order) && i < |all| && j < |all|
    requires !Before(q, all[i], all[j])
    ensures i >= j
  {
  }

  predicate Returned(q: Query, pages: seq<seq<Row>>, id: int) {
    exists r :: r in Concat(pages) && At(r, q.idKey) == id
  }

  lemma ReturnedOnPage(q: Query, pages: seq<seq<Row>>, k: nat, r: Row)
    requires k < |pages| && r in pages[k]
    ensures Returned(q, pages, At(r, q.idKey))
  {
    ConcatHas(pages, k, r);
  }

  // An eligible row is on the page or behind its last row.
  lemma OnPageOrBehind(q: Query, table: Table, after: Option<Row>, page: seq<Row>, r: Row)
    requires PageAfter(q, table, after, page) && Eligible(q, table, after, r)
    ensures r in page || (page != [] && Before(q, Last(page), r))
  {
  }

  // The row of one id on two occasions: in the filter both times, at the same place.
  lemma SamePlace(q: Query, tables: seq<Table>, id: int, k: nat, l: nat, last: Row)
    requires KeysFixed(q, tables) && MatchesThroughout(q, tables, id) && k < |tables| && l < |tables|
    requires IsTable(tables[k], q.sortBy, q.idKey) && IsTable(tables[l], q.sortBy, q.idKey)
    ensures id in tables[k] && id in tables[l]
    ensures HasRow(tables[l], tables[l][id], q.idKey) && Satisfies(tables[l][id], q.where) && At(tables[l][id], q.idKey) == id
    ensures Before(q, last, tables[k][id]) <==> Before(q, last, tables[l][id])
  {
    assert At(tables[k][id], q.sortBy) == At(tables[l][id], q.sortBy);
  }

  // A row that matches throughout is on page k or one before, or page k's last row comes before it.
  lemma {:induction false} NotSkipped(q: Query, tables: seq<Table>, pages: seq<seq<Row>>, id: int, k: nat)
    requires Steps(q, tables, pages) && KeysFixed(q, tables)
    requires forall l :: 0 <= l < |tables| ==> IsTable(tables[l], q.sortBy, q.idKey)
    requires MatchesThroughout(q, tables, id) && k < |pages|
    ensures id in tables[k]
    ensures Returned(q, pages, id) || (pages[k] != [] && Before(q, Last(pages[k]), tables[k][id]))
    decreases k
  {
    hide PageAfter, Before, Returned, KeysFixed, MatchesThroughout, IsTable, HasRow, Satisfies;
    if k == 0 {
      SamePlace(q, tables, id, 0, 0, Row(map[]));
    } else {
      NotSkipped(q, tables, pages, id, k - 1);
      if pages[k - 1] != [] {
        SamePlace(q, tables, id, k - 1, k, Last(pages[k - 1]));
      }
    }
    if !Returned(q, pages, id) {
      var r := tables[k][id];
      OnPageOrBehind(q, tables[k], After(pages, k), pages[k], r);
      if r in pages[k] {
        ReturnedOnPage(q, pages, k, r);
      }
    }
  }

  lemma ReturnedInTheEnd(q: Query, tables: seq<Table>, pages: seq<seq<Row>>, id: int)
    requires Walkable(q) && IsWalk(q, tables, pages) && Ended(pages) && KeysFixed(q, tables)
    requires MatchesThroughout(q, tables, id)
    ensures Returned(q, pages, id)
  {
    hide PageAfter, Answers, Returned, KeysFixed, MatchesThroughout, IsTable, Steps;
    AllSteps(q, tables, pages);
    NotSkipped(q, tables, pages, id, |pages| - 1);
  }

  // Completeness and uniqueness: a row that is there and matches throughout is returned exactly once.
  lemma PresentRowsExactlyOnce(q: Query, tables: seq<Table>, pages: seq<seq<Row>>, id: int)
    requires Walkable(q) && IsWalk(q, tables, pages) && Ended(pages) && KeysFixed(q, tables)
    requires MatchesThroughout(q, tables, id)
    ensures exists i :: 0 <= i < |Concat(pages)| && At(Concat(pages)[i], q.idKey) == id &&
              forall j :: 0 <= j < |Concat(pages)| && At(Concat(pages)[j], q.idKey) == id ==> j == i
  {
    ReturnedInTheEnd(q, tables, pages, id);
    var r :| r in Concat(pages) && At(r, q.idKey) == id;
    var i :| 0 <= i < |Concat(pages)| && Concat(pages)[i] == r;
    forall j | 0 <= j < |Concat(pages)| && At(Concat(pages)[j], q.idKey) == id
      ensures j == i
    {
      NoRowTwice(q, tables, pages, i, j);
    }
  }

  // ----- A table nobody changes -----

  ghost predicate Constant(table: Table, tables: seq<Table>) { forall k :: 0 <= k < |tables| ==> tables[k] == table }

  // What one unbounded findAndCount with the same filter and order would answer.
  ghost predicate IsWholeAnswer(q: Query, table: Table, all: seq<Row>) {
    && StrictlyOrdered(all, q.sortBy, q.idKey, q.order)
    && forall r :: r in all <==> Eligible(q, table, None, r)
  }

  // The sorted listing of a set of rows is unique.
  lemma {:induction false} OneWholeAnswer(q: Query, a: seq<Row>, b: seq<Row>)
    requires StrictlyOrdered(a, q.sortBy, q.idKey, q.order) && StrictlyOrdered(b, q.sortBy, q.idKey, q.order)
    requires forall r :: r in a <==> r in b
    ensures a == b
    decreases |a|
  {
    if a == [] {
      assert forall i :: 0 <= i < |b| ==> b[i] in b;
    } else {
      assert a[0] in b;
      SameHead(q, a, b);
      SameTail(q, a, b);
      OneWholeAnswer(q, a[1..], b[1..]);
      assert a == [a[0]] + a[1..] && b == [b[0]] + b[1..];
    }
  }

  lemma SameHead(q: Query, a: seq<Row>, b: seq<Row>)
    requires StrictlyOrdered(a, q.sortBy, q.idKey, q.order) && StrictlyOrdered(b, q.sortBy, q.idKey, q.order)
    requires a != [] && b != [] && (forall r :: r in a <==> r in b)
    ensures a[0] == b[0]
  {
    assert a[0] in b && b[0] in a;
    var i :| 0 <= i < |b| && b[i] == a[0];
    var j :| 0 <= j < |a| && a[j] == b[0];
    assert i > 0 ==> Before(q, b[0], b[i]);
    assert j > 0 ==> Before(q, a[0], a[j]);
  }

  lemma SameTail(q: Query, a: seq<Row>, b: seq<Row>)
    requires StrictlyOrdered(a, q.sortBy, q.idKey, q.order) && StrictlyOrdered(b, q.sortBy, q.idKey, q.order)
    requires a != [] && b != [] && a[0] == b[0] && (forall r :: r in a <==> r in b)
    ensures forall r :: r in a[1..] <==> r in b[1..]
  {
    HeadOnce(q, a);
    HeadOnce(q, b);
    forall r
      ensures r in a[1..] <==> r in b[1..]
    {
      assert r in a <==> r == a[0] || r in a[1..];
      assert r in b <==> r == b[0] || r in b[1..];
    }
  }

  lemma HeadOnce(q: Query, a: seq<Row>)
    requires StrictlyOrdered(a, q.sortBy, q.idKey, q.order) && a != []
    ensures a[0] !in a[1..]
  {
    forall k | 1 <= k < |a|
      ensures a[k] != a[0]
    {
      assert Before(q, a[0], a[k]);
    }
  }

  // On a table nobody changes, the pages of an ended walk are the one whole answer.
  lemma FixedTableWalk(q: Query, table: Table, tables: seq<Table>, pages: seq<seq<Row>>, all: seq<Row>)
    requires Walkable(q) && IsWalk(q, tables, pages) && Ended(pages) && Constant(table, tables)
    requires IsWholeAnswer(q, table, all)
    ensures Concat(pages) == all
  {
    WalkIsOrdered(q, tables, pages);
    forall r
      ensures r in Concat(pages) <==> r in all
    {
      if r in Concat(pages) {
        var k := ConcatFrom(pages, r);
        assert Eligible(q, table, None, r);
      }
      if r in all {
        WholeAnswerIsReturned(q, table, tables, pages, r);
      }
    }
    OneWholeAnswer(q, Concat(pages), all);
  }

  lemma WholeAnswerIsReturned(q: Query, table: Table, tables: seq<Table>, pages: seq<seq<Row>>, r: Row)
    requires Walkable(q) && IsWalk(q, tables, pages) && Ended(pages) && Constant(table, tables)
    requires Eligible(q, table, None, r)
    ensures r in Concat(pages)
  {
    var id := At(r, q.idKey);
    ReturnedInTheEnd(q, tables, pages, id);
    var s :| s in Concat(pages) && At(s, q.idKey) == id;
    WalkIsOrdered(q, tables, pages);
    var k := ConcatFrom(pages, s);
    assert HasRow(tables[k], s, q.idKey);
  }

  // On a table nobody changes a page with a successor that is not empty is full, so the walk ends: it is at
  // most the table plus the empty page long.
  lemma FixedTableWalkEnds(q: Query, table: Table, tables: seq<Table>, pages: seq<seq<Row>>)
    requires Walkable(q) && IsWalk(q, tables, pages) && Constant(table, tables)
    ensures |pages| <= |table| + 1
    ensures forall k :: 0 <= k < |pages| - 1 && pages[k + 1] != [] ==> |pages[k]| == q.take
  {
    AllSteps(q, tables, pages);
    forall k | 0 <= k < |pages| - 1 && pages[k + 1] != []
      ensures |pages[k]| == q.take
    {
      PageBeforeMoreIsFull(q, table, tables, pages, k);
    }
    WalkFits(q, table, tables, pages);
    ConcatIsLong(pages);
  }

  lemma WalkFits(q: Query, table: Table, tables: seq<Table>, pages: seq<seq<Row>>)
    requires Walkable(q) && IsWalk(q, tables, pages) && Constant(table, tables)
    ensures |Concat(pages)| <= |table|
  {
    var all := Concat(pages);
    WalkIsOrdered(q, tables, pages);
    forall i | 0 <= i < |all|
      ensures At(all[i], q.idKey) in table.Keys
    {
      var k := ConcatFrom(pages, all[i]);
      assert HasRow(tables[k], all[i], q.idKey);
    }
    forall i, j | 0 <= i < |all| && 0 <= j < |all| && At(all[i], q.idKey) == At(all[j], q.idKey)
      ensures i == j
    {
      NoRowTwice(q, tables, pages, i, j);
    }
    DistinctIdsFit(q, all, table.Keys);
    assert |table.Keys| == |table|;
  }

  lemma PageBeforeMoreIsFull(q: Query, table: Table, tables: seq<Table>, pages: seq<seq<Row>>, k: nat)
    requires Steps(q, tables, pages) && Constant(table, tables)
    requires k + 1 < |pages| && pages[k + 1] != []
    ensures |pages[k]| == q.take
  {
    var r := pages[k + 1][0];
    var last := Last(pages[k]);
    PageRowsMatch(q, tables, pages, k + 1, r);
    assert last in pages[k];
    PageRowsMatch(q, tables, pages, k, last);
    NotBehindLast(q, pages[k], r);
    assert Eligible(q, tables[k], After(pages, k), r);
  }

  lemma NotBehindLast(q: Query, page: seq<Row>, r: Row)
    requires StrictlyOrdered(page, q.sortBy, q.idKey, q.order) && page != [] && Before(q, Last(page), r)
    ensures r !in page
  {
    forall i | 0 <= i < |page|
      ensures page[i] != r
    {
      assert i < |page| - 1 ==> Before(q, page[i], page[|page| - 1]);
    }
  }

  lemma ConcatIsLong(pages: seq<seq<Row>>)
    requires forall k :: 0 <= k < |pages| - 1 ==> pages[k] != []
    ensures |Concat(pages)| >= |pages| - 1
    ensures (forall k :: 0 <= k < |pages| ==> pages[k] != []) ==> |Concat(pages)| >= |pages|
  {
    if pages != [] {
      ConcatIsLong(pages[..|pages| - 1]);
    }
  }

  lemma {:induction false} DistinctIdsFit(q: Query, all: seq<Row>, ids: set<int>)
    requires forall i :: 0 <= i < |all| ==> At(all[i], q.idKey) in ids
    requires forall i, j :: 0 <= i < |all| && 0 <= j < |all| && At(all[i], q.idKey) == At(all[j], q.idKey) ==> i == j
    ensures |all| <= |ids|
    decreases |all|
  {
    if all != [] {
      var n := |all| - 1;
      var id := At(all[n], q.idKey);
      DistinctIdsFit(q, all[..n], ids - {id});
    }
  }

  // ----- A filter on the sort column -----

  // Every row of every page meets the filter.
  predicate InFilter(q: Query, pages: seq<seq<Row>>) {
    forall k, r :: 0 <= k < |pages| && r in pages[k] ==> Satisfies(r, q.where)
  }

  ghost predicate FilterKept(q: Query) { forall tables, pages :: IsWalk(q, tables, pages) ==> InFilter(q, pages) }

  // A filter is kept on every page of every walk exactly when its condition on the sort column is closed in the
  // walk's direction. `sample` shows that the rest of the filter can be met at all.
  lemma FilterKeptIff(q: Query, sample: Row)
    requires q.take > 0 && q.idKey !in q.where && q.sortBy != q.idKey && Satisfies(sample, q.where - {q.sortBy, q.idKey})
    ensures FilterKept(q) <==> Closed(q)
  {
    if Closed(q) {
      forall tables, pages | IsWalk(q, tables, pages)
        ensures InFilter(q, pages)
      {
        WalkIsOrdered(q, tables, pages);
      }
    }
    if FilterKept(q) {
      forall v, later | Allows(q.where, q.sortBy, v) && Meets(later, Cmp(q.order, v))
        ensures Allows(q.where, q.sortBy, later)
      {
        KeptForLater(q, sample, v, later);
      }
    }
  }

  // The walk that shows it: two rows, at an allowed value and at a later one.
  lemma KeptForLater(q: Query, sample: Row, v: int, later: int)
    requires q.take > 0 && q.idKey !in q.where && q.sortBy != q.idKey && Satisfies(sample, q.where - {q.sortBy, q.idKey})
    requires FilterKept(q) && Allows(q.where, q.sortBy, v) && Meets(later, Cmp(q.order, v))
    ensures Allows(q.where, q.sortBy, later)
  {
    var first, second := Moved(sample, q.sortBy, q.idKey, v, 1), Moved(sample, q.sortBy, q.idKey, later, 2);
    MovedRow(q.where, sample, q.sortBy, q.idKey, v, 1);
    MovedRow(q.where, sample, q.sortBy, q.idKey, later, 2);
    SplitFilter(q.where, q.sortBy, q.idKey, first);
    SplitFilter(q.where, q.sortBy, q.idKey, second);
    if !Satisfies(second, q.where) {
      LostFilter(q, first, second);
    }
  }

  lemma LostFilter(q: Query, first: Row, second: Row)
    requires q.take > 0 && q.idKey !in q.where && q.sortBy != q.idKey
    requires Keyed(first, q.sortBy, q.idKey) && Keyed(second, q.sortBy, q.idKey)
    requires At(first, q.idKey) == 1 && At(second, q.idKey) == 2
    requires Satisfies(first, q.where) && !Satisfies(second, q.where)
    requires Satisfies(second, q.where - {q.sortBy, q.idKey}) && Meets(At(second, q.sortBy), Cmp(q.order, At(first, q.sortBy)))
    ensures !FilterKept(q)
  {
    hide IsWalk, Satisfies;
    var table, pages := map[1 := first, 2 := second], [[first], [second]];
    TwoPageWalk(q, first, second);
    assert IsWalk(q, [table, table], pages);
    assert second in pages[1] && !InFilter(q, pages);
  }

  // Over a table of two rows, the first in the filter, the second not, but behind the first and in the rest of the
  // filter: the first page is the one, the second page the other.
  lemma TwoPageWalk(q: Query, first: Row, second: Row)
    requires q.take > 0 && q.idKey !in q.where && q.sortBy != q.idKey
    requires Keyed(first, q.sortBy, q.idKey) && Keyed(second, q.sortBy, q.idKey)
    requires At(first, q.idKey) == 1 && At(second, q.idKey) == 2
    requires Satisfies(first, q.where) && !Satisfies(second, q.where)
    requires Satisfies(second, q.where - {q.sortBy, q.idKey}) && Meets(At(second, q.sortBy), Cmp(q.order, At(first, q.sortBy)))
    ensures var table := map[1 := first, 2 := second]; IsWalk(q, [table, table], [[first], [second]])
  {
    var table: Table := map[1 := first, 2 := second];
    var tables, pages := [table, table], [[first], [second]];
    var wheres := BuildCursorBoundaryWhere(q.where, q.sortBy, q.idKey, q.order, Some(KeyOf(first, q.sortBy, q.idKey)));
    assert table[1] == first && table[2] == second;
    assert IsTable(table, q.sortBy, q.idKey);
    FirstAndSecond(q, first, second);
    MatchingOfTwo(table, first, second, [q.where]);
    MatchingOfTwo(table, first, second, wheres);
    OneRowPage(q, first, Matching(table, [q.where]));
    OneRowPage(q, second, Matching(table, wheres));
    hide IsPage, IsTable, Matching, Satisfies, SatisfiesAny, BuildCursorBoundaryWhere;
    assert TokenFor(q, pages, 0) == None && TokenFor(q, pages, 1) == NextToken([first], q.sortBy, q.idKey, q.order);
    assert Answers(q, table, TokenFor(q, pages, 0), pages[0]);
    assert Answers(q, table, TokenFor(q, pages, 1), pages[1]);
  }

  lemma FirstAndSecond(q: Query, first: Row, second: Row)
    requires q.idKey !in q.where && q.sortBy != q.idKey
    requires Keyed(first, q.sortBy, q.idKey) && Keyed(second, q.sortBy, q.idKey)
    requires Satisfies(first, q.where) && !Satisfies(second, q.where)
    requires Satisfies(second, q.where - {q.sortBy, q.idKey}) && Meets(At(second, q.sortBy), Cmp(q.order, At(first, q.sortBy)))
    ensures SatisfiesAny(first, [q.where]) && !SatisfiesAny(second, [q.where])
    ensures var wheres := BuildCursorBoundaryWhere(q.where, q.sortBy, q.idKey, q.order, Some(KeyOf(first, q.sortBy, q.idKey)));
            !SatisfiesAny(first, wheres) && SatisfiesAny(second, wheres)
  {
    assert [q.where][0] == q.where;
    BoundaryOverwrites(q.where, q.sortBy, q.idKey, q.order, first, first);
    BoundaryOverwrites(q.where, q.sortBy, q.idKey, q.order, first, second);
    SplitFilter(q.where, q.sortBy, q.idKey, second);
  }

  lemma OneRowPage(q: Query, row: Row, rows: set<Row>)
    requires q.take > 0 && rows == {row}
    ensures IsPage([row], rows, q.sortBy, q.idKey, q.order, q.take)
  {
  }

  lemma MatchingOfTwo(table: Table, first: Row, second: Row, wheres: seq<Where>)
    requires table == map[1 := first, 2 := second]
    ensures Matching(table, wheres) ==
            (if SatisfiesAny(first, wheres) then {first} else {}) + (if SatisfiesAny(second, wheres) then {second} else {})
  {
    assert table[1] == first && table[2] == second;
  }

  // A date range on createdAt, the default sort column and the default date filter: the second page is
  // read without the upper end of the range and returns a row that the filter excludes.
  lemma DateRangeIsLostOnPageTwo(q: Query, table: Table, first: Row, second: Row)
    requires first == Row(map["createdAt" := 10, "id" := 1]) && second == Row(map["createdAt" := 20, "id" := 2])
    requires table == map[1 := first, 2 := second]
    requires q == Query(map["createdAt" := LessThan(15)], "createdAt", "id", ASC, 1)
    ensures IsWalk(q, [table, table], [[first], [second]])
    ensures !Satisfies(second, q.where)
  {
    assert "createdAt" in q.where && first.cells["createdAt"] == 10 && second.cells["createdAt"] == 20;
    assert Satisfies(second, q.where - {"createdAt", "id"});
    TwoPageWalk(q, first, second);
  }
}
