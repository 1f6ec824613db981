// The boundary condition of listCursor: what it means for any filter, when it keeps a filter on the key columns,
// and when it is exact.
module CursorBoundary {
  import opened Wrappers
  import opened KeysetPagination

  // ----- A filter on the sort column -----

  // The object literal drops what the filter said of the columns it sets: this is what the boundary means
  // for any filter.
  lemma BoundaryOverwrites(where: Where, sortBy: string, idKey: string, order: Order, last: Row, row: Row)
    requires sortBy != idKey && Keyed(last, sortBy, idKey) && Keyed(row, sortBy, idKey)
    ensures SatisfiesAny(row, BuildCursorBoundaryWhere(where, sortBy, idKey, order, Some(KeyOf(last, sortBy, idKey)))) <==>
            (Satisfies(row, where - {sortBy}) && Meets(At(row, sortBy), Cmp(order, At(last, sortBy)))) ||
            (Satisfies(row, where - {sortBy, idKey}) && At(row, sortBy) == At(last, sortBy) && Meets(At(row, idKey), Cmp(order, At(last, idKey))))
  {
    var ws := BuildCursorBoundaryWhere(where, sortBy, idKey, order, Some(KeyOf(last, sortBy, idKey)));
    assert Satisfies(row, ws[0]) <==> Satisfies(row, where - {sortBy}) && Meets(At(row, sortBy), Cmp(order, At(last, sortBy)));
    assert Satisfies(row, ws[1]) <==>
      Satisfies(row, where - {sortBy, idKey}) && At(row, sortBy) == At(last, sortBy) && Meets(At(row, idKey), Cmp(order, At(last, idKey)));
  }

  // The condition that the filter puts on a column.
  predicate Allows(where: Where, column: string, x: int) { column in where ==> Meets(x, where[column]) }

  // From the boundary on, the filter says nothing of the two columns that the boundary does not say.
  ghost predicate SpentBehind(where: Where, sortBy: string, idKey: string, order: Order, last: Row) {
    && (forall v :: v == At(last, sortBy) || Meets(v, Cmp(order, At(last, sortBy))) ==> Allows(where, sortBy, v))
    && (forall id :: Meets(id, Cmp(order, At(last, idKey))) ==> Allows(where, idKey, id))
  }

  ghost predicate BoundaryKeepsFilter(where: Where, sortBy: string, idKey: string, order: Order, last: Row) {
    forall row :: Keyed(row, sortBy, idKey) ==>
      (SatisfiesAny(row, BuildCursorBoundaryWhere(where, sortBy, idKey, order, Some(KeyOf(last, sortBy, idKey)))) <==>
       Satisfies(row, where) && Precedes(last, row, sortBy, idKey, order))
  }

  lemma SplitFilter(where: Where, sortBy: string, idKey: string, row: Row)
    requires Keyed(row, sortBy, idKey)
    ensures Satisfies(row, where) <==>
            Satisfies(row, where - {sortBy, idKey}) && Allows(where, sortBy, At(row, sortBy)) && Allows(where, idKey, At(row, idKey))
    ensures Satisfies(row, where - {sortBy}) <==>
            Satisfies(row, where - {sortBy, idKey}) && (sortBy != idKey ==> Allows(where, idKey, At(row, idKey)))
  {
    var rest := where - {sortBy, idKey};
    assert forall c :: c in where ==> c in rest || c == sortBy || c == idKey;
    assert forall c :: c in where - {sortBy} ==> c in rest || c == idKey;
  }

  // A row like `sample` with the given keys.
  function Moved(sample: Row, sortBy: string, idKey: string, v: int, id: int): Row {
    Row(sample.cells[sortBy := v][idKey := id])
  }

  lemma MovedRow(where: Where, sample: Row, sortBy: string, idKey: string, v: int, id: int)
    requires sortBy != idKey && Satisfies(sample, where - {sortBy, idKey})
    ensures var row := Moved(sample, sortBy, idKey, v, id);
            && Keyed(row, sortBy, idKey) && At(row, sortBy) == v && At(row, idKey) == id
            && Satisfies(row, where - {sortBy, idKey})
  {
  }

  // A token that arrives with a filter on its own columns keeps that filter, for every possible row, exactly
  // when the boundary already implies it. `sample` shows that the rest of the filter can be met at all.
  lemma BoundaryKeepsFilterIff(where: Where, sortBy: string, idKey: string, order: Order, last: Row, sample: Row)
    requires sortBy != idKey && Keyed(last, sortBy, idKey) && Satisfies(sample, where - {sortBy, idKey})
    ensures BoundaryKeepsFilter(where, sortBy, idKey, order, last) <==> SpentBehind(where, sortBy, idKey, order, last)
  {
    if SpentBehind(where, sortBy, idKey, order, last) {
      forall row | Keyed(row, sortBy, idKey)
        ensures SatisfiesAny(row, BuildCursorBoundaryWhere(where, sortBy, idKey, order, Some(KeyOf(last, sortBy, idKey)))) <==>
                Satisfies(row, where) && Precedes(last, row, sortBy, idKey, order)
      {
        BoundaryOverwrites(where, sortBy, idKey, order, last, row);
        SplitFilter(where, sortBy, idKey, row);
      }
    }
    if BoundaryKeepsFilter(where, sortBy, idKey, order, last) {
      KeptFilterIsSpent(where, sortBy, idKey, order, last, sample);
    }
  }

  lemma KeptFilterIsSpent(where: Where, sortBy: string, idKey: string, order: Order, last: Row, sample: Row)
    requires sortBy != idKey && Keyed(last, sortBy, idKey) && Satisfies(sample, where - {sortBy, idKey})
    requires BoundaryKeepsFilter(where, sortBy, idKey, order, last)
    ensures SpentBehind(where, sortBy, idKey, order, last)
  {
    var p, i := At(last, sortBy), At(last, idKey);
    forall id | Meets(id, Cmp(order, i))
      ensures Allows(where, idKey, id) && Allows(where, sortBy, p)
    {
      AskRow(where, sortBy, idKey, order, last, sample, p, id);
    }
    var next := if order == ASC then i + 1 else i - 1;
    assert Meets(next, Cmp(order, i));
    forall v | Meets(v, Cmp(order, p))
      ensures Allows(where, sortBy, v)
    {
      AskRow(where, sortBy, idKey, order, last, sample, v, next);
    }
  }

  lemma AskRow(where: Where, sortBy: string, idKey: string, order: Order, last: Row, sample: Row, v: int, id: int)
    requires sortBy != idKey && Keyed(last, sortBy, idKey) && Satisfies(sample, where - {sortBy, idKey})
    requires BoundaryKeepsFilter(where, sortBy, idKey, order, last)
    ensures v == At(last, sortBy) && Meets(id, Cmp(order, At(last, idKey))) ==> Allows(where, sortBy, v) && Allows(where, idKey, id)
    ensures Meets(v, Cmp(order, At(last, sortBy))) && Allows(where, idKey, id) ==> Allows(where, sortBy, v)
  {
    var row := Moved(sample, sortBy, idKey, v, id);
    MovedRow(where, sample, sortBy, idKey, v, id);
    BoundaryOverwrites(where, sortBy, idKey, order, last, row);
    SplitFilter(where, sortBy, idKey, row);
  }

  // ----- A sort value that the token cannot carry exactly -----

  // The token's copy of the last row's sort value is `carried`.
  function CarriedKey(last: Row, sortBy: string, idKey: string, carried: int): map<string, int> {
    map[sortBy := carried, idKey := At(last, idKey)]
  }

  ghost predicate BoundaryIsExact(where: Where, sortBy: string, idKey: string, order: Order, last: Row, carried: int) {
    forall row :: Keyed(row, sortBy, idKey) ==>
      (SatisfiesAny(row, BuildCursorBoundaryWhere(where, sortBy, idKey, order, Some(CarriedKey(last, sortBy, idKey, carried)))) <==>
       Satisfies(row, where) && Precedes(last, row, sortBy, idKey, order))
  }

  // The next page starts exactly behind the last row only if the token carries the row's sort value unchanged.
  // createdAt, the default sort column, is stored in microseconds and carried in milliseconds, so a page may
  // repeat its boundary row (ascending) or skip rows of the same millisecond (descending).
  lemma BoundaryIsExactIffCarried(where: Where, sortBy: string, idKey: string, order: Order, last: Row, carried: int, sample: Row)
    requires sortBy != idKey && sortBy !in where && idKey !in where && Keyed(last, sortBy, idKey) && Satisfies(sample, where)
    ensures BoundaryIsExact(where, sortBy, idKey, order, last, carried) <==> carried == At(last, sortBy)
  {
    if carried == At(last, sortBy) {
      assert CarriedKey(last, sortBy, idKey, carried) == KeyOf(last, sortBy, idKey);
      forall row | Keyed(row, sortBy, idKey)
        ensures SatisfiesAny(row, BuildCursorBoundaryWhere(where, sortBy, idKey, order, Some(CarriedKey(last, sortBy, idKey, carried)))) <==>
                Satisfies(row, where) && Precedes(last, row, sortBy, idKey, order)
      {
        BoundaryWhereIsExact(where, sortBy, idKey, order, last, row);
      }
    } else {
      CarriedAside(where, sortBy, idKey, order, last, carried, sample);
    }
  }

  // The witness: a row with the last row's id, at the last row's own sort value or at the carried one.
  lemma CarriedAside(where: Where, sortBy: string, idKey: string, order: Order, last: Row, carried: int, sample: Row)
    requires sortBy != idKey && sortBy !in where && idKey !in where && Keyed(last, sortBy, idKey) && Satisfies(sample, where)
    requires carried != At(last, sortBy)
    ensures !BoundaryIsExact(where, sortBy, idKey, order, last, carried)
  {
    var v, id := At(last, sortBy), At(last, idKey);
    var twin := Row(last.cells[sortBy := carried]);
    var row := Moved(sample, sortBy, idKey, if Meets(v, Cmp(order, carried)) then v else carried, id);
    assert where - {sortBy, idKey} == where;
    MovedRow(where, sample, sortBy, idKey, At(row, sortBy), id);
    assert KeyOf(twin, sortBy, idKey) == CarriedKey(last, sortBy, idKey, carried);
    BoundaryWhereIsExact(where, sortBy, idKey, order, twin, row);
    assert Precedes(twin, row, sortBy, idKey, order) != Precedes(last, row, sortBy, idKey, order);
  }
}
