// What the write operations of BaseService mean for the reads after them, with the cache and without.
module CrudLaws {
  import opened Wrappers
  import opened CacheStore
  import opened PageKeys
  import opened CachedReads

  // ----- Rows -----

  // A write to one row leaves every other row as it is.
  lemma WritesOneRow(c: Config, rows: Rows, w: Write, other: string)
    requires other != w.id
    ensures other in Written(c, rows, w) <==> other in rows
    ensures other in rows ==> Written(c, rows, w)[other] == rows[other]
  {
  }

  // What it leaves of its own row.
  lemma SavedRow(c: Config, rows: Rows, id: string, data: Json)
    ensures var after := Written(c, rows, Save(id, data));
            && id in after
            && (id !in rows ==> after[id] == Record(c.merge(None, data), false))
            && (id in rows ==> after[id] == Record(c.merge(Some(rows[id].row), data), rows[id].deleted))
  {
  }

  lemma PatchedRow(c: Config, rows: Rows, id: string, data: Json)
    ensures var after := Written(c, rows, Patch(id, data));
            && (id in after <==> id in rows)
            && (id in rows ==> after[id].row == c.merge(Some(rows[id].row), data) && after[id].deleted == rows[id].deleted)
  {
  }

  lemma DeletedRow(c: Config, rows: Rows, id: string)
    ensures id !in Written(c, rows, Delete(id))
  {
  }

  // Where the table can hide rows, a hidden one is kept for readers with withDeleted, and restoring it undoes it.
  lemma HiddenRow(c: Config, rows: Rows, id: string)
    requires id in rows
    ensures var after := Written(c, rows, Hide(id));
            && !Visible(after, id, false)
            && (Visible(after, id, true) <==> c.supportsSoftDelete)
            && (c.supportsSoftDelete ==> after[id].row == rows[id].row)
            && (c.supportsSoftDelete && !rows[id].deleted ==> Written(c, after, Show(id)) == rows)
  {
  }

  lemma ShownRow(c: Config, rows: Rows, id: string)
    requires c.supportsSoftDelete && id in rows
    ensures var after := Written(c, rows, Show(id)); Visible(after, id, false) && after[id].row == rows[id].row
  {
  }

  // A write is in a list if it is before the last one or the last one.
  lemma InFront(ws: seq<Write>, w: Write)
    requires ws != []
    ensures w in ws <==> w in ws[..|ws| - 1] || w == ws[|ws| - 1]
  {
    assert ws == ws[..|ws| - 1] + [ws[|ws| - 1]];
  }

  // A list of deletions takes exactly the listed rows.
  lemma {:induction false} DeletedRows(c: Config, rows: Rows, ws: seq<Write>)
    requires forall w :: w in ws ==> w.Delete?
    ensures WrittenAll(c, rows, ws) == map id | id in rows && Delete(id) !in ws :: rows[id]
    decreases |ws|
  {
    if ws != [] {
      var n := |ws| - 1;
      var id := ws[n].id;
      forall w ensures w in ws <==> w in ws[..n] || w == ws[n] {
        InFront(ws, w);
      }
      assert ws[n] in ws;
      DeletedRows(c, rows, ws[..n]);
      assert WrittenAll(c, rows, ws) == Written(c, WrittenAll(c, rows, ws[..n]), Delete(id));
      hide WrittenAll;
    }
  }

  // A list of soft deletions hides exactly the listed rows, and a list of restorations shows them.
  lemma {:induction false} HiddenRows(c: Config, rows: Rows, ws: seq<Write>)
    requires c.supportsSoftDelete && forall w :: w in ws ==> w.Hide?
    ensures WrittenAll(c, rows, ws) == map id | id in rows :: if Hide(id) in ws then rows[id].(deleted := true) else rows[id]
    decreases |ws|
  {
    if ws != [] {
      var n := |ws| - 1;
      var id := ws[n].id;
      forall w ensures w in ws <==> w in ws[..n] || w == ws[n] {
        InFront(ws, w);
      }
      assert ws[n] in ws;
      HiddenRows(c, rows, ws[..n]);
      assert WrittenAll(c, rows, ws) == Written(c, WrittenAll(c, rows, ws[..n]), Hide(id));
      hide WrittenAll;
    }
  }

  lemma {:induction false} ShownRows(c: Config, rows: Rows, ws: seq<Write>)
    requires c.supportsSoftDelete && forall w :: w in ws ==> w.Show?
    ensures WrittenAll(c, rows, ws) == map id | id in rows :: if Show(id) in ws then rows[id].(deleted := false) else rows[id]
    decreases |ws|
  {
    if ws != [] {
      var n := |ws| - 1;
      var id := ws[n].id;
      forall w ensures w in ws <==> w in ws[..n] || w == ws[n] {
        InFront(ws, w);
      }
      assert ws[n] in ws;
      ShownRows(c, rows, ws[..n]);
      assert WrittenAll(c, rows, ws) == Written(c, WrittenAll(c, rows, ws[..n]), Show(id));
      hide WrittenAll;
    }
  }

  // A list of new rows is stored row by row, and answered in its order.
  lemma {:induction false} SavedRows(c: Config, rows: Rows, ws: seq<Write>)
    requires forall w :: w in ws ==> w.Save?
    requires forall i, j :: 0 <= i < j < |ws| ==> ws[i].id != ws[j].id
    ensures forall i :: 0 <= i < |ws| ==>
              var before := if ws[i].id in rows then Some(rows[ws[i].id].row) else None;
              ws[i].id in WrittenAll(c, rows, ws) && WrittenAll(c, rows, ws)[ws[i].id].row == c.merge(before, ws[i].data)
    decreases |ws|
  {
    if ws != [] {
      var n := |ws| - 1;
      assert ws == ws[..n] + [ws[n]];
      forall w | w in ws[..n] ensures w.Save? {
        assert w in ws;
      }
      SavedRows(c, rows, ws[..n]);
      assert ws[n] in ws;
      forall w | w in ws[..n] ensures w.id != ws[n].id {
        var i :| 0 <= i < n && ws[..n][i] == w;
        assert ws[i].id != ws[n].id;
      }
      WritesNamedRows(c, rows, ws[..n], ws[n].id);
      forall i | 0 <= i < n
        ensures ws[i].id != ws[n].id && ws[..n][i] == ws[i]
      {
      }
    }
  }

  lemma {:induction false} EntitiesInOrder(rows: Rows, ws: seq<Write>)
    requires forall i :: 0 <= i < |ws| ==> (ws[i].Save? || ws[i].Patch?) && ws[i].id in rows
    ensures |Entities(rows, ws)| == |ws| && forall i :: 0 <= i < |ws| ==> Entities(rows, ws)[i] == rows[ws[i].id].row
    decreases |ws|
  {
    if ws != [] {
      EntitiesInOrder(rows, ws[..|ws| - 1]);
    }
  }

  // A list of writes leaves every row alone that it does not name.
  lemma WritesNamedRows(c: Config, rows: Rows, ws: seq<Write>, other: string)
    requires forall w :: w in ws ==> w.id != other
    ensures other in WrittenAll(c, rows, ws) <==> other in rows
    ensures other in rows ==> WrittenAll(c, rows, ws)[other] == rows[other]
  {
    WritesTouchTheirIds(c, rows, ws, other);
  }

  // ----- Reads after a write -----

  lemma OneWrite(c: Config, rows: Rows, w: Write)
    ensures WrittenAll(c, rows, [w]) == Written(c, rows, w)
  {
    assert [w][..0] == [];
  }

  // After a write that goes through, a read of its row is answered from the row as it is now.
  lemma ReadAfterWrite(c: Config, s: State, w: Write, opts: Options)
    requires (w.Hide? || w.Show? ==> c.softDeleteEnabled) && ReadsBack(Written(c, s.rows, w), w)
    ensures var t := ApplyBatch(c, s, [w]).0;
            && t.rows == Written(c, s.rows, w) && t.now == s.now
            && (w.id != "" && (c.enabled ==> c.ttlSec != 0) ==>
                  ApplyRead(c, t, FindById(w.id, opts)).1 ==
                    if Visible(t.rows, w.id, opts.withDeleted) then Found(c.project(t.rows[w.id].row, opts.shape)) else NotFound(w.id))
  {
    var t := ApplyBatch(c, s, [w]).0;
    OneWrite(c, s.rows, w);
    SoftOne(w);
    assert FirstMissing(Written(c, s.rows, w), [w]) == 1 by { AllReadBack(Written(c, s.rows, w), w); }
    assert [w][..1] == [w];
    assert w in [w];
    assert c.enabled ==> IdKey(w.id) !in t.db;
  }

  lemma SoftOne(w: Write)
    ensures Soft([w]) <==> w.Hide? || w.Show?
  {
    assert w in [w];
  }

  lemma AllReadBack(rows: Rows, w: Write)
    requires ReadsBack(rows, w)
    ensures FirstMissing(rows, [w]) == 1
  {
    assert [w][1..] == [];
  }

  // After a list of deletions none of its rows is found.
  lemma AllRemovedNotFound(c: Config, s: State, ws: seq<Write>, id: string, opts: Options)
    requires (forall w :: w in ws ==> w.Delete?) && Delete(id) in ws && id != ""
    ensures var (t, answer) := Apply(c, s, Batch(ws));
            && t.rows == (map other | other in s.rows && Delete(other) !in ws :: s.rows[other])
            && answer == Done([]) && Apply(c, t, FindById(id, opts)).1 == NotFound(id)
  {
    var t := Apply(c, s, Batch(ws)).0;
    DeletedRows(c, s.rows, ws);
    assert !Soft(ws);
    assert FirstMissing(WrittenAll(c, s.rows, ws), ws) == |ws| by { NoneMissing(WrittenAll(c, s.rows, ws), ws); }
    assert ws[..|ws|] == ws;
    NoEntities(WrittenAll(c, s.rows, ws), ws);
  }

  lemma NoneMissing(rows: Rows, ws: seq<Write>)
    requires forall w :: w in ws ==> w.Delete?
    ensures FirstMissing(rows, ws) == |ws|
  {
    forall i | 0 <= i < |ws|
      ensures ReadsBack(rows, ws[i])
    {
      assert ws[i] in ws;
    }
  }

  lemma {:induction false} NoEntities(rows: Rows, ws: seq<Write>)
    requires forall w :: w in ws ==> w.Delete?
    ensures Entities(rows, ws) == []
    decreases |ws|
  {
    if ws != [] {
      var n := |ws| - 1;
      forall w | w in ws[..n] ensures w.Delete? {
        assert w in ws;
      }
      NoEntities(rows, ws[..n]);
      assert ws[n] in ws;
    }
  }

  // A removed row is not found, by anybody.
  lemma RemovedIsNotFound(c: Config, s: State, id: string, opts: Options)
    requires id != ""
    ensures var t := Apply(c, s, Batch([Delete(id)])).0;
            && id !in t.rows && Apply(c, t, FindById(id, opts)).1 == NotFound(id)
            && VisibleRows(t.rows, opts.withDeleted) == VisibleRows(s.rows, opts.withDeleted) - {id}
  {
    var w := Delete(id);
    OneWrite(c, s.rows, w);
    SoftOne(w);
    AllReadBack(Written(c, s.rows, w), w);
    assert [w][..1] == [w] && w in [w];
  }

  // A created row is found with its data.
  lemma CreatedIsFound(c: Config, s: State, id: string, data: Json, opts: Options)
    requires id != "" && id !in s.rows && (c.enabled ==> c.ttlSec != 0)
    ensures var (t, answer) := Apply(c, s, Batch([Save(id, data)]));
            && answer == Done([c.merge(None, data)])
            && Apply(c, t, FindById(id, opts)).1 == Found(c.project(c.merge(None, data), opts.shape))
  {
    ReadAfterWrite(c, s, Save(id, data), opts);
    OneWrite(c, s.rows, Save(id, data));
    SoftOne(Save(id, data));
    AllReadBack(Written(c, s.rows, Save(id, data)), Save(id, data));
    OneEntity(Written(c, s.rows, Save(id, data)), Save(id, data));
  }

  lemma OneEntity(rows: Rows, w: Write)
    requires (w.Save? || w.Patch?) && w.id in rows
    ensures Entities(rows, [w]) == [rows[w.id].row]
  {
    assert [w][..0] == [];
    assert [] + [rows[w.id].row] == [rows[w.id].row];
  }

  // An updated row is found with the merged data; an update of a row that is missing or hidden is refused.
  lemma UpdatedIsFound(c: Config, s: State, id: string, data: Json, opts: Options)
    requires id != "" && (c.enabled ==> c.ttlSec != 0)
    ensures var (t, answer) := Apply(c, s, Batch([Patch(id, data)]));
            if Visible(s.rows, id, false) then
              var row := c.merge(Some(s.rows[id].row), data);
              answer == Done([row]) && Apply(c, t, FindById(id, opts)).1 == Found(c.project(row, opts.shape))
            else answer == NotFound(id) && VisibleRows(t.rows, false) == VisibleRows(s.rows, false)
  {
    var w := Patch(id, data);
    OneWrite(c, s.rows, w);
    SoftOne(w);
    if Visible(s.rows, id, false) {
      ReadAfterWrite(c, s, w, opts);
      AllReadBack(Written(c, s.rows, w), w);
      OneEntity(Written(c, s.rows, w), w);
    }
  }

  // A soft-deleted row is hidden from readers without withDeleted, and shown to the others where the table can
  // hide rows; restoring it shows it to all again.
  lemma SoftDeletedIsHidden(c: Config, s: State, id: string, opts: Options)
    requires id != "" && c.softDeleteEnabled && (c.enabled ==> c.ttlSec != 0) && id in s.rows
    ensures var t := Apply(c, s, Batch([Hide(id)])).0;
            && Apply(c, t, FindById(id, opts)).1 ==
               (if opts.withDeleted && c.supportsSoftDelete then Found(c.project(s.rows[id].row, opts.shape)) else NotFound(id))
            && VisibleRows(t.rows, false) == VisibleRows(s.rows, false) - {id}
  {
    ReadAfterWrite(c, s, Hide(id), opts);
    HiddenRow(c, s.rows, id);
  }

  lemma RestoredIsFound(c: Config, s: State, id: string, opts: Options)
    requires id != "" && c.softDeleteEnabled && c.supportsSoftDelete && (c.enabled ==> c.ttlSec != 0) && id in s.rows
    ensures var hidden := Apply(c, s, Batch([Hide(id)])).0;
            var t := Apply(c, hidden, Batch([Show(id)])).0;
            && Apply(c, t, FindById(id, opts)).1 == Found(c.project(s.rows[id].row, opts.shape))
            && (!s.rows[id].deleted ==> t.rows == s.rows)
  {
    var hidden := Apply(c, s, Batch([Hide(id)])).0;
    ReadAfterWrite(c, s, Hide(id), opts);
    ReadAfterWrite(c, hidden, Show(id), opts);
    HiddenRow(c, s.rows, id);
    ShownRow(c, hidden.rows, id);
  }

  // Without soft delete neither does anything.
  lemma SoftDeleteDisabled(c: Config, s: State, id: string)
    requires !c.softDeleteEnabled
    ensures Apply(c, s, Batch([Hide(id)])) == (s, Done([])) && Apply(c, s, Batch([Show(id)])) == (s, Done([]))
  {
    SoftOne(Hide(id));
    SoftOne(Show(id));
  }

  // A page that is asked for after a write is made of the rows as they are now.
  lemma PageAfterWrite(c: Config, s: State, w: Write, query: Query, opts: Options)
    requires (w.Hide? || w.Show? ==> c.softDeleteEnabled) && ReadsBack(Written(c, s.rows, w), w) && (c.enabled ==> c.ttlSec != 0)
    ensures var t := ApplyBatch(c, s, [w]).0;
            ApplyRead(c, t, ListOffset(query, opts)).1 ==
              Found(c.page(VisibleRows(Written(c, s.rows, w), opts.withDeleted), AskedBy(query), opts.shape))
  {
    hide PageText;
    var t := ApplyBatch(c, s, [w]).0;
    OneWrite(c, s.rows, w);
    SoftOne(w);
    AllReadBack(Written(c, s.rows, w), w);
    assert [w][..1] == [w];
    assert c.enabled ==> KeyOf(c, Page(query), opts) !in t.db;
  }

  // ----- How long a read stays in the cache -----

  // What a miss stores is served for ttlSec seconds, whatever happens to the rows behind the service's back, and
  // not longer.
  lemma ServedForTtl(c: Config, s: State, id: string, opts: Options, rows: Rows, ms: nat)
    requires c.enabled && c.ttlSec > 0 && id != "" && Visible(s.rows, id, opts.withDeleted)
    requires Lookup(s.db, IdKey(id), s.now).None?
    ensures var t := Apply(c, Apply(c, Apply(c, s, FindById(id, opts)).0, Elsewhere(rows)).0, Advance(ms)).0;
            Apply(c, t, FindById(id, opts)).1 ==
              if ms <= 1000 * c.ttlSec then Found(c.project(s.rows[id].row, opts.shape))
              else if Visible(rows, id, opts.withDeleted) then Found(c.project(rows[id].row, opts.shape))
              else NotFound(id)
  {
  }

  // A hit on a page before its last swrSec seconds leaves the cache as it is; so does every hit on a row.
  lemma HitOutsideTheWindow(c: Config, s: State, query: Query, opts: Options)
    requires c.enabled && Lookup(s.db, KeyOf(c, Page(query), opts), s.now).Some?
    requires TtlOf(s.db, KeyOf(c, Page(query), opts), s.now) > c.swrSec
    ensures Apply(c, s, ListOffset(query, opts)) == (s, Found(s.db[KeyOf(c, Page(query), opts)].value))
  {
    hide PageText;
  }
}
