// BaseService over its repository and CacheService: each method is proved to be one step of CachedReads.
module BaseServiceCrud {
  import opened Wrappers
  import opened CacheStore
  import opened PageKeys
  import opened CachedReads
  import ConditionBuilder
  import Filters

  datatype Pagination = Pagination(filter: ConditionBuilder.Dto, page: nat, limit: nat, sortBy: string, order: string)

  class BaseService {
    const c: Config
    const calendar: ConditionBuilder.Calendar
    const searchableColumns: seq<string>
    const defaultSearchField: string
    const cacheService: CacheService<Key, Json>
    var rows: Rows

    constructor (c: Config, calendar: ConditionBuilder.Calendar, searchableColumns: seq<string>, defaultSearchField: string,
                 cacheService: CacheService<Key, Json>)
      ensures this.c == c && this.calendar == calendar && this.cacheService == cacheService && rows == map[]
      ensures this.searchableColumns == searchableColumns && this.defaultSearchField == defaultSearchField
    {
      this.c, this.calendar, this.cacheService := c, calendar, cacheService;
      this.searchableColumns, this.defaultSearchField := searchableColumns, defaultSearchField;
      rows := map[];
    }

    ghost function View(): State
      reads this, cacheService
    {
      State(rows, cacheService.now, cacheService.db)
    }

    method InvalidateCacheForEntity(id: string, ghost ws: seq<Write>, ghost before: map<Key, Entry<Json>>)
      requires ws != [] && ws[|ws| - 1].id == id
      requires cacheService.db == if c.enabled then Dropped(before, ws[..|ws| - 1]) else before
      modifies cacheService`db
      ensures cacheService.db == if c.enabled then Dropped(before, ws) else before
    {
      if !c.enabled { return; }
      cacheService.Delete(IdKey(id));
      var deleted, names := cacheService.DeleteKeysByPattern((k: Key) => k.ListKey?);
      DroppedStep(before, ws, cacheService.db);
    }

    lemma DroppedStep(before: map<Key, Entry<Json>>, ws: seq<Write>, after: map<Key, Entry<Json>>)
      requires ws != []
      requires after == map k | k in Dropped(before, ws[..|ws| - 1]) - {IdKey(ws[|ws| - 1].id)} && !k.ListKey? :: before[k]
      ensures after == Dropped(before, ws)
    {
      forall k
        ensures DropsKey(ws, k) <==> DropsKey(ws[..|ws| - 1], k) || k == IdKey(ws[|ws| - 1].id) || k.ListKey?
      {
        DropsSnoc(ws, k);
      }
    }

    lemma DropsSnoc(ws: seq<Write>, k: Key)
      requires ws != []
      ensures DropsKey(ws, k) <==> DropsKey(ws[..|ws| - 1], k) || k == IdKey(ws[|ws| - 1].id) || k.ListKey?
    {
      var last := ws[|ws| - 1];
      assert forall w :: w in ws <==> w in ws[..|ws| - 1] || w == last;
    }

    // saveMany, updateById, deleteById, softDeleteById or restoreById for each write in turn.
    method WriteRows(ws: seq<Write>)
      modifies this`rows
      ensures rows == WrittenAll(c, old(rows), ws)
    {
      for i := 0 to |ws|
        invariant rows == WrittenAll(c, old(rows), ws[..i])
      {
        assert ws[..i + 1][..i] == ws[..i];
        rows := Written(c, rows, ws[i]);
      }
      assert ws[..|ws|] == ws;
    }

    method CreateMany(data: seq<(string, Json)>) returns (saved: Answer)
      modifies this`rows, cacheService`db
      ensures (View(), saved) == Apply(c, old(View()), Batch(seq(|data|, i requires 0 <= i < |data| => Save(data[i].0, data[i].1))))
    {
      var ws := seq(|data|, i requires 0 <= i < |data| => Save(data[i].0, data[i].1));
      WriteRows(ws);
      saved := InvalidateAll(ws, cacheService.db);
    }

    method Create(id: string, data: Json) returns (saved: Answer)
      modifies this`rows, cacheService`db
      ensures (View(), saved) == Apply(c, old(View()), Batch([Save(id, data)]))
    {
      WriteRows([Save(id, data)]);
      saved := InvalidateAll([Save(id, data)], cacheService.db);
    }

    // The second loop of the batch operations: read back where the operation does, then invalidate.
    method InvalidateAll(ws: seq<Write>, ghost before: map<Key, Entry<Json>>) returns (answer: Answer)
      requires cacheService.db == before
      modifies cacheService`db
      ensures cacheService.db == if c.enabled then Dropped(before, ws[..FirstMissing(rows, ws)]) else before
      ensures answer == if FirstMissing(rows, ws) < |ws| then NotFound(ws[FirstMissing(rows, ws)].id) else Done(Entities(rows, ws))
    {
      var entities: seq<Json> := [];
      assert Dropped(before, ws[..0]) == before;
      for i := 0 to |ws|
        invariant cacheService.db == if c.enabled then Dropped(before, ws[..i]) else before
        invariant forall j :: 0 <= j < i ==> ReadsBack(rows, ws[j])
        invariant entities == Entities(rows, ws[..i])
      {
        var w := ws[i];
        if w.Patch? && !(w.id in rows && !rows[w.id].deleted) {
          FirstMissingIs(rows, ws, i);
          return NotFound(w.id);
        }
        assert ws[..i + 1][..i] == ws[..i];
        InvalidateCacheForEntity(w.id, ws[..i + 1], before);
        if (w.Save? || w.Patch?) && w.id in rows {
          entities := entities + [rows[w.id].row];
        }
      }
      FirstMissingIs(rows, ws, |ws|);
      assert ws[..|ws|] == ws;
      answer := Done(entities);
    }

    lemma FirstMissingIs(rows: Rows, ws: seq<Write>, n: nat)
      requires n <= |ws| && (forall j :: 0 <= j < n ==> ReadsBack(rows, ws[j]))
      requires n < |ws| ==> !ReadsBack(rows, ws[n])
      ensures FirstMissing(rows, ws) == n
    {
    }

    method UpdateMany(updates: seq<(string, Json)>) returns (updated: Answer)
      modifies this`rows, cacheService`db
      ensures (View(), updated) == Apply(c, old(View()), Batch(seq(|updates|, i requires 0 <= i < |updates| => Patch(updates[i].0, updates[i].1))))
    {
      var ws := seq(|updates|, i requires 0 <= i < |updates| => Patch(updates[i].0, updates[i].1));
      WriteRows(ws);
      updated := InvalidateAll(ws, cacheService.db);
    }

    method Update(id: string, patch: Json) returns (updated: Answer)
      modifies this`rows, cacheService`db
      ensures (View(), updated) == Apply(c, old(View()), Batch([Patch(id, patch)]))
    {
      WriteRows([Patch(id, patch)]);
      updated := InvalidateAll([Patch(id, patch)], cacheService.db);
    }

    method RemoveMany(ids: seq<string>) returns (answer: Answer)
      modifies this`rows, cacheService`db
      ensures (View(), answer) == Apply(c, old(View()), Batch(seq(|ids|, i requires 0 <= i < |ids| => Delete(ids[i]))))
    {
      var ws := seq(|ids|, i requires 0 <= i < |ids| => Delete(ids[i]));
      WriteRows(ws);
      answer := InvalidateAll(ws, cacheService.db);
    }

    method Remove(id: string) returns (answer: Answer)
      modifies this`rows, cacheService`db
      ensures (View(), answer) == Apply(c, old(View()), Batch([Delete(id)]))
    {
      WriteRows([Delete(id)]);
      answer := InvalidateAll([Delete(id)], cacheService.db);
    }

    method SoftDeleteMany(ids: seq<string>) returns (answer: Answer)
      modifies this`rows, cacheService`db
      ensures (View(), answer) == Apply(c, old(View()), Batch(seq(|ids|, i requires 0 <= i < |ids| => Hide(ids[i]))))
    {
      var ws := seq(|ids|, i requires 0 <= i < |ids| => Hide(ids[i]));
      answer := SoftBatch(ws);
    }

    method SoftBatch(ws: seq<Write>) returns (answer: Answer)
      requires forall w :: w in ws ==> w.Hide? || w.Show?
      modifies this`rows, cacheService`db
      ensures (View(), answer) == Apply(c, old(View()), Batch(ws))
    {
      if !c.softDeleteEnabled {
        if ws != [] {
          assert ws[0] in ws;
        }
        assert ws == [] ==> Dropped(cacheService.db, ws) == cacheService.db;
        return Done([]);
      }
      WriteRows(ws);
      answer := InvalidateAll(ws, cacheService.db);
    }

    method SoftDelete(id: string) returns (answer: Answer)
      modifies this`rows, cacheService`db
      ensures (View(), answer) == Apply(c, old(View()), Batch([Hide(id)]))
    {
      answer := SoftBatch([Hide(id)]);
    }

    method Restore(id: string) returns (answer: Answer)
      modifies this`rows, cacheService`db
      ensures (View(), answer) == Apply(c, old(View()), Batch([Show(id)]))
    {
      answer := SoftBatch([Show(id)]);
    }

    method FindById(id: string, opts: Options) returns (answer: Answer)
      modifies cacheService`db
      ensures (View(), answer) == Apply(c, old(View()), CachedReads.FindById(id, opts))
    {
      if id == "" { return BadRequest; }
      if c.enabled {
        var cached := cacheService.Get(IdKey(id));
        if cached.Some? { return Found(cached.value); }
      }
      var found := Ask(c, rows, Row(id), opts);
      if found.None? { return NotFound(id); }
      if c.enabled {
        var ok := cacheService.Set(IdKey(id), found.value, c.ttlSec);
        if !ok { return CacheError; }
      }
      answer := Found(found.value);
    }

    // What a request asks for, unless it searches a column that it may not.
    function QueryFor(p: Pagination): (r: Option<Query>)
      ensures r.None? <==> ConditionBuilder.PrepareFields(searchableColumns, p.filter.fields).None?
      ensures r.Some? ==>
                && AskedBy(r.value).page == p.page && AskedBy(r.value).limit == p.limit
                && AskedBy(r.value).sortBy == p.sortBy && AskedBy(r.value).order == p.order
                && AskedBy(r.value).where == Filters.Meaning(ConditionBuilder.Build(calendar,
                     p.filter.(fields := Some(ConditionBuilder.Many(ConditionBuilder.PrepareFields(searchableColumns, p.filter.fields).value))),
                     defaultSearchField))
    {
      var fields := ConditionBuilder.PrepareFields(searchableColumns, p.filter.fields);
      if fields.None? then None
      else
        var filter := p.filter.(fields := Some(ConditionBuilder.Many(fields.value)));
        Some(Query(ConditionBuilder.Build(calendar, filter, defaultSearchField), p.page, p.limit, p.sortBy, p.order))
    }

    method ListOffset(pagination: Pagination, opts: Options) returns (answer: Answer)
      modifies cacheService`db
      ensures var query := QueryFor(pagination);
              if query.None? then answer == BadRequest && View() == old(View())
              else (View(), answer) == Apply(c, old(View()), CachedReads.ListOffset(query.value, opts))
    {
      hide QueryFor, Apply;
      var query := QueryFor(pagination);
      if query.None? { return BadRequest; }
      answer := ListPage(query.value, opts);
    }

    method ListPage(query: Query, opts: Options) returns (answer: Answer)
      modifies cacheService`db
      ensures (View(), answer) == Apply(c, old(View()), CachedReads.ListOffset(query, opts))
    {
      hide PageText, Refreshed;
      var cacheKey := KeyOf(c, Page(query), opts);
      if c.enabled {
        var cached := cacheService.Get(cacheKey);
        if cached.Some? {
          RefreshCacheInBackground(query, opts);
          return Found(cached.value);
        }
      }
      var envelope := c.page(VisibleRows(rows, opts.withDeleted), AskedBy(query), opts.shape);
      if c.enabled {
        var ok := cacheService.Set(cacheKey, envelope, c.ttlSec);
        if !ok { return CacheError; }
      }
      answer := Found(envelope);
    }

    // A failing refresh is swallowed.
    method RefreshCacheInBackground(query: Query, opts: Options)
      modifies cacheService`db
      ensures View() == Refreshed(c, old(View()), query, opts)
    {
      if c.swrSec == 0 { return; }
      var cacheKey := KeyOf(c, Page(query), opts);
      var ttl := cacheService.GetTtl(cacheKey);
      if ttl != 0 && ttl >= 0 && ttl <= c.swrSec {
        var freshData := Ask(c, rows, Page(query), opts);
        var ok := cacheService.Set(cacheKey, freshData.value, c.ttlSec);
      }
    }
  }
}
