// The read-through cache of BaseService as a state machine: a repository of rows, the cache entries in
// front of it, and every operation of the service as one step. Rows, patches and pages are JSON texts; what the
// database makes of them is given by the functions of Config.
module CachedReads {
  import opened Wrappers
  import opened CacheStore
  import opened PageKeys
  import ConditionBuilder
  import KeyOrder
  import StableJson

  type Json = string

  datatype Record = Record(row: Json, deleted: bool)

  type Rows = map<string, Record>

  // `shape` holds the select and relations of a request.
  datatype Options = Options(shape: Shape, withDeleted: bool)

  datatype Key = IdKey(id: string) | ListKey(text: string)

  // `text` is JSON.stringify, `platform` the order in which keys are sorted and laid out.
  datatype Config = Config(
    enabled: bool, ttlSec: int, swrSec: int, softDeleteEnabled: bool, supportsSoftDelete: bool,
    platform: KeyOrder.Platform, text: StableJson.Json -> string,
    merge: (Option<Json>, Json) -> Json, project: (Json, Shape) -> Json, page: (map<string, Json>, Asked, Shape) -> Json)

  datatype Question = Row(id: string) | Page(query: Query)

  // The cache key of a row does not mention the options; the key of a page mentions neither withDeleted nor dates.
  function KeyOf(c: Config, q: Question, opts: Options): Key {
    match q
    case Row(id) => IdKey(id)
    case Page(query) => ListKey(PageText(c.platform, c.text, query, opts.shape))
  }

  datatype State = State(rows: Rows, now: int, db: map<Key, Entry<Json>>)

  datatype Write = Save(id: string, data: Json) | Patch(id: string, data: Json) | Delete(id: string) | Hide(id: string) | Show(id: string)

  // One write operation of the service is a batch; create, update, remove, softDelete and restore are
  // batches of one. Elsewhere is a write to the repository that does not go through the service.
  datatype Action =
    | Batch(writes: seq<Write>)
    | FindById(id: string, opts: Options)
    | ListOffset(query: Query, opts: Options)
    | Elsewhere(rows: Rows)
    | Advance(ms: nat)

  datatype Answer = Done(entities: seq<Json>) | Found(value: Json) | NotFound(id: string) | BadRequest | CacheError | Nothing

  // ----- The repository -----

  predicate Visible(rows: Rows, id: string, withDeleted: bool) {
    id in rows && (withDeleted || !rows[id].deleted)
  }

  function VisibleRows(rows: Rows, withDeleted: bool): map<string, Json> {
    map id | id in rows && Visible(rows, id, withDeleted) :: rows[id].row
  }

  function Written(c: Config, rows: Rows, w: Write): Rows {
    match w
    case Save(id, data) =>
      rows[id := Record(c.merge(if id in rows then Some(rows[id].row) else None, data), id in rows && rows[id].deleted)]
    case Patch(id, data) => if id in rows then rows[id := rows[id].(row := c.merge(Some(rows[id].row), data))] else rows
    case Delete(id) => rows - {id}
    case Hide(id) =>
      if !c.supportsSoftDelete then rows - {id} else if id in rows then rows[id := rows[id].(deleted := true)] else rows
    case Show(id) =>
      if c.supportsSoftDelete && id in rows then rows[id := rows[id].(deleted := false)] else rows
  }

  function WrittenAll(c: Config, rows: Rows, ws: seq<Write>): Rows {
    if ws == [] then rows else Written(c, WrittenAll(c, rows, ws[..|ws| - 1]), ws[|ws| - 1])
  }

  // What the repository answers.
  function Ask(c: Config, rows: Rows, q: Question, opts: Options): Option<Json> {
    match q
    case Row(id) => if Visible(rows, id, opts.withDeleted) then Some(c.project(rows[id].row, opts.shape)) else None
    case Page(query) => Some(c.page(VisibleRows(rows, opts.withDeleted), AskedBy(query), opts.shape))
  }

  // ----- The service -----

  predicate Soft(ws: seq<Write>) { exists w :: w in ws && (w.Hide? || w.Show?) }

  // update and updateMany read each row back, without options, and fail on the first that is not visible.
  predicate ReadsBack(rows: Rows, w: Write) { w.Patch? ==> Visible(rows, w.id, false) }

  function FirstMissing(rows: Rows, ws: seq<Write>): (n: nat)
    ensures n <= |ws|
    ensures forall i :: 0 <= i < n ==> ReadsBack(rows, ws[i])
    ensures n < |ws| ==> !ReadsBack(rows, ws[n])
  {
    if ws == [] then 0 else if !ReadsBack(rows, ws[0]) then 0 else 1 + FirstMissing(rows, ws[1..])
  }

  // The keys that invalidateCacheForEntity drops for these writes.
  predicate DropsKey(ws: seq<Write>, key: Key) {
    if key.ListKey? then ws != [] else exists w :: w in ws && w.id == key.id
  }

  function Dropped(db: map<Key, Entry<Json>>, ws: seq<Write>): map<Key, Entry<Json>> {
    map k | k in db && !DropsKey(ws, k) :: db[k]
  }

  // create and update hand back the rows; the other operations hand back nothing.
  function Entities(rows: Rows, ws: seq<Write>): seq<Json> {
    if ws == [] then [] else
      var w := ws[|ws| - 1];
      Entities(rows, ws[..|ws| - 1]) + (if (w.Save? || w.Patch?) && w.id in rows then [rows[w.id].row] else [])
  }

  function ApplyBatch(c: Config, s: State, ws: seq<Write>): (State, Answer) {
    if Soft(ws) && !c.softDeleteEnabled then (s, Done([]))
    else
      var rows := WrittenAll(c, s.rows, ws);
      var n := FirstMissing(rows, ws);
      (State(rows, s.now, if c.enabled then Dropped(s.db, ws[..n]) else s.db),
       if n < |ws| then NotFound(ws[n].id) else Done(Entities(rows, ws)))
  }

  function QuestionOf(a: Action): Question
    requires a.FindById? || a.ListOffset?
  {
    if a.FindById? then Row(a.id) else Page(a.query)
  }

  function Fill(c: Config, s: State, key: Key, value: Json): State {
    s.(db := s.db[key := Stored(value, c.ttlSec, s.now)])
  }

  // A miss asks the repository and stores the answer, unless there is none; Redis refuses a TTL of zero.
  function ApplyMiss(c: Config, s: State, q: Question, opts: Options): (State, Answer) {
    match Ask(c, s.rows, q, opts)
    case None => (s, NotFound(if q.Row? then q.id else ""))
    case Some(value) =>
      if !c.enabled then (s, Found(value))
      else if c.ttlSec == 0 then (s, CacheError)
      else (Fill(c, s, KeyOf(c, q, opts), value), Found(value))
  }

  // The stale-while-revalidate refresh after a hit on a page.
  function Refreshed(c: Config, s: State, query: Query, opts: Options): State {
    var key := KeyOf(c, Page(query), opts);
    var ttl := TtlOf(s.db, key, s.now);
    if c.swrSec != 0 && ttl != 0 && ttl >= 0 && ttl <= c.swrSec && c.ttlSec != 0
    then Fill(c, s, key, Ask(c, s.rows, Page(query), opts).value)
    else s
  }

  function ApplyRead(c: Config, s: State, a: Action): (State, Answer)
    requires a.FindById? || a.ListOffset?
  {
    var q := QuestionOf(a);
    var cached := if c.enabled then Lookup(s.db, KeyOf(c, q, a.opts), s.now) else None;
    if a.FindById? && a.id == "" then (s, BadRequest)
    else if cached.None? then ApplyMiss(c, s, q, a.opts)
    else if a.FindById? then (s, Found(cached.value))
    else (Refreshed(c, s, a.query, a.opts), Found(cached.value))
  }

  function Apply(c: Config, s: State, a: Action): (State, Answer) {
    match a
    case Batch(ws) => ApplyBatch(c, s, ws)
    case FindById(_, _) => ApplyRead(c, s, a)
    case ListOffset(_, _) => ApplyRead(c, s, a)
    case Elsewhere(rows) => (s.(rows := rows), Nothing)
    case Advance(ms) => (s.(now := s.now + ms), Nothing)
  }

  function Run(c: Config, s: State, actions: seq<Action>): State {
    if actions == [] then s else Apply(c, Run(c, s, actions[..|actions| - 1]), actions[|actions| - 1]).0
  }

  function Answers(c: Config, s: State, actions: seq<Action>): seq<Answer> {
    if actions == [] then [] else
      var n := |actions| - 1;
      Answers(c, s, actions[..n]) + [Apply(c, Run(c, s, actions[..n]), actions[n]).1]
  }

  // ----- Coherence -----

  // The questions of readers with one set of options who ask for these pages and any row.
  ghost predicate Covered(q: Question, queries: iset<Query>) { q.Page? ==> q.query in queries }

  // Live entries say what the repository would say now.
  ghost predicate Coherent(c: Config, s: State, opts: Options, queries: iset<Query>) {
    forall q :: Covered(q, queries) && Lookup(s.db, KeyOf(c, q, opts), s.now).Some? ==>
      Lookup(s.db, KeyOf(c, q, opts), s.now) == Ask(c, s.rows, q, opts)
  }

  // Requests that differ in their dates only get the same page of every table.
  ghost predicate Apart(c: Config, opts: Options, queries: iset<Query>) {
    forall a, b, rows :: a in queries && b in queries && UndatedAsked(a) == UndatedAsked(b) ==>
      Ask(c, rows, Page(a), opts) == Ask(c, rows, Page(b), opts)
  }

  // So it is when no two requests differ in their dates only.
  lemma ApartWithoutDates(c: Config, opts: Options, queries: iset<Query>)
    requires forall a, b :: a in queries && b in queries && UndatedAsked(a) == UndatedAsked(b) ==> AskedBy(a) == AskedBy(b)
    ensures Apart(c, opts, queries)
  {
    hide UndatedAsked, AskedBy;
  }

  // Questions with one key have one answer.
  lemma SameKeySameAnswer(c: Config, rows: Rows, opts: Options, queries: iset<Query>, q: Question, r: Question)
    requires StableJson.Injective(c.text) && Apart(c, opts, queries) && Covered(q, queries) && Covered(r, queries)
    requires KeyOf(c, q, opts) == KeyOf(c, r, opts)
    ensures Ask(c, rows, q, opts) == Ask(c, rows, r, opts)
  {
    hide PageText, Ask, UndatedAsked, StableJson.Injective;
    if q.Page? {
      KeyTells(c.platform, c.text, q.query, opts.shape, r.query, opts.shape);
    }
  }

  // The exact effect of any write and any invalidation on a coherent cache.
  lemma CoherentAfterWriteIff(c: Config, s: State, opts: Options, queries: iset<Query>, rows: Rows, ws: seq<Write>)
    requires Coherent(c, s, opts, queries)
    ensures Coherent(c, State(rows, s.now, Dropped(s.db, ws)), opts, queries) <==>
            forall q :: Covered(q, queries) && Lookup(s.db, KeyOf(c, q, opts), s.now).Some? && !DropsKey(ws, KeyOf(c, q, opts)) ==>
              Ask(c, rows, q, opts) == Ask(c, s.rows, q, opts)
  {
    hide KeyOf, Ask;
    var t := State(rows, s.now, Dropped(s.db, ws));
    forall k
      ensures Lookup(t.db, k, t.now) == if DropsKey(ws, k) then None else Lookup(s.db, k, s.now)
    {
    }
    if Coherent(c, t, opts, queries) {
      forall q | Covered(q, queries) && Lookup(s.db, KeyOf(c, q, opts), s.now).Some? && !DropsKey(ws, KeyOf(c, q, opts))
        ensures Ask(c, rows, q, opts) == Ask(c, s.rows, q, opts)
      {
        assert Lookup(t.db, KeyOf(c, q, opts), t.now) == Ask(c, rows, q, opts);
      }
    }
  }

  lemma {:induction false} WritesTouchTheirIds(c: Config, rows: Rows, ws: seq<Write>, id: string)
    requires !DropsKey(ws, IdKey(id))
    ensures (id in WrittenAll(c, rows, ws)) == (id in rows)
    ensures id in rows ==> WrittenAll(c, rows, ws)[id] == rows[id]
  {
    if ws != [] {
      var n := |ws| - 1;
      assert ws[n] in ws && ws[n].id != id;
      assert forall w :: w in ws[..n] ==> w in ws;
      WritesTouchTheirIds(c, rows, ws[..n], id);
    }
  }

  lemma WholeBatchKeepsCoherence(c: Config, s: State, opts: Options, queries: iset<Query>, ws: seq<Write>)
    requires Coherent(c, s, opts, queries)
    ensures Coherent(c, State(WrittenAll(c, s.rows, ws), s.now, Dropped(s.db, ws)), opts, queries)
  {
    hide PageText, Coherent;
    var rows := WrittenAll(c, s.rows, ws);
    forall q | Covered(q, queries) && Lookup(s.db, KeyOf(c, q, opts), s.now).Some? && !DropsKey(ws, KeyOf(c, q, opts))
      ensures Ask(c, rows, q, opts) == Ask(c, s.rows, q, opts)
    {
      if q.Row? {
        WritesTouchTheirIds(c, s.rows, ws, q.id);
      }
    }
    CoherentAfterWriteIff(c, s, opts, queries, rows, ws);
  }

  // update of a row that is missing or soft-deleted fails without invalidating; readers who do not see
  // soft-deleted rows cannot tell.
  lemma FailedUpdateKeepsCoherence(c: Config, s: State, opts: Options, queries: iset<Query>, w: Write)
    requires Coherent(c, s, opts, queries) && !opts.withDeleted
    requires w.Patch? && !ReadsBack(Written(c, s.rows, w), w)
    ensures Coherent(c, State(Written(c, s.rows, w), s.now, Dropped(s.db, [])), opts, queries)
  {
    hide PageText, Coherent;
    var rows := Written(c, s.rows, w);
    assert VisibleRows(rows, false) == VisibleRows(s.rows, false);
    forall q
      ensures Ask(c, rows, q, opts) == Ask(c, s.rows, q, opts)
    {
    }
    CoherentAfterWriteIff(c, s, opts, queries, rows, []);
  }

  // The steps that keep the cache coherent for these readers.
  ghost predicate Safe(c: Config, s: State, a: Action, opts: Options, queries: iset<Query>) {
    match a
    case Batch(ws) =>
      || (Soft(ws) && !c.softDeleteEnabled)
      || FirstMissing(WrittenAll(c, s.rows, ws), ws) == |ws|
      || (|ws| == 1 && !opts.withDeleted)
    case FindById(_, o) => o == opts
    case ListOffset(query, o) => o == opts && query in queries
    case Elsewhere(_) => false
    case Advance(_) => true
  }

  lemma BatchKeepsCoherence(c: Config, s: State, opts: Options, queries: iset<Query>, ws: seq<Write>)
    requires c.enabled && Coherent(c, s, opts, queries) && Safe(c, s, Batch(ws), opts, queries)
    ensures Coherent(c, ApplyBatch(c, s, ws).0, opts, queries)
  {
    hide Coherent;
    if !(Soft(ws) && !c.softDeleteEnabled) {
      var n := FirstMissing(WrittenAll(c, s.rows, ws), ws);
      if n == |ws| {
        assert ws[..n] == ws;
        WholeBatchKeepsCoherence(c, s, opts, queries, ws);
      } else {
        assert WrittenAll(c, s.rows, ws) == Written(c, WrittenAll(c, s.rows, ws[..0]), ws[0]);
        assert ws[..n] == [];
        FailedUpdateKeepsCoherence(c, s, opts, queries, ws[0]);
      }
    }
  }

  lemma FillKeepsCoherence(c: Config, s: State, opts: Options, queries: iset<Query>, q: Question)
    requires StableJson.Injective(c.text) && Apart(c, opts, queries) && Covered(q, queries)
    requires Coherent(c, s, opts, queries) && Ask(c, s.rows, q, opts).Some?
    ensures Coherent(c, Fill(c, s, KeyOf(c, q, opts), Ask(c, s.rows, q, opts).value), opts, queries)
  {
    hide KeyOf, Ask, Apart, StableJson.Injective;
    var t := Fill(c, s, KeyOf(c, q, opts), Ask(c, s.rows, q, opts).value);
    forall r | Covered(r, queries) && Lookup(t.db, KeyOf(c, r, opts), t.now).Some?
      ensures Lookup(t.db, KeyOf(c, r, opts), t.now) == Ask(c, t.rows, r, opts)
    {
      if KeyOf(c, r, opts) == KeyOf(c, q, opts) {
        SameKeySameAnswer(c, s.rows, opts, queries, q, r);
      } else {
        assert Lookup(t.db, KeyOf(c, r, opts), t.now) == Lookup(s.db, KeyOf(c, r, opts), s.now);
      }
    }
  }

  lemma ReadKeepsCoherence(c: Config, s: State, opts: Options, queries: iset<Query>, a: Action)
    requires c.enabled && StableJson.Injective(c.text) && Apart(c, opts, queries) && Coherent(c, s, opts, queries)
    requires (a.FindById? || a.ListOffset?) && Safe(c, s, a, opts, queries)
    ensures Coherent(c, ApplyRead(c, s, a).0, opts, queries)
    ensures c.ttlSec != 0 ==> ApplyRead(c, s, a).1 == ApplyRead(c.(enabled := false), s, a).1
  {
    hide KeyOf, Apart, StableJson.Injective, PageText;
    var q := QuestionOf(a);
    assert Covered(q, queries);
    assert Ask(c.(enabled := false), s.rows, q, opts) == Ask(c, s.rows, q, opts);
    if Ask(c, s.rows, q, opts).Some? {
      FillKeepsCoherence(c, s, opts, queries, q);
    }
  }

  lemma StepKeepsCoherence(c: Config, s: State, opts: Options, queries: iset<Query>, a: Action)
    requires c.enabled && StableJson.Injective(c.text) && Apart(c, opts, queries)
    requires Coherent(c, s, opts, queries) && Safe(c, s, a, opts, queries)
    ensures Coherent(c, Apply(c, s, a).0, opts, queries)
  {
    hide KeyOf, Ask, Apart, StableJson.Injective;
    match a {
      case Batch(ws) => BatchKeepsCoherence(c, s, opts, queries, ws);
      case FindById(_, _) => ReadKeepsCoherence(c, s, opts, queries, a);
      case ListOffset(_, _) => ReadKeepsCoherence(c, s, opts, queries, a);
      case Elsewhere(_) =>
      case Advance(ms) =>
        var t := s.(now := s.now + ms);
        assert forall k :: Lookup(t.db, k, t.now).Some? ==> Lookup(t.db, k, t.now) == Lookup(s.db, k, s.now);
    }
  }

  ghost predicate SafeRun(c: Config, s: State, actions: seq<Action>, opts: Options, queries: iset<Query>) {
    actions == [] ||
    (SafeRun(c, s, actions[..|actions| - 1], opts, queries) &&
     Safe(c, Run(c, s, actions[..|actions| - 1]), actions[|actions| - 1], opts, queries))
  }

  // The same service without its cache.
  function Uncached(c: Config): Config { c.(enabled := false) }

  lemma {:induction false} WrittenAllUncached(c: Config, rows: Rows, ws: seq<Write>)
    ensures WrittenAll(Uncached(c), rows, ws) == WrittenAll(c, rows, ws)
    decreases |ws|
  {
    if ws != [] {
      WrittenAllUncached(c, rows, ws[..|ws| - 1]);
    }
  }

  // One step of the cached service answers like the uncached one and leaves the same rows.
  lemma StepRefines(c: Config, s: State, u: State, opts: Options, queries: iset<Query>, a: Action)
    requires c.enabled && c.ttlSec != 0 && StableJson.Injective(c.text) && Apart(c, opts, queries)
    requires Coherent(c, s, opts, queries) && Safe(c, s, a, opts, queries) && u.rows == s.rows && u.now == s.now
    ensures Apply(c, s, a).1 == Apply(Uncached(c), u, a).1
    ensures Apply(c, s, a).0.rows == Apply(Uncached(c), u, a).0.rows
    ensures Apply(c, s, a).0.now == Apply(Uncached(c), u, a).0.now
  {
    hide KeyOf, Apart, StableJson.Injective, Coherent, PageText;
    match a {
      case Batch(ws) => WrittenAllUncached(c, s.rows, ws);
      case FindById(_, _) => ReadKeepsCoherence(c, s, opts, queries, a);
      case ListOffset(_, _) => ReadKeepsCoherence(c, s, opts, queries, a);
      case Elsewhere(_) =>
      case Advance(_) =>
    }
  }

  // Over any run of safe steps the cached service gives, answer by answer, what the uncached one gives.
  lemma {:induction false} CachedRefinesUncached(c: Config, s: State, opts: Options, queries: iset<Query>, actions: seq<Action>)
    requires c.enabled && c.ttlSec != 0 && StableJson.Injective(c.text) && Apart(c, opts, queries)
    requires Coherent(c, s, opts, queries) && SafeRun(c, s, actions, opts, queries)
    ensures Coherent(c, Run(c, s, actions), opts, queries)
    ensures Answers(c, s, actions) == Answers(Uncached(c), s, actions)
    ensures Run(c, s, actions).rows == Run(Uncached(c), s, actions).rows
    ensures Run(c, s, actions).now == Run(Uncached(c), s, actions).now
    decreases |actions|
  {
    hide Apply, Apart, StableJson.Injective, Coherent, Safe;
    if actions != [] {
      var n := |actions| - 1;
      CachedRefinesUncached(c, s, opts, queries, actions[..n]);
      var t := Run(c, s, actions[..n]);
      StepKeepsCoherence(c, t, opts, queries, actions[n]);
      StepRefines(c, t, Run(Uncached(c), s, actions[..n]), opts, queries, actions[n]);
    }
  }

  // ----- Where coherence is lost -----

  lemma TwoAnswers(c: Config, s: State, a: Action, b: Action)
    ensures Answers(c, s, [a, b]) == [Apply(c, s, a).1, Apply(c, Apply(c, s, a).0, b).1]
  {
    hide Apply;
    assert [a, b][..1] == [a] && [a][..0] == [];
    assert Run(c, s, []) == s && Answers(c, s, []) == [];
    assert Run(c, s, [a]) == Apply(c, s, a).0 && Answers(c, s, [a]) == [Apply(c, s, a).1];
  }

  // Two requests with one key, one after the other: the second is answered with the page of the first.
  lemma SecondGetsFirstPage(c: Config, s: State, opts: Options, asked: Options, a: Query, b: Query)
    requires c.enabled && c.ttlSec > 0
    requires KeyOf(c, Page(a), opts) == KeyOf(c, Page(b), asked) && Lookup(s.db, KeyOf(c, Page(a), opts), s.now).None?
    ensures var both := [ListOffset(a, opts), ListOffset(b, asked)];
            var first, second := Ask(c, s.rows, Page(a), opts).value, Ask(c, s.rows, Page(b), asked).value;
            Answers(c, s, both) == [Found(first), Found(first)] && Answers(Uncached(c), s, both) == [Found(first), Found(second)]
  {
    hide KeyOf, PageText;
    TwoAnswers(c, s, ListOffset(a, opts), ListOffset(b, asked));
    TwoAnswers(Uncached(c), s, ListOffset(a, opts), ListOffset(b, asked));
    assert Ask(Uncached(c), s.rows, Page(a), opts) == Ask(c, s.rows, Page(a), opts);
    assert Ask(Uncached(c), s.rows, Page(b), asked) == Ask(c, s.rows, Page(b), asked);
  }

  // So a request for other days is answered with the page of the days that were asked for before.
  lemma OtherDaysGetFirstPage(c: Config, s: State, opts: Options, cal: ConditionBuilder.Calendar, dto: ConditionBuilder.Dto,
                              defaultField: string, q: Query, fromDate: int, toDate: int)
    requires c.enabled && c.ttlSec > 0 && q.where == ConditionBuilder.Build(cal, dto, defaultField)
    requires Lookup(s.db, KeyOf(c, Page(q), opts), s.now).None?
    ensures var other := q.(where := ConditionBuilder.Build(cal, ConditionBuilder.Redated(dto, fromDate, toDate), defaultField));
            var both := [ListOffset(q, opts), ListOffset(other, opts)];
            var first, second := Ask(c, s.rows, Page(q), opts).value, Ask(c, s.rows, Page(other), opts).value;
            Answers(c, s, both) == [Found(first), Found(first)] && Answers(Uncached(c), s, both) == [Found(first), Found(second)]
  {
    hide PageText, ConditionBuilder.Build, Ask, Answers, UndatedAsked;
    var other := q.(where := ConditionBuilder.Build(cal, ConditionBuilder.Redated(dto, fromDate, toDate), defaultField));
    ConditionBuilder.RedatedSharesKey(c.platform, c.text, cal, dto, defaultField, q, opts.shape, fromDate, toDate);
    SecondGetsFirstPage(c, s, opts, opts, q, other);
  }

  // The key does not mention withDeleted: a page with soft-deleted rows is then served to a reader without them.
  lemma DeletedPageIsServed(c: Config, s: State, shape: Shape, query: Query)
    requires c.enabled && c.ttlSec > 0 && Lookup(s.db, KeyOf(c, Page(query), Options(shape, true)), s.now).None?
    ensures var both := [ListOffset(query, Options(shape, true)), ListOffset(query, Options(shape, false))];
            var all := c.page(VisibleRows(s.rows, true), AskedBy(query), shape);
            && Answers(c, s, both) == [Found(all), Found(all)]
            && Answers(Uncached(c), s, both) == [Found(all), Found(c.page(VisibleRows(s.rows, false), AskedBy(query), shape))]
  {
    SecondGetsFirstPage(c, s, Options(shape, true), Options(shape, false), query, query);
  }

  // A hit on a page is right for a reader with the same shape exactly when the rows hidden from one of the two
  // readers change nothing on it.
  lemma PageHitIgnoresDeleted(c: Config, s: State, filled: Options, asked: Options, queries: iset<Query>, query: Query)
    requires c.enabled && Coherent(c, s, filled, queries) && query in queries && asked.shape == filled.shape
    requires Lookup(s.db, KeyOf(c, Page(query), filled), s.now).Some?
    ensures ApplyRead(c, s, ListOffset(query, asked)).1 == ApplyRead(Uncached(c), s, ListOffset(query, asked)).1 <==>
            c.page(VisibleRows(s.rows, filled.withDeleted), AskedBy(query), asked.shape) ==
            c.page(VisibleRows(s.rows, asked.withDeleted), AskedBy(query), asked.shape)
  {
    hide PageText;
    assert Covered(Page(query), queries) && KeyOf(c, Page(query), asked) == KeyOf(c, Page(query), filled);
    assert Ask(Uncached(c), s.rows, Page(query), asked) == Ask(c, s.rows, Page(query), asked);
  }

  // The columns of the requests do not tie, as far as the key goes.
  ghost predicate TieFreeQueries(c: Config, opts: Options, queries: iset<Query>) {
    && KeyOrder.TotalPreorder(c.platform.compare) && KeyOrder.IndicesDiffer(c.platform)
    && forall q :: q in queries ==> KeysTieFree(c.platform, q, opts.shape)
  }

  // The cache cannot be noticed, in any safe run from an empty store, exactly when no two requests that differ
  // in their dates only have different pages of some table.
  lemma UnnoticedIff(c: Config, opts: Options, queries: iset<Query>)
    requires c.enabled && c.ttlSec > 0 && StableJson.Injective(c.text) && TieFreeQueries(c, opts, queries)
    ensures Apart(c, opts, queries) <==>
            forall s: State, actions :: s.db == map[] && SafeRun(c, s, actions, opts, queries) ==> Answers(c, s, actions) == Answers(Uncached(c), s, actions)
  {
    hide StableJson.Injective, KeyOf, TieFreeQueries, UndatedAsked, Apply, Safe;
    if Apart(c, opts, queries) {
      forall s: State, actions | s.db == map[] && SafeRun(c, s, actions, opts, queries)
        ensures Answers(c, s, actions) == Answers(Uncached(c), s, actions)
      {
        CachedRefinesUncached(c, s, opts, queries, actions);
      }
    } else {
      var a, b, rows :| a in queries && b in queries && UndatedAsked(a) == UndatedAsked(b) &&
        Ask(c, rows, Page(a), opts) != Ask(c, rows, Page(b), opts);
      NoticedRun(c, opts, queries, a, b, rows);
    }
  }

  lemma NoticedRun(c: Config, opts: Options, queries: iset<Query>, a: Query, b: Query, rows: Rows)
    requires c.enabled && c.ttlSec > 0 && StableJson.Injective(c.text) && TieFreeQueries(c, opts, queries)
    requires a in queries && b in queries && UndatedAsked(a) == UndatedAsked(b)
    requires Ask(c, rows, Page(a), opts) != Ask(c, rows, Page(b), opts)
    ensures var s, both := State(rows, 0, map[]), [ListOffset(a, opts), ListOffset(b, opts)];
            SafeRun(c, s, both, opts, queries) && Answers(c, s, both) != Answers(Uncached(c), s, both)
  {
    hide StableJson.Injective, PageText, UndatedAsked;
    var s, both := State(rows, 0, map[]), [ListOffset(a, opts), ListOffset(b, opts)];
    SameShapeAsItself(opts.shape);
    SameKeyIff(c.platform, c.text, a, opts.shape, b, opts.shape);
    SecondGetsFirstPage(c, s, opts, opts, a, b);
    assert both[..1] == [ListOffset(a, opts)] && both[..1][..0] == [];
    assert SafeRun(c, s, [], opts, queries) && SafeRun(c, s, both[..1], opts, queries);
  }

  // updateMany writes everything before it invalidates anything. When it stops at the first missing row, the
  // cache is coherent again exactly when every cached row that it was to reach later keeps its answer and, if it
  // reached none, every cached page keeps its contents.
  lemma FailedUpdateManyIff(c: Config, s: State, opts: Options, queries: iset<Query>, ws: seq<Write>, n: nat)
    requires c.enabled && Coherent(c, s, opts, queries) && !Soft(ws)
    requires n == FirstMissing(WrittenAll(c, s.rows, ws), ws)
    ensures var rows := WrittenAll(c, s.rows, ws);
            Coherent(c, ApplyBatch(c, s, ws).0, opts, queries) <==>
              && (forall i :: n <= i < |ws| && !DropsKey(ws[..n], IdKey(ws[i].id)) && Lookup(s.db, IdKey(ws[i].id), s.now).Some? ==>
                    Ask(c, rows, Row(ws[i].id), opts) == Ask(c, s.rows, Row(ws[i].id), opts))
              && (n == 0 ==> forall query :: query in queries && Lookup(s.db, KeyOf(c, Page(query), opts), s.now).Some? ==>
                    Ask(c, rows, Page(query), opts) == Ask(c, s.rows, Page(query), opts))
  {
    hide PageText, Coherent, Ask;
    var rows := WrittenAll(c, s.rows, ws);
    CoherentAfterWriteIff(c, s, opts, queries, rows, ws[..n]);
    forall id | !DropsKey(ws[..n], IdKey(id)) && Ask(c, rows, Row(id), opts) != Ask(c, s.rows, Row(id), opts)
      ensures exists i :: n <= i < |ws| && ws[i].id == id
    {
      ChangedRowIsNamed(c, s.rows, ws, n, opts, id);
    }
    forall i | n <= i < |ws|
      ensures KeyOf(c, Row(ws[i].id), opts) == IdKey(ws[i].id) && Covered(Row(ws[i].id), queries)
    {
    }
    forall query | query in queries
      ensures Covered(Page(query), queries) && (DropsKey(ws[..n], KeyOf(c, Page(query), opts)) <==> n != 0)
    {
    }
  }

  lemma ChangedRowIsNamed(c: Config, before: Rows, ws: seq<Write>, n: nat, opts: Options, id: string)
    requires n <= |ws| && !DropsKey(ws[..n], IdKey(id))
    requires Ask(c, WrittenAll(c, before, ws), Row(id), opts) != Ask(c, before, Row(id), opts)
    ensures exists i :: n <= i < |ws| && ws[i].id == id
  {
    if !DropsKey(ws, IdKey(id)) {
      WritesTouchTheirIds(c, before, ws, id);
    } else {
      var w :| w in ws && w.id == id;
      var i :| 0 <= i < |ws| && ws[i] == w;
      forall j | 0 <= j < n
        ensures ws[j].id != id
      {
        assert ws[..n][j] == ws[j] && ws[j] in ws[..n];
      }
    }
  }

  // The family that breaks: a missing row first, a cached row that changes behind it.
  lemma RowBehindMissingGoesStale(c: Config, s: State, opts: Options, queries: iset<Query>, missing: Write, later: Write)
    requires c.enabled && Coherent(c, s, opts, queries)
    requires missing.Patch? && later.Patch? && missing.id != later.id && missing.id !in s.rows
    requires Lookup(s.db, IdKey(later.id), s.now).Some? && later.id in s.rows
    requires c.project(c.merge(Some(s.rows[later.id].row), later.data), opts.shape) != c.project(s.rows[later.id].row, opts.shape)
    ensures ApplyBatch(c, s, [missing, later]).1 == NotFound(missing.id)
    ensures !Coherent(c, ApplyBatch(c, s, [missing, later]).0, opts, queries)
  {
    hide Coherent, PageText;
    assert KeyOf(c, Row(later.id), opts) == IdKey(later.id) && Covered(Row(later.id), queries);
    CoherentRow(c, s, opts, queries, later.id);
    var ws := [missing, later];
    var rows := WrittenAll(c, s.rows, ws);
    assert ws[..1] == [missing] && [missing][..0] == [];
    assert WrittenAll(c, s.rows, [missing]) == Written(c, s.rows, missing) == s.rows;
    assert rows == Written(c, s.rows, later);
    assert !ReadsBack(rows, ws[0]);
    assert ws[..0] == [];
    assert !DropsKey(ws[..0], IdKey(later.id));
    assert Ask(c, s.rows, Row(later.id), opts) == Some(c.project(s.rows[later.id].row, opts.shape));
    FailedUpdateManyIff(c, s, opts, queries, ws, 0);
  }

  lemma CoherentRow(c: Config, s: State, opts: Options, queries: iset<Query>, id: string)
    requires Coherent(c, s, opts, queries) && Lookup(s.db, IdKey(id), s.now).Some?
    ensures Lookup(s.db, IdKey(id), s.now) == Ask(c, s.rows, Row(id), opts)
  {
    assert KeyOf(c, Row(id), opts) == IdKey(id) && Covered(Row(id), queries);
  }

  // The key of a row does not mention the options, so a hit answers with the options of whoever filled it. It
  // is right for other options exactly when they may see the row and show the same of it.
  lemma HitIgnoresOptions(c: Config, s: State, filled: Options, asked: Options, queries: iset<Query>, id: string)
    requires c.enabled && id != "" && Coherent(c, s, filled, queries) && Lookup(s.db, IdKey(id), s.now).Some?
    ensures id in s.rows
    ensures ApplyRead(c, s, FindById(id, asked)).1 == ApplyRead(Uncached(c), s, FindById(id, asked)).1 <==>
              && (s.rows[id].deleted ==> asked.withDeleted)
              && c.project(s.rows[id].row, asked.shape) == c.project(s.rows[id].row, filled.shape)
  {
    hide Coherent;
    CoherentRow(c, s, filled, queries, id);
    assert Ask(Uncached(c), s.rows, Row(id), asked) == Ask(c, s.rows, Row(id), asked);
  }

  // A soft-deleted row, read once by somebody who may see it, is then served to somebody who may not.
  lemma DeletedRowIsServed(c: Config, s: State, id: string, shape: Shape)
    requires c.enabled && c.ttlSec > 0 && id != ""
    requires id in s.rows && s.rows[id].deleted && Lookup(s.db, IdKey(id), s.now).None?
    ensures var both := [FindById(id, Options(shape, true)), FindById(id, Options(shape, false))];
            && Answers(c, s, both) == [Found(c.project(s.rows[id].row, shape)), Found(c.project(s.rows[id].row, shape))]
            && Answers(Uncached(c), s, both) == [Found(c.project(s.rows[id].row, shape)), NotFound(id)]
  {
    var admin, guest := FindById(id, Options(shape, true)), FindById(id, Options(shape, false));
    TwoAnswers(c, s, admin, guest);
    TwoAnswers(Uncached(c), s, admin, guest);
  }

  // ----- Staleness with writes elsewhere -----

  // The states of a run, the current one last.
  function History(c: Config, s: State, actions: seq<Action>): (h: seq<State>)
    ensures |h| == |actions| + 1
  {
    if actions == [] then [s] else History(c, s, actions[..|actions| - 1]) + [Run(c, s, actions)]
  }

  // The repository said so at a moment not before `since`.
  ghost predicate SaidSince(c: Config, h: seq<State>, since: int, q: Question, opts: Options, value: Json) {
    exists i :: 0 <= i < |h| && h[i].now >= since && Ask(c, h[i].rows, q, opts) == Some(value)
  }

  // Every entry was the repository's answer no longer than the TTL before its deadline.
  ghost predicate Dated(c: Config, h: seq<State>, s: State, opts: Options, queries: iset<Query>) {
    forall q :: Covered(q, queries) && KeyOf(c, q, opts) in s.db ==> EntryDated(c, h, s.db[KeyOf(c, q, opts)], q, opts)
  }

  ghost predicate EntryDated(c: Config, h: seq<State>, e: Entry<Json>, q: Question, opts: Options) {
    e.expireAt.Some? && SaidSince(c, h, e.expireAt.value - 1000 * c.ttlSec, q, opts, e.value)
  }

  // All reads have these options and ask for these pages or a row.
  ghost predicate FixedReads(actions: seq<Action>, opts: Options, queries: iset<Query>) {
    forall i :: 0 <= i < |actions| && (actions[i].FindById? || actions[i].ListOffset?) ==>
      actions[i].opts == opts && Covered(QuestionOf(actions[i]), queries)
  }

  lemma SaidLater(c: Config, h: seq<State>, t: State, since: int, q: Question, opts: Options, value: Json)
    requires SaidSince(c, h, since, q, opts, value)
    ensures SaidSince(c, h + [t], since, q, opts, value)
  {
    var i :| 0 <= i < |h| && h[i].now >= since && Ask(c, h[i].rows, q, opts) == Some(value);
    assert (h + [t])[i] == h[i];
  }

  // An entry that survives stays dated, and one that is filled from the rows of now is.
  lemma EntryStaysDated(c: Config, h: seq<State>, s: State, t: State, opts: Options, queries: iset<Query>, q: Question)
    requires Dated(c, h, s, opts, queries) && Covered(q, queries) && KeyOf(c, q, opts) in s.db
    ensures EntryDated(c, h + [t], s.db[KeyOf(c, q, opts)], q, opts)
  {
    var e := s.db[KeyOf(c, q, opts)];
    SaidLater(c, h, t, e.expireAt.value - 1000 * c.ttlSec, q, opts, e.value);
  }

  lemma FilledIsDated(c: Config, h: seq<State>, t: State, opts: Options, q: Question)
    requires c.ttlSec > 0 && Ask(c, t.rows, q, opts).Some?
    ensures EntryDated(c, h + [t], Stored(Ask(c, t.rows, q, opts).value, c.ttlSec, t.now), q, opts)
  {
    assert (h + [t])[|h|] == t;
  }

  lemma StaysDated(c: Config, h: seq<State>, s: State, t: State, opts: Options, queries: iset<Query>)
    requires Dated(c, h, s, opts, queries) && forall k :: k in t.db ==> k in s.db && t.db[k] == s.db[k]
    ensures Dated(c, h + [t], t, opts, queries)
  {
    hide KeyOf, EntryDated;
    forall q | Covered(q, queries) && KeyOf(c, q, opts) in t.db
      ensures EntryDated(c, h + [t], t.db[KeyOf(c, q, opts)], q, opts)
    {
      EntryStaysDated(c, h, s, t, opts, queries, q);
    }
  }

  lemma FillStaysDated(c: Config, h: seq<State>, s: State, opts: Options, queries: iset<Query>, q: Question)
    requires StableJson.Injective(c.text) && Apart(c, opts, queries) && Covered(q, queries)
    requires Dated(c, h, s, opts, queries) && c.ttlSec > 0 && Ask(c, s.rows, q, opts).Some?
    ensures var t := Fill(c, s, KeyOf(c, q, opts), Ask(c, s.rows, q, opts).value); Dated(c, h + [t], t, opts, queries)
  {
    hide KeyOf, EntryDated, Apart, StableJson.Injective, Ask;
    var t := Fill(c, s, KeyOf(c, q, opts), Ask(c, s.rows, q, opts).value);
    forall r | Covered(r, queries) && KeyOf(c, r, opts) in t.db
      ensures EntryDated(c, h + [t], t.db[KeyOf(c, r, opts)], r, opts)
    {
      if KeyOf(c, r, opts) == KeyOf(c, q, opts) {
        SameKeySameAnswer(c, s.rows, opts, queries, q, r);
        FilledIsDated(c, h, t, opts, r);
      } else {
        EntryStaysDated(c, h, s, t, opts, queries, r);
      }
    }
  }

  lemma StepStaysDated(c: Config, h: seq<State>, s: State, a: Action, opts: Options, queries: iset<Query>)
    requires StableJson.Injective(c.text) && Apart(c, opts, queries) && Dated(c, h, s, opts, queries) && c.ttlSec > 0
    requires a.FindById? || a.ListOffset? ==> a.opts == opts && Covered(QuestionOf(a), queries)
    ensures Dated(c, h + [Apply(c, s, a).0], Apply(c, s, a).0, opts, queries)
  {
    hide KeyOf, Dated, Apart, StableJson.Injective, Covered;
    var t := Apply(c, s, a).0;
    if a.FindById? || a.ListOffset? {
      var q := QuestionOf(a);
      if Ask(c, s.rows, q, opts).Some? {
        FillStaysDated(c, h, s, opts, queries, q);
      }
      if t == s {
        StaysDated(c, h, s, t, opts, queries);
      }
    } else {
      StaysDated(c, h, s, t, opts, queries);
    }
  }

  lemma {:induction false} RunStaysDated(c: Config, s: State, actions: seq<Action>, opts: Options, queries: iset<Query>)
    requires StableJson.Injective(c.text) && Apart(c, opts, queries)
    requires s.db == map[] && c.ttlSec > 0 && FixedReads(actions, opts, queries)
    ensures Dated(c, History(c, s, actions), Run(c, s, actions), opts, queries)
    decreases |actions|
  {
    hide Apart, StableJson.Injective, Apply;
    if actions != [] {
      var n := |actions| - 1;
      assert forall i :: 0 <= i < n ==> actions[..n][i] == actions[i];
      RunStaysDated(c, s, actions[..n], opts, queries);
      StepStaysDated(c, History(c, s, actions[..n]), Run(c, s, actions[..n]), actions[n], opts, queries);
    }
  }

  // Whatever is written behind the service's back and whatever fails on the way, an answer was the
  // repository's answer at some moment of the run at most ttlSec ago; "not found" is always the truth of now.
  lemma AnswersAreRecent(c: Config, s: State, actions: seq<Action>, read: Action, queries: iset<Query>)
    requires read.FindById? || read.ListOffset?
    requires StableJson.Injective(c.text) && Apart(c, read.opts, queries)
    requires s.db == map[] && c.enabled && c.ttlSec > 0
    requires Covered(QuestionOf(read), queries) && FixedReads(actions, read.opts, queries)
    ensures var t := Run(c, s, actions);
            var answer := Apply(c, t, read).1;
            if answer.Found? then SaidSince(c, History(c, s, actions), t.now - 1000 * c.ttlSec, QuestionOf(read), read.opts, answer.value)
            else if read.FindById? && read.id == "" then answer == BadRequest
            else answer.NotFound? && Ask(c, t.rows, QuestionOf(read), read.opts) == None
  {
    hide Apart, StableJson.Injective, Covered, Run, History, ApplyRead, SaidSince;
    AnswerIsRecent(c, s, actions, read, queries);
  }

  lemma HistoryEnds(c: Config, s: State, actions: seq<Action>)
    ensures var h := History(c, s, actions); h[|h| - 1] == Run(c, s, actions)
  {
  }

  lemma AnswerIsRecent(c: Config, s: State, actions: seq<Action>, read: Action, queries: iset<Query>)
    requires read.FindById? || read.ListOffset?
    requires StableJson.Injective(c.text) && Apart(c, read.opts, queries)
    requires s.db == map[] && c.enabled && c.ttlSec > 0
    requires Covered(QuestionOf(read), queries) && FixedReads(actions, read.opts, queries)
    ensures var t := Run(c, s, actions);
            var answer := ApplyRead(c, t, read).1;
            if answer.Found? then SaidSince(c, History(c, s, actions), t.now - 1000 * c.ttlSec, QuestionOf(read), read.opts, answer.value)
            else if read.FindById? && read.id == "" then answer == BadRequest
            else answer.NotFound? && Ask(c, t.rows, QuestionOf(read), read.opts) == None
  {
    hide KeyOf, Apart, StableJson.Injective, Covered, Run;
    HistoryEnds(c, s, actions);
    hide History;
    var t, h, q := Run(c, s, actions), History(c, s, actions), QuestionOf(read);
    RunStaysDated(c, s, actions, read.opts, queries);
    if Lookup(t.db, KeyOf(c, q, read.opts), t.now).Some? {
      var e := t.db[KeyOf(c, q, read.opts)];
      SaidSinceEarlier(c, h, e.expireAt.value - 1000 * c.ttlSec, t.now - 1000 * c.ttlSec, q, read.opts, e.value);
    } else {
      assert h[|h| - 1] == t;
    }
  }

  lemma SaidSinceEarlier(c: Config, h: seq<State>, since: int, earlier: int, q: Question, opts: Options, value: Json)
    requires SaidSince(c, h, since, q, opts, value) && earlier <= since
    ensures SaidSince(c, h, earlier, q, opts, value)
  {
  }

  // A hit on a page in its last swrSec seconds leaves the current page behind.
  lemma RefreshedInTheWindow(c: Config, s: State, query: Query, opts: Options)
    requires c.enabled && c.ttlSec > 0 && 0 < TtlOf(s.db, KeyOf(c, Page(query), opts), s.now) <= c.swrSec
    ensures var t, key := Apply(c, s, ListOffset(query, opts)).0, KeyOf(c, Page(query), opts);
            && Apply(c, s, ListOffset(query, opts)).1 == Found(s.db[key].value)
            && Lookup(t.db, key, t.now) == Ask(c, s.rows, Page(query), opts)
            && TtlOf(t.db, key, t.now) == c.ttlSec
  {
    hide PageText;
  }
}
