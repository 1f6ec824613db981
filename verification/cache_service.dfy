// The Redis store behind CacheService: one key space with per-key expiry and one clock (milliseconds).
// A key is gone once the clock has moved past its deadline; the dead entry stays in `db` until it is
// overwritten or deleted, and no read can see it.
module CacheStore {
  import opened Wrappers

  datatype Entry<+V> = Entry(value: V, expireAt: Option<int>)

  predicate Live<V>(e: Entry<V>, now: int) {
    e.expireAt.None? || now <= e.expireAt.value
  }

  function Lookup<K, V>(db: map<K, Entry<V>>, key: K, now: int): Option<V> {
    if key in db && Live(db[key], now) then Some(db[key].value) else None
  }

  // What SETEX leaves behind (a positive TTL) or SET (a negative one).
  function Stored<V>(value: V, ttlInSec: int, now: int): Entry<V> {
    Entry(value, if ttlInSec >= 0 then Some(now + 1000 * ttlInSec) else None)
  }

  // INCR, ZADD and HMSET keep the deadline of a live key and create a missing key without one.
  function Rewritten<K, V>(db: map<K, Entry<V>>, key: K, value: V, now: int): Entry<V> {
    Entry(value, if key in db && Live(db[key], now) then db[key].expireAt else None)
  }

  // EXPIRE: a missing key stays missing, a TTL that is not positive deletes the key.
  function Expiring<K, V>(db: map<K, Entry<V>>, key: K, ttlInSec: int, now: int): map<K, Entry<V>> {
    if Lookup(db, key, now).None? then db
    else if ttlInSec <= 0 then db - {key}
    else db[key := db[key].(expireAt := Some(now + 1000 * ttlInSec))]
  }

  // TTL: -2 for a missing key, -1 for one that never expires, else seconds rounded to the nearest.
  function TtlOf<K, V>(db: map<K, Entry<V>>, key: K, now: int): int {
    if Lookup(db, key, now).None? then -2
    else if db[key].expireAt.None? then -1
    else (db[key].expireAt.value - now + 500) / 1000
  }

  ghost predicate NoneTwice<T>(s: seq<T>) { forall i, j :: 0 <= i < j < |s| ==> s[i] != s[j] }

  ghost function Listed<T>(s: seq<T>): set<T> { set x | x in s }

  lemma {:induction false} ListedSize<T>(s: seq<T>)
    ensures |Listed(s)| <= |s|
    ensures NoneTwice(s) ==> |Listed(s)| == |s|
    decreases |s|
  {
    if s != [] {
      var n := |s| - 1;
      ListedSize(s[..n]);
      assert s == s[..n] + [s[n]];
      assert Listed(s) == Listed(s[..n]) + {s[n]};
    }
  }

  function Flat<T>(pages: seq<seq<T>>): seq<T> {
    if pages == [] then [] else Flat(pages[..|pages| - 1]) + pages[|pages| - 1]
  }

  lemma FlatNext<T>(pages: seq<seq<T>>, n: nat)
    requires n < |pages|
    ensures Flat(pages[..n + 1]) == Flat(pages[..n]) + pages[n]
  {
    assert pages[..n + 1][..n] == pages[..n];
  }

  lemma {:induction false} FlatHas<T>(pages: seq<seq<T>>)
    ensures forall x :: x in Flat(pages) <==> exists p :: 0 <= p < |pages| && x in pages[p]
    decreases |pages|
  {
    if pages != [] {
      FlatHas(pages[..|pages| - 1]);
    }
  }

  lemma DropTwice<K, V>(db: map<K, V>, a: seq<K>, b: seq<K>)
    ensures db - Listed(a + b) == (db - Listed(a)) - Listed(b)
    ensures b == [] ==> db - Listed(a + b) == db - Listed(a)
  {
    assert Listed(a + b) == Listed(a) + Listed(b);
  }

  // Dropping a list of all the matching names, and how many keys that takes.
  lemma MatchesDropped<K, V>(db: map<K, V>, names: seq<K>, matches: K -> bool)
    requires forall k :: k in names <==> k in db && matches(k)
    ensures db - Listed(names) == map k | k in db && !matches(k) :: db[k]
    ensures |names| >= |db.Keys - (db - Listed(names)).Keys|
    ensures NoneTwice(names) ==> |names| == |db.Keys - (db - Listed(names)).Keys|
  {
    ListedSize(names);
    assert db.Keys - (db - Listed(names)).Keys == Listed(names);
  }

  class CacheService<K(==), V> {
    var now: int
    var db: map<K, Entry<V>>

    constructor (start: int)
      ensures now == start && db == map[]
    {
      now := start;
      db := map[];
    }

    // Time passes; the clock never goes back.
    method Advance(ms: nat)
      modifies this`now
      ensures now == old(now) + ms
    {
      now := now + ms;
    }

    method Get(key: K) returns (value: Option<V>)
      ensures value == Lookup(db, key, now)
    {
      if key in db && Live(db[key], now) {
        value := Some(db[key].value);
      } else {
        value := None;
      }
    }

    // SETEX refuses a TTL of zero; a negative TTL means no expiry.
    method Set(key: K, value: V, ttlInSec: int) returns (ok: bool)
      modifies this`db
      ensures ok <==> ttlInSec != 0
      ensures db == if ok then old(db)[key := Stored(value, ttlInSec, now)] else old(db)
    {
      ok := ttlInSec != 0;
      if ok {
        db := db[key := Stored(value, ttlInSec, now)];
      }
    }

    method Write(key: K, value: V)
      modifies this`db
      ensures db == old(db)[key := Rewritten(old(db), key, value, now)]
    {
      db := db[key := Rewritten(db, key, value, now)];
    }

    method Expire(key: K, ttlInSec: int)
      modifies this`db
      ensures db == Expiring(old(db), key, ttlInSec, now)
    {
      db := Expiring(db, key, ttlInSec, now);
    }

    method Delete(key: K)
      modifies this`db
      ensures db == old(db) - {key}
    {
      db := db - {key};
    }

    method GetTtl(key: K) returns (ttl: int)
      ensures ttl == TtlOf(db, key, now)
    {
      ttl := TtlOf(db, key, now);
    }

    // One full SCAN iteration, in an order of Redis's choosing: every standing match is returned at
    // least once, possibly more than once, and nothing else is returned.
    method Scan(matches: K -> bool) returns (pages: seq<seq<K>>)
      ensures |pages| > 0
      ensures forall p, k :: 0 <= p < |pages| && k in pages[p] ==> k in db && matches(k)
      ensures forall k :: k in db && matches(k) ==> exists p :: 0 <= p < |pages| && k in pages[p]
    {
      var rest := set k | k in db && matches(k);
      var page: seq<K> := [];
      while rest != {}
        invariant forall k :: k in page ==> k in db && matches(k)
        invariant forall k :: k in db && matches(k) ==> k in rest || k in page
        invariant forall k :: k in rest ==> k in db && matches(k)
        decreases |rest|
      {
        var k :| k in rest;
        rest := rest - {k};
        page := page + [k];
      }
      pages := [page];
      assert forall k :: k in page ==> k in pages[0];
    }

    // findKeysByPattern: the pages in one list.
    method FindKeysByPattern(matches: K -> bool) returns (keys: seq<K>)
      ensures forall k :: k in keys <==> k in db && matches(k)
    {
      var pages := Scan(matches);
      var cursor := 0;
      keys := [];
      while cursor < |pages|
        invariant 0 <= cursor <= |pages| && keys == Flat(pages[..cursor])
      {
        FlatNext(pages, cursor);
        keys := keys + pages[cursor];
        cursor := cursor + 1;
      }
      assert pages[..cursor] == pages;
      FlatHas(pages);
    }

    method Del(keys: seq<K>)
      modifies this`db
      ensures db == old(db) - Listed(keys)
    {
      db := db - set k | k in keys;
    }

    // SCAN and DEL page by page: whatever the order, every key that matched at the start is gone at the end
    // and no other key is touched. The count is the number of names SCAN returned; it is the number of deleted
    // keys when SCAN returned none twice, and never less.
    method DeleteKeysByPattern(matches: K -> bool) returns (deleted: nat, ghost names: seq<K>)
      modifies this`db
      ensures db == map k | k in old(db) && !matches(k) :: old(db)[k]
      ensures deleted == |names| && forall k :: k in names <==> k in old(db) && matches(k)
      ensures deleted >= |old(db).Keys - db.Keys|
      ensures NoneTwice(names) ==> deleted == |old(db).Keys - db.Keys|
    {
      hide NoneTwice;
      ghost var was := db;
      var pages := Scan(matches);
      var cursor := 0;
      deleted, names := 0, [];
      while cursor < |pages|
        invariant 0 <= cursor <= |pages| && names == Flat(pages[..cursor])
        invariant db == was - Listed(names)
        invariant deleted == |names|
      {
        var keys := pages[cursor];
        FlatNext(pages, cursor);
        DropTwice(was, names, keys);
        cursor := cursor + 1;
        if |keys| > 0 {
          Del(keys);
          deleted := deleted + |keys|;
        }
        names := names + keys;
      }
      assert pages[..cursor] == pages;
      FlatHas(pages);
      MatchesDropped(was, names, matches);
    }
  }
}
