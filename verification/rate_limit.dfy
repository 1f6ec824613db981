// The rate-limit scripts of RateLimitService: each is a method over Redis commands, proved equal to a step
// function on the one key it touches. The history theorems are about runs of those step functions.
module RateLimit {
  import opened Wrappers
  import opened CacheStore

  // What a rate-limit key can hold: a counter, a zset whose members are their own scores, or a bucket hash.
  datatype RateValue =
    | Count(n: int)
    | Stamps(seconds: set<int>)
    | Bucket(tokens: real, lastRefill: int)

  type Slot = Option<Entry<RateValue>>

  datatype Policy =
    | FixedWindow(limit: int, windowSec: int)
    | SlidingWindow(limit: int, windowSec: int)
    | TokenBucket(burst: int, refillPerSec: real)

  // The three numbers a script returns, or the error Redis raises when the key holds another type.
  datatype Reply = Reply(allowed: bool, current: int, window: int) | WrongType

  const BUCKET_TTL := 3600

  function Seconds(now: int): int { now / 1000 }

  function Held(slot: Slot, now: int): Option<RateValue> {
    if slot.Some? && Live(slot.value, now) then Some(slot.value.value) else None
  }

  function SlotOf(db: map<string, Entry<RateValue>>, key: string): Slot {
    if key in db then Some(db[key]) else None
  }

  function WithSlot(db: map<string, Entry<RateValue>>, key: string, slot: Slot): map<string, Entry<RateValue>> {
    if slot.Some? then db[key := slot.value] else db - {key}
  }

  // A key whose deadline is `ttlInSec` away; with a TTL that is not positive EXPIRE removes it.
  function Expired(value: RateValue, ttlInSec: int, now: int): Slot {
    if ttlInSec <= 0 then None else Some(Entry(value, Some(now + 1000 * ttlInSec)))
  }

  function FixedWindowStep(slot: Slot, limit: int, window: int, now: int): (Reply, Slot) {
    match Held(slot, now)
    case Some(Count(n)) =>
      if n >= limit then (Reply(false, n, window), slot)
      else if n + 1 == 1 then (Reply(true, 1, window), Expired(Count(1), window, now))
      else (Reply(true, n + 1, window), Some(Entry(Count(n + 1), slot.value.expireAt)))
    case Some(_) => (WrongType, slot)
    case None =>
      if 0 >= limit then (Reply(false, 0, window), slot)
      else (Reply(true, 1, window), Expired(Count(1), window, now))
  }

  function Purged(seconds: set<int>, sec: int, window: int): set<int> {
    set s | s in seconds && !(0 <= s <= sec - window)
  }

  function SlidingWindowStep(slot: Slot, limit: int, window: int, now: int): (Reply, Slot) {
    var sec := Seconds(now);
    match Held(slot, now)
    case Some(Stamps(seconds)) =>
      var kept := Purged(seconds, sec, window);
      if |kept| >= limit then
        (Reply(false, |kept|, window), if kept == {} then None else Some(Entry(Stamps(kept), slot.value.expireAt)))
      else
        (Reply(true, |kept| + 1, window), Expired(Stamps(kept + {sec}), window, now))
    case Some(_) => (WrongType, slot)
    case None =>
      if 0 >= limit then (Reply(false, 0, window), slot)
      else (Reply(true, 1, window), Expired(Stamps({sec}), window, now))
  }

  function Min(a: real, b: real): real { if a <= b then a else b }

  function Refilled(tokens: real, lastRefill: int, sec: int, burst: int, refill: real): real {
    Min(burst as real, tokens + (sec - lastRefill) as real * refill)
  }

  function Truncated(x: real): int { if x >= 0.0 then x.Floor else -((-x).Floor) }

  function TokenBucketStep(slot: Slot, burst: int, refill: real, now: int): (Reply, Slot) {
    var sec := Seconds(now);
    match Held(slot, now)
    case Some(Bucket(tokens, lastRefill)) => Drawn(Refilled(tokens, lastRefill, sec, burst, refill), now)
    case Some(_) => (WrongType, slot)
    case None => Drawn(Refilled(burst as real, sec, sec, burst, refill), now)
  }

  function Drawn(tokens: real, now: int): (Reply, Slot) {
    if tokens < 1.0 then (Reply(false, 0, 1), Expired(Bucket(tokens, Seconds(now)), BUCKET_TTL, now))
    else (Reply(true, Truncated(tokens - 1.0), 1), Expired(Bucket(tokens - 1.0, Seconds(now)), BUCKET_TTL, now))
  }

  function PolicyStep(p: Policy, slot: Slot, now: int): (Reply, Slot) {
    match p
    case FixedWindow(limit, window) => FixedWindowStep(slot, limit, window, now)
    case SlidingWindow(limit, window) => SlidingWindowStep(slot, limit, window, now)
    case TokenBucket(burst, refill) => TokenBucketStep(slot, burst, refill, now)
  }

  // A script error is caught by the service, which then lets the request through.
  predicate LetsThrough(r: Reply) { r.WrongType? || r.allowed }

  // A history is the list of request times of one key under one policy, starting with no key.
  function Run(p: Policy, times: seq<int>): (r: (seq<bool>, Slot))
    ensures |r.0| == |times|
  {
    if times == [] then ([], None)
    else
      var prev := Run(p, times[..|times| - 1]);
      var step := PolicyStep(p, prev.1, times[|times| - 1]);
      (prev.0 + [LetsThrough(step.0)], step.1)
  }

  // The request times that were let through, in order.
  function Admitted(p: Policy, times: seq<int>): (adm: seq<int>)
    ensures |adm| <= |times|
  {
    if times == [] then []
    else
      var n := |times| - 1;
      Admitted(p, times[..n]) + if Run(p, times).0[n] then [times[n]] else []
  }

  lemma RunAppend(p: Policy, times: seq<int>, now: int)
    ensures var step := PolicyStep(p, Run(p, times).1, now);
            && Run(p, times + [now]) == (Run(p, times).0 + [LetsThrough(step.0)], step.1)
            && Admitted(p, times + [now]) == Admitted(p, times) + if LetsThrough(step.0) then [now] else []
  {
    assert (times + [now])[..|times|] == times;
  }

  ghost predicate NonDecreasing(times: seq<int>) {
    forall i, j :: 0 <= i <= j < |times| ==> times[i] <= times[j]
  }

  datatype Params = Params(strategy: string, limit: Option<int>, windowSec: Option<int>, burst: Option<int>,
                           refillPerSec: Option<real>)

  function GetOr<T>(o: Option<T>, default: T): T { if o.Some? then o.value else default }

  function PolicyOf(params: Params): Policy {
    if params.strategy == "fixedWindow" then FixedWindow(GetOr(params.limit, 100), GetOr(params.windowSec, 60))
    else if params.strategy == "slidingWindow" then SlidingWindow(GetOr(params.limit, 100), GetOr(params.windowSec, 60))
    else if params.strategy == "tokenBucket" then TokenBucket(GetOr(params.burst, 20), GetOr(params.refillPerSec, 5.0))
    else FixedWindow(100, 60)
  }

  // The X-RateLimit headers.
  datatype Headers = Headers(limit: int, remaining: int, reset: int, policy: string, strategy: string) | ErrorFallback

  // An absent number and a zero give way to the next.
  function OrElse(o: Option<int>, next: int): int { if o.Some? && o.value != 0 then o.value else next }

  function HeadersOf(params: Params, policy: string, reply: Reply, now: int): Headers {
    if reply.WrongType? then ErrorFallback
    else
      var limit := OrElse(params.limit, OrElse(params.burst, 100));
      Headers(limit, if limit > reply.current then limit - reply.current else 0, Seconds(now) + reply.window, policy, params.strategy)
  }

  datatype Decision = Decision(allowed: bool, headers: Headers, retryAfter: Option<int>)

  class RateLimitService {
    const cache: CacheService<string, RateValue>

    constructor (cache: CacheService<string, RateValue>)
      ensures this.cache == cache
    {
      this.cache := cache;
    }

    method FixedWindowScript(key: string, limit: int, window: int) returns (reply: Reply)
      modifies cache`db
      ensures (reply, SlotOf(cache.db, key)) == FixedWindowStep(SlotOf(old(cache.db), key), limit, window, cache.now)
      ensures cache.db == WithSlot(old(cache.db), key, SlotOf(cache.db, key))
    {
      var got := cache.Get(key);
      if got.Some? && !got.value.Count? {
        return WrongType;
      }
      var current := if got.Some? then got.value.n else 0;
      if current >= limit {
        return Reply(false, current, window);
      }
      var newCount := current + 1;
      cache.Write(key, Count(newCount));
      if newCount == 1 {
        cache.Expire(key, window);
      }
      reply := Reply(true, newCount, window);
    }

    // ZREMRANGEBYSCORE; a zset that becomes empty is removed.
    method Purge(key: string, held: set<int>, window: int, now: int) returns (kept: set<int>)
      requires Held(SlotOf(cache.db, key), cache.now) == Some(Stamps(held))
      modifies cache`db
      ensures kept == Purged(held, now, window)
      ensures cache.db == WithSlot(old(cache.db), key, if kept == {} then None else Some(Entry(Stamps(kept), old(cache.db)[key].expireAt)))
    {
      kept := Purged(held, now, window);
      if kept == {} {
        cache.Delete(key);
      } else {
        cache.Write(key, Stamps(kept));
      }
    }

    method Hold(key: string, value: RateValue, ttlInSec: int)
      modifies cache`db
      ensures cache.db == WithSlot(old(cache.db), key, Expired(value, ttlInSec, cache.now))
    {
      cache.Write(key, value);
      cache.Expire(key, ttlInSec);
    }

    method SlidingWindowScript(key: string, limit: int, window: int, now: int) returns (reply: Reply)
      requires now == Seconds(cache.now)
      modifies cache`db
      ensures (reply, SlotOf(cache.db, key)) == SlidingWindowStep(SlotOf(old(cache.db), key), limit, window, cache.now)
      ensures cache.db == WithSlot(old(cache.db), key, SlotOf(cache.db, key))
    {
      hide Purged;
      var got := cache.Get(key);
      if got.Some? && !got.value.Stamps? {
        return WrongType;
      }
      var kept := {};
      if got.Some? {
        kept := Purge(key, got.value.seconds, window, now);
      }
      var current := |kept|;
      if current >= limit {
        return Reply(false, current, window);
      }
      Hold(key, Stamps(kept + {now}), window);
      reply := Reply(true, current + 1, window);
    }

    method TokenBucketScript(key: string, burst: int, refillRate: real, now: int) returns (reply: Reply)
      requires now == Seconds(cache.now)
      modifies cache`db
      ensures (reply, SlotOf(cache.db, key)) == TokenBucketStep(SlotOf(old(cache.db), key), burst, refillRate, cache.now)
      ensures cache.db == WithSlot(old(cache.db), key, SlotOf(cache.db, key))
    {
      var got := cache.Get(key);
      if got.Some? && !got.value.Bucket? {
        return WrongType;
      }
      var tokens := if got.Some? then got.value.tokens else burst as real;
      var lastRefill := if got.Some? then got.value.lastRefill else now;
      var timePassed := now - lastRefill;
      var tokensToAdd := timePassed as real * refillRate;
      ghost var held := tokens;
      tokens := Min(burst as real, tokens + tokensToAdd);
      assert tokens == Refilled(held, lastRefill, now, burst, refillRate);
      if tokens < 1.0 {
        cache.Write(key, Bucket(tokens, now));
        cache.Expire(key, BUCKET_TTL);
        return Reply(false, 0, 1);
      }
      tokens := tokens - 1.0;
      cache.Write(key, Bucket(tokens, now));
      cache.Expire(key, BUCKET_TTL);
      reply := Reply(true, Truncated(tokens), 1);
    }

    // The switch over the strategy: the parameters' defaults, the script, the headers and the error fallback.
    method ApplyPolicyRateLimit(params: Params, name: string, key: string) returns (d: Decision)
      modifies cache`db
      ensures var (reply, slot) := PolicyStep(PolicyOf(params), SlotOf(old(cache.db), key), cache.now);
              && cache.db == WithSlot(old(cache.db), key, slot)
              && d.allowed == LetsThrough(reply)
              && d.headers == HeadersOf(params, name, reply, cache.now)
              && d.retryAfter == if reply.Reply? && !reply.allowed then Some(reply.window) else None
    {
      var reply;
      if params.strategy == "fixedWindow" {
        reply := FixedWindowScript(key, GetOr(params.limit, 100), GetOr(params.windowSec, 60));
      } else if params.strategy == "slidingWindow" {
        reply := SlidingWindowScript(key, GetOr(params.limit, 100), GetOr(params.windowSec, 60), Seconds(cache.now));
      } else if params.strategy == "tokenBucket" {
        reply := TokenBucketScript(key, GetOr(params.burst, 20), GetOr(params.refillPerSec, 5.0), Seconds(cache.now));
      } else {
        reply := FixedWindowScript(key, 100, 60);
      }
      if reply.WrongType? {
        return Decision(true, ErrorFallback, None);
      }
      var shown := OrElse(params.limit, OrElse(params.burst, 100));
      var headers := Headers(shown, if shown - reply.current > 0 then shown - reply.current else 0,
                             Seconds(cache.now) + reply.window, name, params.strategy);
      d := Decision(reply.allowed, headers, if reply.allowed then None else Some(reply.window));
    }
  }
}
