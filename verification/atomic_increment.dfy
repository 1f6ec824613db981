// CacheService.atomicIncrementWithLimit: a counter beside the second its window began. Its documentation
// calls the window sliding; the script keeps a fixed window, and that is what is proved here.
module AtomicIncrement {
  import opened Wrappers
  import opened CacheStore
  import RateLimit
  import WindowCounts
  import FixedWindowHistories

  type Cell = Option<Entry<int>>

  datatype Answer = Answer(current: int, remaining: int, resetTime: int)
  datatype Twin = Twin(count: Cell, start: Cell)

  function LiveValue(c: Cell, now: int): Option<int> {
    if c.Some? && Live(c.value, now) then Some(c.value.value) else None
  }

  function CellOf(db: map<string, Entry<int>>, key: string): Cell {
    if key in db then Some(db[key]) else None
  }

  function WindowKey(key: string): string { key + ":window" }

  function TwinOf(db: map<string, Entry<int>>, key: string): Twin {
    Twin(CellOf(db, key), CellOf(db, WindowKey(key)))
  }

  // The script on its two keys; SETEX refuses a window that is not positive, a comparison with nil raises.
  function Step(t: Twin, limit: int, window: int, now: int): (Result<Answer, string>, Twin) {
    var sec := RateLimit.Seconds(now);
    var start := LiveValue(t.start, now);
    if start.None? || start.value < sec - window then
      if window <= 0 then (Err("invalid expire time"), t)
      else (Ok(Answer(1, limit - 1, sec + window)), Twin(Some(Stored(1, window, now)), Some(Stored(sec, window, now))))
    else
      match LiveValue(t.count, now)
      case None => (Err("attempt to compare nil with number"), t)
      case Some(n) =>
        if n >= limit then (Ok(Answer(n, 0, start.value + window)), t)
        else (Ok(Answer(n + 1, limit - (n + 1), start.value + window)), t.(count := Some(Entry(n + 1, t.count.value.expireAt))))
  }

  // The two keys are set together, so they expire together, and the window key names the second they were set.
  ghost predicate Paired(t: Twin, limit: int, window: int) {
    if t.count.None? then t.start.None?
    else
      && t.start.Some?
      && 1 <= t.count.value.value <= limit
      && t.count.value.expireAt.Some?
      && t.start.value.expireAt == t.count.value.expireAt
      && t.start.value.value == RateLimit.Seconds(t.count.value.expireAt.value - 1000 * window)
  }

  ghost function AsSlot(c: Cell): RateLimit.Slot {
    if c.None? then None else Some(Entry(RateLimit.Count(c.value.value), c.value.expireAt))
  }

  // On paired keys the script never fails, its answer splits the limit, the reset time is fixed by the
  // window's first increment, and the counter moves exactly like the fixed-window script's counter. So the
  // theorems of FixedWindowHistories hold of the increments.
  lemma IncrementIsFixedWindow(t: Twin, limit: int, window: int, now: int)
    requires limit >= 1 && window >= 1 && Paired(t, limit, window)
    ensures var (r, t') := Step(t, limit, window, now);
            var (reply, slot') := RateLimit.FixedWindowStep(AsSlot(t.count), limit, window, now);
            && Paired(t', limit, window)
            && AsSlot(t'.count) == slot'
            && r.Ok?
            && r.value.current == reply.current
            && r.value.current + r.value.remaining == limit
            && 0 <= r.value.remaining < limit
            && r.value.resetTime == RateLimit.Seconds(t'.count.value.expireAt.value)
            && (reply.allowed ==> t'.count.value.value == r.value.current)
            && (!reply.allowed ==> t' == t && r.value.remaining == 0)
  {
    if LiveValue(t.start, now).Some? {
      var deadline := t.count.value.expireAt.value;
      assert now - 1000 * window <= deadline - 1000 * window;
      assert RateLimit.Seconds(now) - window == RateLimit.Seconds(now - 1000 * window);
    }
  }

  // With a limit below one the sum breaks on the second increment of a window: the first is counted anyway.
  lemma SumNeedsPositiveLimit(limit: int, window: int, now: int)
    requires window >= 1 && limit < 1
    ensures var first := Step(Twin(None, None), limit, window, now);
            var second := Step(first.1, limit, window, now);
            && first.0 == Ok(Answer(1, limit - 1, RateLimit.Seconds(now) + window))
            && second.0.Ok?
            && second.0.value.current + second.0.value.remaining > limit
  {
  }

  // A history of calls from no keys: the two keys after it, and the times at which the counter went up.
  function History(limit: int, window: int, times: seq<int>): (Twin, seq<int>) {
    if times == [] then (Twin(None, None), [])
    else
      var n := |times| - 1;
      var (t, up) := History(limit, window, times[..n]);
      var t' := Step(t, limit, window, times[n]).1;
      (t', up + if t'.count != t.count then [times[n]] else [])
  }

  lemma {:induction false} IncrementsAreAdmissions(limit: int, window: int, times: seq<int>)
    requires limit >= 1 && window >= 1
    ensures var (t, up) := History(limit, window, times);
            && Paired(t, limit, window)
            && AsSlot(t.count) == RateLimit.Run(RateLimit.FixedWindow(limit, window), times).1
            && up == RateLimit.Admitted(RateLimit.FixedWindow(limit, window), times)
    decreases |times|
  {
    if times != [] {
      var n := |times| - 1;
      IncrementsAreAdmissions(limit, window, times[..n]);
      IncrementIsFixedWindow(History(limit, window, times[..n]).0, limit, window, times[n]);
      assert times == times[..n] + [times[n]];
      RateLimit.RunAppend(RateLimit.FixedWindow(limit, window), times[..n], times[n]);
    }
  }

  // Any closed interval as long as the window sees the counter go up at most 2 * limit - 1 times.
  lemma IncrementBound(limit: int, window: int, times: seq<int>, from: int)
    requires limit >= 1 && window >= 1 && RateLimit.NonDecreasing(times)
    ensures |WindowCounts.Within(History(limit, window, times).1, from, from + 1000 * window)| <= 2 * limit - 1
  {
    IncrementsAreAdmissions(limit, window, times);
    FixedWindowHistories.FixedWindowBound(limit, window, times, from);
  }

  // A request more and less of the documented window: limit - 1 increments at its end, limit more a millisecond later.
  lemma BurstIncrements(limit: nat, window: nat)
    requires limit >= 1 && window >= 1
    ensures var times := FixedWindowHistories.Burst(limit, window);
            && RateLimit.NonDecreasing(times)
            && |WindowCounts.Within(History(limit, window, times).1, 1000 * window, 1000 * window + 1)| == 2 * limit - 1
  {
    IncrementsAreAdmissions(limit, window, FixedWindowHistories.Burst(limit, window));
    FixedWindowHistories.FixedWindowBoundIsTight(limit, window);
  }

  ghost predicate AtMostLimit(limit: nat, window: nat, times: seq<int>, from: int) {
    |WindowCounts.Within(History(limit, window, times).1, from, from + 1000 * window)| <= limit
  }

  // The documented promise, at most `limit` increments in any interval as long as the window, is kept exactly
  // with a limit of one.
  lemma SlidesIff(limit: nat, window: nat)
    requires limit >= 1 && window >= 1
    ensures (forall times, from :: RateLimit.NonDecreasing(times) ==> AtMostLimit(limit, window, times, from)) <==> limit == 1
  {
    if limit == 1 {
      forall times, from | RateLimit.NonDecreasing(times)
        ensures AtMostLimit(limit, window, times, from)
      {
        IncrementBound(limit, window, times, from);
      }
    } else {
      var times := FixedWindowHistories.Burst(limit, window);
      BurstIncrements(limit, window);
      var up := History(limit, window, times).1;
      SubsetSize(WindowCounts.Within(up, 1000 * window, 1000 * window + 1), WindowCounts.Within(up, 1000 * window, 1000 * window + 1000 * window));
      assert !AtMostLimit(limit, window, times, 1000 * window);
    }
  }

  class Counters {
    const redis: CacheService<string, int>

    constructor (redis: CacheService<string, int>)
      ensures this.redis == redis
    {
      this.redis := redis;
    }

    method AtomicIncrementWithLimit(key: string, limit: int, window: int) returns (r: Result<Answer, string>)
      modifies redis`db
      ensures (r, TwinOf(redis.db, key)) == Step(TwinOf(old(redis.db), key), limit, window, redis.now)
      ensures forall k :: k != key && k != WindowKey(key) ==>
                CellOf(redis.db, k) == CellOf(old(redis.db), k)
    {
      assert |WindowKey(key)| > |key|;
      var currentTime := RateLimit.Seconds(redis.now);
      var current := redis.Get(key);
      var windowStart := redis.Get(WindowKey(key));
      if windowStart.None? || windowStart.value < currentTime - window {
        if window <= 0 {
          return Err("invalid expire time");
        }
        var _ := redis.Set(key, 1, window);
        var _ := redis.Set(WindowKey(key), currentTime, window);
        return Ok(Answer(1, limit - 1, currentTime + window));
      }
      if current.None? {
        return Err("attempt to compare nil with number");
      }
      var resetTime := windowStart.value + window;
      if current.value >= limit {
        return Ok(Answer(current.value, 0, resetTime));
      }
      var newCount := current.value + 1;
      redis.Write(key, newCount);
      r := Ok(Answer(newCount, limit - newCount, resetTime));
    }
  }
}
