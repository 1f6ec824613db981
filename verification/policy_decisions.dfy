// What the parameters of a rate-limit policy promise: the bounds of the window and bucket theorems, told from the
// parameters of the request, with the defaults of 100 in 60 seconds, a burst of 20 and 5 tokens a second.
module PolicyDecisions {
  import opened Wrappers
  import opened RateLimit
  import opened WindowCounts
  import opened FixedWindowHistories
  import opened SlidingWindowHistories
  import opened TokenBucketHistories
  import opened TokenBucketExpiry

  // A history of requests for one key under these parameters: which pass, and when.
  function Decisions(params: Params, times: seq<int>): (ds: seq<bool>)
    ensures |ds| == |times|
  {
    Run(PolicyOf(params), times).0
  }

  function Served(params: Params, times: seq<int>): seq<int> { Admitted(PolicyOf(params), times) }

  predicate Given<T(==)>(o: Option<T>, default: T, x: T) { o == Some(x) || (o == None && x == default) }

  // One more request is decided by ApplyPolicyRateLimit from what the key holds after the history.
  lemma NextDecision(params: Params, times: seq<int>, now: int)
    ensures var step := PolicyStep(PolicyOf(params), Run(PolicyOf(params), times).1, now);
            Decisions(params, times + [now]) == Decisions(params, times) + [LetsThrough(step.0)]
  {
    RunAppend(PolicyOf(params), times, now);
  }

  // ----- Sliding window -----

  predicate Sliding(params: Params, limit: int, window: int) {
    params.strategy == "slidingWindow" && Given(params.limit, 100, limit) && Given(params.windowSec, 60, window)
  }

  lemma SlidingIs(params: Params, limit: int, window: int)
    requires Sliding(params, limit, window)
    ensures PolicyOf(params) == SlidingWindow(limit, window)
  {
  }

  // At most `limit` distinct seconds of any `window` hold a request that was let through, and a request is let
  // through exactly when that leaves room.
  lemma SlidingPromise(params: Params, limit: nat, window: int, times: seq<int>, from: int, now: int)
    requires Sliding(params, limit, window) && window > 0 && Clocked(times) && 0 <= now
    requires times != [] ==> times[|times| - 1] <= now
    ensures |SecondsWithin(Served(params, times), from, window)| <= limit
    ensures Decisions(params, times + [now])[|times|] <==> |Recent(Served(params, times), Seconds(now), window)| < limit
  {
    SlidingIs(params, limit, window);
    SlidingWindowBound(limit, window, times, from);
    SlidingWindowExact(limit, window, times, now);
  }

  // ----- Fixed window and the fallback -----

  predicate Fixed(params: Params, limit: int, window: int) {
    if params.strategy == "fixedWindow" then Given(params.limit, 100, limit) && Given(params.windowSec, 60, window)
    else params.strategy != "slidingWindow" && params.strategy != "tokenBucket" && limit == 100 && window == 60
  }

  lemma FixedIs(params: Params, limit: int, window: int)
    requires Fixed(params, limit, window)
    ensures PolicyOf(params) == FixedWindow(limit, window)
  {
  }

  // At most 2 * limit - 1 requests in any closed interval as long as the window, and a refused one finds `limit`
  // in the window that ends with it.
  lemma FixedPromise(params: Params, limit: int, window: int, times: seq<int>, from: int, now: int)
    requires Fixed(params, limit, window) && limit >= 1 && window > 0 && NonDecreasing(times)
    requires times != [] ==> times[|times| - 1] <= now
    ensures |Within(Served(params, times), from, from + 1000 * window)| <= 2 * limit - 1
    ensures !Decisions(params, times + [now])[|times|] ==> |Within(Served(params, times), now - 1000 * window, now)| >= limit
  {
    FixedIs(params, limit, window);
    FixedWindowBound(limit, window, times, from);
    if !Decisions(params, times + [now])[|times|] {
      FixedWindowRejection(limit, window, times, now);
    }
  }

  // ----- Token bucket -----

  predicate Bucketed(params: Params, burst: int, refill: real) {
    params.strategy == "tokenBucket" && Given(params.burst, 20, burst) && Given(params.refillPerSec, 5.0, refill)
  }

  lemma BucketIs(params: Params, burst: int, refill: real)
    requires Bucketed(params, burst, refill)
    ensures PolicyOf(params) == TokenBucket(burst, refill)
  {
  }

  // A request is let through exactly when that keeps every stretch of the history that ends with it within the
  // burst and the refill of its time; `3600` seconds must refill the bucket, as they do by default.
  lemma BucketPromise(params: Params, burst: int, refill: real, times: seq<int>, now: int)
    requires Bucketed(params, burst, refill) && burst >= 1 && 3600.0 * refill >= burst as real
    requires NonDecreasing(times + [now])
    ensures Decisions(params, times + [now])[|times|] <==> EveryStretchFits(burst, refill, times, Decisions(params, times), now)
  {
    BucketIs(params, burst, refill);
    OneMoreTime(times, now);
    BucketDecides(burst, refill, times, now);
  }

  ghost predicate EveryStretchFits(burst: int, refill: real, times: seq<int>, ds: seq<bool>, now: int)
    requires |ds| == |times|
  {
    forall j :: 0 <= j < |times| ==> Fits(burst, refill, Seconds(now) - Seconds(times[j]), Since(ds, j) + 1)
  }

  lemma StretchesInSeconds(burst: int, refill: real, times: seq<int>, secs: seq<int>, ds: seq<bool>, now: int)
    requires |ds| == |times| && secs == ToSeconds(times)
    ensures EveryStretchFits(burst, refill, times, ds, now) <==>
            forall j :: 0 <= j < |secs| ==> Fits(burst, refill, Seconds(now) - secs[j], Since(ds, j) + 1)
  {
    hide Fits, Since, ToSeconds;
    ToSecondsAt(times);
  }

  lemma FullInTime(burst: int, refill: real)
    requires 3600.0 * refill >= burst as real
    ensures (BUCKET_TTL as real) * refill >= burst as real
  {
  }

  // The decisions of the script are those of the bucket without key expiry.
  lemma BucketDrains(burst: int, refill: real, times: seq<int>)
    requires burst >= 1 && 3600.0 * refill >= burst as real && NonDecreasing(times)
    ensures Run(TokenBucket(burst, refill), times).0 == Drain(burst, refill, ToSeconds(times)).0
  {
    hide Run, Drain, SameLevel, ToSeconds;
    FullInTime(burst, refill);
    ExpiryUnobservable(burst, refill, times);
  }

  lemma DrainDecides(burst: int, refill: real, times: seq<int>, secs: seq<int>, now: int)
    requires burst >= 1 && secs == ToSeconds(times)
    ensures Drain(burst, refill, secs + [Seconds(now)]).0[|secs|] <==>
            EveryStretchFits(burst, refill, times, Drain(burst, refill, secs).0, now)
  {
    hide Drain, Fits, Since, ToSeconds, EveryStretchFits, Seconds;
    StretchesInSeconds(burst, refill, times, secs, Drain(burst, refill, secs).0, now);
    AdmittedIffEveryStretchFits(burst, refill, secs, Seconds(now));
  }

  lemma BucketDecides(burst: int, refill: real, times: seq<int>, now: int)
    requires burst >= 1 && 3600.0 * refill >= burst as real && NonDecreasing(times) && NonDecreasing(times + [now])
    requires ToSeconds(times + [now]) == ToSeconds(times) + [Seconds(now)]
    ensures Run(TokenBucket(burst, refill), times + [now]).0[|times|] <==>
            EveryStretchFits(burst, refill, times, Run(TokenBucket(burst, refill), times).0, now)
  {
    hide Run, Drain, Fits, Since, SameLevel, ToSeconds, EveryStretchFits, Seconds;
    BucketDrains(burst, refill, times);
    BucketDrains(burst, refill, times + [now]);
    DrainDecides(burst, refill, times, ToSeconds(times), now);
  }

  lemma OneMoreTime(times: seq<int>, now: int)
    requires NonDecreasing(times + [now])
    ensures NonDecreasing(times) && ToSeconds(times + [now]) == ToSeconds(times) + [Seconds(now)]
  {
    var more := times + [now];
    assert more[..|times|] == times;
    forall i, j | 0 <= i <= j < |times|
      ensures times[i] <= times[j]
    {
      assert more[i] <= more[j];
    }
  }

  // ----- What the answer says -----

  // The requests let through in the lifetime of the counter that the key holds.
  ghost function InLifetime(adm: seq<int>, slot: Slot, window: int): nat
    requires slot.Some? && slot.value.expireAt.Some?
  {
    |Within(adm, slot.value.expireAt.value - 1000 * window, slot.value.expireAt.value)|
  }

  lemma CounterReply(limit: int, window: int, adm: seq<int>, slot: Slot, now: int)
    requires limit >= 1 && window > 0 && CounterExplained(limit, window, adm, slot)
    ensures var (reply, after) := FixedWindowStep(slot, limit, window, now);
            && reply.Reply? && reply.window == window
            && after.Some? && after.value.expireAt.Some? && after.value.value == Count(reply.current)
  {
  }

  // The numbers of the answer: how many requests the counter, or seconds the window, or tokens the bucket then
  // holds, and in how many seconds to come back.
  lemma FixedAnswer(params: Params, limit: int, window: int, times: seq<int>, now: int)
    requires Fixed(params, limit, window) && limit >= 1 && window > 0 && NonDecreasing(times + [now])
    ensures var (reply, after) := PolicyStep(PolicyOf(params), Run(PolicyOf(params), times).1, now);
            && reply.Reply? && reply.window == window && after.Some? && after.value.expireAt.Some?
            && reply.current == InLifetime(Served(params, times + [now]), after, window) <= limit
  {
    hide Run, Admitted, FixedWindowStep, CounterExplained, InLifetime;
    FixedIs(params, limit, window);
    OneMoreTime(times, now);
    RunAppend(FixedWindow(limit, window), times, now);
    FixedWindowInvariant(limit, window, times);
    CounterReply(limit, window, Admitted(FixedWindow(limit, window), times), Run(FixedWindow(limit, window), times).1, now);
    CounterCounts(limit, window, times + [now]);
  }

  lemma CounterCounts(limit: int, window: int, times: seq<int>)
    requires window > 0 && NonDecreasing(times)
    ensures var adm, slot := Admitted(FixedWindow(limit, window), times), Run(FixedWindow(limit, window), times).1;
            slot.Some? ==> slot.value.expireAt.Some? && slot.value.value == Count(InLifetime(adm, slot, window)) && InLifetime(adm, slot, window) <= limit
  {
    hide Run, Admitted, Within;
    CounterIsLifetimeCount(limit, window, times);
  }

  lemma SlidingAnswer(params: Params, limit: int, window: int, times: seq<int>, now: int)
    requires Sliding(params, limit, window) && window > 0 && Clocked(times) && 0 <= now
    requires times != [] ==> times[|times| - 1] <= now
    ensures var reply := PolicyStep(PolicyOf(params), Run(PolicyOf(params), times).1, now).0;
            && reply.Reply? && reply.window == window
            && reply.current == |Recent(Served(params, times), Seconds(now), window)| + (if reply.allowed then 1 else 0)
  {
    hide Run, Admitted, Recent, Seen, StampsExplained;
    SlidingIs(params, limit, window);
    var p := SlidingWindow(limit, window);
    var adm, slot, last := Admitted(p, times), Run(p, times).1, if times == [] then 0 else times[|times| - 1];
    SlidingWindowInvariant(limit, window, times, now);
    LastTime(times);
    SeenIsRecent(window, adm, slot, last, now);
    StampsReply(limit, window, adm, slot, last, now);
  }

  lemma LastTime(times: seq<int>)
    requires Clocked(times)
    ensures times != [] ==> 0 <= times[|times| - 1]
  {
  }

  lemma StampsReply(limit: int, window: int, adm: seq<int>, slot: Slot, last: int, now: int)
    requires window > 0 && StampsExplained(window, adm, slot, last)
    ensures var reply := SlidingWindowStep(slot, limit, window, now).0;
            && reply.Reply? && reply.window == window
            && reply.current == |Seen(slot, window, now)| + (if reply.allowed then 1 else 0)
  {
    hide Purged;
    if Held(slot, now).None? {
      assert Seen(slot, window, now) == {};
    }
  }

  lemma BucketAnswer(params: Params, burst: int, refill: real, slot: Slot, now: int)
    requires Bucketed(params, burst, refill)
    ensures var (reply, after) := PolicyStep(PolicyOf(params), slot, now);
            reply.Reply? ==>
              && after.Some? && after.value.value.Bucket? && reply.window == 1
              && (reply.allowed ==> reply.current as real <= after.value.value.tokens < reply.current as real + 1.0)
              && (!reply.allowed ==> reply.current == 0 && after.value.value.tokens < 1.0)
  {
    BucketIs(params, burst, refill);
  }

  // The headers of a fixed window: its limit, what is left of it, and the end of a window that began now.
  lemma FixedHeaders(params: Params, name: string, limit: int, window: int, times: seq<int>, now: int)
    requires params.strategy == "fixedWindow" && params.limit == Some(limit) && params.windowSec == Some(window)
    requires limit >= 1 && window > 0 && NonDecreasing(times + [now])
    ensures var (reply, after) := PolicyStep(PolicyOf(params), Run(PolicyOf(params), times).1, now);
            && after.Some? && after.value.expireAt.Some?
            && HeadersOf(params, name, reply, now) ==
               Headers(limit, limit - InLifetime(Served(params, times + [now]), after, window), Seconds(now) + window, name, "fixedWindow")
  {
    hide Run, PolicyStep, PolicyOf, InLifetime, Served;
    FixedAnswer(params, limit, window, times, now);
  }

  // Which limit any headers show: the policy's, else its burst, else 100, where a zero counts as absent; and what
  // the number answered leaves of it, never less than nothing.
  lemma HeadersShow(params: Params, name: string, reply: Reply, now: int)
    requires reply.Reply?
    ensures var h := HeadersOf(params, name, reply, now);
            && h.Headers? && h.policy == name && h.strategy == params.strategy && h.reset == now / 1000 + reply.window
            && (forall limit :: limit != 0 && params.limit == Some(limit) ==> h.limit == limit)
            && (params.limit in {None, Some(0)} ==>
                  && (forall burst :: burst != 0 && params.burst == Some(burst) ==> h.limit == burst)
                  && (params.burst in {None, Some(0)} ==> h.limit == 100))
            && h.remaining >= 0 && (h.remaining > 0 ==> h.remaining + reply.current == h.limit)
            && (h.remaining == 0 <==> reply.current >= h.limit)
  {
  }

  // A bucket answers the tokens that are left, and the headers take them from the burst as if they were used up:
  // what is shown as remaining is what has been drawn. That is right exactly when half of the bucket is left, and a
  // refused request is told that the whole burst remains.
  lemma BucketHeaders(params: Params, name: string, burst: int, slot: Slot, now: int)
    requires params.strategy == "tokenBucket" && params.limit == None && params.burst == Some(burst) && burst >= 1
    ensures var (reply, after) := PolicyStep(PolicyOf(params), slot, now);
            reply.Reply? ==>
              var h := HeadersOf(params, name, reply, now);
              && after.Some? && after.value.value.Bucket?
              && h == Headers(burst, burst - reply.current, Seconds(now) + 1, name, "tokenBucket")
              && (reply.allowed ==> (h.remaining == after.value.value.tokens.Floor <==> burst == 2 * after.value.value.tokens.Floor))
              && (!reply.allowed ==> h.remaining == burst && after.value.value.tokens < 1.0)
  {
    BucketAnswer(params, burst, GetOr(params.refillPerSec, 5.0), slot, now);
    var (reply, after) := PolicyStep(PolicyOf(params), slot, now);
    if reply.Reply? && reply.allowed {
      assert after.value.value.tokens.Floor == reply.current;
      assert after.value.value.tokens <= burst as real - 1.0;
    }
  }
}
