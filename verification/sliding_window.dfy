// Sliding-window histories. The zset member is the second itself, so the script counts distinct seconds
// that hold an admitted request, not requests.
module SlidingWindowHistories {
  import opened Wrappers
  import opened CacheStore
  import opened RateLimit
  import opened WindowCounts

  ghost function SecondsOf(times: seq<int>): set<int> {
    set t | t in times :: Seconds(t)
  }

  // The distinct seconds later than `sec - window` that hold an admitted request.
  ghost function Recent(adm: seq<int>, sec: int, window: int): set<int> {
    set s | s in SecondsOf(adm) && sec - window < s
  }

  lemma SecondsOfAppend(ts: seq<int>, t: int)
    ensures SecondsOf(ts + [t]) == SecondsOf(ts) + {Seconds(t)}
  {
    assert (ts + [t])[|ts|] == t;
    assert forall x :: x in ts ==> x in ts + [t];
    assert forall x :: x in ts + [t] ==> x in ts || x == t;
  }

  // What the key holds, dead or alive, is explained by the admitted requests alone.
  ghost predicate StampsExplained(window: int, adm: seq<int>, slot: Slot, last: int) {
    && (forall t :: t in adm ==> 0 <= t <= last)
    && match slot
       case None => forall s :: s in SecondsOf(adm) ==> s <= Seconds(last) - window
       case Some(Entry(Stamps(kept), Some(deadline))) =>
         && kept <= SecondsOf(adm)
         && (forall s :: s in SecondsOf(adm) && s !in kept ==> s <= Seconds(last) - window)
         && (forall s :: s in SecondsOf(adm) ==> s <= Seconds(deadline - 1000 * window))
       case _ => false
  }

  // The key's own expiry loses nothing that the purge would have kept.
  lemma DeadMeansStale(window: int, s: int, deadline: int, now: int)
    requires s <= Seconds(deadline - 1000 * window) && deadline < now
    ensures s <= Seconds(now) - window
  {
    assert Seconds(deadline - 1000 * window) == Seconds(deadline) - window;
  }

  // What the script counts after its purge.
  ghost function Seen(slot: Slot, window: int, now: int): set<int> {
    match Held(slot, now)
    case Some(Stamps(s)) => Purged(s, Seconds(now), window)
    case _ => {}
  }

  lemma SeenIsRecent(window: int, adm: seq<int>, slot: Slot, last: int, now: int)
    requires window > 0 && 0 <= last <= now && StampsExplained(window, adm, slot, last)
    ensures Seen(slot, window, now) == Recent(adm, Seconds(now), window)
  {
    forall s | s in SecondsOf(adm) ensures 0 <= s {
      var t :| t in adm && Seconds(t) == s;
    }
    if slot.Some? && Held(slot, now).None? {
      forall s | s in SecondsOf(adm) ensures s <= Seconds(now) - window {
        DeadMeansStale(window, s, slot.value.expireAt.value, now);
      }
    }
  }

  lemma ExplainedLater(window: int, adm: seq<int>, slot: Slot, last: int, now: int)
    requires window > 0 && 0 <= last <= now && StampsExplained(window, adm, slot, last)
    ensures StampsExplained(window, adm, slot, now)
    ensures match Held(slot, now)
            case Some(Stamps(s)) =>
              StampsExplained(window, adm, Some(Entry(Stamps(Purged(s, Seconds(now), window)), slot.value.expireAt)), now)
            case _ => forall s :: s in SecondsOf(adm) ==> s <= Seconds(now) - window
  {
    if slot.Some? && Held(slot, now).None? {
      forall s | s in SecondsOf(adm) ensures s <= Seconds(now) - window {
        DeadMeansStale(window, s, slot.value.expireAt.value, now);
      }
    }
  }

  lemma ExplainedByAdmission(window: int, adm: seq<int>, kept: set<int>, now: int)
    requires 0 <= now && (forall t :: t in adm ==> 0 <= t <= now)
    requires kept <= SecondsOf(adm) && forall s :: s in SecondsOf(adm) && s !in kept ==> s <= Seconds(now) - window
    ensures StampsExplained(window, adm + [now], Some(Entry(Stamps(kept + {Seconds(now)}), Some(now + 1000 * window))), now)
  {
    SecondsOfAppend(adm, now);
    forall s | s in SecondsOf(adm) ensures s <= Seconds(now) {
      var t :| t in adm && Seconds(t) == s;
    }
  }

  lemma SlidingWindowAdvance(limit: int, window: int, adm: seq<int>, slot: Slot, last: int, now: int)
    requires window > 0 && 0 <= last <= now
    requires StampsExplained(window, adm, slot, last)
    ensures var (reply, slot') := SlidingWindowStep(slot, limit, window, now);
            var adm' := adm + if LetsThrough(reply) then [now] else [];
            && (LetsThrough(reply) <==> |Recent(adm, Seconds(now), window)| < limit)
            && StampsExplained(window, adm', slot', now)
  {
    SeenIsRecent(window, adm, slot, last, now);
    ExplainedLater(window, adm, slot, last, now);
    if LetsThrough(SlidingWindowStep(slot, limit, window, now).0) {
      assert {Seconds(now)} == {} + {Seconds(now)};
      ExplainedByAdmission(window, adm, Seen(slot, window, now), now);
    } else {
      assert adm + [] == adm;
    }
  }

  ghost predicate Clocked(times: seq<int>) {
    NonDecreasing(times) && forall i :: 0 <= i < |times| ==> 0 <= times[i]
  }

  lemma {:induction false} SlidingWindowInvariant(limit: int, window: int, times: seq<int>, now: int)
    requires window > 0 && Clocked(times) && 0 <= now
    requires times != [] ==> times[|times| - 1] <= now
    ensures var p := SlidingWindow(limit, window);
            StampsExplained(window, Admitted(p, times), Run(p, times).1, if times == [] then 0 else times[|times| - 1])
  {
    var p := SlidingWindow(limit, window);
    if times != [] {
      var n := |times| - 1;
      var before, t := times[..n], times[n];
      SlidingWindowInvariant(limit, window, before, t);
      assert times == before + [t];
      RunAppend(p, before, t);
      SlidingWindowAdvance(limit, window, Admitted(p, before), Run(p, before).1, if n == 0 then 0 else times[n - 1], t);
    }
  }

  // The decision is exact and depends on the admitted requests alone: a request passes iff fewer than `limit`
  // distinct seconds of the last `window` hold an admitted one. No purge and no key expiry is visible in it.
  lemma SlidingWindowExact(limit: int, window: int, times: seq<int>, now: int)
    requires window > 0 && Clocked(times) && 0 <= now
    requires times != [] ==> times[|times| - 1] <= now
    ensures var p := SlidingWindow(limit, window);
            Run(p, times + [now]).0[|times|] <==> |Recent(Admitted(p, times), Seconds(now), window)| < limit
  {
    var p := SlidingWindow(limit, window);
    SlidingWindowInvariant(limit, window, times, now);
    RunAppend(p, times, now);
    SlidingWindowAdvance(limit, window, Admitted(p, times), Run(p, times).1, if times == [] then 0 else times[|times| - 1], now);
  }

  ghost function SecondsWithin(adm: seq<int>, from: int, window: int): set<int> {
    set s | s in SecondsOf(adm) && from <= s < from + window
  }

  // Any `window` consecutive seconds contain at most `limit` distinct seconds with an admitted request.
  lemma {:induction false} SlidingWindowBound(limit: nat, window: int, times: seq<int>, from: int)
    requires window > 0 && Clocked(times)
    ensures |SecondsWithin(Admitted(SlidingWindow(limit, window), times), from, window)| <= limit
  {
    var p := SlidingWindow(limit, window);
    if times != [] {
      var n := |times| - 1;
      var before, now := times[..n], times[n];
      SlidingWindowBound(limit, window, before, from);
      assert times == before + [now];
      SlidingWindowExact(limit, window, before, now);
      RunAppend(p, before, now);
      SlidingWindowInvariant(limit, window, before, now);
      SecondsOfAppend(Admitted(p, before), now);
      if Run(p, times).0[n] {
        WindowGrows(limit, window, Admitted(p, before), now, from);
      } else {
        assert Admitted(p, times) == Admitted(p, before);
      }
    }
  }

  lemma WindowGrows(limit: nat, window: int, adm: seq<int>, now: int, from: int)
    requires |Recent(adm, Seconds(now), window)| < limit
    requires |SecondsWithin(adm, from, window)| <= limit
    ensures |SecondsWithin(adm + [now], from, window)| <= limit
  {
    var sec := Seconds(now);
    SecondsOfAppend(adm, now);
    if from <= sec < from + window {
      var recent := Recent(adm, sec, window);
      SubsetSize(SecondsWithin(adm + [now], from, window), recent + {sec});
    } else {
      assert SecondsWithin(adm + [now], from, window) == SecondsWithin(adm, from, window);
    }
  }

  // Pigeonhole: with more allowance than seconds in the window nothing is ever refused.
  lemma SlidingWindowNeverRefuses(limit: int, window: int, times: seq<int>, now: int)
    requires window > 0 && Clocked(times) && 0 <= now
    requires times != [] ==> times[|times| - 1] <= now
    requires limit > window
    ensures Run(SlidingWindow(limit, window), times + [now]).0[|times|]
  {
    var p := SlidingWindow(limit, window);
    SlidingWindowExact(limit, window, times, now);
    SlidingWindowInvariant(limit, window, times, now);
    RecentFits(Admitted(p, times), now, window);
  }

  lemma RecentFits(adm: seq<int>, now: int, window: int)
    requires window > 0
    requires forall t :: t in adm ==> t <= now
    ensures |Recent(adm, Seconds(now), window)| <= window
  {
    var first := Seconds(now) - window + 1;
    forall s | s in Recent(adm, Seconds(now), window) ensures s in Range(first, window) {
      var t :| t in adm && Seconds(t) == s;
      assert InRange(s, first, window);
    }
    RangeSize(first, window);
    SubsetSize(Recent(adm, Seconds(now), window), Range(first, window));
  }

  // Conversely a limit no larger than the window refuses: after one admitted request in each of `limit`
  // consecutive seconds, a second request in the last of them is turned away.
  ghost function EachSecond(n: nat): (times: seq<int>)
    ensures |times| == n
  {
    seq(n, i => 1000 * i)
  }

  lemma {:induction false} SecondsOfEachSecond(n: nat)
    ensures SecondsOf(EachSecond(n)) == Range(0, n)
  {
    if n > 0 {
      SecondsOfEachSecond(n - 1);
      assert EachSecond(n) == EachSecond(n - 1) + [1000 * (n - 1)];
      SecondsOfAppend(EachSecond(n - 1), 1000 * (n - 1));
      forall s ensures s in Range(0, n) <==> s in Range(0, n - 1) || s == n - 1 {
        assert InRange(s, 0, n) <==> InRange(s, 0, n - 1) || s == n - 1;
      }
    } else {
      assert Range(0, 0) == {};
    }
  }

  lemma RecentOfEachSecond(n: nat, sec: int, window: int)
    ensures |Recent(EachSecond(n), sec, window)| <= n
    ensures n <= window && sec < window ==> |Recent(EachSecond(n), sec, window)| == n
  {
    SecondsOfEachSecond(n);
    RangeSize(0, n);
    SubsetSize(Recent(EachSecond(n), sec, window), Range(0, n));
    if n <= window && sec < window {
      forall s | s in Range(0, n) ensures s in Recent(EachSecond(n), sec, window) {
        assert InRange(s, 0, n);
      }
      SubsetSize(Range(0, n), Recent(EachSecond(n), sec, window));
    }
  }

  lemma EachSecondClocked(n: nat, now: int)
    requires 0 <= now && (n > 0 ==> 1000 * (n - 1) <= now)
    ensures Clocked(EachSecond(n)) && Clocked(EachSecond(n) + [now])
    ensures n > 0 ==> EachSecond(n)[n - 1] == 1000 * (n - 1)
  {
  }

  lemma AdmittedNext(limit: int, window: int, times: seq<int>, adm: seq<int>, now: int)
    requires window > 0 && Clocked(times) && 0 <= now
    requires times != [] ==> times[|times| - 1] <= now
    requires adm == Admitted(SlidingWindow(limit, window), times)
    requires |Recent(adm, Seconds(now), window)| < limit
    ensures Admitted(SlidingWindow(limit, window), times + [now]) == adm + [now]
  {
    SlidingWindowExact(limit, window, times, now);
    RunAppend(SlidingWindow(limit, window), times, now);
  }

  lemma EachSecondNext(limit: int, window: int, before: seq<int>, k: nat)
    requires window > 0 && k < limit
    requires before == EachSecond(k) == Admitted(SlidingWindow(limit, window), before)
    ensures Admitted(SlidingWindow(limit, window), before + [1000 * k]) == before + [1000 * k]
  {
    EachSecondClocked(k, 1000 * k);
    RecentOfEachSecond(k, Seconds(1000 * k), window);
    AdmittedNext(limit, window, before, before, 1000 * k);
  }

  lemma NoneAdmitted(p: Policy)
    ensures Admitted(p, []) == []
  {
  }

  lemma {:induction false} EachSecondAdmitted(limit: nat, window: int, k: nat)
    requires window > 0 && k <= limit
    ensures Admitted(SlidingWindow(limit, window), EachSecond(k)) == EachSecond(k)
  {
    hide Run, Admitted;
    NoneAdmitted(SlidingWindow(limit, window));
    if k > 0 {
      EachSecondAdmitted(limit, window, k - 1);
      EachSecondNext(limit, window, EachSecond(k - 1), k - 1);
      assert EachSecond(k) == EachSecond(k - 1) + [1000 * (k - 1)];
    }
  }

  // The second request in the last of the first n seconds, or the very first request when the limit is below one.
  function Extra(n: nat): int { if n == 0 then 0 else 1000 * (n - 1) }

  lemma SlidingWindowCanRefuse(limit: int, window: int)
    requires window > 0 && limit <= window
    ensures var n := if limit > 0 then limit else 0;
            Clocked(EachSecond(n) + [Extra(n)]) && !Run(SlidingWindow(limit, window), EachSecond(n) + [Extra(n)]).0[n]
  {
    var n: nat := if limit > 0 then limit else 0;
    EachSecondClocked(n, Extra(n));
    SlidingWindowExact(limit, window, EachSecond(n), Extra(n));
    if n > 0 {
      EachSecondAdmitted(n, window, n);
      RecentOfEachSecond(n, Seconds(Extra(n)), window);
    }
  }

  // ----- Requests instead of seconds -----

  // The admitted requests in `window` consecutive seconds.
  ghost function RequestsWithin(adm: seq<int>, from: int, window: int): set<int> {
    set i | 0 <= i < |adm| && from <= Seconds(adm[i]) < from + window
  }

  function AtOnce(n: nat): (times: seq<int>)
    ensures |times| == n
  {
    seq(n, _ => 0)
  }

  // With a limit of two or more any number of requests passes, as long as they come in one second.
  lemma {:induction false} AllAtOnceAdmitted(limit: int, window: int, n: nat)
    requires limit >= 2 && window > 0
    ensures Clocked(AtOnce(n)) && Admitted(SlidingWindow(limit, window), AtOnce(n)) == AtOnce(n)
  {
    hide Run, Admitted;
    NoneAdmitted(SlidingWindow(limit, window));
    if n > 0 {
      AllAtOnceAdmitted(limit, window, n - 1);
      assert AtOnce(n) == AtOnce(n - 1) + [0];
      OneSecond(n - 1, window);
      AdmittedNext(limit, window, AtOnce(n - 1), AtOnce(n - 1), 0);
    }
  }

  lemma OneSecond(n: nat, window: int)
    ensures |Recent(AtOnce(n), 0, window)| <= 1
  {
    SubsetSize(Recent(AtOnce(n), 0, window), {0});
  }

  // With a limit of one no second has two admitted requests.
  lemma {:induction false} OneRequestASecond(limit: int, window: int, times: seq<int>)
    requires limit <= 1 && window > 0 && Clocked(times)
    ensures var adm := Admitted(SlidingWindow(limit, window), times);
            forall i, j :: 0 <= i < j < |adm| ==> Seconds(adm[i]) != Seconds(adm[j])
    decreases |times|
  {
    hide Run, Admitted;
    var p := SlidingWindow(limit, window);
    NoneAdmitted(p);
    if times != [] {
      var n := |times| - 1;
      var before, now := times[..n], times[n];
      OneRequestASecond(limit, window, before);
      assert times == before + [now];
      SlidingWindowExact(limit, window, before, now);
      RunAppend(p, before, now);
      if Run(p, times).0[n] {
        NewSecond(Admitted(p, before), Seconds(now), window);
      }
    }
  }

  lemma NewSecond(adm: seq<int>, sec: int, window: int)
    requires window > 0 && |Recent(adm, sec, window)| < 1
    ensures forall i :: 0 <= i < |adm| ==> Seconds(adm[i]) != sec
  {
    assert Recent(adm, sec, window) == {};
    forall i | 0 <= i < |adm|
      ensures Seconds(adm[i]) != sec
    {
      SecondIsRecent(adm, i, window);
    }
  }

  lemma SecondIsRecent(adm: seq<int>, i: nat, window: int)
    requires window > 0 && i < |adm|
    ensures Seconds(adm[i]) in Recent(adm, Seconds(adm[i]), window)
  {
    assert adm[i] in adm;
  }

  lemma OneRequestWithin(limit: nat, window: int, times: seq<int>, from: int)
    requires limit <= 1 && window > 0 && Clocked(times)
    ensures |RequestsWithin(Admitted(SlidingWindow(limit, window), times), from, window)| <= limit
  {
    var adm := Admitted(SlidingWindow(limit, window), times);
    hide Run, Admitted;
    OneRequestASecond(limit, window, times);
    SlidingWindowBound(limit, window, times, from);
    var requests, seconds := RequestsWithin(adm, from, window), SecondsWithin(adm, from, window);
    forall i | i in requests
      ensures Seconds(adm[i]) in seconds
    {
      assert adm[i] in adm;
    }
    if requests != {} {
      var i := Member(requests);
      forall j | j in requests
        ensures j == i
      {
        OneElement(seconds, Seconds(adm[i]), Seconds(adm[j]));
      }
      assert requests == {i};
    }
  }

  lemma OneElement(s: set<int>, x: int, y: int)
    requires |s| <= 1 && x in s && y in s
    ensures x == y && |s| == 1
  {
    if x != y {
      SubsetSize({x, y}, s);
    }
  }

  // The promise of the limiter, in its own unit: at most `limit` requests in any `window` seconds. It is kept
  // exactly with a limit of at most one.
  lemma LimitsRequestsIff(limit: nat, window: int)
    requires window > 0
    ensures (forall times, from :: Clocked(times) ==> |RequestsWithin(Admitted(SlidingWindow(limit, window), times), from, window)| <= limit) <==>
            limit <= 1
  {
    if limit <= 1 {
      forall times, from | Clocked(times)
        ensures |RequestsWithin(Admitted(SlidingWindow(limit, window), times), from, window)| <= limit
      {
        OneRequestWithin(limit, window, times, from);
      }
    } else {
      AllAtOnceAdmitted(limit, window, limit + 1);
      assert RequestsWithin(AtOnce(limit + 1), 0, window) == Range(0, limit + 1);
      RangeSize(0, limit + 1);
    }
  }

  // The last millisecond of one second and the first of another are a millisecond less than the window apart.
  lemma AcrossTheEdge(window: int)
    requires window > 0
    ensures Clocked([999, 1000 * window]) && Admitted(SlidingWindow(1, window), [999, 1000 * window]) == [999, 1000 * window]
  {
    hide Run, Admitted;
    NoneAdmitted(SlidingWindow(1, window));
    assert [] + [999] == [999] && [999] + [1000 * window] == [999, 1000 * window];
    assert Recent([], 0, window) == {};
    AdmittedNext(1, window, [], [], 999);
    SecondsOfAppend([], 999);
    assert SecondsOf([999]) == {0} by { assert SecondsOf([]) == {}; }
    assert Recent([999], window, window) == {};
    AdmittedNext(1, window, [999], [999], 1000 * window);
  }

  ghost predicate AtMostLimit(limit: nat, window: int, times: seq<int>, from: int) {
    |Within(Admitted(SlidingWindow(limit, window), times), from, from + 1000 * window - 1)| <= limit
  }

  // By the clock in milliseconds it is kept only by letting nothing through.
  lemma LimitsMillisecondsIff(limit: nat, window: int)
    requires window > 0
    ensures (forall times, from :: Clocked(times) ==> AtMostLimit(limit, window, times, from)) <==> limit == 0
  {
    hide Run, Admitted;
    if limit == 0 {
      forall times, from | Clocked(times)
        ensures AtMostLimit(limit, window, times, from)
      {
        NothingPasses(window, times);
        assert Within([], from, from + 1000 * window - 1) == {};
      }
    } else if limit == 1 {
      AcrossTheEdge(window);
      assert Within([999, 1000 * window], 999, 999 + 1000 * window - 1) == {0, 1};
      assert !AtMostLimit(limit, window, [999, 1000 * window], 999);
    } else {
      AllAtOnceAdmitted(limit, window, limit + 1);
      assert Within(AtOnce(limit + 1), 0, 0 + 1000 * window - 1) == Range(0, limit + 1);
      RangeSize(0, limit + 1);
      assert !AtMostLimit(limit, window, AtOnce(limit + 1), 0);
    }
  }

  lemma NothingPasses(window: int, times: seq<int>)
    requires window > 0 && Clocked(times)
    ensures Admitted(SlidingWindow(0, window), times) == []
  {
    hide Run, Admitted;
    var adm := Admitted(SlidingWindow(0, window), times);
    OneRequestWithin(0, window, times, FirstSecond(adm));
    FirstIsWithin(adm, window);
  }

  ghost function FirstSecond(adm: seq<int>): int { if adm == [] then 0 else Seconds(adm[0]) }

  lemma FirstIsWithin(adm: seq<int>, window: int)
    requires window > 0
    ensures adm != [] ==> 0 in RequestsWithin(adm, FirstSecond(adm), window)
  {
  }
}
