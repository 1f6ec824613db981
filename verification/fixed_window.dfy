// Fixed-window histories: what a counter's value means, and how many requests an interval can admit.
module FixedWindowHistories {
  import opened Wrappers
  import opened CacheStore
  import opened RateLimit
  import opened WindowCounts

  // The state after a history, read off the admitted requests: the counter is the number of requests
  // admitted since its first one, and a lifetime opens only after `limit` earlier requests are out of reach.
  ghost predicate CounterExplained(limit: int, window: int, adm: seq<int>, slot: Slot) {
    var n := |adm|;
    match slot
    case None => adm == []
    case Some(Entry(Count(v), Some(deadline))) =>
      && 1 <= v <= limit
      && v <= n
      && adm[n - v] == deadline - 1000 * window
      && (n - v - limit >= 0 ==> adm[n - v - limit] + 1000 * window < adm[n - v])
      && (forall i :: 0 <= i < n - v ==> adm[i] < adm[n - v])
      && adm[n - 1] <= deadline
    case _ => false
  }

  lemma {:induction false} AdmittedInOrder(p: Policy, times: seq<int>)
    requires NonDecreasing(times)
    ensures Sorted(Admitted(p, times))
    ensures times != [] ==> forall i :: 0 <= i < |Admitted(p, times)| ==> Admitted(p, times)[i] <= times[|times| - 1]
  {
    hide Run;
    if times != [] {
      AdmittedInOrder(p, times[..|times| - 1]);
    }
  }

  lemma {:induction false} FixedWindowInvariant(limit: int, window: int, times: seq<int>)
    requires window > 0 && NonDecreasing(times)
    ensures CounterExplained(limit, window, Admitted(FixedWindow(limit, window), times), Run(FixedWindow(limit, window), times).1)
    ensures limit >= 1 ==> Spaced(Admitted(FixedWindow(limit, window), times), 2 * limit - 1, 1000 * window)
  {
    var p := FixedWindow(limit, window);
    if times != [] {
      var before := times[..|times| - 1];
      var now := times[|times| - 1];
      FixedWindowInvariant(limit, window, before);
      AdmittedInOrder(p, before);
      AdmittedInOrder(p, times);
      var adm, slot := Admitted(p, before), Run(p, before).1;
      forall i | 0 <= i < |adm| ensures adm[i] <= now {
        assert before != [];
      }
      FixedWindowAdvance(limit, window, adm, slot, now);
    }
  }

  lemma SpacedStep(adm: seq<int>, now: int, k: nat, span: int)
    requires Spaced(adm, k, span) && (|adm| >= k ==> (adm + [now])[|adm| - k] + span < now)
    ensures Spaced(adm + [now], k, span)
  {
    var s := adm + [now];
    forall i | 0 <= i < |s| - k
      ensures s[i] + span < s[i + k]
    {
      assert i < |adm| - k ==> adm[i] + span < adm[i + k];
    }
  }

  // A request that is let through is a window later than the one 2 * limit - 1 before it.
  lemma SpacingAdvance(limit: int, window: int, adm: seq<int>, slot: Slot, now: int)
    requires limit >= 1 && window > 0 && Sorted(adm)
    requires forall i :: 0 <= i < |adm| ==> adm[i] <= now
    requires CounterExplained(limit, window, adm, slot) && LetsThrough(FixedWindowStep(slot, limit, window, now).0)
    requires |adm| >= 2 * limit - 1
    ensures (adm + [now])[|adm| - (2 * limit - 1)] + 1000 * window < now
  {
    var n, v := |adm|, slot.value.value.n;
    var i := n - (2 * limit - 1);
    if Held(slot, now).Some? {
      assert adm[i] <= adm[n - v - limit];
    } else {
      assert adm[i] <= adm[n - v];
    }
  }

  lemma CounterAdvance(limit: int, window: int, adm: seq<int>, slot: Slot, now: int)
    requires window > 0 && Sorted(adm)
    requires forall i :: 0 <= i < |adm| ==> adm[i] <= now
    requires CounterExplained(limit, window, adm, slot)
    ensures var (reply, slot') := FixedWindowStep(slot, limit, window, now);
            CounterExplained(limit, window, adm + if LetsThrough(reply) then [now] else [], slot')
  {
    if LetsThrough(FixedWindowStep(slot, limit, window, now).0) {
      if slot.Some? && Held(slot, now).None? && |adm| >= limit {
        assert adm[|adm| - limit] <= adm[|adm| - slot.value.value.n];
      }
    } else {
      assert adm + [] == adm;
    }
  }

  // One request keeps the explanation and the spacing.
  lemma FixedWindowAdvance(limit: int, window: int, adm: seq<int>, slot: Slot, now: int)
    requires window > 0 && Sorted(adm)
    requires forall i :: 0 <= i < |adm| ==> adm[i] <= now
    requires CounterExplained(limit, window, adm, slot)
    requires limit >= 1 ==> Spaced(adm, 2 * limit - 1, 1000 * window)
    ensures var (reply, slot') := FixedWindowStep(slot, limit, window, now);
            var adm' := adm + if LetsThrough(reply) then [now] else [];
            && CounterExplained(limit, window, adm', slot')
            && (limit >= 1 ==> Spaced(adm', 2 * limit - 1, 1000 * window))
  {
    CounterAdvance(limit, window, adm, slot, now);
    hide CounterExplained, FixedWindowStep, Sorted;
    if !LetsThrough(FixedWindowStep(slot, limit, window, now).0) {
      assert adm + [] == adm;
    } else if limit >= 1 {
      if |adm| >= 2 * limit - 1 {
        SpacingAdvance(limit, window, adm, slot, now);
      }
      SpacedStep(adm, now, 2 * limit - 1, 1000 * window);
    }
  }

  // A closed interval as long as the window admits at most 2 * limit - 1 requests.
  lemma FixedWindowBound(limit: int, window: int, times: seq<int>, from: int)
    requires limit >= 1 && window > 0 && NonDecreasing(times)
    ensures |Within(Admitted(FixedWindow(limit, window), times), from, from + 1000 * window)| <= 2 * limit - 1
  {
    FixedWindowInvariant(limit, window, times);
    AdmittedInOrder(FixedWindow(limit, window), times);
    SpacingBoundsIntervals(Admitted(FixedWindow(limit, window), times), 2 * limit - 1, 1000 * window, from);
  }

  // The counter is conserved: it equals the number of requests admitted in its own lifetime, never above limit.
  lemma CounterIsLifetimeCount(limit: int, window: int, times: seq<int>)
    requires window > 0 && NonDecreasing(times)
    ensures var adm := Admitted(FixedWindow(limit, window), times);
            match Run(FixedWindow(limit, window), times).1
            case None => adm == []
            case Some(Entry(Count(v), Some(deadline))) =>
              v == |Within(adm, deadline - 1000 * window, deadline)| <= limit
            case _ => false
  {
    var p := FixedWindow(limit, window);
    FixedWindowInvariant(limit, window, times);
    AdmittedInOrder(p, times);
    var adm, slot := Admitted(p, times), Run(p, times).1;
    if slot.Some? {
      var v, n := slot.value.value.n, |adm|;
      var deadline := slot.value.expireAt.value;
      assert Within(adm, deadline - 1000 * window, deadline) == Range(n - v, v);
      RangeSize(n - v, v);
    }
  }

  // No false rejection: a refused request finds `limit` admitted ones in the window that ends with it.
  lemma FixedWindowRejection(limit: int, window: int, times: seq<int>, now: int)
    requires limit >= 1 && window > 0 && NonDecreasing(times)
    requires times != [] ==> times[|times| - 1] <= now
    requires !Run(FixedWindow(limit, window), times + [now]).0[|times|]
    ensures |Within(Admitted(FixedWindow(limit, window), times), now - 1000 * window, now)| >= limit
  {
    var p := FixedWindow(limit, window);
    RunAppend(p, times, now);
    FixedWindowInvariant(limit, window, times);
    AdmittedInOrder(p, times);
    RefusedWhenFull(limit, window, Admitted(p, times), Run(p, times).1, now);
  }

  lemma RefusedWhenFull(limit: int, window: int, adm: seq<int>, slot: Slot, now: int)
    requires limit >= 1 && window > 0 && Sorted(adm)
    requires adm != [] ==> adm[|adm| - 1] <= now
    requires CounterExplained(limit, window, adm, slot)
    requires !LetsThrough(FixedWindowStep(slot, limit, window, now).0)
    ensures |Within(adm, now - 1000 * window, now)| >= limit
  {
    assert slot.value.value.n == limit;
    LastOnesWithin(adm, limit, now - 1000 * window, now);
  }

  lemma LastOnesWithin(adm: seq<int>, k: nat, from: int, to: int)
    requires Sorted(adm) && 1 <= k <= |adm|
    requires from <= adm[|adm| - k] && adm[|adm| - 1] <= to
    ensures |Within(adm, from, to)| >= k
  {
    var n := |adm|;
    assert Range(n - k, k) <= Within(adm, from, to);
    RangeSize(n - k, k);
    SubsetSize(Range(n - k, k), Within(adm, from, to));
  }

  // The bound is tight: one request opens a counter, limit - 1 follow at its deadline, limit more a millisecond later.
  function Burst(limit: nat, window: nat): (times: seq<int>)
    requires limit >= 1
    ensures |times| == 2 * limit
  {
    seq(2 * limit, i => if i == 0 then 0 else if i < limit then 1000 * window else 1000 * window + 1)
  }

  ghost function BurstSlot(limit: nat, window: nat, k: nat): Slot {
    if k == 0 then None
    else if k <= limit then Some(Entry(Count(k), Some(1000 * window)))
    else Some(Entry(Count(k - limit), Some(2000 * window + 1)))
  }

  lemma BurstStep(limit: nat, window: nat, k: nat)
    requires limit >= 1 && window >= 1 && k < 2 * limit
    ensures var (reply, slot) := FixedWindowStep(BurstSlot(limit, window, k), limit, window, Burst(limit, window)[k]);
            LetsThrough(reply) && slot == BurstSlot(limit, window, k + 1)
  {
  }

  lemma {:induction false} BurstAdmitted(limit: nat, window: nat, k: nat)
    requires limit >= 1 && window >= 1 && k <= 2 * limit
    ensures Admitted(FixedWindow(limit, window), Burst(limit, window)[..k]) == Burst(limit, window)[..k]
    ensures Run(FixedWindow(limit, window), Burst(limit, window)[..k]).1 == BurstSlot(limit, window, k)
  {
    if k > 0 {
      BurstAdmitted(limit, window, k - 1);
      BurstStep(limit, window, k - 1);
      var times := Burst(limit, window);
      assert times[..k] == times[..k - 1] + [times[k - 1]];
      RunAppend(FixedWindow(limit, window), times[..k - 1], times[k - 1]);
    }
  }

  lemma FixedWindowBoundIsTight(limit: nat, window: nat)
    requires limit >= 1 && window >= 1
    ensures NonDecreasing(Burst(limit, window))
    ensures |Within(Admitted(FixedWindow(limit, window), Burst(limit, window)), 1000 * window, 1000 * window + 1)| == 2 * limit - 1
  {
    var times := Burst(limit, window);
    BurstAdmitted(limit, window, 2 * limit);
    assert times[..2 * limit] == times;
    assert Within(times, 1000 * window, 1000 * window + 1) == Range(1, 2 * limit - 1);
    RangeSize(1, 2 * limit - 1);
  }
}
