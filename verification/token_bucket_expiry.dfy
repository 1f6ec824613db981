// The token-bucket key lives 3600 seconds after its last request. When does that expiry show?
module TokenBucketExpiry {
  import opened Wrappers
  import opened CacheStore
  import opened RateLimit
  import opened TokenBucketHistories

  function ToSeconds(times: seq<int>): (secs: seq<int>)
    ensures |secs| == |times|
  {
    if times == [] then [] else ToSeconds(times[..|times| - 1]) + [Seconds(times[|times| - 1])]
  }

  // The script's key and the bucket that never expires hold the same level.
  ghost predicate SameLevel(slot: Slot, level: Option<Level>, burst: int, last: int) {
    if level.None? then slot.None?
    else
      && slot == Some(Entry(Bucket(level.value.tokens, level.value.at), Some(last + 1000 * BUCKET_TTL)))
      && level.value.at == Seconds(last)
      && 0.0 <= level.value.tokens <= burst as real
  }

  lemma ExpiryStep(burst: int, refill: real, slot: Slot, level: Option<Level>, last: int, now: int)
    requires burst >= 1 && (BUCKET_TTL as real) * refill >= burst as real
    requires SameLevel(slot, level, burst, last) && last <= now
    ensures var (reply, slot') := TokenBucketStep(slot, burst, refill, now);
            var (d, level') := DrainStep(level, burst, refill, Seconds(now));
            reply.Reply? && reply.allowed == d && SameLevel(slot', Some(level'), burst, now)
  {
    if level.Some? {
      RefilledWithin(level.value.tokens, level.value.at, Seconds(now), burst, refill);
    }
    RefilledWithin(burst as real, Seconds(now), Seconds(now), burst, refill);
  }

  // A refill stays within the bucket, and 3600 seconds of it fill the bucket whatever was left.
  lemma RefilledWithin(tokens: real, at: int, sec: int, burst: int, refill: real)
    requires burst >= 1 && (BUCKET_TTL as real) * refill >= burst as real
    requires 0.0 <= tokens <= burst as real && at <= sec
    ensures 0.0 <= Refilled(tokens, at, sec, burst, refill) <= burst as real
    ensures sec - at >= BUCKET_TTL || tokens == burst as real ==> Refilled(tokens, at, sec, burst, refill) == burst as real
  {
    RefillIsPositive(burst, refill);
    EarnedIsPositive(refill, sec - at);
    if sec - at >= BUCKET_TTL {
      EarnedIsMonotone(refill, BUCKET_TTL, sec - at);
    }
    Capped(tokens, (sec - at) as real * refill, burst as real);
  }

  lemma Capped(tokens: real, earned: real, burst: real)
    requires 0.0 <= tokens <= burst && 0.0 <= earned
    ensures 0.0 <= Min(burst, tokens + earned) <= burst
    ensures earned >= burst || tokens == burst ==> Min(burst, tokens + earned) == burst
  {
  }

  lemma EarnedIsPositive(refill: real, elapsed: int)
    requires refill >= 0.0 && elapsed >= 0
    ensures elapsed as real * refill >= 0.0
  {
  }

  lemma EarnedIsMonotone(refill: real, elapsed: int, longer: int)
    requires refill >= 0.0 && elapsed <= longer
    ensures elapsed as real * refill <= longer as real * refill
  {
  }

  // With 3600 * refillPerSec >= burst the expiry is unobservable: the script decides like a bucket kept forever,
  // and so inherits every theorem of TokenBucketHistories.
  lemma {:induction false} ExpiryUnobservable(burst: int, refill: real, times: seq<int>)
    requires burst >= 1 && (BUCKET_TTL as real) * refill >= burst as real && NonDecreasing(times)
    ensures Run(TokenBucket(burst, refill), times).0 == Drain(burst, refill, ToSeconds(times)).0
    ensures times != [] ==>
              SameLevel(Run(TokenBucket(burst, refill), times).1, Drain(burst, refill, ToSeconds(times)).1, burst, times[|times| - 1])
  {
    if times != [] {
      var n := |times| - 1;
      var before, now := times[..n], times[n];
      ExpiryUnobservable(burst, refill, before);
      assert times == before + [now];
      RunAppend(TokenBucket(burst, refill), before, now);
      DrainAppend(burst, refill, ToSeconds(before), Seconds(now));
      ExpiryStep(burst, refill, Run(TokenBucket(burst, refill), before).1, Drain(burst, refill, ToSeconds(before)).1,
                 if n == 0 then now else times[n - 1], now);
    }
  }

  // Otherwise it shows: `burst` requests at once, and `burst` more just after the key has expired, are all
  // admitted, which no bucket kept for those 3600 seconds could do.
  ghost function TwoBursts(burst: nat, k: nat): (times: seq<int>)
    requires k <= 2 * burst
    ensures |times| == k
  {
    seq(k, i => if i < burst then 0 else 1000 * BUCKET_TTL + 1)
  }

  function BurstTime(burst: nat, k: nat): int { if k < burst then 0 else 1000 * BUCKET_TTL + 1 }

  ghost function LevelAfter(burst: nat, k: nat): Slot
    requires k <= 2 * burst
  {
    if k == 0 then None
    else if k <= burst then Some(Entry(Bucket((burst - k) as real, 0), Some(1000 * BUCKET_TTL)))
    else Some(Entry(Bucket((2 * burst - k) as real, BUCKET_TTL), Some(2000 * BUCKET_TTL + 1)))
  }

  lemma TwoBurstsStep(burst: nat, refill: real, k: nat)
    requires burst >= 1 && k < 2 * burst
    ensures var (reply, slot) := TokenBucketStep(LevelAfter(burst, k), burst, refill, BurstTime(burst, k));
            LetsThrough(reply) && slot == LevelAfter(burst, k + 1)
  {
    assert 0 as real * refill == 0.0;
  }

  lemma {:induction false} TwoBurstsAdmitted(burst: nat, refill: real, k: nat)
    requires burst >= 1 && k <= 2 * burst
    ensures Run(TokenBucket(burst, refill), TwoBursts(burst, k)).1 == LevelAfter(burst, k)
    ensures Total(Run(TokenBucket(burst, refill), TwoBursts(burst, k)).0) == k
  {
    if k == 0 {
      NoBursts(burst, refill);
    } else {
      hide Run, LevelAfter, Total, TwoBursts;
      TwoBurstsAdmitted(burst, refill, k - 1);
      TwoBurstsGrow(burst, k);
      TwoBurstsNext(burst, refill, TwoBursts(burst, k - 1), k - 1);
    }
  }

  lemma NoBursts(burst: nat, refill: real)
    ensures Run(TokenBucket(burst, refill), TwoBursts(burst, 0)).1 == LevelAfter(burst, 0)
    ensures Total(Run(TokenBucket(burst, refill), TwoBursts(burst, 0)).0) == 0
  {
  }

  lemma TwoBurstsGrow(burst: nat, k: nat)
    requires 0 < k <= 2 * burst
    ensures TwoBursts(burst, k) == TwoBursts(burst, k - 1) + [BurstTime(burst, k - 1)]
  {
  }

  lemma TwoBurstsNext(burst: nat, refill: real, before: seq<int>, k: nat)
    requires burst >= 1 && k < 2 * burst
    requires Run(TokenBucket(burst, refill), before).1 == LevelAfter(burst, k)
    requires Total(Run(TokenBucket(burst, refill), before).0) == k
    ensures Run(TokenBucket(burst, refill), before + [BurstTime(burst, k)]).1 == LevelAfter(burst, k + 1)
    ensures Total(Run(TokenBucket(burst, refill), before + [BurstTime(burst, k)]).0) == k + 1
  {
    RunAppend(TokenBucket(burst, refill), before, BurstTime(burst, k));
    TwoBurstsStep(burst, refill, k);
    TotalAppend(Run(TokenBucket(burst, refill), before).0, true);
  }

  lemma {:induction false} ToSecondsAt(times: seq<int>)
    ensures forall i :: 0 <= i < |times| ==> ToSeconds(times)[i] == Seconds(times[i])
  {
    if times != [] {
      ToSecondsAt(times[..|times| - 1]);
    }
  }

  lemma TwoBurstsSeconds(burst: nat)
    requires burst >= 1
    ensures NonDecreasing(TwoBursts(burst, 2 * burst))
    ensures var secs := ToSeconds(TwoBursts(burst, 2 * burst));
            NonDecreasing(secs) && secs[2 * burst - 1] - secs[0] == BUCKET_TTL
  {
    ToSecondsAt(TwoBursts(burst, 2 * burst));
  }

  lemma KeptBucketAdmitsFewer(burst: nat, refill: real, secs: seq<int>)
    requires burst >= 1 && refill >= 0.0 && (BUCKET_TTL as real) * refill < burst as real
    requires |secs| == 2 * burst && NonDecreasing(secs) && secs[2 * burst - 1] - secs[0] == BUCKET_TTL
    ensures Total(Drain(burst, refill, secs).0) < 2 * burst
  {
    var ds := Drain(burst, refill, secs).0;
    StretchBound(burst, refill, secs, 0, 2 * burst - 1);
    assert ds[..2 * burst] == ds;
    assert AdmittedBetween(ds, 0, 2 * burst - 1) == Total(ds);
    assert Fits(burst, refill, BUCKET_TTL, Total(ds));
  }

  // The condition is exact.
  lemma ExpiryShowsOtherwise(burst: nat, refill: real)
    requires burst >= 1 && refill >= 0.0
    requires 3600.0 * refill < burst as real
    ensures var times := TwoBursts(burst, 2 * burst);
            && NonDecreasing(times)
            && Run(TokenBucket(burst, refill), times).0 != Drain(burst, refill, ToSeconds(times)).0
  {
    var times := TwoBursts(burst, 2 * burst);
    TwoBurstsAdmitted(burst, refill, 2 * burst);
    TwoBurstsSeconds(burst);
    KeptBucketAdmitsFewer(burst, refill, ToSeconds(times));
  }

  // So the script itself keeps the bucket's promise over every stretch of its history.
  lemma ScriptStretchBound(burst: int, refill: real, times: seq<int>, i: nat, j: nat)
    requires burst >= 1 && (BUCKET_TTL as real) * refill >= burst as real && NonDecreasing(times)
    requires i <= j < |times|
    ensures Fits(burst, refill, Seconds(times[j]) - Seconds(times[i]), AdmittedBetween(Run(TokenBucket(burst, refill), times).0, i, j))
  {
    hide Run, Drain, Fits, AdmittedBetween, ToSeconds, SameLevel;
    RefillIsPositive(burst, refill);
    ExpiryUnobservable(burst, refill, times);
    ToSecondsAt(times);
    StretchBound(burst, refill, ToSeconds(times), i, j);
  }

  lemma RefillIsPositive(burst: int, refill: real)
    requires burst >= 1 && (BUCKET_TTL as real) * refill >= burst as real
    ensures refill >= 0.0
  {
  }
}
