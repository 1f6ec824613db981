// Token-bucket histories, in exact reals. `Drain` is the bucket without key expiry; the script is compared to it.
module TokenBucketHistories {
  import opened Wrappers
  import opened RateLimit

  datatype Level = Level(tokens: real, at: int)

  function Available(level: Option<Level>, burst: int, refill: real, sec: int): real {
    if level.None? then burst as real else Refilled(level.value.tokens, level.value.at, sec, burst, refill)
  }

  function DrainStep(level: Option<Level>, burst: int, refill: real, sec: int): (bool, Level) {
    var tokens := Available(level, burst, refill, sec);
    if tokens < 1.0 then (false, Level(tokens, sec)) else (true, Level(tokens - 1.0, sec))
  }

  function Drain(burst: int, refill: real, secs: seq<int>): (r: (seq<bool>, Option<Level>))
    ensures |r.0| == |secs|
  {
    if secs == [] then ([], None)
    else
      var prev := Drain(burst, refill, secs[..|secs| - 1]);
      var step := DrainStep(prev.1, burst, refill, secs[|secs| - 1]);
      (prev.0 + [step.0], Some(step.1))
  }

  lemma DrainAppend(burst: int, refill: real, secs: seq<int>, sec: int)
    ensures var (ds, level) := Drain(burst, refill, secs);
            var step := DrainStep(level, burst, refill, sec);
            Drain(burst, refill, secs + [sec]) == (ds + [step.0], Some(step.1))
  {
    assert (secs + [sec])[..|secs|] == secs;
  }

  lemma {:induction false} DrainPrefix(burst: int, refill: real, secs: seq<int>, k: nat)
    requires k <= |secs|
    ensures Drain(burst, refill, secs[..k]).0 == Drain(burst, refill, secs).0[..k]
    decreases |secs|
  {
    if k < |secs| {
      assert secs[..|secs| - 1][..k] == secs[..k];
      DrainPrefix(burst, refill, secs[..|secs| - 1], k);
    } else {
      assert secs[..k] == secs;
    }
  }

  function Total(ds: seq<bool>): nat {
    if ds == [] then 0 else Total(ds[..|ds| - 1]) + if ds[|ds| - 1] then 1 else 0
  }

  lemma TotalAppend(ds: seq<bool>, d: bool)
    ensures Total(ds + [d]) == Total(ds) + if d then 1 else 0
  {
    assert (ds + [d])[..|ds|] == ds;
  }

  // How many requests were admitted from position j on.
  ghost function Since(ds: seq<bool>, j: nat): int
    requires j <= |ds|
  {
    Total(ds) - Total(ds[..j])
  }

  // What the bound burst + refill * elapsed leaves at `sec` for a stretch that starts at position j.
  ghost function Allowance(burst: int, refill: real, secs: seq<int>, ds: seq<bool>, sec: int, j: nat): real
    requires j <= |secs| == |ds|
  {
    if j == |secs| then burst as real
    else burst as real + (sec - secs[j]) as real * refill - Since(ds, j) as real
  }

  lemma AllowanceLater(burst: int, refill: real, before: seq<int>, ds: seq<bool>, last: int, d: bool, sec: int, j: nat)
    requires j <= |before| == |ds|
    ensures Allowance(burst, refill, before + [last], ds + [d], sec, j) ==
            Allowance(burst, refill, before, ds, last, j) + (sec - last) as real * refill - if d then 1.0 else 0.0
  {
    TotalAppend(ds, d);
    assert (ds + [d])[..j] == ds[..j];
    if j < |before| {
      assert (sec - before[j]) as real * refill == (last - before[j]) as real * refill + (sec - last) as real * refill;
    } else {
      assert ds[..j] == ds;
    }
  }

  ghost predicate IsLeast(x: real, burst: int, refill: real, secs: seq<int>, ds: seq<bool>, sec: int, least: nat)
    requires |secs| == |ds|
  {
    && least <= |secs|
    && x == Allowance(burst, refill, secs, ds, sec, least)
    && forall j :: 0 <= j <= |secs| ==> x <= Allowance(burst, refill, secs, ds, sec, j)
  }

  // The stored tokens are exactly the least allowance over all starting points.
  lemma {:induction false} TokensAreLeastAllowance(burst: int, refill: real, secs: seq<int>, sec: int) returns (least: nat)
    ensures var (ds, level) := Drain(burst, refill, secs);
            IsLeast(Available(level, burst, refill, sec), burst, refill, secs, ds, sec, least)
  {
    if secs == [] {
      least := 0;
    } else {
      var before, last := secs[..|secs| - 1], secs[|secs| - 1];
      assert secs == before + [last];
      least := TokensAreLeastAllowance(burst, refill, before, last);
      DrainAppend(burst, refill, before, last);
      var (ds, level) := Drain(burst, refill, before);
      least := LeastLater(Available(level, burst, refill, last), burst, refill, before, ds, last, sec, least);
    }
  }

  lemma LeastLater(x: real, burst: int, refill: real, before: seq<int>, ds: seq<bool>, last: int, sec: int, least: nat)
    returns (least': nat)
    requires |before| == |ds| && IsLeast(x, burst, refill, before, ds, last, least)
    ensures var d := x >= 1.0;
            IsLeast(Refilled(if d then x - 1.0 else x, last, sec, burst, refill), burst, refill, before + [last], ds + [d], sec, least')
  {
    var d := x >= 1.0;
    var secs, ds' := before + [last], ds + [d];
    var gain := (sec - last) as real * refill - if d then 1.0 else 0.0;
    forall j | 0 <= j <= |before|
      ensures Allowance(burst, refill, secs, ds', sec, j) == Allowance(burst, refill, before, ds, last, j) + gain
    {
      AllowanceLater(burst, refill, before, ds, last, d, sec, j);
    }
    least' := if burst as real <= x + gain then |secs| else least;
  }

  // `count` requests in a stretch of `elapsed` seconds keep the bucket's promise.
  predicate Fits(burst: int, refill: real, elapsed: int, count: int) {
    count as real <= burst as real + elapsed as real * refill
  }

  // Admission is exact: a request passes iff, counting it, every stretch of the history that ends with it stays
  // within burst + refill * elapsed. So a refusal always names a stretch that admitting would have overfilled.
  lemma AdmittedIffEveryStretchFits(burst: int, refill: real, secs: seq<int>, sec: int)
    ensures var ds := Drain(burst, refill, secs).0;
            Drain(burst, refill, secs + [sec]).0[|secs|] <==>
              burst >= 1 &&
              forall j :: 0 <= j < |secs| ==> Fits(burst, refill, sec - secs[j], Since(ds, j) + 1)
  {
    var least := TokensAreLeastAllowance(burst, refill, secs, sec);
    DrainAppend(burst, refill, secs, sec);
    var (ds, level) := Drain(burst, refill, secs);
    var tokens := Available(level, burst, refill, sec);
    assert tokens <= Allowance(burst, refill, secs, ds, sec, |secs|);
    if tokens >= 1.0 {
      forall j | 0 <= j < |secs| ensures Fits(burst, refill, sec - secs[j], Since(ds, j) + 1) {
        assert tokens <= Allowance(burst, refill, secs, ds, sec, j);
      }
    }
  }

  ghost function AdmittedBetween(ds: seq<bool>, i: nat, j: nat): int
    requires i <= j < |ds|
  {
    Total(ds[..j + 1]) - Total(ds[..i])
  }

  lemma BetweenByLast(ds: seq<bool>, i: nat, j: nat)
    requires i <= j < |ds|
    ensures AdmittedBetween(ds, i, j) == Since(ds[..j], i) + if ds[j] then 1 else 0
    ensures Since(ds[..j], i) == if i < j then AdmittedBetween(ds, i, j - 1) else 0
  {
    TotalAppend(ds[..j], ds[j]);
    assert ds[..j] + [ds[j]] == ds[..j + 1];
    assert ds[..j][..i] == ds[..i];
  }

  lemma DecisionAt(burst: int, refill: real, secs: seq<int>, j: nat)
    requires j < |secs|
    ensures Drain(burst, refill, secs[..j]).0 == Drain(burst, refill, secs).0[..j]
    ensures Drain(burst, refill, secs[..j] + [secs[j]]).0[j] == Drain(burst, refill, secs).0[j]
  {
    DrainPrefix(burst, refill, secs, j);
    DrainPrefix(burst, refill, secs, j + 1);
    assert secs[..j] + [secs[j]] == secs[..j + 1];
  }

  lemma StretchToAdmitted(burst: int, refill: real, secs: seq<int>, ds: seq<bool>, i: nat, j: nat)
    requires i <= j < |secs| && ds == Drain(burst, refill, secs).0 && ds[j]
    ensures Fits(burst, refill, secs[j] - secs[i], AdmittedBetween(ds, i, j))
  {
    BetweenByLast(ds, i, j);
    DecisionAt(burst, refill, secs, j);
    var before, sec := secs[..j], secs[j];
    assert before + [sec] == secs[..j + 1];
    FitsWhenAdmitted(burst, refill, before, sec, i);
    assert i < j ==> before[i] == secs[i];
  }

  lemma FitsWhenAdmitted(burst: int, refill: real, before: seq<int>, sec: int, i: nat)
    requires i <= |before| && Drain(burst, refill, before + [sec]).0[|before|]
    ensures var ds := Drain(burst, refill, before).0;
            Fits(burst, refill, if i < |before| then sec - before[i] else 0, Since(ds, i) + 1)
  {
    AdmittedIffEveryStretchFits(burst, refill, before, sec);
    var ds := Drain(burst, refill, before).0;
    if i == |before| {
      assert ds[..i] == ds;
    } else {
      assert Fits(burst, refill, sec - before[i], Since(ds, i) + 1);
    }
  }

  // Any stretch of the history from position i to position j admits at most burst + refill * elapsed requests.
  lemma {:induction false} StretchBound(burst: int, refill: real, secs: seq<int>, i: nat, j: nat)
    requires burst >= 0 && refill >= 0.0 && NonDecreasing(secs)
    requires i <= j < |secs|
    ensures Fits(burst, refill, secs[j] - secs[i], AdmittedBetween(Drain(burst, refill, secs).0, i, j))
  {
    var ds := Drain(burst, refill, secs).0;
    if ds[j] {
      StretchToAdmitted(burst, refill, secs, ds, i, j);
    } else {
      BetweenByLast(ds, i, j);
      if i < j {
        StretchBound(burst, refill, secs, i, j - 1);
        FitsLonger(burst, refill, secs[j - 1] - secs[i], secs[j] - secs[i], AdmittedBetween(ds, i, j - 1));
      }
    }
  }

  lemma FitsLonger(burst: int, refill: real, elapsed: int, longer: int, count: int)
    requires refill >= 0.0 && elapsed <= longer
    requires Fits(burst, refill, elapsed, count)
    ensures Fits(burst, refill, longer, count)
  {
    assert elapsed as real * refill <= longer as real * refill;
  }

  // Two refills in a row are one.
  lemma RefillComposes(level: Level, burst: int, refill: real, mid: int, sec: int)
    requires refill >= 0.0 && mid <= sec
    ensures Refilled(Refilled(level.tokens, level.at, mid, burst, refill), mid, sec, burst, refill) ==
            Refilled(level.tokens, level.at, sec, burst, refill)
  {
    assert (mid - level.at) as real * refill + (sec - mid) as real * refill == (sec - level.at) as real * refill;
    assert (sec - mid) as real * refill >= 0.0;
  }

  function Keep<T>(s: seq<T>, mask: seq<bool>): seq<T>
    requires |s| == |mask|
  {
    if s == [] then []
    else
      var n := |s| - 1;
      Keep(s[..n], mask[..n]) + if mask[n] then [s[n]] else []
  }

  ghost predicate SameFrom(a: Option<Level>, b: Option<Level>, burst: int, refill: real, sec: int) {
    forall t :: sec <= t ==> Available(a, burst, refill, t) == Available(b, burst, refill, t)
  }

  // Refused requests leave no trace: dropping any of them changes no other decision.
  lemma {:induction false} RefusalsAreUnobservable(burst: int, refill: real, secs: seq<int>, mask: seq<bool>)
    requires refill >= 0.0 && NonDecreasing(secs) && |mask| == |secs|
    requires forall i :: 0 <= i < |secs| && Drain(burst, refill, secs).0[i] ==> mask[i]
    ensures Drain(burst, refill, Keep(secs, mask)).0 == Keep(Drain(burst, refill, secs).0, mask)
    ensures secs != [] ==>
              SameFrom(Drain(burst, refill, secs).1, Drain(burst, refill, Keep(secs, mask)).1, burst, refill, secs[|secs| - 1])
  {
    if secs != [] {
      var n := |secs| - 1;
      var before, last, rest := secs[..n], secs[n], mask[..n];
      assert secs == before + [last] && mask == rest + [mask[n]];
      DrainAppend(burst, refill, before, last);
      var ds := Drain(burst, refill, before).0;
      assert forall i :: 0 <= i < n ==> Drain(burst, refill, secs).0[i] == ds[i];
      RefusalsAreUnobservable(burst, refill, before, rest);
      KeepAppend(before, last, rest, mask[n]);
      KeepAppend(ds, Drain(burst, refill, secs).0[n], rest, mask[n]);
      assert n > 0 ==> secs[n - 1] <= last;
      OneMoreRequest(burst, refill, before, Keep(before, rest), last, mask[n]);
    }
  }

  lemma KeepAppend<T>(s: seq<T>, x: T, mask: seq<bool>, m: bool)
    requires |s| == |mask|
    ensures Keep(s + [x], mask + [m]) == Keep(s, mask) + if m then [x] else []
  {
    assert (s + [x])[..|s|] == s && (mask + [m])[..|mask|] == mask;
  }

  // One more request after a full history and after the history without some refusals.
  lemma OneMoreRequest(burst: int, refill: real, full: seq<int>, kept: seq<int>, sec: int, keep: bool)
    requires refill >= 0.0
    requires SameFrom(Drain(burst, refill, full).1, Drain(burst, refill, kept).1, burst, refill, sec)
    requires Drain(burst, refill, full + [sec]).0[|full|] ==> keep
    ensures var (d, level) := DrainStep(Drain(burst, refill, full).1, burst, refill, sec);
            && Drain(burst, refill, kept + if keep then [sec] else []).0 == Drain(burst, refill, kept).0 + (if keep then [d] else [])
            && SameFrom(Some(level), Drain(burst, refill, kept + if keep then [sec] else []).1, burst, refill, sec)
  {
    DrainAppend(burst, refill, full, sec);
    if keep {
      DrainAppend(burst, refill, kept, sec);
    } else {
      assert kept + [] == kept;
      assert Drain(burst, refill, kept).0 + [] == Drain(burst, refill, kept).0;
      DroppedRefusal(Drain(burst, refill, full).1, Drain(burst, refill, kept).1, burst, refill, sec);
    }
  }

  lemma DroppedRefusal(level: Option<Level>, other: Option<Level>, burst: int, refill: real, sec: int)
    requires refill >= 0.0 && SameFrom(level, other, burst, refill, sec)
    requires !DrainStep(level, burst, refill, sec).0
    ensures SameFrom(Some(DrainStep(level, burst, refill, sec).1), other, burst, refill, sec)
  {
    forall t | sec <= t
      ensures Available(Some(DrainStep(level, burst, refill, sec).1), burst, refill, t) == Available(other, burst, refill, t)
    {
      if level.Some? {
        RefillComposes(level.value, burst, refill, sec, t);
      } else {
        assert (t - sec) as real * refill >= 0.0;
      }
    }
  }
}
