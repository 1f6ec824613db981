// Counting events in time intervals, shared by the window theorems.
module WindowCounts {
  import opened Wrappers

  ghost predicate Sorted(ts: seq<int>) {
    forall i, j :: 0 <= i <= j < |ts| ==> ts[i] <= ts[j]
  }

  // Any event and the k-th one after it are more than `span` apart.
  ghost predicate Spaced(ts: seq<int>, k: nat, span: int) {
    forall i :: 0 <= i < |ts| - k ==> ts[i] + span < ts[i + k]
  }

  // The positions of the events in the closed interval [from, to].
  ghost function Within(ts: seq<int>, from: int, to: int): set<int> {
    set i | 0 <= i < |ts| && from <= ts[i] <= to
  }

  predicate InRange(i: int, lo: int, n: nat) { lo <= i < lo + n }

  ghost function Range(lo: int, n: nat): set<int> {
    set i {:trigger InRange(i, lo, n)} | lo <= i < lo + n && InRange(i, lo, n)
  }

  lemma {:induction false} RangeSize(lo: int, n: nat)
    ensures |Range(lo, n)| == n
  {
    if n > 0 {
      RangeSize(lo, n - 1);
      assert Range(lo, n) == Range(lo, n - 1) + {lo + n - 1};
    }
  }

  // Spacing turns into a bound on every closed interval of that length.
  lemma SpacingBoundsIntervals(ts: seq<int>, k: nat, span: int, from: int)
    requires Sorted(ts) && Spaced(ts, k, span)
    ensures |Within(ts, from, from + span)| <= k
  {
    var w := Within(ts, from, from + span);
    if w != {} {
      var first := Least(w);
      forall i | first + k <= i < |ts| ensures i !in w {
        assert ts[first] + span < ts[first + k] <= ts[i];
      }
      forall i | i in w ensures i in Range(first, k) {
        assert InRange(i, first, k);
      }
      RangeSize(first, k);
      SubsetSize(w, Range(first, k));
    }
  }

  lemma Member<T>(s: set<T>) returns (x: T)
    requires s != {}
    ensures x in s
  {
    x :| x in s;
  }

  lemma {:induction false} Least(w: set<int>) returns (m: int)
    requires w != {}
    ensures m in w && forall i :: i in w ==> m <= i
    decreases |w|
  {
    var x := Member(w);
    m := x;
    if w - {x} != {} {
      var rest := Least(w - {x});
      m := if rest < x then rest else x;
    }
    assert forall i :: i in w ==> i == x || i in w - {x};
  }
}
