// Snowflake ids: a timestamp, five worker bits, five process bits and a sequence of twelve bits, and the
// generator that never gives the same one twice while the clock does not go back.
module SnowflakeIds {
  import opened Bits

  datatype Generator = Generator(epoch: int, workerId: int, processId: int, sequence: nat, lastMillisecond: int)

  datatype Parsed = Parsed(timestamp: int, workerId: int, processId: int, sequence: int)

  // ----- Bit packing -----

  function Pack(millis: int, workerId: int, processId: int, sequence: nat): int {
    Or(Or(Or(Shl(millis, 22), Nat(Shl(And(workerId, 31), 17))), Nat(Shl(And(processId, 31), 12))), sequence)
  }

  function Nat(x: int): nat { if x < 0 then 0 else x }

  function ParseId(epoch: int, id: int): Parsed {
    Parsed(Shr(id, 22) + epoch, And(Shr(id, 17), 31), And(Shr(id, 12), 31), And(id, 4095))
  }

  lemma Powers()
    ensures Pow2(5) == 32 && Pow2(12) == 4096 && Pow2(17) == 131072 && Pow2(22) == 4194304
  {
    assert Pow2(5) == 32;
    assert Pow2(8) == 256 && Pow2(12) == 4096;
    assert Pow2(15) == 32768 && Pow2(17) == 131072;
    assert Pow2(20) == 1048576 && Pow2(22) == 4194304;
  }

  lemma Shifts(a: int)
    ensures Shl(a, 12) == 4096 * a && Shl(a, 17) == 131072 * a && Shl(a, 22) == 4194304 * a
    ensures Shr(a, 12) == a / 4096 && Shr(a, 17) == a / 131072 && Shr(a, 22) == a / 4194304
  {
    hide Pow2;
    Powers();
  }

  lemma Masks(a: int)
    ensures And(a, 31) == a % 32 && And(a, 4095) == a % 4096
  {
    hide Pow2, And;
    Powers();
    AndIsRemainder(a, 5);
    AndIsRemainder(a, 12);
  }

  lemma Ors(a: int, b: nat)
    ensures b < 4096 ==> Or(4096 * a, b) == 4096 * a + b
    ensures b < 131072 ==> Or(131072 * a, b) == 131072 * a + b
    ensures b < 4194304 ==> Or(4194304 * a, b) == 4194304 * a + b
  {
    hide Pow2, Or, Shl;
    Powers();
    Shifts(a);
    if b < 4096 { OrIsSum(a, 12, b); }
    if b < 131072 { OrIsSum(a, 17, b); }
    if b < 4194304 { OrIsSum(a, 22, b); }
  }

  // The or of the four parts is a number in mixed radix; the low five bits of worker and process count.
  lemma PackIsSum(millis: int, workerId: int, processId: int, sequence: nat)
    requires sequence < 4096
    ensures Pack(millis, workerId, processId, sequence) ==
            4194304 * millis + 131072 * (workerId % 32) + 4096 * (processId % 32) + sequence
  {
    hide Or, And, Shl, Pack;
    var w, p := workerId % 32, processId % 32;
    PackOfParts(millis, workerId, processId, sequence);
    Ors(millis, 131072 * w);
    Ors(32 * millis + w, 4096 * p);
    Ors(1024 * millis + 32 * w + p, sequence);
  }

  lemma PackOfParts(millis: int, workerId: int, processId: int, sequence: nat)
    ensures Pack(millis, workerId, processId, sequence) ==
            Or(Or(Or(4194304 * millis, 131072 * (workerId % 32)), 4096 * (processId % 32)), sequence)
  {
    hide Or, And, Shl;
    Masks(workerId);
    Masks(processId);
    Shifts(millis);
    Shifts(workerId % 32);
    Shifts(processId % 32);
  }

  // parseId gives back what went in, for every timestamp, before the epoch as well.
  lemma ParseInvertsPack(epoch: int, now: int, workerId: int, processId: int, sequence: nat)
    requires sequence < 4096
    ensures ParseId(epoch, Pack(now - epoch, workerId, processId, sequence)) ==
            Parsed(now, workerId % 32, processId % 32, sequence)
  {
    hide Or, And, Shl, Shr, Pack;
    var t, w, p := now - epoch, workerId % 32, processId % 32;
    var id := Pack(t, workerId, processId, sequence);
    PackIsSum(t, workerId, processId, sequence);
    Shifts(id);
    Masks(id);
    Masks(Shr(id, 17));
    Masks(Shr(id, 12));
    MixedRadix(id, t, w, p, sequence);
  }

  lemma MixedRadix(id: int, t: int, w: int, p: int, s: int)
    requires 0 <= w < 32 && 0 <= p < 32 && 0 <= s < 4096
    requires id == 4194304 * t + 131072 * w + 4096 * p + s
    ensures id / 4194304 == t && id / 131072 % 32 == w && id / 4096 % 32 == p && id % 4096 == s
  {
    QuotientIs(id, 4194304, t, 131072 * w + 4096 * p + s);
    QuotientIs(id, 131072, 32 * t + w, 4096 * p + s);
    QuotientIs(id, 4096, 1024 * t + 32 * w + p, s);
    QuotientIs(32 * t + w, 32, t, w);
    QuotientIs(1024 * t + 32 * w + p, 32, 32 * t + w, p);
  }

  // ----- The generator -----

  // One call: the first reading of the clock and the reading that ends the spin, when there is a spin.
  datatype Call = Call(now: int, spun: int)

  function NextSequence(g: Generator, now: int): nat {
    if now == g.lastMillisecond then Nat(And(g.sequence + 1, 4095)) else 0
  }

  predicate Spins(g: Generator, now: int) { now == g.lastMillisecond && NextSequence(g, now) == 0 }

  function Step(g: Generator, call: Call): Generator {
    g.(sequence := NextSequence(g, call.now), lastMillisecond := if Spins(g, call.now) then call.spun else call.now)
  }

  function IdOf(g: Generator): int { Pack(g.lastMillisecond - g.epoch, g.workerId, g.processId, g.sequence) }

  // A spin ends past the last millisecond.
  predicate Ends(g: Generator, call: Call) { Spins(g, call.now) ==> call.spun > g.lastMillisecond }

  predicate Forward(g: Generator, call: Call) { call.now >= g.lastMillisecond && Ends(g, call) }

  predicate Sound(g: Generator) { g.sequence < 4096 }

  lemma StepIsSound(g: Generator, call: Call)
    requires Sound(g)
    ensures Sound(Step(g, call))
    ensures NextSequence(g, call.now) == if call.now == g.lastMillisecond then (g.sequence + 1) % 4096 else 0
  {
    hide And;
    Masks(g.sequence + 1);
  }

  // A call gives a larger id than the one before exactly when the clock has not gone back.
  lemma StepIncreasesIff(g: Generator, call: Call)
    requires Sound(g) && Ends(g, call)
    ensures IdOf(Step(g, call)) > IdOf(g) <==> call.now >= g.lastMillisecond
  {
    hide And, Pack;
    StepIsSound(g, call);
    var h := Step(g, call);
    PackIsSum(g.lastMillisecond - g.epoch, g.workerId, g.processId, g.sequence);
    PackIsSum(h.lastMillisecond - h.epoch, h.workerId, h.processId, h.sequence);
  }

  function Run(g: Generator, calls: seq<Call>): Generator {
    if calls == [] then g else Step(Run(g, calls[..|calls| - 1]), calls[|calls| - 1])
  }

  // The ids of a run, one for each call.
  function Ids(g: Generator, calls: seq<Call>): (ids: seq<int>)
    ensures |ids| == |calls|
  {
    if calls == [] then [] else Ids(g, calls[..|calls| - 1]) + [IdOf(Run(g, calls))]
  }

  predicate ForwardRun(g: Generator, calls: seq<Call>) {
    calls == [] || (ForwardRun(g, calls[..|calls| - 1]) && Forward(Run(g, calls[..|calls| - 1]), calls[|calls| - 1]))
  }

  ghost predicate Increasing(s: seq<int>) { forall i, j :: 0 <= i < j < |s| ==> s[i] < s[j] }

  // All ids of one generator over any number of calls are strictly increasing.
  lemma {:induction false} IdsIncrease(g: Generator, calls: seq<Call>)
    requires Sound(g) && ForwardRun(g, calls)
    ensures Increasing(Ids(g, calls))
    ensures calls != [] ==> Ids(g, calls)[|calls| - 1] == IdOf(Run(g, calls))
    ensures Sound(Run(g, calls))
    decreases |calls|
  {
    if calls != [] {
      var n := |calls| - 1;
      IdsIncrease(g, calls[..n]);
      var h := Run(g, calls[..n]);
      StepIsSound(h, calls[n]);
      StepIncreasesIff(h, calls[n]);
      assert forall i :: 0 <= i < n ==> Ids(g, calls)[i] == Ids(g, calls[..n])[i] <= IdOf(h);
    }
  }

  // Every spin of a run ends past its millisecond.
  ghost predicate EndedRun(g: Generator, calls: seq<Call>) {
    forall i :: 0 <= i < |calls| ==> Ends(Run(g, calls[..i]), calls[i])
  }

  lemma {:induction false} IdAt(g: Generator, calls: seq<Call>, i: nat)
    requires i < |calls|
    ensures Ids(g, calls)[i] == IdOf(Run(g, calls[..i + 1])) && Run(g, calls[..i + 1]) == Step(Run(g, calls[..i]), calls[i])
    decreases |calls|
  {
    hide IdOf, Step;
    var n := |calls| - 1;
    assert calls[..i + 1][..i] == calls[..i];
    if i < n {
      IdAt(g, calls[..n], i);
      assert calls[..n][..i + 1] == calls[..i + 1];
    } else {
      assert calls[..i + 1] == calls;
    }
  }

  // The clock is not behind the call before.
  ghost predicate InTime(g: Generator, calls: seq<Call>, i: nat)
    requires i < |calls|
  {
    calls[i].now >= Run(g, calls[..i]).lastMillisecond
  }

  lemma NextIdIncreasesIff(g: Generator, calls: seq<Call>, i: nat)
    requires Sound(g) && EndedRun(g, calls) && 1 <= i < |calls|
    ensures Ids(g, calls)[i - 1] < Ids(g, calls)[i] <==> InTime(g, calls, i)
  {
    hide IdOf, Step, Ids, Ends;
    IdAt(g, calls, i - 1);
    IdAt(g, calls, i);
    RunKeepsNames(g, calls[..i]);
    StepIncreasesIff(Run(g, calls[..i]), calls[i]);
  }

  // The ids of a run increase exactly when no call finds the clock behind the one before it.
  lemma IdsIncreaseIff(g: Generator, calls: seq<Call>)
    requires Sound(g) && EndedRun(g, calls)
    ensures Increasing(Ids(g, calls)) <==> forall i :: 1 <= i < |calls| ==> InTime(g, calls, i)
  {
    hide Ids, EndedRun, Run;
    var ids := Ids(g, calls);
    if forall i :: 1 <= i < |calls| ==> InTime(g, calls, i) {
      forall i | 1 <= i < |ids|
        ensures ids[i - 1] < ids[i]
      {
        NextIdIncreasesIff(g, calls, i);
      }
      StepwiseIncreasing(ids);
    }
    if Increasing(ids) {
      forall i | 1 <= i < |calls|
        ensures InTime(g, calls, i)
      {
        NextIdIncreasesIff(g, calls, i);
      }
    }
  }

  lemma StepwiseIncreasing(s: seq<int>)
    requires forall i :: 1 <= i < |s| ==> s[i - 1] < s[i]
    ensures Increasing(s)
  {
    forall i, j | 0 <= i < j < |s|
      ensures s[i] < s[j]
    {
      LaterIsLarger(s, i, j);
    }
  }

  lemma {:induction false} LaterIsLarger(s: seq<int>, i: nat, j: nat)
    requires i < j < |s| && forall k :: 1 <= k < |s| ==> s[k - 1] < s[k]
    ensures s[i] < s[j]
    decreases j
  {
    if i < j - 1 {
      LaterIsLarger(s, i, j - 1);
    }
  }

  // Two calls give one id exactly when they end in one millisecond with one sequence number: for that the clock
  // has to come back to a millisecond already used.
  lemma RepeatsIff(g: Generator, calls: seq<Call>, i: nat, j: nat)
    requires Sound(g) && i < |calls| && j < |calls|
    ensures var a, b := Run(g, calls[..i + 1]), Run(g, calls[..j + 1]);
            Ids(g, calls)[i] == Ids(g, calls)[j] <==> a.lastMillisecond == b.lastMillisecond && a.sequence == b.sequence
  {
    hide Ids, Run, Pack, ParseId;
    IdAt(g, calls, i);
    IdAt(g, calls, j);
    IdsAreParsed(g, calls, i);
    IdsAreParsed(g, calls, j);
    RunKeepsNames(g, calls[..i + 1]);
    RunKeepsNames(g, calls[..j + 1]);
  }

  lemma {:induction false} RunKeepsNames(g: Generator, calls: seq<Call>)
    requires Sound(g)
    ensures Run(g, calls).epoch == g.epoch && Run(g, calls).workerId == g.workerId && Run(g, calls).processId == g.processId
    ensures Sound(Run(g, calls))
    decreases |calls|
  {
    if calls != [] {
      RunKeepsNames(g, calls[..|calls| - 1]);
      StepIsSound(Run(g, calls[..|calls| - 1]), calls[|calls| - 1]);
    }
  }

  // Every id of a run is read back by parseId, with the names of its generator.
  lemma {:induction false} IdsAreParsed(g: Generator, calls: seq<Call>, i: nat)
    requires Sound(g) && i < |calls|
    ensures var h := Run(g, calls[..i + 1]);
            ParseId(g.epoch, Ids(g, calls)[i]) == Parsed(h.lastMillisecond, g.workerId % 32, g.processId % 32, h.sequence)
    decreases |calls|
  {
    hide And, Pack, ParseId;
    var n := |calls| - 1;
    if i < n {
      IdsAreParsed(g, calls[..n], i);
      assert calls[..n][..i + 1] == calls[..i + 1];
    } else {
      assert calls[..n + 1] == calls;
      RunKeepsNames(g, calls);
      var h := Run(g, calls);
      ParseInvertsPack(g.epoch, h.lastMillisecond, g.workerId, g.processId, h.sequence);
    }
  }

  // Generators with different worker or process bits never give the same id, whatever their clocks and epochs do.
  lemma NoCollision(g: Generator, calls: seq<Call>, i: nat, h: Generator, calls': seq<Call>, j: nat)
    requires Sound(g) && Sound(h) && i < |calls| && j < |calls'|
    requires g.workerId % 32 != h.workerId % 32 || g.processId % 32 != h.processId % 32
    ensures Ids(g, calls)[i] != Ids(h, calls')[j]
  {
    hide Ids, Run;
    IdsAreParsed(g, calls, i);
    IdsAreParsed(h, calls', j);
    assert ParseId(g.epoch, Ids(g, calls)[i]).workerId == ParseId(h.epoch, Ids(g, calls)[i]).workerId;
    assert ParseId(g.epoch, Ids(g, calls)[i]).processId == ParseId(h.epoch, Ids(g, calls)[i]).processId;
  }

  // With the same remainders they give the same ids, call by call: the names count modulo 32 only.
  lemma {:induction false} NamesCountModulo32(g: Generator, h: Generator, calls: seq<Call>)
    requires Sound(g) && h == g.(workerId := h.workerId, processId := h.processId)
    requires g.workerId % 32 == h.workerId % 32 && g.processId % 32 == h.processId % 32
    ensures Ids(g, calls) == Ids(h, calls)
    ensures Run(h, calls) == Run(g, calls).(workerId := h.workerId, processId := h.processId)
    decreases |calls|
  {
    hide And, Pack;
    if calls != [] {
      NamesCountModulo32(g, h, calls[..|calls| - 1]);
      RunKeepsNames(g, calls);
      RunKeepsNames(h, calls);
      var x := Run(g, calls);
      PackIsSum(x.lastMillisecond - g.epoch, g.workerId, g.processId, x.sequence);
      PackIsSum(x.lastMillisecond - g.epoch, h.workerId, h.processId, x.sequence);
    }
  }

  // A clock that goes back one millisecond and on again to the one already used makes the generator repeat itself.
  lemma ClockGoingBackRepeats(g: Generator, t: int, spun: int)
    requires g.lastMillisecond < t - 1
    ensures Ids(g, [Call(t, spun), Call(t - 1, spun), Call(t, spun)])[0] == Ids(g, [Call(t, spun), Call(t - 1, spun), Call(t, spun)])[2]
  {
    var calls := [Call(t, spun), Call(t - 1, spun), Call(t, spun)];
    assert calls[..2][..1] == [Call(t, spun)] && calls[..2] == [Call(t, spun), Call(t - 1, spun)];
    assert [Call(t, spun)][..0] == [];
    var g1 := Step(g, calls[0]);
    assert Run(g, [Call(t, spun)]) == g1;
    assert Run(g, calls[..2]) == Step(g1, calls[1]);
    assert Run(g, calls) == Step(Step(g1, calls[1]), calls[2]) == g1;
    assert Ids(g, calls)[0] == Ids(g, calls[..2])[0] == Ids(g, calls[..2][..1])[0] == IdOf(g1);
  }

  // ----- Sequence numbers -----

  function AtOnce(now: int, n: nat): seq<Call> { seq(n, _ => Call(now, now + 1)) }

  // The calls of one new millisecond are numbered from 0, up to 4096 of them without any waiting; one more waits
  // for the next millisecond and starts again at 0.
  lemma {:induction false} CallsAreNumbered(g: Generator, now: int, n: nat)
    requires Sound(g) && now != g.lastMillisecond && 1 <= n <= 4096
    ensures var h := Run(g, AtOnce(now, n));
            && h.lastMillisecond == now && h.sequence == n - 1
            && (Spins(h, now) <==> n == 4096)
            && Step(h, Call(now, now + 1)) ==
               (if n == 4096 then h.(sequence := 0, lastMillisecond := now + 1) else h.(sequence := n))
    decreases n
  {
    hide And;
    assert AtOnce(now, n) == AtOnce(now, n - 1) + [Call(now, now + 1)];
    assert AtOnce(now, n)[..n - 1] == AtOnce(now, n - 1);
    var before := Run(g, AtOnce(now, n - 1));
    if n == 1 {
      assert AtOnce(now, 0) == [] && before == g;
    } else {
      CallsAreNumbered(g, now, n - 1);
    }
    RunKeepsNames(g, AtOnce(now, n - 1));
    StepIsSound(before, Call(now, now + 1));
    StepIsSound(Run(g, AtOnce(now, n)), Call(now, now + 1));
  }

  function Compare(a: int, b: int): int { if a == b then 0 else if a > b then 1 else -1 }

  // compare orders the ids of a generator by age.
  lemma CompareIsAge(g: Generator, calls: seq<Call>, i: nat, j: nat)
    requires Sound(g) && ForwardRun(g, calls) && i < |calls| && j < |calls|
    ensures Compare(Ids(g, calls)[i], Ids(g, calls)[j]) == Compare(i, j)
  {
    IdsIncrease(g, calls);
  }

  // ----- The class -----

  class Snowflake {
    const epoch: int
    const workerId: int
    const processId: int
    // The successive readings of Date.now(), and how many have been taken.
    const clock: nat -> int
    var tick: nat
    var sequence: nat
    var lastMillisecond: int

    constructor (epoch: int, workerId: int, processId: int, clock: nat -> int)
      ensures View() == Generator(epoch, workerId, processId, 0, -1) && Sound(View())
      ensures this.clock == clock && tick == 0
    {
      this.epoch, this.workerId, this.processId, this.clock := epoch, workerId, processId, clock;
      tick, sequence, lastMillisecond := 0, 0, -1;
    }

    ghost function View(): Generator
      reads this
    {
      Generator(epoch, workerId, processId, sequence, lastMillisecond)
    }

    method Now() returns (t: int)
      modifies this`tick
      ensures t == clock(old(tick)) && tick == old(tick) + 1
    {
      t := clock(tick);
      tick := tick + 1;
    }

    // A call spins when the sequence of its millisecond is used up. `later` is then any reading after the first
    // at which the clock has moved on: it is all the spin needs to end.
    method NextId(ghost later: nat) returns (id: int)
      requires Sound(View())
      requires Spins(View(), clock(tick)) ==> later > tick && clock(later) > lastMillisecond
      modifies this
      ensures if Spins(old(View()), clock(old(tick))) then old(tick) + 1 < tick <= later + 1 else tick == old(tick) + 1
      ensures View() == Step(old(View()), Call(clock(old(tick)), clock(tick - 1)))
      ensures Ends(old(View()), Call(clock(old(tick)), clock(tick - 1)))
      ensures id == IdOf(View()) && Sound(View())
      ensures clock(old(tick)) >= old(lastMillisecond) <==> id > old(IdOf(View()))
    {
      hide Or, And, Shl;
      ghost var g, first := View(), tick;
      var currentMillisecond := Now();
      if currentMillisecond == lastMillisecond {
        sequence := Nat(And(sequence + 1, 4095));
        if sequence == 0 {
          while currentMillisecond <= lastMillisecond
            invariant first < tick <= later + 1
            invariant currentMillisecond == clock(tick - 1)
            invariant View() == g.(sequence := 0)
            decreases later + 1 - tick
          {
            currentMillisecond := Now();
          }
        }
      } else {
        sequence := 0;
      }
      lastMillisecond := currentMillisecond;
      ghost var call := Call(clock(first), clock(tick - 1));
      StepIsSound(g, call);
      StepIncreasesIff(g, call);
      id := Or(Or(Or(Shl(currentMillisecond - epoch, 22), Nat(Shl(And(workerId, 31), 17))), Nat(Shl(And(processId, 31), 12))), sequence);
    }
  }
}
