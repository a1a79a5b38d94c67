/** The loop timer of timingUtility.cpp: a registry of time steps, each with a
    slot in seven parallel statistics vectors, and the per-loop update of
    those statistics. Durations are whole nanoseconds (Clock::duration) and
    clock readings are passed in as parameters. */
module TimingUtility {
  import opened Text

  /** One slot of the seven vectors: loop count, and min/max/average of the
      frame time (whole loop, including sleep) and of the busy time. */
  datatype Slot = Slot(count: nat,
                       minFrame: int, maxFrame: int, avgFrame: int,
                       minBusy: int, maxBusy: int, avgBusy: int)

  /** The step registry: the slot index of every step seen, the slots, and
      the slot of the current step. */
  datatype Registry = Registry(stepIndices: map<int, nat>, slots: seq<Slot>, currentIndex: nat)

  /** Steps and slots correspond one to one. */
  predicate WellFormed(reg: Registry) {
    IndicesWellFormed(reg.stepIndices, |reg.slots|)
  }

  /** The indices are distinct and name exactly the n slots. */
  predicate IndicesWellFormed(stepIndices: map<int, nat>, n: nat) {
    |stepIndices| == n &&
    (forall step :: step in stepIndices ==> stepIndices[step] < n) &&
    (forall a, b :: a in stepIndices && b in stepIndices && a != b ==>
       stepIndices[a] != stepIndices[b])
  }

  /** The minimum frame time a new slot starts from: far above the step. */
  function InitialMinFrame(step: int): int {
    100 * step
  }

  /** The slot pushed for a new step. Its min busy time is the front of the
      min frame vector after the push: the new slot's own min frame only
      when it is the first slot. */
  function NewSlot(slots: seq<Slot>, step: int): Slot {
    var minFrame := InitialMinFrame(step);
    Slot(0, minFrame, 0, 0, if slots == [] then minFrame else slots[0].minFrame, 0, 0)
  }

  /** SetLoopTime on the registry: a new step gets the next slot, started at
      count 0, min frame 100 steps and the rest 0 except the min busy time,
      which is copied from the FIRST slot's min frame time; a known step
      switches back to its slot and keeps every statistic. */
  function Register(reg: Registry, step: int): (r: Registry)
    requires WellFormed(reg)
    ensures WellFormed(r)
    ensures step in r.stepIndices && r.stepIndices[step] == r.currentIndex < |r.slots|
    ensures |reg.slots| <= |r.slots| && r.slots[..|reg.slots|] == reg.slots
    ensures forall s :: s in reg.stepIndices ==> s in r.stepIndices && r.stepIndices[s] == reg.stepIndices[s]
    ensures step in reg.stepIndices ==> r.slots == reg.slots && r.stepIndices == reg.stepIndices
    ensures step !in reg.stepIndices ==>
      && |r.slots| == |reg.slots| + 1
      && r.currentIndex == |reg.slots|
      && r.slots[|reg.slots|] == NewSlot(reg.slots, step)
  {
    if step !in reg.stepIndices then
      var index := |reg.slots|;
      var indices := reg.stepIndices[step := index];
      assert indices.Keys == reg.stepIndices.Keys + {step};
      Registry(indices, reg.slots + [NewSlot(reg.slots, step)], index)
    else
      Registry(reg.stepIndices, reg.slots, reg.stepIndices[step])
  }

  /** Setting the same step twice is the same as setting it once. */
  lemma RegisterIdempotent(reg: Registry, step: int)
    requires WellFormed(reg)
    ensures Register(Register(reg, step), step) == Register(reg, step)
  {
  }

  /** Switching to another step and back resumes the first step's slot with
      its statistics intact. */
  lemma RegisterSwitchBack(reg: Registry, a: int, b: int)
    requires WellFormed(reg)
    ensures var first := Register(reg, a);
      var back := Register(Register(first, b), a);
      && back.currentIndex == first.currentIndex
      && back.slots[back.currentIndex] == first.slots[first.currentIndex]
  {
    var first := Register(reg, a);
    var second := Register(first, b);
    assert a in first.stepIndices;
    assert second.stepIndices[a] == first.stepIndices[a];
    assert second.slots[..|first.slots|] == first.slots;
    assert second.slots[first.currentIndex] == second.slots[..|first.slots|][first.currentIndex];
  }

  /** Dividing a duration by a count with duration_cast: towards zero. */
  function DivTowardZero(a: int, n: nat): int
    requires n > 0
  {
    if a >= 0 then a / n else -((-a) / n)
  }

  /** The quotient is the multiple of n nearest a on the side of zero. */
  lemma DivTowardZeroBounds(a: int, n: nat)
    requires n > 0
    ensures var r := DivTowardZero(a, n);
      && (a >= 0 ==> 0 <= r * n <= a < (r + 1) * n)
      && (a < 0 ==> (r - 1) * n < a <= r * n <= 0)
  {
    if a >= 0 {
      DivBounds(a, n);
    } else {
      DivBounds(-a, n);
      NegatedProducts((-a) / n, n);
    }
  }

  lemma DivBounds(x: nat, n: nat)
    requires n > 0
    ensures 0 <= (x / n) * n <= x < (x / n + 1) * n
  {
    var q, m := x / n, x % n;
    assert x == q * n + m;
    assert (q + 1) * n == q * n + n;
  }

  lemma NegatedProducts(q: int, n: int)
    ensures (-q) * n == -(q * n) && (-q - 1) * n == -((q + 1) * n)
  {
  }

  /** A running average over `count` samples folding in one more. */
  function FoldAverage(average: int, count: nat, sample: int): int
    requires count > 0
  {
    DivTowardZero(average * (count - 1) + sample, count)
  }

  /** A loop whose every sample equals the average keeps that average. */
  lemma SteadyAverage(average: int, count: nat)
    requires count > 0
    ensures FoldAverage(average, count, average) == average
  {
    var n := count;
    calc {
      average * (n - 1) + average;
      average * n - average + average;
      average * n;
    }
    if average >= 0 {
      DivExact(average, n);
    } else {
      calc {
        -(average * n);
        (-average) * n;
      }
      DivExact(-average, n);
    }
  }

  lemma DivExact(x: nat, n: nat)
    requires n > 0
    ensures (x * n) / n == x
  {
    var m := x * n;
    UniqueQuotient(x, m / n, m % n, n);
  }

  lemma UniqueQuotient(x: int, q: int, r: int, n: int)
    requires n > 0 && 0 <= r < n
    requires x * n == q * n + r
    ensures q == x
  {
    assert (x - q) * n == r;
    SmallMultiple(x - q, n);
  }

  lemma SmallMultiple(d: int, n: int)
    requires n > 0 && 0 <= d * n < n
    ensures d == 0
  {
  }

  /** UpdateTimingStatistics on one slot: min and max absorb the samples;
      the averages fold them in only when the slot has a count. */
  function UpdateSlot(slot: Slot, totalElapsed: int, elapsed: int): (r: Slot)
    ensures r.count == slot.count
    ensures r.minFrame <= slot.minFrame && r.minFrame <= totalElapsed
    ensures r.minFrame == slot.minFrame || r.minFrame == totalElapsed
    ensures r.maxFrame >= slot.maxFrame && r.maxFrame >= totalElapsed
    ensures r.maxFrame == slot.maxFrame || r.maxFrame == totalElapsed
    ensures r.minBusy <= slot.minBusy && r.minBusy <= elapsed
    ensures r.minBusy == slot.minBusy || r.minBusy == elapsed
    ensures r.maxBusy >= slot.maxBusy && r.maxBusy >= elapsed
    ensures r.maxBusy == slot.maxBusy || r.maxBusy == elapsed
    ensures slot.count == 0 ==> r.avgFrame == slot.avgFrame && r.avgBusy == slot.avgBusy
    ensures slot.count > 0 ==> r.avgFrame == FoldAverage(slot.avgFrame, slot.count, totalElapsed)
    ensures slot.count > 0 ==> r.avgBusy == FoldAverage(slot.avgBusy, slot.count, elapsed)
  {
    var minFrame := if totalElapsed < slot.minFrame then totalElapsed else slot.minFrame;
    var maxFrame := if totalElapsed > slot.maxFrame then totalElapsed else slot.maxFrame;
    var minBusy := if elapsed < slot.minBusy then elapsed else slot.minBusy;
    var maxBusy := if elapsed > slot.maxBusy then elapsed else slot.maxBusy;
    if slot.count == 0 then
      Slot(slot.count, minFrame, maxFrame, slot.avgFrame, minBusy, maxBusy, slot.avgBusy)
    else
      Slot(slot.count, minFrame, maxFrame, FoldAverage(slot.avgFrame, slot.count, totalElapsed),
           minBusy, maxBusy, FoldAverage(slot.avgBusy, slot.count, elapsed))
  }

  /** MakeColumn(s, width, pad): s right-padded with pad to the width; a
      longer s is returned whole. */
  function MakeColumn(s: string, columnWidth: nat, pad: char := ' '): (r: string)
    ensures |r| == if |s| < columnWidth then columnWidth else |s|
    ensures r[..|s|] == s
    ensures forall i :: |s| <= i < |r| ==> r[i] == pad
  {
    if |s| < columnWidth then s + Repeat(pad, columnWidth - |s|) else s
  }

  /** A padded column pads no further. */
  lemma {:induction false} MakeColumnIdempotent(s: string, columnWidth: nat, pad: char)
    ensures MakeColumn(MakeColumn(s, columnWidth, pad), columnWidth, pad) == MakeColumn(s, columnWidth, pad)
  {
    var once := MakeColumn(s, columnWidth, pad);
    assert |once| >= columnWidth;
  }

  /** The seven statistics vectors, one element per registered step. */
  datatype Vectors = Vectors(counts: seq<nat>,
                             minFrameTimes: seq<int>, maxFrameTimes: seq<int>, averageFrameTimes: seq<int>,
                             minBusyTimes: seq<int>, maxBusyTimes: seq<int>, averageBusyTimes: seq<int>)

  /** The seven vectors have the same length. */
  predicate Parallel(v: Vectors) {
    |v.minFrameTimes| == |v.counts| && |v.maxFrameTimes| == |v.counts| &&
    |v.averageFrameTimes| == |v.counts| && |v.minBusyTimes| == |v.counts| &&
    |v.maxBusyTimes| == |v.counts| && |v.averageBusyTimes| == |v.counts|
  }

  /** The seven vectors read slot by slot. */
  function SlotsOf(v: Vectors): (r: seq<Slot>)
    requires Parallel(v)
    ensures |r| == |v.counts|
  {
    seq(|v.counts|, i requires 0 <= i < |v.counts| =>
      Slot(v.counts[i], v.minFrameTimes[i], v.maxFrameTimes[i], v.averageFrameTimes[i],
           v.minBusyTimes[i], v.maxBusyTimes[i], v.averageBusyTimes[i]))
  }

  /** One push_back on each vector appends one slot. */
  lemma SlotsAppend(v: Vectors, s: Slot)
    requires Parallel(v)
    ensures var w := Vectors(v.counts + [s.count], v.minFrameTimes + [s.minFrame],
                             v.maxFrameTimes + [s.maxFrame], v.averageFrameTimes + [s.avgFrame],
                             v.minBusyTimes + [s.minBusy], v.maxBusyTimes + [s.maxBusy],
                             v.averageBusyTimes + [s.avgBusy]);
      Parallel(w) && SlotsOf(w) == SlotsOf(v) + [s]
  {
  }

  /** Writing the i-th element of the six time vectors writes the i-th slot
      (its count unchanged). */
  lemma SlotsUpdate(v: Vectors, i: nat, s: Slot)
    requires Parallel(v) && i < |v.counts| && s.count == v.counts[i]
    ensures var w := Vectors(v.counts, v.minFrameTimes[i := s.minFrame],
                             v.maxFrameTimes[i := s.maxFrame], v.averageFrameTimes[i := s.avgFrame],
                             v.minBusyTimes[i := s.minBusy], v.maxBusyTimes[i := s.maxBusy],
                             v.averageBusyTimes[i := s.avgBusy]);
      Parallel(w) && SlotsOf(w) == SlotsOf(v)[i := s]
  {
  }

  /** Incrementing the i-th count increments the i-th slot's count. */
  lemma SlotsCount(v: Vectors, i: nat)
    requires Parallel(v) && i < |v.counts|
    ensures var w := v.(counts := v.counts[i := v.counts[i] + 1]);
      Parallel(w) && SlotsOf(w) == SlotsOf(v)[i := SlotsOf(v)[i].(count := v.counts[i] + 1)]
  {
  }

  /** Element i lowered to x when x is smaller (the min-time update). */
  method LowerTo(s: seq<int>, i: nat, x: int) returns (r: seq<int>)
    requires i < |s|
    ensures |r| == |s| && r[i] <= s[i] && r[i] <= x && (r[i] == s[i] || r[i] == x)
    ensures r == s[i := r[i]]
  {
    r := s;
    if x < s[i] {
      r := s[i := x];
    }
  }

  /** Element i raised to x when x is larger (the max-time update). */
  method RaiseTo(s: seq<int>, i: nat, x: int) returns (r: seq<int>)
    requires i < |s|
    ensures |r| == |s| && r[i] >= s[i] && r[i] >= x && (r[i] == s[i] || r[i] == x)
    ensures r == s[i := r[i]]
  {
    r := s;
    if x > s[i] {
      r := s[i := x];
    }
  }

  /** The in-place writes of UpdateTimingStatistics to slot i of the vectors:
      min and max first, then the averages unless the slot has no count. */
  method UpdateVectors(v: Vectors, i: nat, totalElapsed: int, elapsed: int) returns (w: Vectors)
    requires Parallel(v) && i < |v.counts|
    ensures Parallel(w) && w.counts == v.counts
    ensures SlotsOf(w) == SlotsOf(v)[i := UpdateSlot(SlotsOf(v)[i], totalElapsed, elapsed)]
  {
    var minFrame := LowerTo(v.minFrameTimes, i, totalElapsed);
    var maxFrame := RaiseTo(v.maxFrameTimes, i, totalElapsed);
    var minBusy := LowerTo(v.minBusyTimes, i, elapsed);
    var maxBusy := RaiseTo(v.maxBusyTimes, i, elapsed);
    var averageFrame, averageBusy := v.averageFrameTimes, v.averageBusyTimes;
    if v.counts[i] != 0 {
      averageFrame := averageFrame[i := FoldAverage(averageFrame[i], v.counts[i], totalElapsed)];
      averageBusy := averageBusy[i := FoldAverage(averageBusy[i], v.counts[i], elapsed)];
    }
    SlotsUpdate(v, i, UpdateSlot(SlotsOf(v)[i], totalElapsed, elapsed));
    w := Vectors(v.counts, minFrame, maxFrame, averageFrame, minBusy, maxBusy, averageBusy);
  }

  class TimingUtility {
    var timeStep: int
    var elapsed: int
    var lastLoopTime: int
    var lastUpdate: int
    var currentIndex: nat
    var stepIndices: map<int, nat>
    var vectors: Vectors

    ghost function Reg(): Registry
      reads this
      requires Parallel(vectors)
    {
      Registry(stepIndices, SlotsOf(vectors), currentIndex)
    }

    /** The current step is registered at the current slot, and every step
        has its own slot in each of the seven vectors. */
    ghost predicate Valid()
      reads this
    {
      Parallel(vectors) &&
      IndicesWellFormed(stepIndices, |vectors.counts|) &&
      timeStep in stepIndices && stepIndices[timeStep] == currentIndex &&
      currentIndex < |vectors.counts|
    }

    /** A timer for the given step, in nanoseconds. */
    constructor (newTimeStep: int)
      requires newTimeStep > 0
      ensures Valid()
      ensures timeStep == newTimeStep && elapsed == 0 && lastLoopTime == 0 && lastUpdate == 0
      ensures Reg() == Register(Registry(map[], [], 0), newTimeStep)
    {
      timeStep := newTimeStep;
      elapsed := 0;
      lastLoopTime := 0;
      lastUpdate := 0;
      currentIndex := 0;
      stepIndices := map[];
      vectors := Vectors([], [], [], [], [], [], []);
      new;
      assert Reg() == Registry(map[], [], 0);
      SetLoopTime(newTimeStep);
    }

    /** Selects the step, registering it with a fresh slot if it is new. */
    method SetLoopTime(newTimeStep: int)
      requires newTimeStep > 0
      requires Parallel(vectors) && IndicesWellFormed(stepIndices, |vectors.counts|)
      modifies this`timeStep, this`currentIndex, this`stepIndices, this`vectors
      ensures Valid()
      ensures timeStep == newTimeStep
      ensures Reg() == Register(old(Reg()), newTimeStep)
    {
      timeStep := newTimeStep;
      if timeStep !in stepIndices {
        currentIndex := |vectors.counts|;
        stepIndices := stepIndices[timeStep := currentIndex];
        var v := vectors;
        v := v.(counts := v.counts + [0]);
        v := v.(minFrameTimes := v.minFrameTimes + [InitialMinFrame(timeStep)]);
        v := v.(maxFrameTimes := v.maxFrameTimes + [0]);
        v := v.(averageFrameTimes := v.averageFrameTimes + [0]);
        v := v.(minBusyTimes := v.minBusyTimes + [v.minFrameTimes[0]]);
        v := v.(maxBusyTimes := v.maxBusyTimes + [0]);
        v := v.(averageBusyTimes := v.averageBusyTimes + [0]);
        SlotsAppend(vectors, NewSlot(SlotsOf(vectors), timeStep));
        vectors := v;
      } else {
        currentIndex := stepIndices[timeStep];
      }
    }

    /** The statistics update at the clock reading `now`; nothing is recorded
        before the first step's first loop has been counted. */
    method UpdateTimingStatistics(now: int)
      requires Valid()
      modifies this`lastUpdate, this`vectors
      ensures Valid()
      ensures lastUpdate == now
      ensures old(vectors.counts[0]) == 0 ==> vectors == old(vectors)
      ensures old(vectors.counts[0]) > 0 ==>
        SlotsOf(vectors) == old(SlotsOf(vectors))[currentIndex :=
          UpdateSlot(old(SlotsOf(vectors))[currentIndex], now - old(lastUpdate), elapsed)]
    {
      var totalElapsed := now - lastUpdate;
      lastUpdate := now;
      if vectors.counts[0] == 0 {
        return;
      }
      vectors := UpdateVectors(vectors, currentIndex, totalElapsed, elapsed);
    }

    /** One pass of the timed loop at the clock reading `now` (the sleep is
        not modelled), with the statistics taken at `updateNow`: the busy time
        is measured from the last wake-up, the next wake-up is one step after
        the previous one (or now when the step was overrun), and the current
        step's count goes up by one. */
    method TimeLoop(now: int, updateNow: int)
      requires Valid()
      modifies this`elapsed, this`lastLoopTime, this`lastUpdate, this`vectors
      ensures Valid()
      ensures elapsed == if old(vectors.counts[0]) > 0 then now - old(lastLoopTime) else old(elapsed)
      ensures lastLoopTime == if elapsed < timeStep then now + (timeStep - elapsed) else now
      ensures lastUpdate == updateNow
      ensures var before := old(SlotsOf(vectors))[currentIndex];
        var updated := if old(vectors.counts[0]) > 0
                       then UpdateSlot(before, updateNow - old(lastUpdate), elapsed)
                       else before;
        SlotsOf(vectors) == old(SlotsOf(vectors))[currentIndex := updated.(count := updated.count + 1)]
    {
      if vectors.counts[0] > 0 {
        elapsed := now - lastLoopTime;
      }
      var sleepTime := timeStep - elapsed;
      if elapsed < timeStep {
        lastLoopTime := now + sleepTime;
      } else {
        lastLoopTime := now;
      }
      UpdateTimingStatistics(updateNow);
      SlotsCount(vectors, currentIndex);
      vectors := vectors.(counts := vectors.counts[currentIndex := vectors.counts[currentIndex] + 1]);
    }
  }
}
