/** The Go 1.16 pacer of simulation/go116.go: a self-tuned trigger ratio,
    a bootstrap on the first cycle, two scan-work regimes, a hard heap goal
    of 1.1 times the goal, and a damped proportional update of the trigger
    ratio. */
module Go116 {
  import opened Scenario
  import opened Pacing

  /** go116HeapMinimum, 4 << 20 bytes. */
  const HeapMinimum: nat := 4194304

  /** Target utilization: 25% dedicated plus 5% for assists. */
  const UTargetAssist: real := 0.05
  const UTarget: real := UDedicated + UTargetAssist

  /** The trigger ratio the first cycle starts from. */
  const Seed: real := 7.0 / 8.0

  datatype State = State(globals: Globals, ledger: Ledger, triggerRatioRaw: real, triggerRatio: real)

  /** A pacer that has not run: every counter and ratio is zero. */
  function New(g: Globals): (s: State)
    ensures s.globals == g && s.ledger == Fresh
    ensures s.triggerRatioRaw == 0.0 && s.triggerRatio == 0.0
  {
    State(g, Fresh, 0.0, 0.0)
  }

  /** The heap goal for a cycle that starts with `liveBytes` live: gamma
      times the live heap, raised to a positive target, floored at the
      minimum. It is the largest of the three. */
  function Goal(liveBytes: nat, gamma: real, target: int): (goal: nat)
    requires gamma >= 1.0
    ensures goal >= HeapMinimum
    ensures target > 0 ==> goal >= target
    ensures goal >= Scaled(liveBytes, gamma) >= liveBytes
    ensures goal == HeapMinimum || goal == target || goal == Scaled(liveBytes, gamma)
  {
    ScaledUp(liveBytes, gamma);
    var g0 := Scaled(liveBytes, gamma);
    var g1 := if target > 0 && g0 < target then target else g0;
    if g1 < HeapMinimum then HeapMinimum else g1
  }

  /** Whether that goal is gamma-bound: neither the target nor the minimum
      raised it. */
  function GammaBound(liveBytes: nat, gamma: real, target: int): (b: bool)
    requires gamma >= 1.0
    ensures b <==>
      && Scaled(liveBytes, gamma) >= HeapMinimum
      && (target <= 0 || Scaled(liveBytes, gamma) >= target)
    ensures b ==> Goal(liveBytes, gamma, target) == Scaled(liveBytes, gamma)
    ensures !b ==> Goal(liveBytes, gamma, target) > Scaled(liveBytes, gamma)
  {
    var g0 := Scaled(liveBytes, gamma);
    var targetBound := target > 0 && g0 < target;
    var g1 := if targetBound then target else g0;
    !targetBound && g1 >= HeapMinimum
  }

  /** Everything the step assumes of the state and the cycle before any
      arithmetic: valid inputs, a consistent ledger, and after the first
      cycle a positive live heap (a divisor) and a non-negative trigger ratio
      (so that the trigger is not below the live heap). */
  predicate Ready(s: State, c: Cycle) {
    && ValidGlobals(s.globals)
    && ValidCycle(c)
    && s.ledger.Consistent()
    && (s.ledger.gc != 0 ==> s.ledger.liveBytesLast > 0 && s.triggerRatio >= 0.0)
  }

  /** The state of the pacer when the cycle starts: the (possibly seeded)
      trigger ratios, the goal, the trigger, the worst-case and the expected
      scan work, and the live heap backed out of the goal on the first cycle. */
  datatype Opening = Opening(
    triggerRatioRaw: real,
    triggerRatio: real,
    heapGoal: nat,
    triggerPoint: nat,
    maxScanWork: nat,
    expScanWork: nat,
    dummyLiveLast: nat)

  /** The live heap the goal and the trigger are measured from: the one
      backed out of the goal on the first cycle, the carried one afterwards. */
  function Baseline(s: State, o: Opening): nat {
    if s.ledger.gc == 0 then o.dummyLiveLast else s.ledger.liveBytesLast
  }

  function Open(s: State, c: Cycle): (o: Opening)
    requires Ready(s, c)
    ensures s.ledger.gc == 0 ==> o.triggerRatioRaw == Seed && o.triggerRatio == Seed
    ensures s.ledger.gc != 0 ==> o.triggerRatioRaw == s.triggerRatioRaw && o.triggerRatio == s.triggerRatio
    ensures s.ledger.gc == 0 ==> o.triggerPoint == Goal(s.ledger.liveBytesLast, s.globals.gamma, c.heapTargetBytes)
    ensures s.ledger.gc != 0 ==> o.heapGoal == Goal(s.ledger.liveBytesLast, s.globals.gamma, c.heapTargetBytes)
    ensures o.heapGoal >= Baseline(s, o) > 0
    ensures o.heapGoal >= 2097152
    ensures o.expScanWork <= o.maxScanWork
    ensures o.expScanWork > 0 ==> o.expScanWork < o.maxScanWork
    ensures o.triggerPoint >= Baseline(s, o)
  {
    if s.ledger.gc == 0 then OpenFirst(s, c) else OpenSteady(s, c)
  }

  /** The first cycle: the trigger ratio is seeded, the trigger is placed at
      the goal, a live heap is backed out of it through the seeded ratio, and
      the goal and the scan work are recomputed from that live heap. */
  function OpenFirst(s: State, c: Cycle): (o: Opening)
    requires Ready(s, c) && s.ledger.gc == 0
    ensures o.triggerRatioRaw == Seed && o.triggerRatio == Seed
    ensures o.triggerPoint == Goal(s.ledger.liveBytesLast, s.globals.gamma, c.heapTargetBytes)
    ensures o.dummyLiveLast == Divided(o.triggerPoint, 1.0 + Seed)
    ensures 2097152 <= o.dummyLiveLast <= o.triggerPoint
    ensures o.heapGoal == Scaled(o.dummyLiveLast, s.globals.gamma) >= o.dummyLiveLast
    ensures o.maxScanWork == o.dummyLiveLast + Portion(o.triggerPoint - o.dummyLiveLast, c.scannableFrac)
    ensures o.expScanWork == Divided(o.maxScanWork, s.globals.gamma)
  {
    var gamma := s.globals.gamma;
    var goal := Goal(s.ledger.liveBytesLast, gamma, c.heapTargetBytes);
    var dummy := Divided(goal, 1.0 + Seed);
    SeedDummy(goal);
    ScaledUp(dummy, gamma);
    var maxWork := dummy + Portion(goal - dummy, c.scannableFrac);
    Opening(Seed, Seed, Scaled(dummy, gamma), goal, maxWork, Divided(maxWork, gamma), dummy)
  }

  /** Every later cycle: the goal from the carried live heap, the trigger from
      the carried trigger ratio, the worst-case scan work from what was
      scannable plus the scannable part of the runway. */
  function OpenSteady(s: State, c: Cycle): (o: Opening)
    requires Ready(s, c) && s.ledger.gc != 0
    ensures o.triggerRatioRaw == s.triggerRatioRaw && o.triggerRatio == s.triggerRatio
    ensures o.heapGoal == Goal(s.ledger.liveBytesLast, s.globals.gamma, c.heapTargetBytes)
    ensures o.triggerPoint == Scaled(s.ledger.liveBytesLast, 1.0 + s.triggerRatio) >= s.ledger.liveBytesLast
    ensures o.maxScanWork
      == s.ledger.liveScannableLast + Portion(o.triggerPoint - s.ledger.liveBytesLast, c.scannableFrac)
    ensures o.expScanWork == Divided(o.maxScanWork, s.globals.gamma)
  {
    var l := s.ledger;
    var gamma := s.globals.gamma;
    var goal := Goal(l.liveBytesLast, gamma, c.heapTargetBytes);
    ScaledUp(l.liveBytesLast, 1.0 + s.triggerRatio);
    var trigger := Scaled(l.liveBytesLast, 1.0 + s.triggerRatio);
    var dummy := Divided(goal, 1.0 + s.triggerRatio);
    var maxWork := l.liveScannableLast + Portion(trigger - l.liveBytesLast, c.scannableFrac);
    Opening(s.triggerRatioRaw, s.triggerRatio, goal, trigger, maxWork, Divided(maxWork, gamma), dummy)
  }

  /** The live heap backed out of the first goal through the seeded ratio
      lies between half the minimum heap and the goal. */
  lemma SeedDummy(goal: nat)
    requires goal >= HeapMinimum
    ensures 2097152 <= Divided(goal, 1.0 + Seed) <= goal
  {
    var x := goal as real / (1.0 + Seed);
    assert x == goal as real * 8.0 / 15.0;
    TruncMonotone(HeapMinimum as real * 8.0 / 15.0, x);
  }

  /** What the during-cycle pacing needs of the opening: the trigger is not
      past the goal, the expected scan work (a divisor) is positive, and the
      utilization solve does not divide zero by zero. */
  predicate Paceable(c: Cycle, o: Opening) {
    && o.triggerPoint <= o.heapGoal
    && o.expScanWork > 0
    && (c.allocRate > 0.0 || o.triggerPoint < o.heapGoal)
  }

  /** The step is defined on ready states whose opening is paceable. */
  predicate Defined(s: State, c: Cycle) {
    Ready(s, c) && Paceable(c, Open(s, c))
  }

  /** With gamma below 15/8 (GOGC below 87.5) the first cycle's goal, the
      backed-out live heap grown by gamma, falls below its trigger, which
      sits at the seeded goal: the runway between them is negative, so the
      step is not defined there. */
  lemma LowGammaFirstCycle(s: State, c: Cycle)
    requires Ready(s, c) && s.ledger.gc == 0 && s.globals.gamma < 15.0 / 8.0
    ensures Open(s, c).heapGoal < Open(s, c).triggerPoint
    ensures !Defined(s, c)
  {
    var o := OpenFirst(s, c);
    assert Open(s, c) == o;
    SeedShrinks(o.triggerPoint, s.globals.gamma);
  }

  /** Backing a live heap out of `goal` through the seeded ratio and growing
      it again by a gamma below 1 + Seed lands below `goal`. */
  lemma SeedShrinks(goal: nat, gamma: real)
    requires goal >= HeapMinimum && 1.0 <= gamma < 1.0 + Seed
    ensures Scaled(Divided(goal, 1.0 + Seed), gamma) < goal
  {
    SeedDummy(goal);
    var n := Divided(goal, 1.0 + Seed);
    var d, x := n as real, goal as real / (1.0 + Seed);
    assert d <= x;
    assert x * (1.0 + Seed) == goal as real;
    var k := 1.0 + Seed;
    var top := d * k;
    assert top <= goal as real by { MulMonotone(d, x, k); }
    var y, e := d * gamma, k - gamma;
    assert d * e > 0.0;
    assert top - y == d * e;
    assert Scaled(n, gamma) as real <= y;
  }

  /** The assist ratio the cycle is paced for: the runway between trigger and
      goal per unit of expected scan work. The step also reports it as r. */
  function RelaxedRatio(o: Opening): (ratio: real)
    requires o.triggerPoint <= o.heapGoal && o.expScanWork > 0
    ensures ratio >= 0.0
    ensures ratio * o.expScanWork as real == (o.heapGoal - o.triggerPoint) as real
  {
    (o.heapGoal - o.triggerPoint) as real / o.expScanWork as real
  }

  /** How the cycle went: the utilization it was paced for and the growth per
      unit of scan work that allows, the utilization it actually took, the
      hard goal, and the heap's peak. */
  datatype Progress = Progress(
    uExpected: real,
    growthPerScan: real,
    uActual: real,
    hardHeapGoal: nat,
    peakHeap: nat)

  /** The hard heap goal, 1.1 times the goal, truncated. */
  function HardGoal(heapGoal: nat): (hard: nat)
    requires heapGoal >= 10
    ensures hard == Scaled(heapGoal, 1.1)
    ensures hard > heapGoal
  {
    assert heapGoal as real * 1.1 >= (heapGoal + 1) as real;
    TruncMonotone((heapGoal + 1) as real, heapGoal as real * 1.1);
    TruncNat(heapGoal + 1);
    Scaled(heapGoal, 1.1)
  }

  /** The share-weighted mean of two utilizations: `u1` over `w1` units of
      work and `u2` over `w2`. */
  function Blend(u1: real, w1: nat, u2: real, w2: nat): (u: real)
    requires w1 + w2 > 0
    requires UDedicated <= u1 <= 1.0 && UDedicated <= u2 <= 1.0
    ensures UDedicated <= u <= 1.0
    ensures w2 == 0 ==> u == u1
    ensures w1 == 0 ==> u == u2
    ensures u * (w1 + w2) as real == u1 * w1 as real + u2 * w2 as real
  {
    var x1, x2 := w1 as real, w2 as real;
    BlendBounds(u1, x1, u2, x2);
    assert (u1 * x1 + u2 * x2) / (x1 + x2) * (x1 + x2) == u1 * x1 + u2 * x2;
    (u1 * x1 + u2 * x2) / (x1 + x2)
  }

  /** The mean weighted by the work done at each utilization, times the total
      work, is the utilization-weighted work. */
  lemma BlendTotal(u1: real, w1: nat, u2: real, w2: nat, total: nat)
    requires w1 + w2 == total > 0
    requires UDedicated <= u1 <= 1.0 && UDedicated <= u2 <= 1.0
    ensures Blend(u1, w1, u2, w2) * total as real == u1 * w1 as real + u2 * w2 as real
  {
  }

  /** The weighted mean of two utilizations in [0.25, 1] is in [0.25, 1]. */
  lemma BlendBounds(u1: real, x1: real, u2: real, x2: real)
    requires x1 >= 0.0 && x2 >= 0.0 && x1 + x2 > 0.0
    requires UDedicated <= u1 <= 1.0 && UDedicated <= u2 <= 1.0
    ensures UDedicated <= (u1 * x1 + u2 * x2) / (x1 + x2) <= 1.0
  {
    var a1, a2 := u1 * x1, u2 * x2;
    Weighted(u1, x1, a1);
    Weighted(u2, x2, a2);
    var n, d := a1 + a2, x1 + x2;
    assert UDedicated * d <= n <= 1.0 * d;
    QuotientBetween(n, d, UDedicated, 1.0);
  }

  /** A quotient lies between the bounds its numerator has in multiples of
      the (positive) divisor. */
  lemma QuotientBetween(n: real, d: real, lo: real, hi: real)
    requires d > 0.0 && lo * d <= n <= hi * d
    ensures lo <= n / d <= hi
  {
    var q := n / d;
    assert q * d == n;
    assert (q - lo) * d == n - lo * d;
    NonnegFactor(q - lo, d);
    assert (hi - q) * d == hi * d - n;
    NonnegFactor(hi - q, d);
  }

  lemma NonnegFactor(a: real, d: real)
    requires d > 0.0 && a * d >= 0.0
    ensures a >= 0.0
  {
  }

  /** During-cycle pacing. The cycle is paced for the relaxed assist ratio.
      If the scan work does not exceed the expected amount, the heap grows at
      that pace throughout; otherwise, after the expected work is done, the
      rest is paced for the worst case: the runway left to the hard goal per
      unit of the scan work that may still remain. The overrun branches of
      the source, taken when the first pace would overshoot the goal, are
      unreachable (lemma NoOverrun) and so do not appear. */
  function Pace(c: Cycle, o: Opening, total: nat): (p: Progress)
    requires ValidCycle(c) && Paceable(c, o)
    requires o.heapGoal >= 10 && o.expScanWork < o.maxScanWork
    ensures p.uExpected == SolveUtilization(c.allocRate, c.scanRate, RelaxedRatio(o))
    ensures p.growthPerScan == GrowthPerScan(c.allocRate, c.scanRate, p.uExpected)
    ensures p.hardHeapGoal == HardGoal(o.heapGoal)
    ensures UDedicated <= p.uActual <= 1.0
    ensures o.triggerPoint <= p.peakHeap
    ensures total <= o.expScanWork ==>
      && p.uActual == p.uExpected
      && p.peakHeap == o.triggerPoint + Scaled(total, p.growthPerScan)
    ensures o.triggerPoint + Scaled(o.expScanWork, p.growthPerScan) <= o.heapGoal < p.hardHeapGoal
    ensures total > o.expScanWork ==>
      p == SecondPhase(c, o, p.uExpected, p.growthPerScan, p.hardHeapGoal, total)
  {
    var uExp := SolveUtilization(c.allocRate, c.scanRate, RelaxedRatio(o));
    var r := GrowthPerScan(c.allocRate, c.scanRate, uExp);
    var hard := HardGoal(o.heapGoal);
    NoOverrun(c, o, o.expScanWork);
    if o.expScanWork >= total then
      Progress(uExp, r, uExp, hard, o.triggerPoint + Scaled(total, r))
    else
      SecondPhase(c, o, uExp, r, hard, total)
  }

  /** Pacing at the relaxed ratio for no more than the expected scan work
      never takes the heap past the goal. */
  lemma NoOverrun(c: Cycle, o: Opening, work: nat)
    requires ValidCycle(c) && Paceable(c, o) && work <= o.expScanWork
    ensures var u := SolveUtilization(c.allocRate, c.scanRate, RelaxedRatio(o));
      o.triggerPoint + Scaled(work, GrowthPerScan(c.allocRate, c.scanRate, u)) <= o.heapGoal
  {
    var ratio := RelaxedRatio(o);
    var r := GrowthPerScan(c.allocRate, c.scanRate, SolveUtilization(c.allocRate, c.scanRate, ratio));
    var runway := (o.heapGoal - o.triggerPoint) as real;
    assert 0.0 <= r <= ratio;
    ProductBound(work as real, o.expScanWork as real, r, ratio, runway);
    TruncMonotone(work as real * r, runway);
    TruncNat(o.heapGoal - o.triggerPoint);
  }

  lemma Weighted(u: real, x: real, a: real)
    requires 0.25 <= u <= 1.0 && x >= 0.0 && a == u * x
    ensures 0.25 * x <= a <= x
  {
    MulMonotone(0.25, u, x);
    MulMonotone(u, 1.0, x);
  }


  /** The part of the cycle beyond the expected scan work: the expected work
      is done at the relaxed pace, then the remaining work at the worst-case
      pace, and the actual utilization is the work-weighted mean of the two. */
  function SecondPhase(c: Cycle, o: Opening, uExp: real, r: real, hard: nat, total: nat): (p: Progress)
    requires ValidCycle(c) && o.expScanWork < total && o.expScanWork < o.maxScanWork
    requires UDedicated <= uExp <= 1.0 && r >= 0.0
    requires o.triggerPoint + Scaled(o.expScanWork, r) < hard
    ensures p.uExpected == uExp && p.growthPerScan == r && p.hardHeapGoal == hard
    ensures UDedicated <= p.uActual <= 1.0
    ensures p.peakHeap >= o.triggerPoint + Scaled(o.expScanWork, r)
    ensures total <= o.maxScanWork ==> p.peakHeap <= hard
    ensures var peak := o.triggerPoint + Scaled(o.expScanWork, r);
      var panicked := (hard - peak) as real / (o.maxScanWork - o.expScanWork) as real;
      var uWorst := SolveUtilization(c.allocRate, c.scanRate, panicked);
      var left := total - o.expScanWork;
      && p.peakHeap == peak + Scaled(left, GrowthPerScan(c.allocRate, c.scanRate, uWorst))
      && p.uActual == Blend(uExp, o.expScanWork, uWorst, left)
  {
    var peak := o.triggerPoint + Scaled(o.expScanWork, r);
    var estLeft := o.maxScanWork - o.expScanWork;
    var uWorst := SolveUtilization(c.allocRate, c.scanRate, (hard - peak) as real / estLeft as real);
    var left := total - o.expScanWork;
    var extra := Scaled(left, GrowthPerScan(c.allocRate, c.scanRate, uWorst));
    HardCeiling(c, (hard - peak) as real / estLeft as real, hard - peak, estLeft, left);
    Progress(uExp, r, Blend(uExp, o.expScanWork, uWorst, left), hard, peak + extra)
  }

  /** Pacing the rest at the worst-case ratio over no more than the estimated
      remaining work stays within the runway to the hard goal. */
  lemma HardCeiling(c: Cycle, panicked: real, runway: nat, estLeft: nat, left: nat)
    requires ValidCycle(c) && estLeft > 0 && runway > 0
    requires panicked == runway as real / estLeft as real
    ensures var u := SolveUtilization(c.allocRate, c.scanRate, panicked);
      left <= estLeft ==> Scaled(left, GrowthPerScan(c.allocRate, c.scanRate, u)) <= runway
  {
    var g := GrowthPerScan(c.allocRate, c.scanRate, SolveUtilization(c.allocRate, c.scanRate, panicked));
    if left <= estLeft {
      MulMonotone(left as real, estLeft as real, g);
      MulMonotone(g, panicked, estLeft as real);
      assert panicked * estLeft as real == runway as real;
    }
  }

  /** The reach of the pacing: within the expected scan work the heap peaks
      no higher than the goal, within the worst-case scan work no higher than
      the hard goal. */
  lemma PaceCeilings(c: Cycle, o: Opening, total: nat)
    requires ValidCycle(c) && Paceable(c, o)
    requires o.heapGoal >= 10 && o.expScanWork < o.maxScanWork
    ensures var p := Pace(c, o, total);
      && (total <= o.expScanWork ==> p.peakHeap <= o.heapGoal)
      && (total <= o.maxScanWork ==> p.peakHeap <= p.hardHeapGoal)
  {
    PaceWithinGoal(c, o, total);
    PaceWithinHardGoal(c, o, total);
  }

  lemma PaceWithinGoal(c: Cycle, o: Opening, total: nat)
    requires ValidCycle(c) && Paceable(c, o)
    requires o.heapGoal >= 10 && o.expScanWork < o.maxScanWork
    ensures total <= o.expScanWork ==> Pace(c, o, total).peakHeap <= o.heapGoal
  {
    if total <= o.expScanWork {
      NoOverrun(c, o, total);
    }
  }

  lemma PaceWithinHardGoal(c: Cycle, o: Opening, total: nat)
    requires ValidCycle(c) && Paceable(c, o)
    requires o.heapGoal >= 10 && o.expScanWork < o.maxScanWork
    ensures total <= o.maxScanWork ==> Pace(c, o, total).peakHeap <= Pace(c, o, total).hardHeapGoal
  {
    if total <= o.expScanWork {
      NoOverrun(c, o, total);
    }
  }

  /** Above the floor, pacing at the relaxed ratio spends exactly the runway
      over the expected scan work. */
  lemma RelaxedExact(c: Cycle, o: Opening)
    requires ValidCycle(c) && Paceable(c, o)
    ensures var u := SolveUtilization(c.allocRate, c.scanRate, RelaxedRatio(o));
      u > UDedicated ==>
        GrowthPerScan(c.allocRate, c.scanRate, u) * o.expScanWork as real == (o.heapGoal - o.triggerPoint) as real
  {
    var ratio := RelaxedRatio(o);
    var u := SolveUtilization(c.allocRate, c.scanRate, ratio);
    if u > UDedicated {
      EqualFactors(GrowthPerScan(c.allocRate, c.scanRate, u), ratio, o.expScanWork as real);
    }
  }

  lemma EqualFactors(x: real, y: real, z: real)
    requires x == y
    ensures x * z == y * z
  {
  }

  /** Growth of the goal over the baseline live heap, as a ratio. */
  function GoalGrowth(base: nat, heapGoal: nat): (ratio: real)
    requires 0 < base <= heapGoal
    ensures ratio >= 0.0
  {
    (heapGoal - base) as real / base as real
  }

  /** Growth of the peak heap over the baseline live heap, as a ratio. */
  function ActualGrowth(base: nat, peakHeap: nat): (ratio: real)
    requires base > 0
    ensures ratio >= -1.0
  {
    peakHeap as real / base as real - 1.0
  }

  /** Both growth ratios measure the same thing: a heap that peaks exactly at
      the goal grew by the goal's growth ratio, and a higher peak means more
      growth. */
  lemma GrowthAgree(base: nat, heapGoal: nat, peakHeap: nat)
    requires 0 < base <= heapGoal
    ensures peakHeap == heapGoal ==> ActualGrowth(base, peakHeap) == GoalGrowth(base, heapGoal)
    ensures peakHeap > heapGoal <==> ActualGrowth(base, peakHeap) > GoalGrowth(base, heapGoal)
  {
    RatioGrowth(base as real, heapGoal as real, peakHeap as real);
  }

  lemma RatioGrowth(b: real, goal: real, peak: real)
    requires 0.0 < b <= goal && peak >= 0.0
    ensures (goal - b) / b == goal / b - 1.0
    ensures peak > goal <==> peak / b > goal / b
  {
    if peak > goal {
      DivLess(goal, b, peak / b);
    } else {
      MulMonotone(peak, goal, 1.0 / b);
    }
  }

  /** The proportional update of the raw trigger ratio: half the gap between
      the goal's growth and the growth that the cycle would have shown at the
      target utilization. */
  function Delta(goalGrowth: real, actualGrowth: real, raw: real, uActual: real): real {
    0.5 * (goalGrowth - raw - uActual / UTarget * (actualGrowth - raw))
  }

  /** At the target utilization the update is half the goal's growth minus
      the actual growth: it is zero exactly when the heap grew as planned and
      negative exactly when it grew more. */
  lemma DeltaAtTarget(goalGrowth: real, actualGrowth: real, raw: real)
    ensures Delta(goalGrowth, actualGrowth, raw, UTarget) == 0.5 * (goalGrowth - actualGrowth)
    ensures Delta(goalGrowth, actualGrowth, raw, UTarget) < 0.0 <==> actualGrowth > goalGrowth
    ensures Delta(goalGrowth, actualGrowth, raw, UTarget) == 0.0 <==> actualGrowth == goalGrowth
  {
  }

  function Min(a: real, b: real): real {
    if a <= b then a else b
  }

  /** The trigger-ratio clamp: at least 0.6 (gamma - 1); when the next goal is
      gamma-bound at most 0.95 (gamma - 1); otherwise at most 0.95 times the
      next goal's growth over the surviving heap (no cap when nothing survived,
      since that growth is infinite). */
  function ClampTriggerRatio(x: real, gamma: real, gammaBound: bool, nextGoal: nat, survived: nat): (t: real)
    requires gamma > 1.0
    ensures x < 0.6 * (gamma - 1.0) ==> t == 0.6 * (gamma - 1.0)
    ensures gammaBound ==> 0.6 * (gamma - 1.0) <= t <= 0.95 * (gamma - 1.0)
    ensures gammaBound && 0.6 * (gamma - 1.0) <= x <= 0.95 * (gamma - 1.0) ==> t == x
    ensures gammaBound && x > 0.95 * (gamma - 1.0) ==> t == 0.95 * (gamma - 1.0)
    ensures !gammaBound && survived == 0 && x >= 0.6 * (gamma - 1.0) ==> t == x
    ensures !gammaBound && survived > 0 && x >= 0.6 * (gamma - 1.0) ==>
      t == Min(x, 0.95 * (nextGoal as real / survived as real - 1.0))
  {
    if x < 0.6 * (gamma - 1.0) then 0.6 * (gamma - 1.0)
    else if gammaBound && x > 0.95 * (gamma - 1.0) then 0.95 * (gamma - 1.0)
    else if !gammaBound && survived > 0 && x > 0.95 * (nextGoal as real / survived as real - 1.0) then
      0.95 * (nextGoal as real / survived as real - 1.0)
    else x
  }

  /** The clamped trigger ratio for the next cycle, with the next goal
      computed from `goalLive` the way the cycle's own goal is. */
  function NextTriggerRatio(gamma: real, target: int, raw: real, goalLive: nat, survived: nat): real
    requires gamma > 1.0
  {
    ClampTriggerRatio(raw, gamma, GammaBound(goalLive, gamma, target), Goal(goalLive, gamma, target), survived)
  }

  /** With the next goal computed from the surviving heap, the clamp never
      goes below its floor 0.6 (gamma - 1): a goal that is not gamma-bound
      exceeds gamma times the surviving heap, so its growth exceeds gamma - 1. */
  lemma NextTriggerRatioFloor(gamma: real, target: int, raw: real, survived: nat)
    requires gamma > 1.0
    ensures NextTriggerRatio(gamma, target, raw, survived, survived) >= 0.6 * (gamma - 1.0)
  {
    var bound := GammaBound(survived, gamma, target);
    var goal := Goal(survived, gamma, target);
    if !bound && survived > 0 && raw >= 0.6 * (gamma - 1.0) {
      assert goal as real >= Scaled(survived, gamma) as real + 1.0;
      assert goal as real > survived as real * gamma;
      GrowthAbove(goal as real, survived as real, gamma);
    }
  }

  lemma GrowthAbove(goal: real, survived: real, gamma: real)
    requires survived > 0.0 && gamma > 1.0 && goal > survived * gamma
    ensures 0.95 * (goal / survived - 1.0) >= 0.6 * (gamma - 1.0)
  {
    var q := goal / survived;
    assert q * survived == goal;
    if q <= gamma {
      MulMonotone(q, gamma, survived);
    }
  }

  /** Computed, as simulation/go116.go does, from the live heap carried INTO
      the cycle rather than the heap that survived it, the next goal can lie
      below the surviving heap, and the clamp then drives the trigger ratio
      negative: with gamma 2, no target, 1 MiB carried in and 8 MiB
      surviving, a raw ratio of 2 is clamped to -0.475. */
  lemma StaleGoalNegativeRatio()
    ensures NextTriggerRatio(2.0, 0, 2.0, 1048576, 8388608) < 0.0
  {
    assert Scaled(1048576, 2.0) == 2097152 by {
      TruncNat(2097152);
    }
    assert Goal(1048576, 2.0, 0) == HeapMinimum;
  }

  /** Which live heap the next goal, and through it the clamp of the trigger
      ratio, is computed from: the one carried into the cycle, as the source
      does, or the one that survived it. */
  datatype GoalBasis = CarriedIn | Survived

  /** One simulated GC cycle: open it, pace it, account for what survived,
      and retune the trigger ratio. */
  function StepFrom(s: State, c: Cycle, basis: GoalBasis): (out: Stepped<State>)
    requires Defined(s, c)
    ensures out.state.globals == s.globals
    ensures out.state.ledger.gc == s.ledger.gc + 1 && out.state.ledger.Consistent()
    ensures out.result.liveBytes == out.state.ledger.liveBytesLast
    ensures out.result.liveScanBytes == out.state.ledger.liveScannableLast
    ensures s.ledger.gc != 0 ==>
      out.result.goalBytes == Goal(s.ledger.liveBytesLast, s.globals.gamma, c.heapTargetBytes)
    ensures s.ledger.gc == 0 ==>
      out.result.triggerPoint == Goal(s.ledger.liveBytesLast, s.globals.gamma, c.heapTargetBytes)
    ensures out.result.triggerPoint <= out.result.goalBytes
    ensures out.result.triggerPoint <= out.result.peakBytes
    ensures out.result.r >= 0.0
    ensures out.result.targetGCUtilization == UTarget
    ensures UDedicated <= out.result.actualGCUtilization <= 1.0
    ensures out.state.ledger.allocBlackLast == out.result.peakBytes - out.result.triggerPoint
  {
    var o := Open(s, c);
    var p := Pace(c, o, TotalScanWork(s.globals, s.ledger, c));
    var next := Survive(s.globals, s.ledger, c, o.triggerPoint, p.peakHeap);
    var base := Baseline(s, o);
    var raw := o.triggerRatioRaw
      + Delta(GoalGrowth(base, o.heapGoal), ActualGrowth(base, p.peakHeap), o.triggerRatioRaw, p.uActual);
    var goalLive := if basis == CarriedIn then s.ledger.liveBytesLast else next.liveBytesLast;
    var ratio := NextTriggerRatio(s.globals.gamma, c.heapTargetBytes, raw, goalLive, next.liveBytesLast);
    Stepped(
      State(s.globals, next, raw, ratio),
      Result(RelaxedRatio(o), next.liveBytesLast, next.liveScannableLast, o.heapGoal,
             p.uActual, UTarget, o.triggerPoint, p.peakHeap))
  }

  /** The step as simulation/go116.go writes it. */
  function StepAsWritten(s: State, c: Cycle): (out: Stepped<State>)
    requires Defined(s, c)
    ensures out.state.ledger.gc == s.ledger.gc + 1
  {
    StepFrom(s, c, CarriedIn)
  }

  /** The step with the next goal computed from the surviving heap. */
  function Step(s: State, c: Cycle): (out: Stepped<State>)
    requires Defined(s, c)
    ensures out.state.ledger.gc == s.ledger.gc + 1
    ensures out.state.triggerRatio >= 0.6 * (s.globals.gamma - 1.0)
  {
    var out := StepFrom(s, c, Survived);
    NextTriggerRatioFloor(s.globals.gamma, c.heapTargetBytes, out.state.triggerRatioRaw,
                          out.state.ledger.liveBytesLast);
    out
  }

  /** What the step reports: the goal and the trigger of the opening, the
      peak and the utilization of the paced cycle; r is the relaxed assist
      ratio, the runway per unit of expected scan work; and on the first
      cycle everything live is the initial heap plus what was allocated
      during the cycle. */
  lemma StepReport(s: State, c: Cycle, basis: GoalBasis)
    requires Defined(s, c)
    ensures var o := Open(s, c);
      var p := Pace(c, o, TotalScanWork(s.globals, s.ledger, c));
      var out := StepFrom(s, c, basis);
      && out.result.goalBytes == o.heapGoal
      && out.result.triggerPoint == o.triggerPoint
      && out.result.peakBytes == p.peakHeap
      && out.result.actualGCUtilization == p.uActual
    ensures StepFrom(s, c, basis).result.r == RelaxedRatio(Open(s, c))
    ensures var out := StepFrom(s, c, basis);
      s.ledger.gc == 0 ==>
        out.result.liveBytes == s.globals.initialHeap + out.result.peakBytes - out.result.triggerPoint
  {
    var o := Open(s, c);
    var p := Pace(c, o, TotalScanWork(s.globals, s.ledger, c));
    var out := StepFrom(s, c, basis);
    assert out.result.r == RelaxedRatio(o);
    assert out.result.goalBytes == o.heapGoal && out.result.triggerPoint == o.triggerPoint;
    assert out.result.liveBytes == Survive(s.globals, s.ledger, c, o.triggerPoint, p.peakHeap).liveBytesLast;
    assert out.result.peakBytes == p.peakHeap;
  }

  /** The retuning at the end of the step: the raw trigger ratio moves by
      Delta, measured against the baseline live heap, and the clamped ratio is
      computed from the surviving heap and the goal basis. */
  lemma StepRetune(s: State, c: Cycle, basis: GoalBasis)
    requires Defined(s, c)
    ensures var o := Open(s, c);
      var p := Pace(c, o, TotalScanWork(s.globals, s.ledger, c));
      var out := StepFrom(s, c, basis);
      var survived := out.state.ledger.liveBytesLast;
      && out.state.triggerRatioRaw == o.triggerRatioRaw
           + Delta(GoalGrowth(Baseline(s, o), o.heapGoal), ActualGrowth(Baseline(s, o), p.peakHeap),
                   o.triggerRatioRaw, p.uActual)
      && out.state.triggerRatio == NextTriggerRatio(s.globals.gamma, c.heapTargetBytes,
           out.state.triggerRatioRaw, if basis == CarriedIn then s.ledger.liveBytesLast else survived, survived)
  {
  }

  /** The step carries the survival accounting of the paced cycle over. */
  lemma StepLedger(s: State, c: Cycle, basis: GoalBasis)
    requires Defined(s, c)
    ensures var o := Open(s, c);
      StepFrom(s, c, basis).state.ledger
        == Survive(s.globals, s.ledger, c, o.triggerPoint, Pace(c, o, TotalScanWork(s.globals, s.ledger, c)).peakHeap)
  {
  }

  /** The corrected step keeps the pacer ready for any valid next cycle as
      long as something survived: the ledger stays consistent and the trigger
      ratio stays non-negative, so the next trigger is not below the live
      heap. */
  lemma StepKeepsReady(s: State, c: Cycle, c': Cycle)
    requires Defined(s, c) && ValidCycle(c')
    requires Step(s, c).state.ledger.liveBytesLast > 0
    ensures Ready(Step(s, c).state, c')
  {
  }

  /** A cycle the step as written mistunes: gamma 2, 1 MiB live and none of
      it scannable, trigger ratio 1, no stacks, globals or target, and
      everything live grows eightfold. The next goal is taken from the 1 MiB
      carried in, lands on the 4 MiB minimum, and lies below the 8 MiB that
      survived. */
  const StaleState: State :=
    State(Globals(2.0, 0, 0), Ledger(1, 1048576, 0, 0, 0), 1.0, 1.0)
  const StaleCycle: Cycle := Cycle(1.0, 1.0, 8.0, 1.0, 0, 0)

  /** On that cycle the step as written leaves a negative trigger ratio, so
      the following cycle's trigger lies below its live heap and the uint64
      subtraction at the start of that cycle wraps around; the corrected step
      keeps the ratio at or above 0.6 (gamma - 1). */
  lemma StaleGoalStep(s: State, c: Cycle)
    requires s == StaleState && c == StaleCycle
    ensures Defined(s, c)
    ensures StepAsWritten(s, c).state.triggerRatio < 0.0
    ensures Step(s, c).state.triggerRatio >= 0.6
  {
    StaleSurvived(s, c);
    StaleRaw(s, c);
    StepRetune(s, c, CarriedIn);
    StaleGoalNegativeRatio();
  }

  /** On the stale cycle nothing is allocated black and the 1 MiB carried
      in grows to 8 MiB. */
  lemma StaleSurvived(s: State, c: Cycle)
    requires s == StaleState && c == StaleCycle
    ensures Defined(s, c)
    ensures StepFrom(s, c, CarriedIn).state.ledger.liveBytesLast == 8388608
  {
    var o := StaleOpening(s, c);
    var p := StalePace(s, c);
    StepLedger(s, c, CarriedIn);
    StaleLedger(s, c);
  }

  lemma StaleLedger(s: State, c: Cycle)
    requires s == StaleState && c == StaleCycle
    ensures Survive(s.globals, s.ledger, c, 2097152, 2097152).liveBytesLast == 8388608
  {
    assert Scaled(1048576, 8.0) == 8388608 by { TruncNat(8388608); }
  }

  /** On the stale cycle the heap peaks at the trigger, one third of the way
      to the goal, at the dedicated utilization, so the raw ratio moves from
      1 to 2. */
  lemma StaleRaw(s: State, c: Cycle)
    requires s == StaleState && c == StaleCycle
    ensures Defined(s, c)
    ensures StepFrom(s, c, CarriedIn).state.triggerRatioRaw == 2.0
  {
    var o := StaleOpening(s, c);
    var p := StalePace(s, c);
    StepRetune(s, c, CarriedIn);
    assert Baseline(s, o) == 1048576;
    StaleDelta();
  }

  lemma StaleDelta()
    ensures 1.0 + Delta(GoalGrowth(1048576, HeapMinimum), ActualGrowth(1048576, 2097152), 1.0, UDedicated) == 2.0
  {
    assert GoalGrowth(1048576, HeapMinimum) == 3.0;
    assert ActualGrowth(1048576, 2097152) == 1.0;
  }

  lemma StaleOpening(s: State, c: Cycle) returns (o: Opening)
    requires s == StaleState && c == StaleCycle
    ensures Defined(s, c)
    ensures o == Open(s, c)
    ensures o == Opening(1.0, 1.0, HeapMinimum, 2097152, 1048576, 524288, 2097152)
  {
    assert Scaled(1048576, 2.0) == 2097152 by { TruncNat(2097152); }
    assert Goal(1048576, 2.0, 0) == HeapMinimum;
    assert Portion(1048576, 1.0) == 1048576 by { TruncNat(1048576); }
    assert Divided(1048576, 2.0) == 524288 by { TruncNat(524288); }
    assert Divided(HeapMinimum, 2.0) == 2097152 by { TruncNat(2097152); }
    o := Open(s, c);
  }

  lemma StalePace(s: State, c: Cycle) returns (p: Progress)
    requires s == StaleState && c == StaleCycle && Defined(s, c)
    requires Open(s, c) == Opening(1.0, 1.0, HeapMinimum, 2097152, 1048576, 524288, 2097152)
    ensures TotalScanWork(s.globals, s.ledger, c) == 0
    ensures p == Pace(c, Open(s, c), 0)
    ensures p.peakHeap == 2097152 && p.uActual == UDedicated
  {
    TruncNat(0);
    var o := Open(s, c);
    assert RelaxedRatio(o) == 4.0;
    assert SolveUtilization(1.0, 1.0, 4.0) == UDedicated;
    p := Pace(c, o, 0);
  }
}
