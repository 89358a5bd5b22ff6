/** What the two pacers of simulation/ share: the truncating conversion of a
    float to a byte count, the per-cycle record they carry over, the result
    record they report, the total-scan-work rule and the survival
    accounting. */
module Pacing {
  import opened Scenario

  /** A float64 to uint64 conversion of a non-negative value: truncation,
      which on non-negative values is the floor. */
  function Trunc(x: real): (n: nat)
    requires x >= 0.0
    ensures n as real <= x < n as real + 1.0
  {
    x.Floor
  }

  /** The byte counts a pacer carries from one cycle to the next, and the
      number of cycles simulated so far. */
  datatype Ledger = Ledger(
    gc: nat,
    liveBytesLast: nat,
    liveScannableLast: nat,
    allocBlackLast: nat,
    allocBlackScannableLast: nat)
  {
    /** Memory allocated black during the last cycle survived that cycle, so it
        is part of the live (and scannable live) bytes carried over. */
    predicate Consistent() {
      allocBlackLast <= liveBytesLast && allocBlackScannableLast <= liveScannableLast
    }
  }

  /** The ledger of a pacer that has not simulated any cycle. */
  const Fresh: Ledger := Ledger(0, 0, 0, 0, 0)

  /** One cycle's report (simulation/simulator.go, type Result). */
  datatype Result = Result(
    r: real,
    liveBytes: nat,
    liveScanBytes: nat,
    goalBytes: nat,
    actualGCUtilization: real,
    targetGCUtilization: real,
    triggerPoint: nat,
    peakBytes: nat)

  /** A pacer's next state together with the result of the step. */
  datatype Stepped<S> = Stepped(state: S, result: Result)

  /** Scan work of the cycle: the initial heap on the first cycle, the grown
      scannable live heap afterwards, plus stacks and globals. The two branch
      clauses only spare callers the unfolding; what the rule promises is
      stated by ScanWorkMonotone. */
  function TotalScanWork(g: Globals, l: Ledger, c: Cycle): (w: nat)
    requires c.growthRate >= 0.0
    ensures w >= c.stackBytes + g.globalsBytes
    ensures l.gc == 0 ==> w == g.initialHeap + c.stackBytes + g.globalsBytes
    ensures l.gc != 0 ==> w - c.stackBytes - g.globalsBytes == Scaled(l.liveScannableLast, c.growthRate)
  {
    if l.gc == 0 then
      g.initialHeap + c.stackBytes + g.globalsBytes
    else
      Scaled(l.liveScannableLast, c.growthRate) + c.stackBytes + g.globalsBytes
  }

  /** A cycle whose heap grows faster, that starts from more scannable live
      memory or that has larger stacks has at least as much to scan. */
  lemma ScanWorkMonotone(g: Globals, l: Ledger, l': Ledger, c: Cycle, c': Cycle)
    requires l.gc == l'.gc && l.liveScannableLast <= l'.liveScannableLast
    requires 0.0 <= c.growthRate <= c'.growthRate && c.stackBytes <= c'.stackBytes
    ensures TotalScanWork(g, l, c) <= TotalScanWork(g, l', c')
  {
    if l.gc != 0 {
      ScaledMonotone(l.liveScannableLast, l'.liveScannableLast, c.growthRate, c'.growthRate);
    }
  }

  /** Scaling more bytes by a larger factor gives at least as many bytes. */
  lemma ScaledMonotone(x: nat, y: nat, f: real, f': real)
    requires x <= y && 0.0 <= f <= f'
    ensures Scaled(x, f) <= Scaled(y, f')
  {
    var lo, mid, hi := x as real * f, y as real * f, y as real * f';
    assert lo <= mid by { MulMonotone(x as real, y as real, f); }
    assert mid <= hi by { MulMonotone(f, f', y as real); }
    assert 0.0 <= lo by { MulMonotone(0.0, x as real, f); }
    TruncMonotone(lo, hi);
    assert Scaled(x, f) == Trunc(lo) && Scaled(y, f') == Trunc(hi);
  }

  /** The share `frac` of `bytes`, truncated: the scannable part of a byte count. */
  function Portion(bytes: nat, frac: real): (n: nat)
    requires 0.0 <= frac <= 1.0
    ensures n <= bytes
  {
    MulFraction(bytes as real, frac);
    TruncMonotone(bytes as real * frac, bytes as real);
    Trunc(bytes as real * frac)
  }

  lemma PortionMonotone(x: nat, y: nat, frac: real)
    requires x <= y && 0.0 <= frac <= 1.0
    ensures Portion(x, frac) <= Portion(y, frac)
  {
    MulMonotone(x as real, y as real, frac);
    MulFraction(x as real, frac);
    TruncMonotone(x as real * frac, y as real * frac);
  }

  /** `bytes` scaled by a non-negative factor (a growth rate, gamma, one
      plus a trigger ratio), truncated: `uint64(float64(bytes) * factor)`. */
  function Scaled(bytes: nat, factor: real): nat
    requires factor >= 0.0
  {
    Trunc(bytes as real * factor)
  }

  /** Scaling by a factor of at least one does not shrink a byte count. */
  lemma ScaledUp(bytes: nat, factor: real)
    requires factor >= 1.0
    ensures Scaled(bytes, factor) >= bytes
  {
    assert bytes as real * factor >= bytes as real;
    TruncMonotone(bytes as real, bytes as real * factor);
  }

  /** `bytes` divided by a divisor of at least one, truncated:
      `uint64(float64(bytes) / d)`. It never exceeds `bytes`. */
  function Divided(bytes: nat, d: real): (n: nat)
    requires d >= 1.0
    ensures n <= bytes
    ensures d > 1.0 && bytes > 0 ==> n < bytes
  {
    assert bytes as real / d <= bytes as real;
    assert d > 1.0 && bytes > 0 ==> bytes as real / d < bytes as real;
    TruncMonotone(bytes as real / d, bytes as real);
    Trunc(bytes as real / d)
  }

  /** Survival accounting: what the pacer carries into the next cycle once a
      cycle that started at `triggerPoint` peaked at `peakHeap`. Memory
      allocated during the cycle is black and survives; of the memory live
      before, only what survived the previous cycle is subject to growth. */
  function Survive(g: Globals, l: Ledger, c: Cycle, triggerPoint: nat, peakHeap: nat): (next: Ledger)
    requires triggerPoint <= peakHeap
    requires ValidCycle(c)
    requires l.Consistent()
    ensures next.Consistent()
    ensures next.gc == l.gc + 1
    ensures next.allocBlackLast == peakHeap - triggerPoint
    ensures next.allocBlackScannableLast == Portion(peakHeap - triggerPoint, c.scannableFrac)
    ensures l.gc == 0 ==> next.liveBytesLast == g.initialHeap + next.allocBlackLast
    ensures l.gc == 0 ==> next.liveScannableLast == Portion(next.liveBytesLast, c.scannableFrac)
    ensures l.gc != 0 ==>
      next.liveBytesLast - next.allocBlackLast
        == Scaled(l.liveBytesLast - l.allocBlackLast, c.growthRate)
    ensures l.gc != 0 ==>
      next.liveScannableLast - next.allocBlackScannableLast
        == Scaled(l.liveScannableLast - l.allocBlackScannableLast, c.growthRate)
  {
    var black := peakHeap - triggerPoint;
    var blackScannable := Portion(black, c.scannableFrac);
    if l.gc == 0 then
      var survived := g.initialHeap + black;
      PortionMonotone(black, survived, c.scannableFrac);
      Ledger(l.gc + 1, survived, Portion(survived, c.scannableFrac), black, blackScannable)
    else
      var survived := Scaled(l.liveBytesLast - l.allocBlackLast, c.growthRate) + black;
      var scannableSurvived :=
        Scaled(l.liveScannableLast - l.allocBlackScannableLast, c.growthRate) + blackScannable;
      Ledger(l.gc + 1, survived, scannableSurvived, black, blackScannable)
  }

  /** The utilization floor both pacers use: dedicated workers alone take 25%. */
  const UDedicated: real := 0.25

  function AtLeastDedicated(u: real): (v: real)
    ensures v >= UDedicated
    ensures v == u || v == UDedicated
    ensures u >= UDedicated ==> v == u
  {
    if u < UDedicated then UDedicated else u
  }

  /** Extra heap growth per unit of scan work when allocation runs at
      `allocRate`, scanning at `scanRate`, and the collector takes utilization
      `u`: allocRate * (1-u) / (scanRate * u). */
  function GrowthPerScan(allocRate: real, scanRate: real, u: real): real
    requires scanRate > 0.0 && u > 0.0
  {
    (allocRate * (1.0 - u)) / (scanRate * u)
  }

  /** The utilization fixed point: solving GrowthPerScan(a, s, u) == ratio for u
      gives u = a / (a + s * ratio); the pacers floor it at 25%. The solution
      lies in [0.25, 1]; the growth it allows never exceeds `ratio`, and
      matches it exactly whenever the floor did not apply. */
  function SolveUtilization(allocRate: real, scanRate: real, ratio: real): (u: real)
    requires allocRate >= 0.0 && scanRate > 0.0 && ratio >= 0.0
    requires allocRate + scanRate * ratio > 0.0
    ensures UDedicated <= u <= 1.0
    ensures GrowthPerScan(allocRate, scanRate, u) >= 0.0
    ensures GrowthPerScan(allocRate, scanRate, u) <= ratio
    ensures u > UDedicated ==> GrowthPerScan(allocRate, scanRate, u) == ratio
  {
    SolveUtilizationSound(allocRate, scanRate, ratio);
    AtLeastDedicated(allocRate / (allocRate + scanRate * ratio))
  }

  lemma SolveUtilizationSound(allocRate: real, scanRate: real, ratio: real)
    requires allocRate >= 0.0 && scanRate > 0.0 && ratio >= 0.0
    requires allocRate + scanRate * ratio > 0.0
    ensures var u := AtLeastDedicated(allocRate / (allocRate + scanRate * ratio));
      && u <= 1.0
      && 0.0 <= GrowthPerScan(allocRate, scanRate, u) <= ratio
      && (u > UDedicated ==> GrowthPerScan(allocRate, scanRate, u) == ratio)
  {
    var d := allocRate + scanRate * ratio;
    var u0 := allocRate / d;
    assert u0 <= 1.0 by {
      assert allocRate <= d;
    }
    var u := AtLeastDedicated(u0);
    if u0 >= UDedicated {
      SolveExact(allocRate, scanRate, ratio, d, u0);
    } else {
      SolveFloored(allocRate, scanRate, ratio, d, u0);
    }
    NonnegQuotient(allocRate * (1.0 - u), scanRate * u);
  }

  /** Above the floor the fixed point is exact. */
  lemma SolveExact(allocRate: real, scanRate: real, ratio: real, d: real, u0: real)
    requires allocRate >= 0.0 && scanRate > 0.0 && ratio >= 0.0
    requires d == allocRate + scanRate * ratio && d > 0.0 && u0 == allocRate / d
    requires u0 >= UDedicated
    ensures GrowthPerScan(allocRate, scanRate, u0) == ratio
  {
    assert u0 * d == allocRate;
    assert (1.0 - u0) * d == scanRate * ratio;
    assert allocRate * (1.0 - u0) == (scanRate * ratio) * u0;
    assert allocRate * (1.0 - u0) == ratio * (scanRate * u0);
  }

  /** At the floor the collector does more than needed, so the growth stays
      below `ratio`. */
  lemma SolveFloored(allocRate: real, scanRate: real, ratio: real, d: real, u0: real)
    requires allocRate >= 0.0 && scanRate > 0.0 && ratio >= 0.0
    requires d == allocRate + scanRate * ratio && d > 0.0 && u0 == allocRate / d
    requires u0 < UDedicated
    ensures GrowthPerScan(allocRate, scanRate, UDedicated) <= ratio
  {
    assert allocRate == u0 * d;
    assert (UDedicated - u0) * d > 0.0;
    assert 4.0 * allocRate < d;
    assert 3.0 * allocRate < scanRate * ratio;
    assert GrowthPerScan(allocRate, scanRate, UDedicated) == 3.0 * allocRate / scanRate;
    DivLess(3.0 * allocRate, scanRate, ratio);
  }

  /** If x <= y and 0 <= r <= ratio with ratio * y == runway, then x * r <= runway. */
  lemma ProductBound(x: real, y: real, r: real, ratio: real, runway: real)
    requires 0.0 <= x <= y && 0.0 <= r <= ratio && ratio * y == runway
    ensures 0.0 <= x * r <= runway
  {
    MulMonotone(x, y, r);
    MulMonotone(r, ratio, y);
  }

  lemma TruncMonotone(x: real, y: real)
    requires 0.0 <= x <= y
    ensures Trunc(x) <= Trunc(y)
  {
  }

  lemma TruncNat(n: nat)
    ensures Trunc(n as real) == n
  {
  }

  lemma MulFraction(x: real, f: real)
    requires x >= 0.0 && 0.0 <= f <= 1.0
    ensures 0.0 <= x * f <= x
  {
  }

  lemma MulMonotone(x: real, y: real, f: real)
    requires x <= y && f >= 0.0
    ensures x * f <= y * f
  {
  }

  lemma NonnegQuotient(x: real, y: real)
    requires x >= 0.0 && y > 0.0
    ensures x / y >= 0.0
  {
  }

  lemma DivLess(x: real, y: real, z: real)
    requires y > 0.0 && x < y * z
    ensures x / y < z
  {
  }
}
