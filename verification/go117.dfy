/** The Go 1.17 pacer of simulation/go117.go: the trigger is placed r times
    the expected scan work below the goal, the collector runs at a fixed 25%
    unless the allocation rate would outrun the runway, and r is retuned by a
    PI controller from the r the cycle actually showed. */
module Go117 {
  import opened Scenario
  import opened Pacing
  import PIController

  /** go117HeapMinimum, 2 << 20 bytes. */
  const HeapMinimum: nat := 2097152

  /** The floor on the trigger, as a share of the way from the live heap to
      the goal. */
  const MinTriggerShare: real := 0.6

  /** The bounds r is kept within after each retuning: 0.05 above zero and
      0.05 below gamma. */
  const RMargin: real := 0.05

  datatype State = State(globals: Globals, ctrl: PIController.PI, ledger: Ledger, rValue: real)

  /** A pacer that has not run, driven by `ctrl`. */
  function New(g: Globals, ctrl: PIController.PI): (s: State)
    ensures s.globals == g && s.ctrl == ctrl && s.ledger == Fresh && s.rValue == 0.0
  {
    State(g, ctrl, Fresh, 0.0)
  }

  /** The scan work the pacer expects at the start of a cycle: what was
      scannable last cycle, the stacks and the globals. */
  function ExpectedScan(s: State, c: Cycle): nat {
    s.ledger.liveScannableLast + c.stackBytes + s.globals.globalsBytes
  }

  /** The heap goal: gamma times the live heap together with stacks and
      globals, raised to a positive target, floored at the minimum. It is the
      largest of the three. */
  function Goal(rooted: nat, gamma: real, target: int): (goal: nat)
    requires gamma >= 1.0
    ensures goal >= HeapMinimum
    ensures target > 0 ==> goal >= target
    ensures goal >= Scaled(rooted, gamma) >= rooted
    ensures goal == Scaled(rooted, gamma) || goal == HeapMinimum || goal == target
  {
    ScaledUp(rooted, gamma);
    var g0 := Scaled(rooted, gamma);
    var g1 := if target > 0 && g0 < target then target else g0;
    if g1 < HeapMinimum then HeapMinimum else g1
  }

  /** The goal of the cycle about to run. */
  function CycleGoal(s: State, c: Cycle): (goal: nat)
    requires ValidGlobals(s.globals)
    ensures goal >= s.ledger.liveBytesLast
  {
    Goal(s.ledger.liveBytesLast + c.stackBytes + s.globals.globalsBytes, s.globals.gamma, c.heapTargetBytes)
  }

  /** The lowest trigger allowed after the first cycle: 60% of the way from
      the live heap to the goal. */
  function MinTrigger(live: nat, goal: nat): (t: nat)
    requires live <= goal
    ensures live <= t <= goal
  {
    Portion(goal - live, MinTriggerShare) + live
  }

  function Max(a: int, b: int): int {
    if a >= b then a else b
  }

  /** Everything the step assumes of the state and the cycle before any
      arithmetic: valid inputs, a consistent ledger and, after the first
      cycle, a non-negative r. */
  predicate Ready(s: State, c: Cycle) {
    && ValidGlobals(s.globals)
    && ValidCycle(c)
    && s.ledger.Consistent()
    && (s.ledger.gc != 0 ==> s.rValue >= 0.0)
  }

  /** The trigger: 7/8 of the goal on the first cycle; afterwards the point
      that leaves r times the expected scan work of runway before the goal
      (computed backwards from the goal and the live heap), but never below
      the minimum trigger. */
  function Trigger(s: State, c: Cycle, goal: nat): (tp: nat)
    requires Ready(s, c) && s.ledger.liveBytesLast <= goal
    ensures s.ledger.gc == 0 ==> tp == 7 * goal / 8
    ensures s.ledger.gc != 0 ==>
      tp == Max(MinTrigger(s.ledger.liveBytesLast, goal), goal - Scaled(ExpectedScan(s, c), s.rValue))
    ensures s.ledger.gc != 0 ==> s.ledger.liveBytesLast <= tp <= goal
    ensures tp <= goal
  {
    if s.ledger.gc == 0 then
      7 * goal / 8
    else
      var live := s.ledger.liveBytesLast;
      var backwards := Scaled(ExpectedScan(s, c), s.rValue) + live;
      var extra := if backwards < goal then goal - backwards else 0;
      var minTrigger := MinTrigger(live, goal);
      if live + extra < minTrigger then minTrigger else live + extra
  }

  /** Whether the cycle's allocation would outrun the runway at the fixed
      25% utilization: the assist ratio (runway per unit of expected scan
      work) is below the growth per unit of scan work at 25%. With no
      expected scan work the ratio is infinite (or not a number) and the
      comparison fails. */
  predicate Clamped(c: Cycle, runway: nat, expected: nat)
    requires ValidCycle(c)
  {
    expected > 0 && GrowthPerScan(c.allocRate, c.scanRate, UDedicated) > runway as real / expected as real
  }

  /** The growth per unit of scan work the cycle runs at and the utilization
      that takes. */
  datatype Assist = Assist(ratio: real, u: real)

  /** During-cycle pacing: 25% utilization and the growth it allows, unless
      that outruns the runway; then the assist ratio itself, and the
      utilization x / (1 + x) with x = allocRate / (ratio * scanRate). */
  function Pace(c: Cycle, runway: nat, expected: nat): (a: Assist)
    requires ValidCycle(c)
    requires Clamped(c, runway, expected) ==> runway > 0
    ensures !Clamped(c, runway, expected) ==>
      a.ratio == GrowthPerScan(c.allocRate, c.scanRate, UDedicated) && a.u == UDedicated
    ensures Clamped(c, runway, expected) ==> a.ratio == runway as real / expected as real
    ensures UDedicated <= a.u < 1.0
    ensures a.u > UDedicated <==> Clamped(c, runway, expected)
    ensures a.ratio >= 0.0
    ensures Clamped(c, runway, expected) ==> a.ratio > 0.0 && a == Outrun(c, a.ratio)
    ensures Clamped(c, runway, expected) ==> a.u == SolveUtilization(c.allocRate, c.scanRate, a.ratio)
  {
    if Clamped(c, runway, expected) then
      NonnegQuotient(runway as real, expected as real);
      Outrun(c, runway as real / expected as real)
    else
      NonnegQuotient(c.allocRate * (1.0 - UDedicated), c.scanRate * UDedicated);
      Assist(GrowthPerScan(c.allocRate, c.scanRate, UDedicated), UDedicated)
  }

  /** Pacing at an assist ratio below the growth 25% would allow. */
  function Outrun(c: Cycle, ratio: real): (a: Assist)
    requires ValidCycle(c) && ratio > 0.0
    requires GrowthPerScan(c.allocRate, c.scanRate, UDedicated) > ratio
    ensures a.ratio == ratio
    ensures UDedicated < a.u < 1.0
    ensures var x := c.allocRate / (ratio * c.scanRate); a.u == x / (1.0 + x)
    ensures a.u == SolveUtilization(c.allocRate, c.scanRate, ratio)
    ensures GrowthPerScan(c.allocRate, c.scanRate, a.u) == ratio
  {
    var x := c.allocRate / (ratio * c.scanRate);
    var u := x / (1.0 + x);
    ClampedUtilization(c.allocRate, c.scanRate, ratio);
    assert UDedicated < u < 1.0 && u == SolveUtilization(c.allocRate, c.scanRate, ratio);
    Assist(ratio, u)
  }

  /** The clamped utilization is the one Go 1.16 solves for: with
      x = a / (ratio * s), x / (1 + x) equals a / (a + s * ratio), which lies
      strictly between 25% and 100%, so the 25% floor does not apply and the
      utilization allows exactly `ratio` of growth per unit of scan work. */
  lemma ClampedUtilization(a: real, s: real, ratio: real)
    requires a >= 0.0 && s > 0.0 && ratio > 0.0
    requires GrowthPerScan(a, s, UDedicated) > ratio
    ensures var x := a / (ratio * s);
      && UDedicated < x / (1.0 + x) < 1.0
      && x / (1.0 + x) == SolveUtilization(a, s, ratio)
      && GrowthPerScan(a, s, x / (1.0 + x)) == ratio
  {
    var rs := ratio * s;
    OutrunsRunway(a, s, ratio);
    var x := a / rs;
    SameUtilization(a, rs, x);
    assert ratio * s == s * ratio;
    UtilizationBetween(a, rs);
  }

  /** Growth beyond `ratio` at 25% means 3a > ratio * s (and so a > 0). */
  lemma OutrunsRunway(a: real, s: real, ratio: real)
    requires a >= 0.0 && s > 0.0 && ratio > 0.0
    requires GrowthPerScan(a, s, UDedicated) > ratio
    ensures 3.0 * a > ratio * s
  {
    var g := GrowthPerScan(a, s, UDedicated);
    assert g * (s * 0.25) == a * 0.75;
    MulStrict(ratio, g, s * 0.25);
  }

  lemma MulStrict(x: real, y: real, f: real)
    requires f > 0.0 && x < y
    ensures x * f < y * f
  {
  }

  lemma SameUtilization(a: real, rs: real, x: real)
    requires a > 0.0 && rs > 0.0 && x == a / rs
    ensures x / (1.0 + x) == a / (a + rs)
  {
    assert x * rs == a;
    assert (1.0 + x) * rs == a + rs;
    var u := x / (1.0 + x);
    assert u * (1.0 + x) == x;
    assert u * (a + rs) == u * (1.0 + x) * rs;
  }

  lemma UtilizationBetween(a: real, rs: real)
    requires a > 0.0 && rs > 0.0 && 3.0 * a > rs
    ensures UDedicated < a / (a + rs) < 1.0
  {
    var u := a / (a + rs);
    assert u * (a + rs) == a;
    if u <= UDedicated {
      MulMonotone(u, UDedicated, a + rs);
    }
    if u >= 1.0 {
      MulMonotone(1.0, u, a + rs);
    }
  }

  /** The peak heap: the trigger plus the growth over the whole scan work. */
  function Peak(triggerPoint: nat, ratio: real, total: nat): (peak: nat)
    requires ratio >= 0.0
    ensures peak >= triggerPoint
  {
    triggerPoint + Scaled(total, ratio)
  }

  /** The r the cycle showed: the growth per unit of scan work, rescaled from
      the utilization that ran to the 25% the pacer plans for. */
  function Measured(peak: nat, triggerPoint: nat, total: nat, u: real): (r: real)
    requires triggerPoint <= peak && total > 0 && UDedicated <= u < 1.0
    ensures r >= 0.0
    ensures u == UDedicated ==> r == (peak - triggerPoint) as real / total as real
  {
    var observed := (peak - triggerPoint) as real / total as real;
    MeasuredScale(observed, u);
    observed * ((1.0 - UDedicated) / (1.0 - u)) / (UDedicated / u)
  }

  /** The rescaling factor is one at 25% and grows with the utilization:
      the measurement undoes the extra assist work. */
  lemma MeasuredScale(observed: real, u: real)
    requires observed >= 0.0 && UDedicated <= u < 1.0
    ensures observed * ((1.0 - UDedicated) / (1.0 - u)) / (UDedicated / u) >= observed
    ensures u == UDedicated ==> observed * ((1.0 - UDedicated) / (1.0 - u)) / (UDedicated / u) == observed
  {
    var f1 := (1.0 - UDedicated) / (1.0 - u);
    var f2 := UDedicated / u;
    QuotientAtLeastOne(1.0 - UDedicated, 1.0 - u);
    assert 0.0 < f2 <= 1.0 by {
      assert f2 * u == UDedicated;
      if f2 > 1.0 {
        MulStrict(1.0, f2, u);
      }
    }
    assert observed * f1 >= observed by {
      MulMonotone(1.0, f1, observed);
    }
    DivAtMostOne(observed * f1, f2);
  }

  lemma QuotientAtLeastOne(n: real, d: real)
    requires 0.0 < d <= n
    ensures n / d >= 1.0
  {
    assert (n / d) * d == n;
  }

  lemma DivAtMostOne(x: real, f: real)
    requires x >= 0.0 && 0.0 < f <= 1.0
    ensures x / f >= x
  {
    assert (x / f) * f == x;
    if x / f < x {
      MulMonotone(x / f, x, f);
      MulMonotone(f, 1.0, x);
    }
  }

  /** r after retuning, kept within [0.05, gamma - 0.05], testing the lower
      bound first. */
  function ClampR(r: real, gamma: real): (r': real)
    requires gamma > 1.0
    ensures RMargin <= r' <= gamma - RMargin
    ensures RMargin <= r <= gamma - RMargin ==> r' == r
    ensures r < RMargin ==> r' == RMargin
    ensures RMargin <= r && r > gamma - RMargin ==> r' == gamma - RMargin
  {
    if r < RMargin then RMargin else if r > gamma - RMargin then gamma - RMargin else r
  }

  /** The step is defined on ready states whose cycle has scan work (a
      divisor of the measured r) and whose clamped pacing, if any, has a
      runway (otherwise the utilization is not a number). */
  predicate Defined(s: State, c: Cycle) {
    && Ready(s, c)
    && TotalScanWork(s.globals, s.ledger, c) > 0
    && var goal := CycleGoal(s, c);
       var tp := Trigger(s, c, goal);
       (tp <= goal && Clamped(c, goal - tp, ExpectedScan(s, c)) ==> tp < goal)
  }

  /** The first-cycle trigger is below the goal too. */
  lemma FirstTriggerBelowGoal(goal: nat)
    requires goal >= HeapMinimum
    ensures 7 * goal / 8 < goal
  {
  }

  /** One simulated GC cycle: goal, trigger, pacing, survival accounting, and
      a PI controller step that moves r towards the r the cycle showed. The
      result reports r as it was when the cycle started. */
  function Step(s: State, c: Cycle): (out: Stepped<State>)
    requires Defined(s, c)
    ensures out.state.globals == s.globals
    ensures out.state.ctrl.config == s.ctrl.config
    ensures out.state.ledger.gc == s.ledger.gc + 1 && out.state.ledger.Consistent()
    ensures out.result.r == s.rValue
    ensures out.result.goalBytes == CycleGoal(s, c)
    ensures out.result.triggerPoint <= out.result.goalBytes
    ensures out.result.triggerPoint <= out.result.peakBytes
    ensures out.result.liveBytes == out.state.ledger.liveBytesLast
    ensures out.result.liveScanBytes == out.state.ledger.liveScannableLast
    ensures out.result.targetGCUtilization == UDedicated
    ensures UDedicated <= out.result.actualGCUtilization < 1.0
    ensures RMargin <= out.state.rValue <= s.globals.gamma - RMargin
  {
    var goal := CycleGoal(s, c);
    FirstTriggerBelowGoal(goal);
    var tp := Trigger(s, c, goal);
    var total := TotalScanWork(s.globals, s.ledger, c);
    var a := Pace(c, goal - tp, ExpectedScan(s, c));
    var peak := Peak(tp, a.ratio, total);
    var next := Survive(s.globals, s.ledger, c, tp, peak);
    var (out, ctrl) := PIController.Next(s.ctrl, s.rValue, Measured(peak, tp, total, a.u));
    Stepped(
      State(s.globals, ctrl, next, ClampR(s.rValue + out, s.globals.gamma)),
      Result(s.rValue, next.liveBytesLast, next.liveScannableLast, goal, a.u, UDedicated, tp, peak))
  }

  /** How the step is put together: the trigger, the pacing, the peak and
      the survival accounting of the cycle, and the controller feedback. The
      controller is called once, with the current r as its input and the r
      the cycle showed as its setpoint; its output is added to r, which is
      then clamped. */
  lemma StepParts(s: State, c: Cycle)
    requires Defined(s, c)
    ensures var goal := CycleGoal(s, c);
      var tp := Trigger(s, c, goal);
      var total := TotalScanWork(s.globals, s.ledger, c);
      var a := Pace(c, goal - tp, ExpectedScan(s, c));
      var peak := Peak(tp, a.ratio, total);
      var call := PIController.Next(s.ctrl, s.rValue, Measured(peak, tp, total, a.u));
      var out := Step(s, c);
      && out.result.triggerPoint == tp
      && out.result.actualGCUtilization == a.u
      && out.result.peakBytes == peak
      && out.state.ledger == Survive(s.globals, s.ledger, c, tp, peak)
      && out.state.ctrl == call.1
      && out.state.rValue == ClampR(s.rValue + call.0, s.globals.gamma)
  {
  }

  /** With any expected scan work, pacing never lets the heap grow by more
      than the assist ratio allows: no more than the runway over the
      expected scan work, so the heap stays within the goal whenever the
      cycle's scan work does not exceed the expected amount. */
  lemma PeakWithinGoal(s: State, c: Cycle)
    requires Defined(s, c)
    requires ExpectedScan(s, c) > 0
    requires TotalScanWork(s.globals, s.ledger, c) <= ExpectedScan(s, c)
    ensures Step(s, c).result.peakBytes <= Step(s, c).result.goalBytes
  {
    var goal := CycleGoal(s, c);
    FirstTriggerBelowGoal(goal);
    var tp := Trigger(s, c, goal);
    var total := TotalScanWork(s.globals, s.ledger, c);
    var d := ExpectedScan(s, c);
    var a := Pace(c, goal - tp, d);
    assert Step(s, c).result.peakBytes == Peak(tp, a.ratio, total);
    PaceWithinRunway(c, goal - tp, d, total);
  }

  lemma PaceWithinRunway(c: Cycle, runway: nat, expected: nat, total: nat)
    requires ValidCycle(c) && (Clamped(c, runway, expected) ==> runway > 0)
    requires 0 < expected && total <= expected
    ensures Scaled(total, Pace(c, runway, expected).ratio) <= runway
  {
    var ratio := Pace(c, runway, expected).ratio;
    var allowed := runway as real / expected as real;
    assert ratio <= allowed;
    assert allowed * expected as real == runway as real;
    ProductBound(total as real, expected as real, ratio, allowed, runway as real);
    TruncMonotone(total as real * ratio, runway as real);
    TruncNat(runway);
  }

  /** The step keeps the pacer ready for any valid next cycle: the ledger
      stays consistent and r stays positive. */
  lemma StepKeepsReady(s: State, c: Cycle, c': Cycle)
    requires Defined(s, c) && ValidCycle(c')
    ensures Ready(Step(s, c).state, c')
  {
  }

  /** The controller coupling: the step feeds the current r and the r the
      cycle showed to the controller, adds its output to r and clamps. A
      pacer whose r equals what the cycle showed and whose controller has an
      empty integral (with zero in its output range) keeps both. */
  lemma StepSettled(s: State, c: Cycle)
    requires Defined(s, c) && s.ledger.gc != 0
    requires s.ctrl.integral == 0.0 && s.ctrl.config.min <= 0.0 <= s.ctrl.config.max
    requires RMargin <= s.rValue <= s.globals.gamma - RMargin
    requires var goal := CycleGoal(s, c);
      var tp := Trigger(s, c, goal);
      var total := TotalScanWork(s.globals, s.ledger, c);
      var a := Pace(c, goal - tp, ExpectedScan(s, c));
      Measured(Peak(tp, a.ratio, total), tp, total, a.u) == s.rValue
    ensures Step(s, c).state.rValue == s.rValue
    ensures Step(s, c).state.ctrl == s.ctrl
  {
    PIController.Settled(s.ctrl, s.rValue);
  }
}
