/** The proportional-integral controller of controller/pi.go, with
    back-calculation anti-windup. The controller is a value: its
    configuration and the one accumulator, the integral. */
module PIController {

  datatype PIConfig = PIConfig(kp: real, ti: real, tt: real, period: real, min: real, max: real)

  datatype PI = PI(config: PIConfig, integral: real)

  /** Whether the integral term is active: both the integral time and the
      tracking time must be non-zero, otherwise the integral is frozen. */
  predicate Integrating(cfg: PIConfig) {
    cfg.ti != 0.0 && cfg.tt != 0.0
  }

  /** `x` clamped to [lo, hi], testing the lower bound first. */
  function Clamp(x: real, lo: real, hi: real): (y: real)
    ensures lo <= hi ==> lo <= y <= hi
    ensures lo <= x <= hi ==> y == x
    ensures x < lo ==> y == lo
    ensures lo <= x && x > hi ==> y == hi
  {
    if x < lo then lo else if x > hi then hi else x
  }

  /** A controller with the given configuration and an empty integral. */
  function NewPI(cfg: PIConfig): (c: PI)
    ensures c.config == cfg && c.integral == 0.0
  {
    PI(cfg, 0.0)
  }

  /** The unclamped and the clamped output for a measured `input` and a
      target `setpoint`. */
  function Output(c: PI, input: real, setpoint: real): (o: (real, real))
    ensures o.0 - c.integral == c.config.kp * (setpoint - input)
    ensures c.config.min <= c.config.max ==> c.config.min <= o.1 <= c.config.max
    ensures c.config.min <= o.0 <= c.config.max ==> o.1 == o.0
    ensures o.0 < c.config.min ==> o.1 == c.config.min
    ensures c.config.min <= o.0 && o.0 > c.config.max ==> o.1 == c.config.max
  {
    var rawOutput := c.config.kp * (setpoint - input) + c.integral;
    (rawOutput, Clamp(rawOutput, c.config.min, c.config.max))
  }

  /** The integral after a call that produced `rawOutput`, clamped to `output`:
      the integral action plus the back-calculation term, which pulls the
      integral back by the amount the output was clamped. */
  function Update(c: PI, input: real, setpoint: real, rawOutput: real, output: real): (c': PI)
    ensures c'.config == c.config
    ensures !Integrating(c.config) ==> c'.integral == c.integral
    ensures Integrating(c.config) && output == rawOutput ==>
      c'.integral - c.integral == c.config.kp * c.config.period / c.config.ti * (setpoint - input)
  {
    if Integrating(c.config) then
      var cfg := c.config;
      PI(cfg, c.integral + (cfg.kp * cfg.period / cfg.ti) * (setpoint - input)
                         + (cfg.period / cfg.tt) * (output - rawOutput))
    else
      c
  }

  /** One controller call: the clamped output, computed from the integral as
      it was before the call, and the controller with its integral updated. */
  function Next(c: PI, input: real, setpoint: real): (r: (real, PI))
    ensures r.1.config == c.config
    ensures c.config.min <= c.config.max ==> c.config.min <= r.0 <= c.config.max
    ensures r.0 == Clamp(c.config.kp * (setpoint - input) + c.integral, c.config.min, c.config.max)
    ensures !Integrating(c.config) ==> r.1.integral == c.integral
  {
    var (rawOutput, output) := Output(c, input, setpoint);
    (output, Update(c, input, setpoint, rawOutput, output))
  }

  /** The back-calculation law: the integral grows by the integral action on
      the error, plus the gap between the clamped and the raw output scaled by
      period / tt; the second term vanishes when the output is not saturated. */
  lemma NextIntegral(c: PI, input: real, setpoint: real)
    requires Integrating(c.config)
    ensures var cfg := c.config;
      var rawOutput := cfg.kp * (setpoint - input) + c.integral;
      var output := Next(c, input, setpoint).0;
      && Next(c, input, setpoint).1.integral - c.integral
           == cfg.kp * cfg.period / cfg.ti * (setpoint - input) + cfg.period / cfg.tt * (output - rawOutput)
      && (cfg.min <= rawOutput <= cfg.max ==>
            output == rawOutput
            && Next(c, input, setpoint).1.integral - c.integral
                 == cfg.kp * cfg.period / cfg.ti * (setpoint - input))
  {
  }

  /** The outputs and the final controller of a sequence of calls, each call
      given as its (input, setpoint) pair. */
  function Run(c: PI, calls: seq<(real, real)>): (r: (seq<real>, PI))
    ensures |r.0| == |calls|
    ensures r.1.config == c.config
    decreases |calls|
  {
    if |calls| == 0 then ([], c)
    else
      var step := Next(c, calls[0].0, calls[0].1);
      var rest := Run(step.1, calls[1..]);
      ([step.0] + rest.0, rest.1)
  }

  /** The clamped proportional term plus the integral `integral`: what a
      controller whose integral is frozen at that value outputs. */
  function FrozenOutput(cfg: PIConfig, integral: real, call: (real, real)): real {
    Clamp(cfg.kp * (call.1 - call.0) + integral, cfg.min, cfg.max)
  }

  /** With the integral switched off (Ti = 0 or Tt = 0) the integral never
      moves, over any number of calls, and every output is the clamped
      proportional term plus that constant integral. */
  lemma {:induction false} FrozenRun(c: PI, calls: seq<(real, real)>)
    requires !Integrating(c.config)
    ensures Run(c, calls).1.integral == c.integral
    ensures forall i :: 0 <= i < |calls| ==> Run(c, calls).0[i] == FrozenOutput(c.config, c.integral, calls[i])
    decreases |calls|
  {
    if |calls| > 0 {
      var step := Next(c, calls[0].0, calls[0].1);
      FrozenCall(c, calls[0]);
      FrozenRun(c, calls[1..]);
      var rest := Run(c, calls[1..]);
      var outs := Run(c, calls).0;
      assert outs == [step.0] + rest.0;
      forall i | 0 <= i < |calls|
        ensures outs[i] == FrozenOutput(c.config, c.integral, calls[i])
      {
        if i == 0 {
          assert outs[0] == step.0;
          assert step.0 == FrozenOutput(c.config, c.integral, calls[0]);
        } else {
          assert outs[i] == rest.0[i - 1];
          assert rest.0[i - 1] == FrozenOutput(c.config, c.integral, calls[1..][i - 1]);
          assert calls[1..][i - 1] == calls[i];
        }
      }
    }
  }

  /** One call with the integral switched off leaves the controller as it was
      and outputs the clamped proportional term plus the integral. */
  lemma FrozenCall(c: PI, call: (real, real))
    requires !Integrating(c.config)
    ensures Next(c, call.0, call.1) == (FrozenOutput(c.config, c.integral, call), c)
  {
  }

  /** The integral a saturated controller is pulled toward: with a constant
      error `e` and the output pinned at `max`, the update adds
      kp*period/ti*e + period/tt*(max - kp*e - integral), which is zero
      exactly at this value. */
  function WindupLimit(cfg: PIConfig, e: real): real
    requires Integrating(cfg)
  {
    cfg.max - cfg.kp * e + cfg.tt / cfg.ti * cfg.kp * e
  }

  /** Anti-windup, one call: while the output saturates at max, the distance of
      the integral from WindupLimit shrinks by the factor (1 - period/tt). */
  lemma SaturatedStep(c: PI, input: real, setpoint: real)
    requires Integrating(c.config)
    requires c.config.min <= c.config.max
    requires c.config.kp * (setpoint - input) + c.integral > c.config.max
    ensures var lim := WindupLimit(c.config, setpoint - input);
      Next(c, input, setpoint).1.integral - lim
        == (1.0 - c.config.period / c.config.tt) * (c.integral - lim)
  {
    SaturatedIntegral(c, input, setpoint);
    SaturatedDistance(c.config, setpoint - input, c.integral, Next(c, input, setpoint).1.integral);
  }

  /** The saturated update, as arithmetic on the configuration: the distance
      from WindupLimit shrinks by the factor (1 - period/tt). */
  lemma SaturatedDistance(cfg: PIConfig, e: real, integral: real, next: real)
    requires Integrating(cfg)
    requires next - integral
      == cfg.kp * cfg.period / cfg.ti * e + cfg.period / cfg.tt * (cfg.max - (cfg.kp * e + integral))
    ensures next - WindupLimit(cfg, e) == (1.0 - cfg.period / cfg.tt) * (integral - WindupLimit(cfg, e))
  {
    RatioIdentity(cfg.period, cfg.tt, cfg.ti, cfg.kp, e);
    BackCalculation(integral, cfg.kp * cfg.period / cfg.ti * e, cfg.period / cfg.tt, cfg.max, cfg.kp * e,
                    cfg.tt / cfg.ti * cfg.kp * e, WindupLimit(cfg, e), next);
  }

  /** A call whose output saturates at max moves the integral by the
      integral action plus period/tt times (max - raw output). */
  lemma SaturatedIntegral(c: PI, input: real, setpoint: real)
    requires Integrating(c.config)
    requires c.config.min <= c.config.max
    requires c.config.kp * (setpoint - input) + c.integral > c.config.max
    ensures var cfg := c.config; var e := setpoint - input;
      Next(c, input, setpoint).1.integral - c.integral
        == cfg.kp * cfg.period / cfg.ti * e + cfg.period / cfg.tt * (cfg.max - (cfg.kp * e + c.integral))
  {
    assert Next(c, input, setpoint).0 == c.config.max;
    NextIntegral(c, input, setpoint);
  }

  lemma RatioIdentity(p: real, t: real, i: real, k: real, e: real)
    requires t != 0.0 && i != 0.0
    ensures p / t * (t / i * k * e) == k * p / i * e
  {
  }

  /** The saturated update in terms of the distance from the limit: the
      integral moves by `g + q*(max - raw)`, and since `q*a == g` that is
      `-q` times its distance from `max - k + a`. */
  lemma BackCalculation(integral: real, g: real, q: real, max: real, k: real, a: real, lim: real, next: real)
    requires next - integral == g + q * (max - (k + integral))
    requires lim == max - k + a
    requires q * a == g
    ensures next - lim == (1.0 - q) * (integral - lim)
  {
  }

  /** The controller after `n` calls with the same input and setpoint. */
  function Repeat(c: PI, input: real, setpoint: real, n: nat): (last: PI)
    ensures last.config == c.config
    decreases n
  {
    if n == 0 then c else Repeat(Next(c, input, setpoint).1, input, setpoint, n - 1)
  }

  /** Anti-windup over many calls: driving the controller with a constant
      positive error from an integral at or above WindupLimit keeps the output
      saturated, and the integral then stays between WindupLimit and where it
      started; it cannot grow without bound. */
  lemma {:induction false} AntiWindupBounded(c: PI, input: real, setpoint: real, n: nat)
    requires Integrating(c.config) && c.config.min <= c.config.max
    requires c.config.kp > 0.0 && c.config.ti > 0.0 && 0.0 < c.config.period <= c.config.tt
    requires setpoint > input
    requires c.integral >= WindupLimit(c.config, setpoint - input)
    ensures var last := Repeat(c, input, setpoint, n);
      WindupLimit(c.config, setpoint - input) <= last.integral <= c.integral
    decreases n
  {
    if n > 0 {
      var c' := Next(c, input, setpoint).1;
      SaturatedStays(c, input, setpoint);
      AntiWindupBounded(c', input, setpoint, n - 1);
    }
  }

  /** One saturated call from an integral at or above WindupLimit keeps it
      there, and does not raise it. */
  lemma SaturatedStays(c: PI, input: real, setpoint: real)
    requires Integrating(c.config) && c.config.min <= c.config.max
    requires c.config.kp > 0.0 && c.config.ti > 0.0 && 0.0 < c.config.period <= c.config.tt
    requires setpoint > input
    requires c.integral >= WindupLimit(c.config, setpoint - input)
    ensures var c' := Next(c, input, setpoint).1;
      && c'.config == c.config
      && WindupLimit(c.config, setpoint - input) <= c'.integral <= c.integral
  {
    var e := setpoint - input;
    var lim := WindupLimit(c.config, e);
    var c' := Next(c, input, setpoint).1;
    PositiveProduct(c.config.tt / c.config.ti, c.config.kp, e);
    SaturatedStep(c, input, setpoint);
    var d := c.integral - lim;
    assert c'.integral - lim == (1.0 - c.config.period / c.config.tt) * d;
    Contraction(c.config.period, c.config.tt, d);
  }

  /** Anti-windup from below: driving the controller with a constant error
      while its output saturates at max, from an integral at or below
      WindupLimit, keeps the output saturated, and the integral then rises
      toward WindupLimit without passing it. */
  lemma {:induction false} AntiWindupRising(c: PI, input: real, setpoint: real, n: nat)
    requires Integrating(c.config) && c.config.min <= c.config.max
    requires 0.0 < c.config.period <= c.config.tt
    requires c.config.kp * (setpoint - input) + c.integral > c.config.max
    requires c.integral <= WindupLimit(c.config, setpoint - input)
    ensures var last := Repeat(c, input, setpoint, n);
      c.integral <= last.integral <= WindupLimit(c.config, setpoint - input)
    decreases n
  {
    if n > 0 {
      var c' := Next(c, input, setpoint).1;
      SaturatedRises(c, input, setpoint);
      AntiWindupRising(c', input, setpoint, n - 1);
    }
  }

  /** One saturated call from an integral at or below WindupLimit keeps it
      there, and does not lower it. */
  lemma SaturatedRises(c: PI, input: real, setpoint: real)
    requires Integrating(c.config) && c.config.min <= c.config.max
    requires 0.0 < c.config.period <= c.config.tt
    requires c.config.kp * (setpoint - input) + c.integral > c.config.max
    requires c.integral <= WindupLimit(c.config, setpoint - input)
    ensures var c' := Next(c, input, setpoint).1;
      && c'.config == c.config
      && c.integral <= c'.integral <= WindupLimit(c.config, setpoint - input)
  {
    var lim := WindupLimit(c.config, setpoint - input);
    var c' := Next(c, input, setpoint).1;
    SaturatedStep(c, input, setpoint);
    var d := lim - c.integral;
    assert lim - c'.integral == (1.0 - c.config.period / c.config.tt) * d;
    Contraction(c.config.period, c.config.tt, d);
  }

  lemma PositiveProduct(x: real, y: real, z: real)
    requires x > 0.0 && y > 0.0 && z > 0.0
    ensures x * y * z > 0.0
  {
  }

  lemma Contraction(p: real, t: real, d: real)
    requires 0.0 < p <= t && d >= 0.0
    ensures 0.0 <= (1.0 - p / t) * d <= d
  {
    assert 0.0 < p / t <= 1.0;
  }

  /** A controller with an empty integral whose input already equals the
      setpoint outputs nothing and keeps its integral empty, provided zero
      is within its output range. */
  lemma Settled(c: PI, x: real)
    requires c.integral == 0.0 && c.config.min <= 0.0 <= c.config.max
    ensures Next(c, x, x).0 == 0.0
    ensures Next(c, x, x).1 == c
  {
  }
}
