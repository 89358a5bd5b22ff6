/** The older copy of the PI controller, in controller.go at the repository
    root. It is written out on its own here, as in the source, and proved to
    behave exactly like PIController. */
module LegacyController {
  import PIController

  datatype ControllerConfig = ControllerConfig(kp: real, ti: real, tt: real, period: real, min: real, max: real)

  datatype Controller = Controller(config: ControllerConfig, integral: real)

  function NewController(cfg: ControllerConfig): (c: Controller)
    ensures c.config == cfg && c.integral == 0.0
  {
    Controller(cfg, 0.0)
  }

  function Output(c: Controller, input: real, setpoint: real): (o: (real, real))
    ensures o.0 - c.integral == c.config.kp * (setpoint - input)
    ensures c.config.min <= c.config.max ==> c.config.min <= o.1 <= c.config.max
    ensures c.config.min <= o.0 <= c.config.max ==> o.1 == o.0
    ensures o.0 < c.config.min ==> o.1 == c.config.min
    ensures c.config.min <= o.0 && o.0 > c.config.max ==> o.1 == c.config.max
  {
    var rawOutput := c.config.kp * (setpoint - input) + c.integral;
    var output :=
      if rawOutput < c.config.min then c.config.min
      else if rawOutput > c.config.max then c.config.max
      else rawOutput;
    (rawOutput, output)
  }

  function Update(c: Controller, input: real, setpoint: real, rawOutput: real, output: real): (c': Controller)
    ensures c'.config == c.config
    ensures c.config.ti == 0.0 || c.config.tt == 0.0 ==> c'.integral == c.integral
    ensures c.config.ti != 0.0 && c.config.tt != 0.0 && output == rawOutput ==>
      c'.integral - c.integral == c.config.kp * c.config.period / c.config.ti * (setpoint - input)
  {
    var cfg := c.config;
    if cfg.ti != 0.0 && cfg.tt != 0.0 then
      Controller(cfg, c.integral + (cfg.kp * cfg.period / cfg.ti) * (setpoint - input)
                                 + (cfg.period / cfg.tt) * (output - rawOutput))
    else
      c
  }

  /** One call: the output is computed before the integral is updated. */
  function Next(c: Controller, input: real, setpoint: real): (r: (real, Controller))
    ensures r.1.config == c.config
    ensures c.config.min <= c.config.max ==> c.config.min <= r.0 <= c.config.max
    ensures c.config.ti == 0.0 || c.config.tt == 0.0 ==> r.1.integral == c.integral
    ensures r.0 == Output(c, input, setpoint).1
  {
    var (rawOutput, output) := Output(c, input, setpoint);
    (output, Update(c, input, setpoint, rawOutput, output))
  }

  /** The PI controller with the same configuration and integral. */
  function AsPI(c: Controller): PIController.PI {
    var cfg := c.config;
    PIController.PI(PIController.PIConfig(cfg.kp, cfg.ti, cfg.tt, cfg.period, cfg.min, cfg.max), c.integral)
  }

  /** The two copies agree: same output, same next integral, for every
      configuration, state and input. */
  lemma AgreesWithPI(c: Controller, input: real, setpoint: real)
    ensures Next(c, input, setpoint).0 == PIController.Next(AsPI(c), input, setpoint).0
    ensures AsPI(Next(c, input, setpoint).1) == PIController.Next(AsPI(c), input, setpoint).1
  {
    var o := Output(c, input, setpoint);
    var cfg := c.config;
    var pi := AsPI(c);
    assert pi.config.kp == cfg.kp && pi.config.min == cfg.min && pi.config.max == cfg.max;
    assert pi.integral == c.integral;
    var raw := cfg.kp * (setpoint - input) + c.integral;
    assert o.0 == raw;
    var po := PIController.Output(pi, input, setpoint);
    assert po.0 == pi.config.kp * (setpoint - input) + pi.integral == raw;
    assert o.1 == PIController.Clamp(o.0, cfg.min, cfg.max);
    assert po == o;
    UpdateAgrees(c, input, setpoint, o.0, o.1);
  }

  lemma UpdateAgrees(c: Controller, input: real, setpoint: real, rawOutput: real, output: real)
    ensures AsPI(Update(c, input, setpoint, rawOutput, output))
         == PIController.Update(AsPI(c), input, setpoint, rawOutput, output)
  {
  }
}
