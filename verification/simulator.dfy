/** The simulator factory of simulation/simulator.go: a pacer is chosen by
    name from a fixed table, the Go 1.17 pacer gets a default PI controller
    when none is supplied, and an unknown name is an error. */
module Simulation {
  import opened Wrappers
  import opened Scenario
  import Pacing
  import PIController
  import Strings
  import Go116
  import Go117

  /** A running simulation of one of the two pacers. */
  datatype Simulator = Legacy(go116: Go116.State) | Controlled(go117: Go117.State)

  datatype Error = UnknownPacer(name: string)

  /** The names the factory table is keyed by. */
  const PacerNames: set<string> := {"go116", "go117"}

  /** The controller the Go 1.17 pacer is given when the caller supplies
      none: Kp 0.9, Ti 1.6, Tt 1000, period 1, output within [-2, 2]. */
  const DefaultPIConfig: PIController.PIConfig := PIController.PIConfig(0.9, 1.6, 1000.0, 1.0, -2.0, 2.0)

  /** The pacer named `name`, starting from `g`; `ctrl` is the controller
      for the Go 1.17 pacer (`None` for the default) and is ignored by the
      Go 1.16 pacer. */
  function NewSimulator(name: string, g: Globals, ctrl: Option<PIController.PI>): (r: Result<Simulator, Error>)
    ensures r.Success? <==> name in PacerNames
    ensures r.Failure? ==> r.error == UnknownPacer(name)
    ensures name == "go116" ==> r.Success? && r.value.Legacy? && r.value.go116 == Go116.New(g)
    ensures name == "go117" ==>
      && r.Success? && r.value.Controlled?
      && r.value.go117.globals == g && r.value.go117.ledger == Pacing.Fresh && r.value.go117.rValue == 0.0
      && r.value.go117.ctrl == (if ctrl.Some? then ctrl.value else PIController.NewPI(DefaultPIConfig))
  {
    if name == "go116" then
      Success(Legacy(Go116.New(g)))
    else if name == "go117" then
      var c := if ctrl.Some? then ctrl.value else PIController.NewPI(DefaultPIConfig);
      Success(Controlled(Go117.New(g, c)))
    else
      Failure(UnknownPacer(name))
  }

  /** The error's text: the name in double quotes. */
  function Message(e: Error): (m: string)
    ensures |m| == |"unknown pacer type "| + |e.name| + 2
    ensures m[..|"unknown pacer type "|] == "unknown pacer type "
    ensures m[|m| - |e.name| - 1..|m| - 1] == e.name
    ensures m[|"unknown pacer type "|] == '"' && m[|m| - 1] == '"'
  {
    "unknown pacer type \"" + e.name + "\""
  }

  /** The default controller does not wind up: started fresh and driven by
      a constant error above 20/9, which saturates its output at 2 from the
      first call, its integral stays between 0 and 2 + 561.6 times the
      error however many calls it takes. */
  lemma {:induction false} DefaultAntiWindup(input: real, setpoint: real, n: nat)
    requires setpoint - input > 20.0 / 9.0
    ensures var last := PIController.Repeat(PIController.NewPI(DefaultPIConfig), input, setpoint, n);
      0.0 <= last.integral <= 2.0 + 561.6 * (setpoint - input)
  {
    var e := setpoint - input;
    assert PIController.WindupLimit(DefaultPIConfig, e) == 2.0 + 561.6 * e;
    PIController.AntiWindupRising(PIController.NewPI(DefaultPIConfig), input, setpoint, n);
  }

  /** The names of the available pacers, sorted. */
  method Simulators() returns (names: seq<string>)
    ensures Strings.Sorted(names) && Strings.Elements(names) == PacerNames
    ensures forall n, g, ctrl :: n in names <==> NewSimulator(n, g, ctrl).Success?
    ensures names == ["go116", "go117"]
  {
    names := Strings.SortedNames(PacerNames);
    assert Strings.Below("go116", "go117");
    Strings.SortedUnique(names, ["go116", "go117"]);
  }

  function LedgerOf(sim: Simulator): Pacing.Ledger {
    match sim
    case Legacy(s) => s.ledger
    case Controlled(s) => s.ledger
  }

  function GlobalsOf(sim: Simulator): Globals {
    match sim
    case Legacy(s) => s.globals
    case Controlled(s) => s.globals
  }

  /** The cycle is within the domain of the simulator's pacer. */
  predicate Defined(sim: Simulator, c: Cycle) {
    match sim
    case Legacy(s) => Go116.Defined(s, c)
    case Controlled(s) => Go117.Defined(s, c)
  }

  /** One cycle of whichever pacer the simulator runs. The factory
      registers the Go 1.16 pacer as written, so its step is
      `Go116.StepAsWritten`, stale next goal included. */
  function Step(sim: Simulator, c: Cycle): (out: Pacing.Stepped<Simulator>)
    requires Defined(sim, c)
    ensures out.state.Legacy? <==> sim.Legacy?
    ensures GlobalsOf(out.state) == GlobalsOf(sim)
    ensures LedgerOf(out.state).gc == LedgerOf(sim).gc + 1 && LedgerOf(out.state).Consistent()
    ensures out.result.liveBytes == LedgerOf(out.state).liveBytesLast
    ensures out.result.triggerPoint <= out.result.goalBytes
    ensures out.result.triggerPoint <= out.result.peakBytes
    ensures Pacing.UDedicated <= out.result.actualGCUtilization <= 1.0
  {
    match sim
    case Legacy(s) =>
      var o := Go116.StepAsWritten(s, c);
      Pacing.Stepped(Legacy(o.state), o.result)
    case Controlled(s) =>
      var o := Go117.Step(s, c);
      Pacing.Stepped(Controlled(o.state), o.result)
  }
}
