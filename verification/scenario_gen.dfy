/** The generator copy of cmd/scenario-gen/generators.go. Its combinators
    are the same as those of scenario/generators.go (module Streams); its
    generators have no heap-target stream, so every cycle it emits leaves
    the heap target at zero, which the pacers read as "unset". */
module ScenarioGen {
  import opened Wrappers
  import opened Scenario
  import opened Streams
  import Generation
  import Strings

  /** A generator: the globals, one stream per cycle field except the heap
      target, and how many cycles to draw. */
  datatype Exec = Exec(
    globals: Globals,
    allocRate: Stream,
    scanRate: Stream,
    growthRate: Stream,
    scannableFrac: Stream,
    stackBytes: Stream,
    length: nat)

  predicate WellformedExec(e: Exec) {
    && Wellformed(e.allocRate) && Wellformed(e.scanRate) && Wellformed(e.growthRate)
    && Wellformed(e.scannableFrac) && Wellformed(e.stackBytes)
  }

  /** The same generator with a heap-target stream that is constantly zero. */
  function Widen(e: Exec): (w: Generation.Exec)
    requires WellformedExec(e)
    ensures Generation.WellformedExec(w)
  {
    Generation.Exec(e.globals, e.allocRate, e.scanRate, e.growthRate, e.scannableFrac,
                    e.stackBytes, Constant(0.0), e.length)
  }

  /** Cycle `i`: the sanitized values of call `i` of the streams, with no
      heap target. */
  function CycleAt(e: Exec, i: nat): (c: Cycle)
    requires WellformedExec(e)
    ensures Generation.Sanitized(c)
    ensures c.heapTargetBytes == 0
  {
    Cycle(Generation.Rate(Nth(e.allocRate, i)), Generation.Rate(Nth(e.scanRate, i)),
          Generation.Rate(Nth(e.growthRate, i)), Generation.Fraction(Nth(e.scannableFrac, i)),
          Generation.StackSize(Nth(e.stackBytes, i)), 0)
  }

  /** Leaving the heap target unset is generating it from a constant zero:
      this copy emits exactly the cycles the scenario generator emits for
      the widened generator. */
  lemma AgreesWithScenario(e: Exec, i: nat)
    requires WellformedExec(e)
    ensures CycleAt(e, i) == Generation.CycleAt(Widen(e), i)
  {
    ConstantOutputs(0.0, i);
    assert Generation.HeapTarget(0.0) == 0;
  }

  /** `generate`: draws `length` cycles and keeps the globals. */
  method GenerateExec(e: Exec) returns (x: Execution)
    requires WellformedExec(e)
    ensures x.globals == e.globals
    ensures |x.cycles| == e.length
    ensures forall i :: 0 <= i < |x.cycles| ==> x.cycles[i] == CycleAt(e, i)
    ensures forall i :: 0 <= i < |x.cycles| ==> x.cycles[i].heapTargetBytes == 0
  {
    x := Generation.GenerateExec(Widen(e));
    forall i | 0 <= i < |x.cycles|
      ensures x.cycles[i] == CycleAt(e, i)
    {
      AgreesWithScenario(e, i);
    }
  }

  type Registry = map<string, Exec>

  predicate WellformedRegistry(registry: Registry) {
    forall name :: name in registry ==> WellformedExec(registry[name])
  }

  /** `Generate`: the execution of the generator called `name`, or an error
      when there is none. */
  method Generate(registry: Registry, name: string) returns (r: Result<Execution, Generation.Error>)
    requires WellformedRegistry(registry)
    ensures r.Success? <==> name in registry
    ensures r.Failure? ==> r.error == Generation.NotFound(name)
    ensures r.Success? ==>
      && r.value.globals == registry[name].globals
      && |r.value.cycles| == registry[name].length
      && forall i :: 0 <= i < |r.value.cycles| ==> r.value.cycles[i] == CycleAt(registry[name], i)
  {
    if name !in registry {
      return Failure(Generation.NotFound(name));
    }
    var x := GenerateExec(registry[name]);
    return Success(x);
  }

  /** `Generators`: the registered names, sorted. */
  method Generators(registry: Registry) returns (names: seq<string>)
    ensures Strings.Sorted(names)
    ensures forall name :: name in names <==> name in registry
    ensures |names| == |registry|
  {
    names := Strings.SortedNames(registry.Keys);
  }
}
