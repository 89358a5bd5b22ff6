/** Scenario generation of scenario/generators.go: a generator describes
    each field of a cycle by a stream, and `generate` draws one value from
    every stream per cycle and sanitizes it into a well-formed cycle. The
    named generator tables are a parameter (a registry), not data of the
    model. */
module Generation {
  import opened Wrappers
  import opened Scenario
  import opened Streams
  import Pacing
  import Strings

  /** A generator: the globals and one stream per cycle field, and how many
      cycles to draw. */
  datatype Exec = Exec(
    globals: Globals,
    allocRate: Stream,
    scanRate: Stream,
    growthRate: Stream,
    scannableFrac: Stream,
    stackBytes: Stream,
    heapTargetBytes: Stream,
    length: nat)

  predicate WellformedExec(e: Exec) {
    && Wellformed(e.allocRate) && Wellformed(e.scanRate) && Wellformed(e.growthRate)
    && Wellformed(e.scannableFrac) && Wellformed(e.stackBytes) && Wellformed(e.heapTargetBytes)
  }

  /** Stack sizes are drawn in multiples of this many bytes. */
  const StackQuantum: nat := 2048

  /** A rate, bounded below by zero (`min(0)`). */
  function Rate(v: real): (r: real)
    ensures r >= 0.0 && r >= v
    ensures v >= 0.0 ==> r == v
    ensures v < 0.0 ==> r == 0.0
  {
    Apply(AtLeast(0.0), v)
  }

  /** A fraction, limited to [0, 1]. */
  function Fraction(v: real): (r: real)
    ensures 0.0 <= r <= 1.0
    ensures 0.0 <= v <= 1.0 ==> r == v
    ensures v < 0.0 ==> r == 0.0
    ensures v > 1.0 ==> r == 1.0
  {
    Apply(Limit(0.0, 1.0), v)
  }

  /** A stack size: quantized toward zero to a multiple of 2048, bounded
      below by zero and converted to an unsigned byte count. A non-negative
      draw is rounded down to the multiple at or below it; anything below
      2048 becomes zero. */
  function StackSize(v: real): (n: nat)
    ensures n % StackQuantum == 0
    ensures v >= 0.0 ==> n as real <= v < n as real + StackQuantum as real
    ensures v < StackQuantum as real ==> n == 0
  {
    var k := TowardZero(v / 2048.0);
    assert Apply(Quantize(2048.0), v) == k as real * 2048.0;
    var m: nat := if k > 0 then k else 0;
    assert Apply(AtLeast(0.0), Apply(Quantize(2048.0), v)) == (m * 2048) as real;
    Pacing.Trunc(Apply(AtLeast(0.0), Apply(Quantize(2048.0), v)))
  }

  /** A heap target: quantized toward zero to a whole number of bytes and
      converted to a signed integer. Rounding twice is rounding once. */
  function HeapTarget(v: real): (t: int)
    ensures t == TowardZero(v)
  {
    var k := TowardZero(v / 1.0);
    assert Apply(Quantize(1.0), v) == k as real;
    TowardZero(Apply(Quantize(1.0), v))
  }

  /** What `generate` guarantees of every cycle it emits. */
  predicate Sanitized(c: Cycle) {
    && c.allocRate >= 0.0 && c.scanRate >= 0.0 && c.growthRate >= 0.0
    && 0.0 <= c.scannableFrac <= 1.0
    && c.stackBytes % StackQuantum == 0
  }

  /** The cycle built from one draw of every stream. */
  function Sanitize(alloc: real, scan: real, growth: real, frac: real, stack: real, target: real): (c: Cycle)
    ensures Sanitized(c)
  {
    Cycle(Rate(alloc), Rate(scan), Rate(growth), Fraction(frac), StackSize(stack), HeapTarget(target))
  }

  /** Cycle `i` of a generator: the sanitized values of call `i` of its
      streams. */
  function CycleAt(e: Exec, i: nat): (c: Cycle)
    requires WellformedExec(e)
    ensures Sanitized(c)
  {
    Sanitize(Nth(e.allocRate, i), Nth(e.scanRate, i), Nth(e.growthRate, i),
             Nth(e.scannableFrac, i), Nth(e.stackBytes, i), Nth(e.heapTargetBytes, i))
  }

  /** The generator with every stream called once more. */
  function StepExec(e: Exec): (e': Exec)
    requires WellformedExec(e)
    ensures WellformedExec(e') && e'.globals == e.globals && e'.length == e.length
  {
    e.(allocRate := Next(e.allocRate).1, scanRate := Next(e.scanRate).1,
       growthRate := Next(e.growthRate).1, scannableFrac := Next(e.scannableFrac).1,
       stackBytes := Next(e.stackBytes).1, heapTargetBytes := Next(e.heapTargetBytes).1)
  }

  /** The cycle drawn by the next call of every stream. */
  function Emit(e: Exec): Cycle
    requires WellformedExec(e)
  {
    Sanitize(Next(e.allocRate).0, Next(e.scanRate).0, Next(e.growthRate).0,
             Next(e.scannableFrac).0, Next(e.stackBytes).0, Next(e.heapTargetBytes).0)
  }

  /** The generator after `i` cycles: every stream called `i` times. */
  function AdvanceExec(e: Exec, i: nat): (e': Exec)
    requires WellformedExec(e)
    ensures WellformedExec(e')
  {
    e.(allocRate := Advance(e.allocRate, i), scanRate := Advance(e.scanRate, i),
       growthRate := Advance(e.growthRate, i), scannableFrac := Advance(e.scannableFrac, i),
       stackBytes := Advance(e.stackBytes, i), heapTargetBytes := Advance(e.heapTargetBytes, i))
  }

  /** Drawing a cycle calls every stream once more. */
  lemma StepAdvance(e: Exec, i: nat)
    requires WellformedExec(e)
    ensures StepExec(AdvanceExec(e, i)) == AdvanceExec(e, i + 1)
  {
    AdvanceNext(e.allocRate, i);
    AdvanceNext(e.scanRate, i);
    AdvanceNext(e.growthRate, i);
    AdvanceNext(e.scannableFrac, i);
    AdvanceNext(e.stackBytes, i);
    AdvanceNext(e.heapTargetBytes, i);
  }

  lemma EmitAt(e: Exec, i: nat)
    requires WellformedExec(e)
    ensures Emit(AdvanceExec(e, i)) == CycleAt(e, i)
  {
  }

  /** The first `k` cycles of a generator. */
  function Cycles(e: Exec, k: nat): (cs: seq<Cycle>)
    requires WellformedExec(e)
    ensures |cs| == k
    ensures forall i :: 0 <= i < k ==> cs[i] == CycleAt(e, i)
  {
    if k == 0 then [] else Cycles(e, k - 1) + [CycleAt(e, k - 1)]
  }

  /** `generate`: draws `length` cycles, one call of every stream per cycle,
      and keeps the globals. */
  method GenerateExec(e: Exec) returns (x: Execution)
    requires WellformedExec(e)
    ensures x.globals == e.globals
    ensures |x.cycles| == e.length
    ensures forall i :: 0 <= i < |x.cycles| ==> x.cycles[i] == CycleAt(e, i)
    ensures forall i :: 0 <= i < |x.cycles| ==> Sanitized(x.cycles[i])
  {
    var cur := e;
    var cycles: seq<Cycle> := [];
    var i := 0;
    while i < e.length
      invariant 0 <= i <= e.length
      invariant cur == AdvanceExec(e, i)
      invariant cycles == Cycles(e, i)
    {
      EmitAt(e, i);
      StepAdvance(e, i);
      cycles := cycles + [Emit(cur)];
      cur := StepExec(cur);
      i := i + 1;
    }
    x := Execution(cycles, e.globals);
  }

  /** The named generators. */
  type Registry = map<string, Exec>

  predicate WellformedRegistry(registry: Registry) {
    forall name :: name in registry ==> WellformedExec(registry[name])
  }

  datatype Error = NotFound(name: string)

  /** The error's text: the name in double quotes, between "generator " and
      " not found". */
  function Message(e: Error): (m: string)
    ensures |m| == |"generator "| + |e.name| + |" not found"| + 2
    ensures m[..|"generator "|] == "generator "
    ensures m[|"generator "| + 1..|"generator "| + 1 + |e.name|] == e.name
    ensures m[|m| - |" not found"|..] == " not found"
    ensures m[|"generator "|] == '"' && m[|"generator "| + 1 + |e.name|] == '"'
  {
    "generator \"" + e.name + "\" not found"
  }

  /** `Generate`: the execution of the generator called `name`, or an error
      when there is none. */
  method Generate(registry: Registry, name: string) returns (r: Result<Execution, Error>)
    requires WellformedRegistry(registry)
    ensures r.Success? <==> name in registry
    ensures r.Failure? ==> r.error == NotFound(name)
    ensures r.Success? ==>
      && r.value.globals == registry[name].globals
      && |r.value.cycles| == registry[name].length
      && forall i :: 0 <= i < |r.value.cycles| ==> r.value.cycles[i] == CycleAt(registry[name], i)
  {
    if name !in registry {
      return Failure(NotFound(name));
    }
    var x := GenerateExec(registry[name]);
    return Success(x);
  }

  /** `Generators`: the registered names, sorted. */
  method Generators(registry: Registry) returns (names: seq<string>)
    ensures Strings.Sorted(names)
    ensures forall name :: name in names <==> name in registry
    ensures |names| == |registry|
  {
    names := Strings.SortedNames(registry.Keys);
  }
}
