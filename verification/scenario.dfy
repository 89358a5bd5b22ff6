/** The records of scenario/scenario.go: the per-run globals, one workload
    cycle, and a whole execution. float64 fields are reals, uint64 fields
    are naturals and the int64 heap target is an integer. */
module Scenario {

  /** Per-run configuration: the heap-growth factor, the fixed size of the
      global roots and the live heap the program starts with. */
  datatype Globals = Globals(gamma: real, globalsBytes: nat, initialHeap: nat)

  /** One cycle's workload. A heap target that is not positive means "unset". */
  datatype Cycle = Cycle(
    allocRate: real,
    scanRate: real,
    growthRate: real,
    scannableFrac: real,
    stackBytes: nat,
    heapTargetBytes: int)

  datatype Execution = Execution(cycles: seq<Cycle>, globals: Globals)

  /** The growth factor must exceed one. */
  predicate ValidGlobals(g: Globals) {
    g.gamma > 1.0
  }

  /** What the pacers assume of a cycle and never check themselves: rates are
      non-negative, the scan rate is a divisor and so must be positive, and the
      scannable fraction is a fraction. */
  predicate ValidCycle(c: Cycle) {
    && c.allocRate >= 0.0
    && c.scanRate > 0.0
    && c.growthRate >= 0.0
    && 0.0 <= c.scannableFrac <= 1.0
  }
}
