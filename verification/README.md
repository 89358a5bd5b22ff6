# Pacer model in Dafny

A model of the core of the Go garbage-collector pacer simulator: the Go 1.16 and
the Go 1.17 pacer, each stepping through one GC cycle of a synthetic workload;
the proportional-integral (PI) controller that retunes the Go 1.17 pacer; the
simulator factory that picks a pacer by name; and the scenario generators that
turn streams of numbers into workload cycles.

Modules, following the Go packages:

- `Scenario` (scenario/scenario.go): the globals, one cycle of workload, an execution.
- `Pacing`: what both pacers share.
  - the truncating float64 to uint64 conversion;
  - the ledger of bytes carried from cycle to cycle;
  - the result record;
  - the total-scan-work rule and the survival accounting;
  - the utilization solve.
- `Go116` (simulation/go116.go): the Go 1.16 pacer.
  - the bootstrap of the first cycle and the two scan-work regimes;
  - the hard heap goal;
  - the damped update of the trigger ratio and its clamp.
- `Go117` (simulation/go117.go): the Go 1.17 pacer.
  - the trigger is placed r times the expected scan work below the goal;
  - pacing runs at 25% unless allocation would outrun the runway;
  - r is retuned by the controller.
- `PIController` (controller/pi.go) and `LegacyController` (controller.go): the two copies of the PI controller, proved to agree.
- `Simulation` (simulation/simulator.go): the factory table, the default controller, the sorted list of names and one step of either pacer.
- `Strings`: Go's string order and `sort.Strings` of a set of names.
- `Streams`, `Generation` and `ScenarioGen`: the generators.
  - `Streams` holds the stream combinators of scenario/generators.go; its copy in cmd/scenario-gen/generators.go is identical, so both are modelled once.
  - `Generation` holds `generate`, `Generate` and `Generators` of scenario/generators.go.
  - `ScenarioGen` holds the copies in cmd/scenario-gen/generators.go, which have no heap-target stream.

Modelling choices:

- float64 values are reals and uint64 or int values are naturals or integers.
  - Every `uint64(float64(x))` is the floor (`Pacing.Trunc`), reached through `Scaled`, `Divided` and `Portion`.
  - `int64(x)` and `math.Ceil`/`math.Floor` in `quantize` round toward zero (`Streams.TowardZero`).
- A pacer is a value.
  - `Step` returns the next state together with the cycle's `Result`.
  - The Go code mutates the struct instead.
- The Go streams are closures over private state. Here a stream is a value holding that state.
  - `Next` returns one call's value together with the stream afterwards.
  - `Advance(s, i)` is the stream after `i` calls and `Nth(s, i)` the value of call `i`.
- The generator tables (`generators`) are a parameter: a map from names to generators.
- Go's `error` is `Wrappers.Result`, with an error datatype per package.
- Divisions by zero and uint64 subtractions that could wrap are excluded by each step's `Defined` predicate. So are the cases the pacers never check:
  - gamma > 1;
  - non-negative rates and a positive scan rate;
  - a scannable fraction in [0, 1].

  Where IEEE arithmetic gives a defined and harmless result, the model follows it:
  - the Go 1.17 clamp test fails when there is no expected scan work;
  - the Go 1.16 clamp of the trigger ratio has no cap when nothing survived.

To verify, give Dafny 4.11 all the files together:

    dafny verify --resource-limit 2000000 --verification-time-limit 0 --warn-contradictory-assumptions *.dfy

Plain `dafny verify *.dfy` with its default limits is enough as well.

## Model

| member | source | states |
|---|---|---|
| Pacing.Trunc | simulation/go116.go:29 | the conversion of a non-negative float is its floor: the result is within one below the value |
| Pacing.ScanWorkMonotone | simulation/go116.go:58-63 | the cycle's scan work never decreases when the heap grows faster, more scannable memory survived the last cycle, or the stacks are larger |
| Pacing.ScaledMonotone | simulation/go116.go:62 | scaling more bytes by a larger factor, truncated, gives at least as many bytes |
| Pacing.Portion | simulation/go116.go:149 | the scannable part of a byte count never exceeds it |
| Pacing.PortionMonotone | simulation/go116.go:148-158 | the scannable part of a smaller byte count is no larger, so the black scannable bytes never exceed the surviving scannable heap |
| Pacing.Divided | simulation/go116.go:42 | dividing bytes by a factor of at least one never grows them, and strictly shrinks them when the factor exceeds one |
| Pacing.ScaledUp | simulation/go116.go:29-35 | scaling bytes by a factor of at least one, truncated, never shrinks them, so the goal is at least the live heap |
| Pacing.Survive | simulation/go116.go:148-158 | the next ledger: black allocation is the peak minus the trigger; on the first cycle the initial heap plus the black bytes survive; afterwards only the part that was not black last cycle grows; the ledger stays consistent |
| Pacing.AtLeastDedicated | simulation/go116.go:88-90 | the utilization is floored at 25% and unchanged at or above it |
| Pacing.SolveUtilization | simulation/go116.go:81-91 | the solved utilization is in [0.25, 1]; the growth it allows is non-negative and never exceeds the ratio; it matches the ratio exactly when the floor did not apply |
| Pacing.SolveUtilizationSound | simulation/go116.go:81-91 | u = a / (a + s * ratio), floored at 25%, makes allocRate * (1-u) / (scanRate * u) equal the ratio above the floor and at most the ratio at the floor |
| Pacing.SolveExact | simulation/go116.go:85-87 | above the floor the closed form solves the growth equation exactly |
| Pacing.SolveFloored | simulation/go116.go:88-91 | when the floor applies, the growth at 25% is at most the ratio |
| Go116.New | simulation/simulator.go:18-20 | a fresh Go 1.16 pacer keeps the globals and starts with an empty ledger and zero trigger ratios |
| Go116.Goal | simulation/go116.go:29-35 | the goal is at least the 4 MiB minimum, at least a positive target, and at least gamma times the live heap, and it is one of the three |
| Go116.GammaBound | simulation/go116.go:163-172 | the goal is gamma-bound exactly when neither the target nor the minimum raised it; then it equals gamma times the live heap, otherwise it exceeds it |
| Go116.Open | simulation/go116.go:29-49 | the opening of a cycle: the seeded ratios on the first cycle and the carried ones later; the goal is at or above the baseline and the trigger, the expected scan work is below the worst case |
| Go116.OpenFirst | simulation/go116.go:36-49 | first cycle: the trigger is at the goal, a live heap is backed out through the 7/8 seed, and goal and scan work are recomputed from it |
| Go116.OpenSteady | simulation/go116.go:29-43 | later cycles: the goal from the carried live heap, the trigger at (1 + ratio) times it, the worst-case scan work from the scannable heap plus the scannable runway, the expected work divided by gamma |
| Go116.SeedDummy | simulation/go116.go:37-43 | the live heap backed out of the first goal lies between 2 MiB and the goal |
| Go116.LowGammaFirstCycle | simulation/go116.go:44-49 | with gamma below 15/8 the first cycle's goal, the backed-out live heap grown by gamma, lies below the trigger placed at the seeded goal, so the step is not defined there |
| Go116.SeedShrinks | simulation/go116.go:37-47 | dividing a goal by 15/8, truncating, and multiplying by a gamma below 15/8 lands strictly below the goal |
| Go116.RelaxedRatio | simulation/go116.go:79 | the relaxed assist ratio times the expected scan work is the runway from trigger to goal |
| Go116.HardGoal | simulation/go116.go:93 | the hard goal is 1.1 times the goal, truncated, and strictly above it |
| Go116.Blend | simulation/go116.go:108 | the work-weighted mean of two utilizations: times the total work it is the sum of each utilization times its work; it stays in [0.25, 1] and is either one when the other has no work |
| Go116.BlendTotal | simulation/go116.go:125-137 | the blended utilization times the total scan work is the expected work at the expected utilization plus the remaining work at the worst-case utilization |
| Go116.BlendBounds | simulation/go116.go:125-137 | the work-weighted mean of two utilizations in [0.25, 1] is in [0.25, 1] |
| Go116.Pace | simulation/go116.go:87-138 | the paced cycle: the utilization solved at the relaxed ratio, the growth it allows, the hard goal; the trigger plus the growth over the expected work stays within the goal; within the expected work the heap grows at that pace from the trigger, beyond it the cycle is the second phase |
| Go116.NoOverrun | simulation/go116.go:95-98 | pacing at the relaxed ratio for at most the expected work never passes the goal, so the overrun branches cannot be taken |
| Go116.SecondPhase | simulation/go116.go:125-137 | beyond the expected work the rest is paced for the hard goal: the peak is the expected-phase peak plus the remaining work grown at the worst-case utilization solved at the panicked ratio, the utilization is the work-weighted mean of the two, and the peak stays within the hard goal while the work is within the worst case |
| Go116.HardCeiling | simulation/go116.go:126-134 | pacing the remaining work at the panicked ratio stays within the runway to the hard goal |
| Go116.PaceCeilings | simulation/go116.go:93-137 | within the expected scan work the heap peaks at most at the goal, within the worst-case work at most at the hard goal |
| Go116.PaceWithinGoal | simulation/go116.go:95-97 | within the expected scan work the peak is at most the goal |
| Go116.PaceWithinHardGoal | simulation/go116.go:112-136 | within the worst-case scan work the peak is at most the hard goal |
| Go116.RelaxedExact | simulation/go116.go:79-91 | unless the floor applied, the growth per scan unit times the expected work is exactly the runway |
| Go116.GoalGrowth | simulation/go116.go:174-177 | the goal's growth ratio over the baseline is non-negative |
| Go116.ActualGrowth | simulation/go116.go:178-183 | the actual growth ratio is at least -1 |
| Go116.GrowthAgree | simulation/go116.go:174-183 | a peak exactly at the goal shows the goal's growth, and a peak above the goal exactly when more growth is shown |
| Go116.DeltaAtTarget | simulation/go116.go:184 | at the target utilization the update is half the goal's growth minus the actual growth: zero iff the heap grew as planned, negative iff it grew more |
| Go116.ClampTriggerRatio | simulation/go116.go:187-193 | the clamp: the floor 0.6 (gamma - 1) applies first; a gamma-bound goal caps at 0.95 (gamma - 1), and a ratio above that cap becomes the cap; otherwise the cap is 0.95 times the next goal's growth over the surviving heap |
| Go116.GrowthAbove | simulation/go116.go:187-193 | a goal above gamma times the surviving heap makes the cap 0.95 times its growth at least the floor 0.6 (gamma - 1) |
| Go116.NextTriggerRatioFloor | simulation/go116.go:163-193 | with the next goal taken from the surviving heap, the clamped ratio is never below 0.6 (gamma - 1) |
| Go116.StaleGoalNegativeRatio | simulation/go116.go:163-193 | with the next goal taken from the carried-in heap (1 MiB) and 8 MiB surviving, the clamp yields a negative ratio |
| Go116.StepFrom | simulation/go116.go:22-213 | one cycle: the globals are kept, the ledger advances and stays consistent, the goal and trigger follow the opening, the trigger is below goal and peak, r is non-negative, utilization in [0.25, 1] and the target is 30% |
| Go116.StepAsWritten | simulation/go116.go:163-172 | the step with the next goal from the carried-in live heap, as written |
| Go116.Step | simulation/go116.go:22-213 | the corrected step (next goal from the surviving heap) always leaves a trigger ratio of at least 0.6 (gamma - 1) |
| Go116.StepReport | simulation/go116.go:161-212 | the reported goal and trigger are those of the opening, the reported peak and utilization those of the paced cycle, and r is the relaxed ratio; after the first cycle the live heap is the initial heap plus what was allocated black |
| Go116.StepRetune | simulation/go116.go:184-193 | the raw ratio moves by Delta measured against the baseline, and the clamped ratio is computed from the surviving heap and the goal basis |
| Go116.StepLedger | simulation/go116.go:194-197 | the next ledger is the survival accounting of the paced cycle |
| Go116.StepKeepsReady | simulation/go116.go:194-200 | after the corrected step the pacer is ready for any valid next cycle, as long as something survived |
| Go116.StaleGoalStep | simulation/go116.go:163-193 | on a concrete cycle the step as written leaves a negative trigger ratio and the corrected step does not |
| Go116.StaleSurvived | simulation/go116.go:156 | on that cycle the 1 MiB carried in grows to 8 MiB |
| Go116.StaleLedger | simulation/go116.go:148-158 | on that cycle the survival accounting leaves 8 MiB live |
| Go116.StaleRaw | simulation/go116.go:184-185 | on that cycle the raw ratio moves from 1 to 2 |
| Go116.StaleDelta | simulation/go116.go:174-185 | on that cycle the goal grew by 3 and the heap by 1, so at 25% the raw ratio moves to 2 |
| Go116.StaleOpening | simulation/go116.go:29-43 | the opening of that cycle: goal 4 MiB, trigger 2 MiB, scan work 1 MiB worst case and 0.5 MiB expected |
| Go116.StalePace | simulation/go116.go:87-97 | on that cycle there is no scan work, the heap peaks at the trigger and the utilization is 25% |
| Go117.New | simulation/simulator.go:21-33 | a fresh Go 1.17 pacer keeps globals and controller and starts with an empty ledger and r = 0 |
| Go117.Goal | simulation/go117.go:30-36 | the goal is at least the 2 MiB minimum, at least a positive target, at least gamma times the rooted heap, and is one of the three |
| Go117.CycleGoal | simulation/go117.go:30 | the goal of the cycle is at least the live heap |
| Go117.MinTrigger | simulation/go117.go:55 | the minimum trigger lies between the live heap and the goal |
| Go117.Trigger | simulation/go117.go:45-59 | 7/8 of the goal on the first cycle; afterwards the larger of the minimum trigger and the goal minus r times the expected scan work; never above the goal, and between live heap and goal after the first cycle |
| Go117.Pace | simulation/go117.go:62-89 | 25% and its growth when that fits the runway; otherwise pacing outruns at the positive assist ratio runway / expected work, at the utilization Go 1.16 would solve for that ratio; a utilization above 25% exactly when clamped; always below 1 |
| Go117.Outrun | simulation/go117.go:77-89 | at an assist ratio the 25% growth exceeds, the utilization is x / (1 + x) with x = allocRate / (ratio * scanRate), strictly between 25% and 100%; it is the solved utilization of Go 1.16 and allows exactly the assist ratio |
| Go117.ClampedUtilization | simulation/go117.go:79-88 | x / (1 + x) with x = a / (ratio * s) equals a / (a + s * ratio), lies strictly between 25% and 100%, and solves the growth equation |
| Go117.OutrunsRunway | simulation/go117.go:75-77 | growth beyond the ratio at 25% means 3a > ratio * s |
| Go117.Peak | simulation/go117.go:90-91 | the peak is at least the trigger |
| Go117.Measured | simulation/go117.go:113 | the measured r is non-negative, and at 25% it is the growth per unit of scan work |
| Go117.MeasuredScale | simulation/go117.go:113 | the rescaling from the utilization that ran to 25% never lowers the observed growth, and is the identity at 25% |
| Go117.ClampR | simulation/go117.go:117-121 | r is kept in [0.05, gamma - 0.05]: below 0.05 it becomes 0.05, otherwise above gamma - 0.05 it becomes gamma - 0.05, and inside it is unchanged |
| Go117.FirstTriggerBelowGoal | simulation/go117.go:48 | the first-cycle trigger 7/8 of the goal is below the goal |
| Go117.Step | simulation/go117.go:23-141 | one cycle: globals and controller configuration kept, ledger advanced and consistent, r reported as it was, goal as computed, trigger below goal and peak, utilization in [0.25, 1), r after retuning in [0.05, gamma - 0.05] |
| Go117.StepParts | simulation/go117.go:45-128 | the step's trigger is Trigger, its utilization the paced one, its peak Peak, its ledger the survival accounting, its controller the one after a call with the measured r, and its r the clamped sum of the old r and the controller's output |
| Go117.PeakWithinGoal | simulation/go117.go:62-91 | when the scan work does not exceed the expected work, the heap peaks at most at the goal |
| Go117.PaceWithinRunway | simulation/go117.go:62-91 | growth over at most the expected scan work stays within the runway |
| Go117.StepKeepsReady | simulation/go117.go:117-125 | the step keeps the ledger consistent and r non-negative for any valid next cycle |
| Go117.StepSettled | simulation/go117.go:113-121 | a pacer whose r equals the r the cycle showed and whose controller has an empty integral keeps r and the controller unchanged |
| PIController.Clamp | controller/pi.go:25-30 | the output is within [min, max] and unchanged inside it; below min it is min, above max (and not below min) it is max |
| PIController.NewPI | controller/pi.go:17-19 | a new controller has the configuration and an empty integral |
| PIController.Output | controller/pi.go:21-31 | the raw output is the proportional term plus the integral; the output is clamped to [min, max], equals the raw one inside it, and is min below it and max above it |
| PIController.Update | controller/pi.go:33-37 | with Ti or Tt zero the integral is frozen; unsaturated, it grows by Kp * period / Ti times the error |
| PIController.Next | controller/pi.go:39-43 | a call returns the clamped output computed from the integral before the update, and keeps the configuration |
| PIController.NextIntegral | controller/pi.go:33-43 | the back-calculation law: the integral grows by the integral action plus period / Tt times (output - raw output) |
| PIController.Run | controller/pi.go:39-43 | a run of calls yields one output per call and keeps the configuration |
| PIController.FrozenRun | controller/pi.go:33-37 | with the integral switched off, any run keeps the integral and each output is the clamped proportional term plus it |
| PIController.FrozenCall | controller/pi.go:33-43 | with the integral switched off one call leaves the controller unchanged and outputs the clamped proportional term plus the integral |
| PIController.SaturatedStep | controller/pi.go:35 | while the output saturates at max, the distance of the integral from the windup limit shrinks by (1 - period / Tt) |
| PIController.SaturatedIntegral | controller/pi.go:33-43 | a call saturated at max moves the integral by the integral action plus period / Tt times (max - raw output) |
| PIController.SaturatedDistance | controller/pi.go:35 | that update, in terms of the distance from the windup limit |
| PIController.Repeat | controller/pi.go:39-43 | repeated calls keep the configuration |
| PIController.AntiWindupBounded | controller/pi.go:33-43 | with a constant positive error from an integral at or above the windup limit, the integral stays between that limit and where it started, over any number of calls |
| PIController.SaturatedStays | controller/pi.go:33-37 | one saturated call from at or above the limit stays at or above it and does not raise the integral |
| PIController.AntiWindupRising | controller/pi.go:33-43 | with a constant error and the output saturated at max from an integral at or below the windup limit, the integral stays between where it started and that limit, over any number of calls |
| PIController.SaturatedRises | controller/pi.go:33-37 | one saturated call from at or below the limit stays at or below it and does not lower the integral |
| PIController.Settled | controller/pi.go:21-43 | with an empty integral and input equal to setpoint the output is zero and the controller is unchanged |
| LegacyController.NewController | controller.go:17-19 | a new controller has the configuration and an empty integral |
| LegacyController.Output | controller.go:21-31 | raw output is proportional term plus integral; the output is clamped, equals the raw one inside [min, max], and is min below it and max above it |
| LegacyController.Update | controller.go:33-37 | frozen integral when Ti or Tt is zero; unsaturated growth by Kp * period / Ti times the error |
| LegacyController.Next | controller.go:39-43 | the output is computed before the update and within [min, max] |
| LegacyController.AgreesWithPI | controller.go:21-43 | both copies give the same output and the same next integral for every configuration, state and input |
| LegacyController.UpdateAgrees | controller.go:33-37 | the two update rules agree |
| Simulation.NewSimulator | simulation/simulator.go:45-51 | success exactly for a name in the table; otherwise an unknown-pacer error naming it; go116 is a fresh Go 1.16 pacer; go117 is a fresh Go 1.17 pacer with the given controller or the default PI(0.9, 1.6, 1000, 1, -2, 2) |
| Simulation.DefaultAntiWindup | simulation/simulator.go:22-30 | the default controller, started fresh with a constant error above 20/9, keeps its integral between 0 and 2 + 561.6 times the error over any number of calls |
| Simulation.Message | simulation/simulator.go:48 | the error text is "unknown pacer type " followed by the name between two double quotes |
| Simulation.Simulators | simulation/simulator.go:36-43 | the names are sorted, are exactly the names the factory accepts, and are ["go116", "go117"] |
| Simulation.Step | simulation/simulator.go:11-20 | one step of whichever pacer, the Go 1.16 one as written: the kind and the globals are kept, the ledger advances consistently, trigger is below goal and peak, utilization in [0.25, 1] |
| Strings.BelowIrreflexive | simulation/simulator.go:41 | no string sorts before itself |
| Strings.BelowTransitive | simulation/simulator.go:41 | the string order is transitive |
| Strings.BelowTotal | simulation/simulator.go:41 | two strings differ exactly when one sorts before the other, and never both ways |
| Strings.Insert | simulation/simulator.go:36-43 | inserting a new name keeps the sequence sorted and adds exactly that name |
| Strings.SortedNames | simulation/simulator.go:36-43 | collecting and sorting a set of names gives a sorted sequence of exactly those names, each once |
| Strings.SortedUnique | simulation/simulator.go:41 | a set has one sorted listing |
| Streams.MakeUnit | scenario/generators.go:356-365 | a new impulse stream is well formed |
| Streams.MakeRamp | scenario/generators.go:379-388 | a new ramp of non-zero length is well formed |
| Streams.MakeDelay | scenario/generators.go:396-413 | a new delay of at least one call is well formed |
| Streams.Scale | scenario/generators.go:421-423 | scale is a vga with a constant gain and is well formed |
| Streams.MixAll | scenario/generators.go:432-440 | a mix of well-formed streams is well formed |
| Streams.TowardZero | scenario/generators.go:442-450 | ceiling below zero and floor from zero up: the result is the value with its fraction dropped |
| Streams.Apply | scenario/generators.go:425-474 | offset adds the amount; min and max bound from below and above and are one of value or bound; limit is the identity inside its range, the lower bound below it and the upper bound above it |
| Streams.QuantizeTowardZero | scenario/generators.go:442-450 | quantize returns a whole multiple of mult whose factor is v / mult rounded toward zero |
| Streams.Next | scenario/generators.go:348-474 | one call keeps the stream well formed; what each combinator returns is stated by the lemmas below |
| Streams.Advance | scenario/generators.go:348 | the stream after any number of calls is well formed |
| Streams.AdvanceNext | scenario/generators.go:348 | one more call advances the stream by one call |
| Streams.Outputs | scenario/generators.go:348 | the first k values are the values of calls 0 to k - 1 |
| Streams.ConstantOutputs | scenario/generators.go:350-354 | a constant returns its value on every call and never changes |
| Streams.UnitOutputs | scenario/generators.go:356-365 | an impulse returns amp on the first call and 0 on every later call |
| Streams.RampOutputs | scenario/generators.go:379-388 | call i of a ramp returns height * min(i, length) / length, so height from call length on |
| Streams.RampNth | scenario/generators.go:379-388 | call i of a ramp returns the ramp's value at min(i, length) calls |
| Streams.RampAdvance | scenario/generators.go:383-385 | the ramp counts its calls up to length and stops |
| Streams.RampNegative | scenario/generators.go:379-388 | a ramp of negative length returns 0 on every call |
| Streams.RampNegativeAdvance | scenario/generators.go:383-385 | a ramp of negative length never counts its calls: it is unchanged by any number of calls |
| Streams.MapOutputs | scenario/generators.go:425-474 | a wrapper applies its operation to each value of the wrapped stream |
| Streams.VgaOutputs | scenario/generators.go:415-419 | call i of a vga is the product of call i of stream and gain |
| Streams.VgaAdvance | scenario/generators.go:415-419 | a vga advances its stream and gain in lockstep |
| Streams.NextVga | scenario/generators.go:415-419 | one call of a vga calls its stream and its gain once each |
| Streams.ScaleOutputs | scenario/generators.go:421-423 | call i of a scaled stream is call i of the stream times the amount |
| Streams.MixOutputs | scenario/generators.go:432-440 | call i of a mix of two is the sum of their calls i |
| Streams.MixAdvance | scenario/generators.go:432-440 | a mix advances both streams in lockstep |
| Streams.NextMix | scenario/generators.go:432-440 | one call of a mix calls both streams once |
| Streams.MixAllOutputs | scenario/generators.go:432-440 | call i of a variadic mix is call i of the first stream plus the sum of calls i of the others |
| Streams.QueueRotate | scenario/generators.go:405-410 | overwriting the oldest slot and moving the ring index pops the oldest value and appends the new one |
| Streams.DelayStep | scenario/generators.go:399-412 | one call of a delay: zero while filling, then the oldest buffered value, with the source's value queued |
| Streams.Window | scenario/generators.go:396-413 | the last len values of the source before call i |
| Streams.WindowTail | scenario/generators.go:396-413 | dropping the oldest value of a window gives the shorter window |
| Streams.WindowHead | scenario/generators.go:396-413 | the oldest value of a window of len before call i is call i - len |
| Streams.DelayHoldsStep | scenario/generators.go:399-412 | one call keeps the delay's buffer equal to the window of the source's last values |
| Streams.DelayState | scenario/generators.go:396-413 | after i calls the buffer holds the source's last min(i, n) values in call order |
| Streams.DelayOutputs | scenario/generators.go:396-413 | call i of a delay by n returns 0 for i < n and call i - n of the source afterwards |
| Generation.Rate | scenario/generators.go:31-33 | a rate is non-negative, at least the drawn value, the drawn value when that is non-negative and 0 when it is negative |
| Generation.Fraction | scenario/generators.go:34 | a fraction is in [0, 1]: the drawn value when that is in range, 0 below it and 1 above it |
| Generation.StackSize | scenario/generators.go:35 | stack bytes are a multiple of 2048, the largest at or below a non-negative draw, and 0 below 2048 |
| Generation.HeapTarget | scenario/generators.go:36 | the heap target is the draw rounded toward zero, as quantizing to 1 and converting each would |
| Generation.Sanitize | scenario/generators.go:30-37 | every emitted cycle has non-negative rates, a fraction in [0, 1] and stack bytes in multiples of 2048 |
| Generation.CycleAt | scenario/generators.go:29-37 | cycle i is built from call i of each stream and is sanitized |
| Generation.StepExec | scenario/generators.go:29-37 | drawing a cycle keeps the globals and the length |
| Generation.AdvanceExec | scenario/generators.go:29-37 | the generator after i cycles is well formed |
| Generation.StepAdvance | scenario/generators.go:29-37 | drawing a cycle calls every stream exactly once more |
| Generation.EmitAt | scenario/generators.go:30-37 | the cycle drawn after i cycles is cycle i |
| Generation.Cycles | scenario/generators.go:27-43 | the first k cycles of a generator, pointwise |
| Generation.GenerateExec | scenario/generators.go:27-43 | generate keeps the globals, draws exactly length cycles, and cycle i is the sanitized call i of the streams |
| Generation.Message | scenario/generators.go:13 | the error text is "generator ", the name between two double quotes, and " not found" |
| Generation.Generate | scenario/generators.go:10-16 | success exactly for a registered name, with its generated execution; otherwise a not-found error naming it |
| Generation.Generators | scenario/generators.go:18-25 | the registered names, sorted, each once |
| ScenarioGen.Widen | cmd/scenario-gen/generators.go:46-55 | this copy's generator is the scenario generator with a constant-zero heap-target stream |
| ScenarioGen.CycleAt | cmd/scenario-gen/generators.go:32-38 | cycle i is sanitized and leaves the heap target at zero |
| ScenarioGen.AgreesWithScenario | cmd/scenario-gen/generators.go:29-44 | this copy emits exactly the cycles the scenario generator emits for the widened generator |
| ScenarioGen.GenerateExec | cmd/scenario-gen/generators.go:29-44 | generate keeps the globals, draws length cycles, cycle i is call i of the streams, heap target zero |
| ScenarioGen.Generate | cmd/scenario-gen/generators.go:12-18 | success exactly for a registered name; otherwise a not-found error naming it |
| ScenarioGen.Generators | cmd/scenario-gen/generators.go:20-27 | the registered names, sorted, each once |

## Left out

- `random` and `oscillate` streams: they draw from `math/rand` and compute `math.Sin`, which are not modelled. Generators that use them are outside the model.
- The concrete generator tables (`generators` in both generator files): they are data, several use `random`, and the registry is a parameter instead.
- The drivers (main.go, cmd/pacer-sim/main.go, cmd/scenario-gen/main.go, tools/gen-plots.py): JSON and CSV I/O, flags and plotting.
- IEEE rounding, NaN and infinities: arithmetic is exact on reals. Only the two harmless infinite cases named above are followed.
- uint64 wrap-around and int64 overflow: the subtractions that could wrap are excluded by `Defined`; byte counts are unbounded naturals.
- `delay(0)`, a ramp of length zero and `quantize(0)`: `Streams.Wellformed` excludes them. In Go the first indexes an empty buffer and panics, the second yields 0/0 (NaN) on the first call, and the third yields NaN or infinities.
- A negative delay size or generator length: Go's `make` panics; here they are naturals.
- `%q` escaping in the error texts: `Simulation.Message` and `Generation.Message` quote the name without escaping it.
- Streams shared between closures: Go can pass one closure to two combinators, which then advance it together. Here each stream is a tree of values with no sharing.
- Controllers other than PI: the Go 1.17 pacer takes any `controller.Controller`, and only the PI controller exists in the source, so it is the controller type here.
- The Go 1.16 overrun branches (simulation/go116.go:98-110 and 114-124): `Go116.NoOverrun` shows they cannot be taken in exact arithmetic, so `Go116.Pace` has no such branch.
- Streams.QuantizeTowardZero: stated about the factor of mult (v / mult truncated toward zero), not about |result| <= |v| directly.
- Generation.StackSize: the bound "at or below the draw" holds for exact reals. With floats, a draw just below a multiple of 2048 can round to it.
- Go116 first cycles with gamma below 15/8 (GOGC below 87.5), and those just above it where truncation has the same effect: simulation/go116.go:46 puts the goal below the trigger, and the runway `heapGoal - triggerPoint` at lines 79 and 99 wraps around. `Go116.Defined` excludes them; `Go116.LowGammaFirstCycle` proves the exclusion below 15/8.
- Go116.StepAsWritten: its contract only states that the ledger advances. Its other properties are those of `Go116.StepFrom`, which it calls with the carried-in goal basis.
- PIController.Repeat: only states that the configuration is kept; what the integral does is stated by `PIController.AntiWindupBounded` and `PIController.AntiWindupRising`.
- PIController.AntiWindupBounded and PIController.AntiWindupRising: both start from an output already saturated at max (from above the windup limit, or from below it). A start whose output is not yet saturated is not bounded over many calls: there the integral grows by Kp * period / Ti times the error per call until the output saturates, which `PIController.Update` states for one call.

## Findings

| source | as written | input that shows it | evidently intended | confidence | as-written member | corrected member |
|---|---|---|---|---|---|---|
| simulation/go116.go:163 | The next cycle's heap goal is computed from `s.liveBytesLast` before it is updated at line 194. That is the live heap carried into this cycle, not the heap that survived it. When the goal is not gamma-bound, the trigger-ratio cap `0.95 * (nextHeapGoal / heapSurvived - 1)` then goes negative whenever the surviving heap exceeds the stale goal. | gamma 2, 1 MiB live and none scannable, trigger ratio 1, no stacks, globals or target, growth rate 8. 8 MiB survive, the stale goal is the 4 MiB minimum, and the trigger ratio becomes -0.475. The next cycle's trigger is then below its live heap, and `triggerPoint - liveBytesLast` wraps around. | The next goal computed from the surviving heap. The clamp then never goes below 0.6 (gamma - 1). | medium, not executed | Go116.StepAsWritten, Go116.StaleGoalStep | Go116.Step, Go116.NextTriggerRatioFloor |
