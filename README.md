# rvdsim in Dafny

rvdsim simulates a rendezvous: a chaser spacecraft steers toward a target on a circular orbit.
The model covers five parts of it:

- **Configuration.** The configuration file is read, and every line whose first non-blank
  characters are `//` is dropped (`ConfigText`). The ten required options are looked up and
  validated; validation throws at the first missing option or bad thrust setting
  (`InputCheck`). The result is the `UserInput` record (`InputModel`).
- **Dynamics.** The project's closed-form Clohessy-Wiltshire solution and the unperturbed Hill
  equations (`RelativeMotion`).
- **Guidance.** The zero-effort-miss / zero-effort-velocity guidance law (`Guidance`).
- **Saturation.** The thrust policies *off*, *throttle* and *on-off* (`ThrustControl`).
- **The loop.** The fixed-pulse simulation loop (`Simulation`). Each pass propagates the state
  over the remaining time without thrust, commands the guidance acceleration, saturates it, and
  propagates over one pulse. It then records the state and thrust histories, keyed by time.
  After the loop, the final distance is compared with the arrival tolerance.

`src/main.cpp` drives the simulation through `checkInput` and the `ThrustMode` enum.
`src/rvdsim.cpp` is the older single-file program. It does the same loop with string-compared
modes and its own thrust-settings layout (`LegacyRvdsim`). Both programs share one loop model,
`Simulation.Simulate`, specified by the functions `After`, `StateHistory` and `ThrustHistory`.
Each program builds the `Plan` the loop runs: `PlanOf` for `main.cpp`, `LegacyPlan` for
`rvdsim.cpp`. The legacy mode dispatch is proved equal to the enum dispatch.

What the model takes as parameters:

- **Math library.** `<cmath>` `sin`, `cos` and `sqrt`, and `sml::norm`, are a value `MathLib`.
  The only facts used about it are in `Numerics.Lawful`:
  - sin 0 = 0 and cos 0 = 1;
  - `sqrt` is the non-negative square root;
  - the norm is the square root of the sum of squares.
- **Library routines.** `main.cpp` calls two library routines:
  `astro::propagateClohessyWiltshireSolution` and `control::computeOptimalGuidanceLaw`.
  They are a value `Astrodynamics.Routines`.
  - The loop needs only `WellShaped`: states keep their length and commands have three components.
  - Results about the actual motion assume `Faithful`: the routines compute what the project's
    own `relativeMotion.hpp` copy and the inline law of `src/rvdsim.cpp:338-339` compute.
  - `Astrodynamics.Local` shows that both assumptions can hold at once.
- **Mean motion.** The target's mean motion (`astro::computeKeplerMeanMotion`) is a parameter
  and must be non-zero.
- **Arithmetic.** Numbers are exact reals.

Three behaviours of the code are easy to misread; the model follows the code in each.

- In `relativeMotion.hpp:81-83`, the y velocity is `-n*y0*sin(n*dt)`. It has no `ydot0*cos(n*dt)`
  term. So propagating over zero time resets the y velocity to 0; `PropagateOverZeroTime` states
  this outright.
- In `relativeMotion.hpp:72-79`, the x velocity has `2*zdot0*sin(n*dt)` with no factor `n`. This is
  what differentiating the code's own x position gives.
- The arrival verdict (`main.cpp:282-284`) takes the norm of the whole six-component final state,
  positions and velocities together.

## Model

| member | source | states |
|---|---|---|
| Numerics.SumSquaresNonNegative | src/main.cpp:170-171 | a sum of squares, hence the norm's radicand, is never negative |
| Numerics.SumSquaresOfScale | src/main.cpp:178-183 | scaling a vector by `c` scales its sum of squares by `c*c` |
| Numerics.SumSquaresOfMultiple | src/main.cpp:178-183 | a vector whose components are each `c` times another's has `c*c` times its sum of squares (proved by induction) |
| Numerics.SumSquaresOfZero | src/main.cpp:116-119 | the zero vector's sum of squares is 0 |
| Numerics.SqrtOfSquare | src/main.cpp:283 | the library square root of `a*a`, for `a >= 0`, is `a` |
| Numerics.NormOfZero | src/main.cpp:170-171 | the zero vector has norm 0 |
| Numerics.NormSquared | src/main.cpp:170-171 | the norm is non-negative and its square is the sum of squares |
| Numerics.NormOfSquare | src/main.cpp:170-171 | a vector whose sum of squares is `a*a`, `a >= 0`, has norm `a` |
| Numerics.SumSquaresOfRescaled | src/main.cpp:178-183 | scaling a non-zero vector by `max/norm` makes its sum of squares `max*max` |
| Numerics.NormOfRescaled | src/main.cpp:178-183 | scaling a non-zero vector by `max/norm` gives it norm exactly `max` |
| ConfigText.FirstNonBlank | src/main.cpp:66 | the result is the index of the first character that is neither space nor tab (the length if none): all before it are blank, the one at it is not |
| ConfigText.Trimmed | src/main.cpp:66-70 | the line from its first non-blank character on, or the whole line if it is blank throughout; its properties are `TrimmedIsSuffix` and `TrimmedIdempotent` |
| ConfigText.Emit | src/main.cpp:72-75 | a comment line contributes nothing; any other line contributes its trimmed form and a newline |
| ConfigText.Filtered | src/main.cpp:64-76 | the buffer for a list of lines: the lines' contributions in order (`FilteredAppend`, `CommentLineDropped`) |
| ConfigText.FilterComments | src/main.cpp:64-76 | the buffer the line loop builds equals `Filtered(lines)`: each non-comment line, left-trimmed, followed by a newline |
| ConfigText.TrimmedIsSuffix | src/main.cpp:66-70 | trimming removes a prefix only; a trimmed line still starting with a blank was entirely blank and is kept unchanged |
| ConfigText.TrimmedIdempotent | src/main.cpp:66-70 | trimming twice is trimming once |
| ConfigText.FilteredSnoc | src/main.cpp:64-76 | reading one more line appends exactly that line's contribution to the buffer |
| ConfigText.FilteredAppend | src/main.cpp:64-76 | filtering is a homomorphism: the buffer of two files concatenated is the concatenation of their buffers |
| ConfigText.CommentLineDropped | src/main.cpp:72 | a line whose trimmed form starts with `//` contributes nothing anywhere in the file |
| ConfigText.NewlinesAppend | src/main.cpp:74 | newline counts add over concatenation |
| ConfigText.OneBufferLinePerKeptLine | src/main.cpp:64-76 | for lines without newlines, the buffer has one newline per kept (non-comment) line |
| InputModel.ThrustMode.Ordinal | include/rvdsim/userInput.hpp:29-34 | the enum numbers off, throttle and on-off as 0, 1 and 2, one to one |
| InputModel.ModeOfOrdinal | include/rvdsim/userInput.hpp:29-34 | exactly 0, 1 and 2 name a mode, and the mode named has that number |
| InputModel.OrdinalRoundTrip | include/rvdsim/userInput.hpp:29-34 | every mode is recovered from its number |
| InputCheck.ParseThrustMode | src/userInput.cpp:96-120 | a recognised string is the name of the mode returned; an unrecognised string is the name of no mode |
| InputCheck.ModeNameRoundTrip | src/userInput.cpp:96-120 | every mode's name parses back to that mode |
| InputCheck.FirstMissing | src/userInput.cpp:15-214 | none missing iff every key is present; otherwise the index of the first absent key, all before it present |
| InputCheck.Validate | src/userInput.cpp:15-233 | an accepted input has a non-negative thrust maximum, a frequency of at least machine epsilon (2^-52), and a six-component initial state |
| InputCheck.ReadableWhenComplete | src/userInput.cpp:29-214 | a configuration with every option present and accepted thrust settings has every option of the shape its read expects |
| InputCheck.InitialStateOf | src/userInput.cpp:73-77 | the state is six components, component `k` being the `k`-th number of the JSON array |
| InputCheck.ReadInitialState | src/userInput.cpp:64-77 | the copy loop yields `InitialStateOf` the array |
| InputCheck.ReadThrustSettings | src/userInput.cpp:96-145 | fails exactly when the settings are rejected, with the first applicable error (unknown mode, negative maximum, frequency below epsilon); otherwise returns the parsed mode, maximum and frequency |
| InputCheck.ThrustSettingsError | src/userInput.cpp:96-145 | the first failing range check of the settings: unknown mode, then negative maximum, then frequency below epsilon (`ThrustSettingsErrorsReported`) |
| InputCheck.CheckInput | src/userInput.cpp:15-233 | the imperative validator returns exactly `Validate(c)`: the first missing option or thrust-settings error, or the assembled `UserInput` |
| InputCheck.FindOption | src/userInput.cpp:18-27 | the lookup fails iff the option is absent, and then `Validate` fails with that option's name; otherwise it yields the option's value, of the expected shape |
| InputCheck.ThrustSettingsFound | src/userInput.cpp:96-145 | once the thrust settings are reached, either they are accepted and checking goes on, or `Validate` fails with their error |
| InputCheck.CompleteConfigAccepted | src/userInput.cpp:220-232 | a configuration that passes every check is accepted with the input built from its values |
| InputCheck.InputOf | src/userInput.cpp:220-232 | the `UserInput` built from the options' values, field by field (`ValidatedFieldsAreRead`) |
| InputCheck.ValidateSucceedsIff | src/userInput.cpp:15-233 | validation succeeds iff all ten required options are present and the thrust settings are accepted |
| InputCheck.MissingOptionReported | src/userInput.cpp:18-214 | the first missing option, in the order the source reads them, is the one reported |
| InputCheck.MissingLaterOptionReported | src/userInput.cpp:149-214 | an option missing after the thrust settings is reported when everything before it is present and accepted |
| InputCheck.ThrustSettingsErrorsReported | src/userInput.cpp:96-145 | an unknown mode, a negative maximum, and a frequency below epsilon are each reported with the offending value, in that order of precedence |
| InputCheck.ValidatedFieldsAreRead | src/userInput.cpp:29-232 | every field of an accepted input is the value of its option in the configuration |
| InputCheck.UnconstrainedMaximumAccepted | src/userInput.cpp:129-132 | a maximum in `[0, epsilon)` is accepted and stored as given; the source labels it UNCONSTRAINED, yet only a maximum `<= 0` leaves commands unlimited (`Simulation.PositiveMaximumLimits`) |
| InputCheck.OnOffWithoutMaximumAccepted | src/userInput.cpp:109-136 | on-off mode with a zero maximum is accepted, although the mode only acts with a maximum |
| RelativeMotion.Propagate | include/Rvdsim/relativeMotion.hpp:20-92 | the result has the input's length, and any components past the six are copied unchanged |
| RelativeMotion.VelocityIgnoresAcceleration | include/Rvdsim/relativeMotion.hpp:72-89 | the three propagated velocities do not depend on the acceleration |
| RelativeMotion.OutOfPlaneDependsOnlyOnY | include/Rvdsim/relativeMotion.hpp:47-54 | the y position depends only on `y0`, `ydot0` and `a_y`, and the y velocity only on `y0` |
| RelativeMotion.YVelocityIgnoresYVelocity | include/Rvdsim/relativeMotion.hpp:81-83 | the propagated y velocity does not depend on the initial y velocity |
| RelativeMotion.InPlaneIgnoresY | include/Rvdsim/relativeMotion.hpp:27-45 | x, z, their velocities, and the x/z accelerations decide the propagated x, z and their velocities; y plays no part |
| RelativeMotion.PropagateOverZeroTime | include/Rvdsim/relativeMotion.hpp:27-89 | over zero time, x, y, z, x velocity and z velocity are unchanged, while the y velocity becomes 0 |
| RelativeMotion.RestIsFixedPoint | include/Rvdsim/relativeMotion.hpp:27-89 | a chaser at rest on the target without thrust stays there |
| RelativeMotion.HillDerivative | include/Rvdsim/relativeMotion.hpp:96-112 | the derivative has the state's length; components past the six are copied |
| RelativeMotion.HillPositionRates | include/Rvdsim/relativeMotion.hpp:100-102 | the position derivatives are the current velocities |
| RelativeMotion.HillOutOfPlane | include/Rvdsim/relativeMotion.hpp:101-106 | the y channels of the derivative use only the y components |
| RelativeMotion.HillLinear | include/Rvdsim/relativeMotion.hpp:96-112 | the Hill derivative is linear: it maps `c*u + d*v` to `c*H(u) + d*H(v)` |
| RelativeMotion.HillLinearAt | include/Rvdsim/relativeMotion.hpp:100-109 | linearity holds component by component |
| RelativeMotion.HillRateXYLinear | include/Rvdsim/relativeMotion.hpp:103-106 | the x and y velocity derivatives are linear in the state |
| RelativeMotion.HillRateZLinear | include/Rvdsim/relativeMotion.hpp:107-109 | the z velocity derivative `3n^2 z - 2n xdot` is linear in the state |
| RelativeMotion.HillOfZero | include/Rvdsim/relativeMotion.hpp:96-112 | the zero state is an equilibrium of the Hill equations |
| Guidance.ZeroEffortMiss | src/rvdsim.cpp:325-327 | the negated position of the coasting end state |
| Guidance.ZeroEffortVelocity | src/rvdsim.cpp:329-334 | the negated velocity of the coasting end state |
| Guidance.GuidanceLaw | src/rvdsim.cpp:336-340 | the command `6/T^2 * zem[i] - 2/T * zev[i]` per axis (`GuidanceVanishesWithoutError`) |
| Guidance.FillGuidance | src/rvdsim.cpp:336-340 | the guidance loop writes `6/T^2 * zem[i] - 2/T * zev[i]` into each of the three components |
| Guidance.GuidanceVanishesWithoutError | src/rvdsim.cpp:336-340 | no miss and no velocity error command no acceleration |
| Astrodynamics.Local | include/Rvdsim/relativeMotion.hpp:20-92 | the routines built from the project's own propagator and guidance formula are well shaped and faithful, so those assumptions are consistent |
| ThrustControl.RescaledIsScale | src/main.cpp:178-183 | rescaling each component by `max/norm` is scaling the vector by that factor |
| ThrustControl.RescaleToMaximum | src/main.cpp:178-183 | the in-place loop leaves the array equal to the rescaled old contents |
| ThrustControl.Saturation | src/main.cpp:167-201 | the saturation policy of each mode, with its throttle flag (`ThrottleSaturates`, `OnOffIsBangBang`, `UnconstrainedIsUnchanged`) |
| ThrustControl.Saturate | src/main.cpp:167-201 | the in-place saturation yields exactly the command and flag `Saturation` specifies |
| ThrustControl.ThrottleSaturates | src/main.cpp:173-184 | with a positive limit, throttling cuts a command back along its own direction iff it exceeds the limit, to norm exactly the limit; it raises the flag iff it cut, and never leaves a command above the limit |
| ThrustControl.OnOffIsBangBang | src/main.cpp:185-199 | with a positive limit, on-off gives the full limit along the command's direction above half the limit and zero otherwise, never raising the flag |
| ThrustControl.UnconstrainedIsUnchanged | src/main.cpp:168 | without a positive limit, every mode passes the command through and raises no flag |
| ThrustControl.SaturationIdempotent | src/main.cpp:167-201 | saturating an already saturated command changes nothing |
| ThrustControl.ThrottleIdempotent | src/main.cpp:173-184 | a throttled command is left alone by a second throttle |
| ThrustControl.OnOffIdempotent | src/main.cpp:185-199 | an on-off command is left alone by a second on-off step |
| ThrustControl.Control | src/main.cpp:136-202 | the command of one pass: zero in off mode, otherwise the saturated guidance toward the coasting end state (`ControlShape`, `ControlAtRest`) |
| ThrustControl.ControlStep | src/main.cpp:136-202 | the control part of one pass (coast propagation, ZEM/ZEV, guidance, saturation) yields exactly `Control` |
| ThrustControl.ControlShape | src/main.cpp:146-165 | every command has three components; off mode commands zero and raises no flag |
| ThrustControl.ControlAtRest | src/main.cpp:136-202 | a chaser at rest on the target is commanded no thrust in any mode |
| ThrustControl.Thrust | src/main.cpp:212-216 | acceleration times wet mass, per component (`ThrustRecoversAcceleration`) |
| ThrustControl.ThrustOf | src/main.cpp:212-216 | the recorded thrust is each acceleration component times the wet mass |
| ThrustControl.ThrustRecoversAcceleration | src/main.cpp:212-216 | dividing the recorded thrust by the non-zero mass recovers the acceleration |
| ThrustControl.ThrustOfZero | src/main.cpp:212-216 | zero acceleration records zero thrust |
| Simulation.PlanOf | src/main.cpp:98-113 | the plan's acceleration maximum times the wet mass is the thrust maximum, its pulse times the frequency is 1, and the times, initial state and mode are the input's |
| Simulation.ValidatedInputIsRunnable | src/main.cpp:83-113 | a validated input with a non-zero mass yields a runnable plan whose limit times the wet mass is non-negative; the limit itself is non-negative for a positive mass, and negative for a negative mass with a positive maximum, since the validator accepts any mass (`src/userInput.cpp:150-158`) |
| Simulation.PositiveMaximumLimits | src/main.cpp:98-184 | any positive thrust maximum, including one below epsilon that the validator labels UNCONSTRAINED, gives the loop a positive limit, and throttle mode cuts every larger command to exactly that limit |
| Simulation.PulseCountSpec | src/main.cpp:134 | a pass `k` happens iff time still remains after `k` pulses: the count is the ceiling of span over pulse |
| Simulation.GridTimeClosed | src/main.cpp:224 | the time after `j` pulses is `start + j*pulse` |
| Simulation.PassesSpec | src/main.cpp:134-231 | pass `k` is executed iff its start time lies before the end time |
| Simulation.After | src/main.cpp:107-109 | after `k` passes the clock is at `start + k*pulse`, clock plus time to go is the end time, and the state has six components |
| Simulation.GridMembers | src/main.cpp:218-230 | the first `k` pulse times are exactly the grid's members |
| Simulation.GridSize | src/main.cpp:218-230 | the first `k` pulse times are distinct, all before the `k`-th, so the grid has `k` members |
| Simulation.Next | src/main.cpp:136-230 | one pass on the loop variables: clock and time to go moved by one pulse, state propagated under the pass's command, flag or-ed with its cut (`Unfold`, `ThrottleFlagStep`) |
| Simulation.StateHistory | src/main.cpp:124-230 | the state map after `k` passes: the initial entry plus one entry per pass end (`StateHistoryKeys`, `StateHistoryValue`) |
| Simulation.ThrustHistory | src/main.cpp:127-218 | the thrust map after `k` passes: one entry per pass start (`ThrustHistoryKeys`, `ThrustHistoryValue`) |
| Simulation.Unfold | src/main.cpp:134-231 | pass `k` runs with time to go left, applies the control of `Control`, and moves the snapshot by one `Next` step |
| Simulation.Pass | src/main.cpp:136-230 | one loop body moves the snapshot from `After(k)` to `After(k+1)` and records the thrust of pass `k` |
| Simulation.Simulate | src/main.cpp:107-231 | the loop ends with the histories `StateHistory`/`ThrustHistory` of all passes and the snapshot after the last |
| Simulation.GridTimeIncreasing | src/main.cpp:224 | later passes start strictly later |
| Simulation.StateHistoryKeys | src/main.cpp:124-230 | the state history holds exactly the start time and the end of every pass |
| Simulation.ThrustHistoryKeys | src/main.cpp:218 | the thrust history holds exactly the start of every pass |
| Simulation.HistorySizes | src/main.cpp:124-230 | after `k` passes there are `k+1` recorded states and `k` recorded thrusts; no time key collides |
| Simulation.StateHistoryValue | src/main.cpp:221-230 | each recorded state is the state after that many passes |
| Simulation.ThrustHistoryValue | src/main.cpp:211-218 | each recorded thrust is the command of the pass starting at that time, times the wet mass |
| Simulation.LatestStateIsFinal | src/main.cpp:282 | the latest key of the state history is the current time, and its value the current state |
| Simulation.OffModeRecordsNoThrust | src/main.cpp:146-149 | in off mode every recorded thrust is zero |
| Simulation.ThrottleFlagStep | src/main.cpp:176 | the flag after a pass is the flag before or that pass's cut |
| Simulation.ThrottleFlagSticks | src/main.cpp:129-176 | once raised, the throttle flag stays raised |
| Simulation.ThrottleFlagHasCause | src/main.cpp:129-176 | a raised flag was raised by some earlier pass |
| Simulation.ThrottleFlagRecordsAnyCut | src/main.cpp:129-176 | the flag is raised iff some pass so far cut the command |
| Simulation.ThrottleFlagNeedsThrottleMode | src/main.cpp:168-176 | only throttle mode with a positive limit ever cuts |
| Simulation.LoopExit | src/main.cpp:134-227 | the loop leaves with no time to go, overshooting by less than one pulse, and makes no pass iff the end does not lie after the start |
| Simulation.RestStaysAtRest | src/main.cpp:134-231 | a chaser starting at rest on the target stays there and is never commanded thrust |
| Simulation.HundredSecondsAtOneHertz | src/main.cpp:103-134 | an illustration only, one worked value of `PulseCountSpec`: a 100 s run at 1 Hz makes 100 passes |
| Simulation.Arrived | src/main.cpp:282-292 | the verdict: the norm of the final state does not exceed the tolerance (`ArrivedAtTarget`, `FarFromTargetNotArrived`) |
| Simulation.ArrivedAtTarget | src/main.cpp:282-292 | a chaser at rest on the target has arrived iff the tolerance is non-negative |
| Simulation.FarFromTargetNotArrived | src/main.cpp:283-287 | a final state whose sum of squares exceeds the squared tolerance has not arrived |
| Simulation.Outcome | src/main.cpp:83-292 | the run: the validation error, or the histories, flag, final state and verdict of the loop on the input's plan (`OutcomeSpec`) |
| Simulation.OutcomeSpec | src/main.cpp:83-292 | the run fails iff validation fails, with the same error; otherwise the final state is the latest entry of the state history and the verdict compares its norm with the tolerance |
| Simulation.Run | src/main.cpp:83-292 | the program's run is `Outcome`: validation, plan, loop, verdict |
| LegacyRvdsim.ReadLegacySettings | src/rvdsim.cpp:159-186 | the legacy reader fails iff the mode string is not one of the three, with that string; otherwise it returns the maximum, mode and frequency as found, unchecked |
| LegacyRvdsim.LegacyModeCheckAgrees | src/rvdsim.cpp:164-182 | the legacy program accepts exactly the mode strings the validator accepts |
| LegacyRvdsim.SettingsLayoutsDiffer | src/rvdsim.cpp:159-184 | an illustration only, not a property of the loop: no settings array reads correctly under both layouts (legacy: maximum, mode, frequency; validator: mode, maximum, frequency); this follows from the type of element 0 alone |
| LegacyRvdsim.LegacySkipsRangeChecks | src/rvdsim.cpp:159-184 | for every accepted mode string, the legacy reader takes any maximum and frequency as given, while the validator rejects the same values in its layout when the maximum is negative or the frequency is below epsilon |
| LegacyRvdsim.LegacyRoutinesShaped | src/rvdsim.cpp:311-339 | the library propagator with the inline guidance law is well shaped |
| LegacyRvdsim.LegacySaturation | src/rvdsim.cpp:342-375 | the saturation dispatched on the mode string (`LegacySaturationAgrees`) |
| LegacyRvdsim.LegacyControl | src/rvdsim.cpp:309-376 | the legacy command of one pass: zero for "off", otherwise the inline guidance saturated by the mode string (`LegacyControlAgrees`) |
| LegacyRvdsim.LegacyControlStep | src/rvdsim.cpp:309-376 | the in-place control step, using the guidance loop `FillGuidance` and the rescaling loop, yields exactly `LegacyControl`; `SimulateLegacy` runs the shared `Simulate` and does not call this method, the two are linked through `LegacyControl` (`LegacyControlAgrees`, `LegacyPassesAgree`) |
| LegacyRvdsim.LegacySaturationAgrees | src/rvdsim.cpp:342-375 | the string-compared saturation equals the enum saturation of the parsed mode |
| LegacyRvdsim.LegacyControlAgrees | src/rvdsim.cpp:309-377 | the legacy control step equals the shared `Control` with the parsed mode and the inline guidance |
| LegacyRvdsim.LegacyPlan | src/rvdsim.cpp:271-283 | the legacy plan's limit times the mass is the thrust maximum, and its pulse times the frequency is 1 |
| LegacyRvdsim.LegacyPlanRunnable | src/rvdsim.cpp:276-307 | the legacy plan is runnable iff the frequency is positive |
| LegacyRvdsim.NoPositivePulseNeverEnds | src/rvdsim.cpp:399-402 | with a non-positive pulse and an end after the start, the clock never reaches the end: the loop never stops |
| LegacyRvdsim.LegacyPassesAgree | src/rvdsim.cpp:307-406 | every pass of the legacy loop applies the legacy control step |
| LegacyRvdsim.SimulateLegacy | src/rvdsim.cpp:280-459 | the legacy run reports the histories, flag, final state and verdict of the shared loop on the legacy plan |

## Left out

- File and console I/O: reading the input file, writing the CSV histories and the messages.
  The line filter works on a list of lines; the histories are returned as maps.
- JSON parsing: the parsed document is a map from option name to a JSON value.
- Calls into rapidjson on a value of the wrong type (`GetDouble` on a string, indexing past an
  array's end): their behaviour is rapidjson's, so `InputCheck.Readable` requires each value read
  to have the type and length its read expects. It asks this only of options the source actually
  reaches.
- Floating point: the numbers are exact reals. This leaves out rounding, the accumulated drift of
  the clock, and time keys that collide after rounding. Machine epsilon is the exact 2^-52.
- `std::sin`/`std::cos`/`std::sqrt`/`sml::norm`: abstract, tied down only by `Lawful`.
- `astro::propagateClohessyWiltshireSolution`, `control::computeOptimalGuidanceLaw`,
  `astro::computeKeplerMeanMotion`: library code that is not part of this model. They are
  parameters (see above).
- Simulation.PlanOf: requires a non-zero wet mass. The source divides by it, and a zero mass gives
  IEEE infinities, which the model does not have.
- Simulation.Outcome: takes its final state from the loop's current state, where the source reads
  the map's last entry. `OutcomeSpec` and `LatestStateIsFinal` prove the two equal.
- LegacyRvdsim.SimulateLegacy: requires a positive frequency. With a negative frequency and an end
  after the start the legacy loop never ends (`NoPositivePulseNeverEnds`), and a non-terminating
  loop is not modelled. With a negative frequency and an end no later than the start, the time to
  go (`src/rvdsim.cpp:283`) is not positive, the loop (`src/rvdsim.cpp:307`) makes no pass and the
  program goes on to the verdict; the requires excludes this terminating case too. A zero
  frequency divides by zero.
- LegacyRvdsim.SimulateLegacy: requires a non-zero mass, as `LegacyPlan` does. The legacy program
  divides by `chaser_mass` without checking it (`src/rvdsim.cpp:271`), and a zero mass gives IEEE
  infinities, which the model does not have.
- The legacy program's lookups of the other options (`src/rvdsim.cpp:80-262`) are not modelled
  separately. They are the validator's lookups, without the thrust-settings checks and with the key
  `chaser_mass` for the wet mass. The legacy thrust-settings read is modelled.
- Both programs' messages, including "Maximum thrust level reached, thruster throttled!"
  (`src/main.cpp:233-236`). The flag it depends on is modelled.
