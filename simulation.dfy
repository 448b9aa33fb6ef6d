/**
 * The rendezvous simulation loop (src/main.cpp:97-231) and its arrival verdict (:282-292).
 * The loop coasts the current state over the remaining time to find the guidance command,
 * saturates it by the thrust mode, propagates one thruster pulse under it, and records the
 * thrust at the pulse's start time and the new state at its end time, until no time is left.
 */
module Simulation {
  import opened Wrappers
  import opened Numerics
  import opened RelativeMotion
  import opened InputModel
  import opened InputCheck
  import opened Guidance
  import opened Astrodynamics
  import opened ThrustControl

  /** Everything the loop reads: the run's limits as derived from the input, and the orbit. */
  datatype Plan = Plan(
    startTime: real,
    endTime: real,
    initialState: seq<real>,
    mode: ThrustMode,
    accelerationMaximum: real,
    pulseTime: real,
    wetMass: real,
    meanMotion: real,
    routines: Routines,
    math: MathLib)

  /**
   * A plan the loop can run: a real orbit, pulses of positive length, a six-vector state and
   * library routines that keep the vector shapes.
   */
  ghost predicate Runnable(p: Plan)
  {
    p.meanMotion != 0.0 && 0.0 < p.pulseTime && |p.initialState| == 6 && WellShaped(p.routines)
  }

  /**
   * The plan of a validated input: acceleration limit = thrust maximum / wet mass and
   * pulse length = 1 / thrust frequency (src/main.cpp:98, :103).  The mean motion of the
   * target's orbit comes from a library outside the model and is passed in, and so do the
   * library routines.
   */
  function PlanOf(input: UserInput, meanMotion: real, lib: Routines, m: MathLib): (p: Plan)
    requires input.chaserWetMass != 0.0 && input.thrustFrequency != 0.0
    ensures p.accelerationMaximum * input.chaserWetMass == input.thrustMaximum
    ensures p.pulseTime * input.thrustFrequency == 1.0
    ensures p.startTime == input.startTime && p.endTime == input.endTime
    ensures p.initialState == input.chaserInitialState && p.mode == input.thrustMode
  {
    Plan(input.startTime, input.endTime, input.chaserInitialState, input.thrustMode,
         input.thrustMaximum / input.chaserWetMass, 1.0 / input.thrustFrequency,
         input.chaserWetMass, meanMotion, lib, m)
  }

  /**
   * Every input the validator accepts can be run, given a non-zero mass and mean motion.
   * The validator does not check the sign of the wet mass (src/userInput.cpp:150-158), so
   * the limit is non-negative only for a positive mass; a negative mass with a positive
   * maximum gives a negative limit, which leaves every command unlimited.
   */
  lemma ValidatedInputIsRunnable(c: Config, meanMotion: real, lib: Routines, m: MathLib)
    requires Readable(c) && Validate(c).Success? && WellShaped(lib)
    requires Validate(c).value.chaserWetMass != 0.0 && meanMotion != 0.0
    ensures Runnable(PlanOf(Validate(c).value, meanMotion, lib, m))
    ensures PlanOf(Validate(c).value, meanMotion, lib, m).accelerationMaximum * Validate(c).value.chaserWetMass >= 0.0
    ensures 0.0 < Validate(c).value.chaserWetMass ==>
              0.0 <= PlanOf(Validate(c).value, meanMotion, lib, m).accelerationMaximum
    ensures 0.0 < Validate(c).value.thrustMaximum && Validate(c).value.chaserWetMass < 0.0 ==>
              PlanOf(Validate(c).value, meanMotion, lib, m).accelerationMaximum < 0.0
  {
    var input := Validate(c).value;
    var p := PlanOf(input, meanMotion, lib, m);
    QuotientSign(input.thrustMaximum, input.chaserWetMass);
    assert 0.0 < input.thrustFrequency;
    assert 0.0 < p.pulseTime by {
      if p.pulseTime <= 0.0 {
        NonPositiveProduct(p.pulseTime, input.thrustFrequency);
      }
    }
  }

  /**
   * Any positive thrust maximum limits the loop, also one below epsilon that the validator
   * labels "UNCONSTRAINED" (src/userInput.cpp:129-132): the plan's limit is positive
   * (src/main.cpp:168), so throttle mode cuts every command above it back to exactly the limit.
   */
  lemma PositiveMaximumLimits(input: UserInput, meanMotion: real, lib: Routines, m: MathLib, cmd: seq<real>)
    requires 0.0 < input.thrustMaximum && 0.0 < input.chaserWetMass && input.thrustFrequency != 0.0
    requires Lawful(m) && Norm(cmd, m) > input.thrustMaximum / input.chaserWetMass
    ensures var maxAcc := PlanOf(input, meanMotion, lib, m).accelerationMaximum;
      && 0.0 < maxAcc
      && Saturation(Throttle, cmd, maxAcc, m).throttled
      && Norm(Saturation(Throttle, cmd, maxAcc, m).acceleration, m) == maxAcc
  {
    var maxAcc := PlanOf(input, meanMotion, lib, m).accelerationMaximum;
    SignOfProduct(maxAcc, input.chaserWetMass);
    ThrottleSaturates(cmd, maxAcc, m);
  }

  /** The sign of a quotient: non-negative over positive, positive over negative. */
  lemma QuotientSign(a: real, b: real)
    requires b != 0.0
    ensures 0.0 <= a && 0.0 < b ==> 0.0 <= a / b
    ensures 0.0 < a && b < 0.0 ==> a / b < 0.0
  {
  }

  lemma NonPositiveProduct(x: real, y: real)
    requires x <= 0.0 < y
    ensures x * y <= 0.0
  {
  }

  /** The number of passes the loop makes: the smallest k with span - k * pulse <= 0. */
  function PulseCount(span: real, pulse: real): nat
    requires 0.0 < pulse
  {
    if span <= 0.0 then 0
    else
      var q := span / pulse;
      var f := q.Floor;
      if f as real == q then f else f + 1
  }

  /** The loop still runs after k passes exactly when k is below the pulse count. */
  lemma PulseCountSpec(span: real, pulse: real, k: nat)
    requires 0.0 < pulse
    ensures k < PulseCount(span, pulse) <==> 0.0 < span - k as real * pulse
  {
    var kr := k as real;
    if span <= 0.0 {
      NonNegativeProduct(kr, pulse);
    } else {
      var q := span / pulse;
      assert span == q * pulse;
      assert span - kr * pulse == (q - kr) * pulse;
      SignOfProduct(q - kr, pulse);
      assert 0.0 < span - kr * pulse <==> kr < q;
      var f := q.Floor;
      assert f as real <= q < f as real + 1.0;
      if f as real == q {
        assert PulseCount(span, pulse) == f;
      } else {
        assert PulseCount(span, pulse) == f + 1;
        assert kr < q ==> k <= f;
      }
    }
  }

  lemma NonNegativeProduct(x: real, y: real)
    requires 0.0 <= x && 0.0 <= y
    ensures 0.0 <= x * y
  {
  }

  /** With a positive factor, a product has the sign of the other factor. */
  lemma SignOfProduct(x: real, y: real)
    requires 0.0 < y
    ensures 0.0 < x * y <==> 0.0 < x
  {
    if 0.0 < x {
      PositiveProduct(x, y);
    } else {
      NonPositiveProduct(x, y);
    }
  }

  /** The time of grid point `j`: the start time with `j` pulses added one after another. */
  function GridTime(start: real, pulse: real, j: nat): real
  {
    if j == 0 then start else GridTime(start, pulse, j - 1) + pulse
  }

  /** Adding `j` pulses adds `j` times the pulse. */
  lemma {:induction false} GridTimeClosed(start: real, pulse: real, j: nat)
    ensures GridTime(start, pulse, j) == start + j as real * pulse
    decreases j
  {
    if j > 0 {
      GridTimeClosed(start, pulse, j - 1);
      assert (j - 1) as real * pulse + pulse == j as real * pulse;
    }
  }

  /** The loop makes a `k+1`-th pass exactly when the `k`-th grid time is before the end time. */
  lemma PassesSpec(p: Plan, k: nat)
    requires Runnable(p)
    ensures k < Passes(p) <==> GridTime(p.startTime, p.pulseTime, k) < p.endTime
  {
    GridTimeClosed(p.startTime, p.pulseTime, k);
    PulseCountSpec(p.endTime - p.startTime, p.pulseTime, k);
  }

  /** The loop's variables between passes. */
  datatype Snapshot = Snapshot(time: real, timeToGo: real, state: seq<real>, throttled: bool)

  /** The number of passes the loop makes for a plan. */
  function Passes(p: Plan): nat
    requires Runnable(p)
  {
    PulseCount(p.endTime - p.startTime, p.pulseTime)
  }

  /** The loop's variables before the first pass (src/main.cpp:107-109, :129). */
  function Initial(p: Plan): Snapshot
  {
    Snapshot(p.startTime, p.endTime - p.startTime, p.initialState, false)
  }

  /** One pass of the loop body, from the variables before it to those after it. */
  function Next(p: Plan, s: Snapshot): Snapshot
    requires Runnable(p) && 0.0 < s.timeToGo && |s.state| == 6
  {
    var cmd := Control(p.mode, s.state, s.timeToGo, p.meanMotion, p.accelerationMaximum, p.routines, p.math);
    Snapshot(s.time + p.pulseTime, s.timeToGo - p.pulseTime,
             p.routines.propagate(s.state, p.pulseTime, p.meanMotion, cmd.acceleration),
             s.throttled || cmd.throttled)
  }

  /** The loop's variables after `k` passes. */
  function After(p: Plan, k: nat): (s: Snapshot)
    requires Runnable(p) && k <= Passes(p)
    ensures s.time == GridTime(p.startTime, p.pulseTime, k)
    ensures s.time + s.timeToGo == p.endTime
    ensures |s.state| == 6
  {
    if k == 0 then Initial(p)
    else
      var s := After(p, k - 1);
      PassesSpec(p, k - 1);
      Next(p, s)
  }

  /** The control step of pass `k`. */
  function ControlAt(p: Plan, k: nat): Command
    requires Runnable(p) && k < Passes(p)
  {
    var s := After(p, k);
    PassesSpec(p, k);
    Control(p.mode, s.state, s.timeToGo, p.meanMotion, p.accelerationMaximum, p.routines, p.math)
  }

  /** The first `k` grid times. */
  function Grid(start: real, pulse: real, k: nat): set<real>
  {
    if k == 0 then {} else Grid(start, pulse, k - 1) + {GridTime(start, pulse, k - 1)}
  }

  /** A time is in the grid exactly when it is one of the first `k` grid times. */
  lemma {:induction false} GridMembers(start: real, pulse: real, k: nat, t: real)
    ensures t in Grid(start, pulse, k) <==> exists j: nat :: j < k && t == GridTime(start, pulse, j)
    decreases k
  {
    if k > 0 {
      GridMembers(start, pulse, k - 1, t);
      var last := GridTime(start, pulse, k - 1);
      assert Grid(start, pulse, k) == Grid(start, pulse, k - 1) + {last};
      if t == last {
        var j: nat := k - 1;
        assert j < k && t == GridTime(start, pulse, j);
        assert t in Grid(start, pulse, k);
        assert exists i: nat :: i < k && t == GridTime(start, pulse, i);
      } else if t in Grid(start, pulse, k - 1) {
        var j: nat :| j < k - 1 && t == GridTime(start, pulse, j);
        assert j < k && t == GridTime(start, pulse, j);
      } else {
        forall j: nat | j < k ensures t != GridTime(start, pulse, j) {
          if j < k - 1 {
            assert !(j < k - 1 && t == GridTime(start, pulse, j));
          }
        }
      }
    }
  }

  /** For positive pulses the grid times increase strictly, so the first `k` of them are `k` times. */
  lemma {:induction false} GridSize(start: real, pulse: real, k: nat)
    requires 0.0 < pulse
    ensures forall t | t in Grid(start, pulse, k) :: t < GridTime(start, pulse, k)
    ensures |Grid(start, pulse, k)| == k
    decreases k
  {
    if k > 0 {
      GridSize(start, pulse, k - 1);
      var last := GridTime(start, pulse, k - 1);
      assert last < GridTime(start, pulse, k);
      assert last !in Grid(start, pulse, k - 1);
    }
  }

  /** The state history after `k` passes: the initial entry, then one entry per pass end. */
  function StateHistory(p: Plan, k: nat): map<real, seq<real>>
    requires Runnable(p) && k <= Passes(p)
  {
    if k == 0 then map[p.startTime := p.initialState]
    else StateHistory(p, k - 1)[After(p, k).time := After(p, k).state]
  }

  /** The thrust history after `k` passes: one entry per pass, at the pass's start time. */
  function ThrustHistory(p: Plan, k: nat): map<real, seq<real>>
    requires Runnable(p) && k <= Passes(p)
  {
    if k == 0 then map[]
    else ThrustHistory(p, k - 1)[After(p, k - 1).time := Thrust(ControlAt(p, k - 1).acceleration, p.wetMass)]
  }

  /** One more pass: the loop variables and both histories after it. */
  lemma Unfold(p: Plan, k: nat)
    requires Runnable(p) && k < Passes(p)
    ensures 0.0 < After(p, k).timeToGo
    ensures After(p, k + 1) == Next(p, After(p, k))
    ensures ControlAt(p, k) == Control(p.mode, After(p, k).state, After(p, k).timeToGo,
                                       p.meanMotion, p.accelerationMaximum, p.routines, p.math)
  {
    PassesSpec(p, k);
  }

  /**
   * The body of the loop (src/main.cpp:136-227): the control step, the pulse propagation and
   * the thrust to record, with the loop variables moved on by one pulse.
   */
  method Pass(p: Plan, ghost k: nat, time: real, timeToGo: real, state: seq<real>, isThrottleMax: bool)
    returns (time': real, timeToGo': real, state': seq<real>, isThrottleMax': bool, thrust: seq<real>)
    requires Runnable(p) && k < Passes(p)
    requires Snapshot(time, timeToGo, state, isThrottleMax) == After(p, k)
    ensures Snapshot(time', timeToGo', state', isThrottleMax') == After(p, k + 1)
    ensures thrust == Thrust(ControlAt(p, k).acceleration, p.wetMass)
  {
    Unfold(p, k);
    var acceleration, throttled :=
      ControlStep(p.mode, state, timeToGo, p.meanMotion, p.accelerationMaximum, p.routines, p.math);
    isThrottleMax' := isThrottleMax;
    if throttled {
      isThrottleMax' := true;
    }
    state' := p.routines.propagate(state, p.pulseTime, p.meanMotion, acceleration[..]);
    thrust := ThrustOf(acceleration, p.wetMass);
    time' := time + p.pulseTime;
    timeToGo' := timeToGo - p.pulseTime;
  }

  /**
   * The loop as the source runs it (src/main.cpp:107-231).  It returns the two histories, the
   * sticky throttle flag and the final loop variables.
   */
  method Simulate(p: Plan) returns (states: map<real, seq<real>>, thrusts: map<real, seq<real>>,
                                   isThrottleMax: bool, currentTime: real, timeToGo: real,
                                   currentState: seq<real>)
    requires Runnable(p)
    ensures states == StateHistory(p, Passes(p)) && thrusts == ThrustHistory(p, Passes(p))
    ensures Snapshot(currentTime, timeToGo, currentState, isThrottleMax) == After(p, Passes(p))
  {
    currentTime := p.startTime;
    currentState := p.initialState;
    timeToGo := p.endTime - p.startTime;
    states := map[currentTime := currentState];
    thrusts := map[];
    isThrottleMax := false;
    ghost var k: nat := 0;
    PassesSpec(p, 0);
    while 0.0 < timeToGo
      invariant k <= Passes(p)
      invariant Snapshot(currentTime, timeToGo, currentState, isThrottleMax) == After(p, k)
      invariant states == StateHistory(p, k) && thrusts == ThrustHistory(p, k)
      invariant 0.0 < timeToGo <==> k < Passes(p)
      decreases Passes(p) - k
    {
      var thrust;
      var startOfPulse := currentTime;
      currentTime, timeToGo, currentState, isThrottleMax, thrust :=
        Pass(p, k, currentTime, timeToGo, currentState, isThrottleMax);
      thrusts := thrusts[startOfPulse := thrust];
      states := states[currentTime := currentState];
      k := k + 1;
      PassesSpec(p, k);
    }
  }

  /** Grid times increase strictly with the number of pulses. */
  lemma {:induction false} GridTimeIncreasing(start: real, pulse: real, i: nat, j: nat)
    requires 0.0 < pulse && i < j
    ensures GridTime(start, pulse, i) < GridTime(start, pulse, j)
    decreases j
  {
    if i < j - 1 {
      GridTimeIncreasing(start, pulse, i, j - 1);
    }
  }

  /** After `k` passes the state history holds exactly the `k + 1` grid times up to the current time. */
  lemma {:induction false} StateHistoryKeys(p: Plan, k: nat)
    requires Runnable(p) && k <= Passes(p)
    ensures StateHistory(p, k).Keys == Grid(p.startTime, p.pulseTime, k + 1)
    decreases k
  {
    if k > 0 {
      StateHistoryKeys(p, k - 1);
    }
  }

  /** After `k` passes the thrust history holds exactly the first `k` grid times. */
  lemma {:induction false} ThrustHistoryKeys(p: Plan, k: nat)
    requires Runnable(p) && k <= Passes(p)
    ensures ThrustHistory(p, k).Keys == Grid(p.startTime, p.pulseTime, k)
    decreases k
  {
    if k > 0 {
      ThrustHistoryKeys(p, k - 1);
    }
  }

  /** The histories have `k + 1` and `k` entries: the thrust history one fewer than the state history. */
  lemma HistorySizes(p: Plan, k: nat)
    requires Runnable(p) && k <= Passes(p)
    ensures |StateHistory(p, k)| == k + 1 && |ThrustHistory(p, k)| == k
  {
    StateHistoryKeys(p, k);
    ThrustHistoryKeys(p, k);
    GridSize(p.startTime, p.pulseTime, k + 1);
    GridSize(p.startTime, p.pulseTime, k);
    assert |StateHistory(p, k).Keys| == |StateHistory(p, k)|;
    assert |ThrustHistory(p, k).Keys| == |ThrustHistory(p, k)|;
  }

  /** Each grid time up to the current one maps, in the state history, to the state after that many passes. */
  lemma {:induction false} StateHistoryValue(p: Plan, k: nat, j: nat)
    requires Runnable(p) && j <= k <= Passes(p)
    ensures GridTime(p.startTime, p.pulseTime, j) in StateHistory(p, k)
    ensures StateHistory(p, k)[GridTime(p.startTime, p.pulseTime, j)] == After(p, j).state
    decreases k
  {
    if j < k {
      StateHistoryValue(p, k - 1, j);
      GridTimeIncreasing(p.startTime, p.pulseTime, j, k);
    }
  }

  /** Each pass's start time maps, in the thrust history, to the thrust that pass commanded. */
  lemma {:induction false} ThrustHistoryValue(p: Plan, k: nat, j: nat)
    requires Runnable(p) && j < k <= Passes(p)
    ensures GridTime(p.startTime, p.pulseTime, j) in ThrustHistory(p, k)
    ensures ThrustHistory(p, k)[GridTime(p.startTime, p.pulseTime, j)]
            == Thrust(ControlAt(p, j).acceleration, p.wetMass)
    decreases k
  {
    var start := After(p, k - 1).time;
    assert ThrustHistory(p, k)
        == ThrustHistory(p, k - 1)[start := Thrust(ControlAt(p, k - 1).acceleration, p.wetMass)];
    if j < k - 1 {
      ThrustHistoryValue(p, k - 1, j);
      GridTimeIncreasing(p.startTime, p.pulseTime, j, k - 1);
      assert start != GridTime(p.startTime, p.pulseTime, j);
    }
  }

  /**
   * The entry with the latest time in the state history, the one the verdict reads, is the
   * state the loop ended with.
   */
  lemma LatestStateIsFinal(p: Plan, k: nat)
    requires Runnable(p) && k <= Passes(p)
    ensures After(p, k).time in StateHistory(p, k)
    ensures forall t | t in StateHistory(p, k) :: t <= After(p, k).time
    ensures StateHistory(p, k)[After(p, k).time] == After(p, k).state
  {
    StateHistoryKeys(p, k);
    StateHistoryValue(p, k, k);
    GridSize(p.startTime, p.pulseTime, k + 1);
    forall t | t in StateHistory(p, k) ensures t <= After(p, k).time {
      GridMembers(p.startTime, p.pulseTime, k + 1, t);
      var j: nat :| j < k + 1 && t == GridTime(p.startTime, p.pulseTime, j);
      if j < k {
        GridTimeIncreasing(p.startTime, p.pulseTime, j, k);
      }
    }
  }

  /** In off mode every recorded thrust is zero. */
  lemma {:induction false} OffModeRecordsNoThrust(p: Plan, k: nat)
    requires Runnable(p) && k <= Passes(p) && p.mode == Off
    ensures forall t | t in ThrustHistory(p, k) :: ThrustHistory(p, k)[t] == Zero(3)
    decreases k
  {
    if k > 0 {
      OffModeRecordsNoThrust(p, k - 1);
      Unfold(p, k - 1);
      ThrustOfZero(3, p.wetMass);
    }
  }

  /** One pass raises the flag exactly when its control step was cut back, and never lowers it. */
  lemma ThrottleFlagStep(p: Plan, k: nat)
    requires Runnable(p) && 0 < k <= Passes(p)
    ensures After(p, k).throttled == (After(p, k - 1).throttled || ControlAt(p, k - 1).throttled)
  {
    Unfold(p, k - 1);
  }

  /** Once a pass is cut back, the flag stays raised for the rest of the run. */
  lemma {:induction false} ThrottleFlagSticks(p: Plan, j: nat, k: nat)
    requires Runnable(p) && j < k <= Passes(p) && ControlAt(p, j).throttled
    ensures After(p, k).throttled
    decreases k
  {
    ThrottleFlagStep(p, k);
    if j < k - 1 {
      ThrottleFlagSticks(p, j, k - 1);
    }
  }

  /** A raised flag has a cause: some earlier pass that was cut back. */
  lemma {:induction false} ThrottleFlagHasCause(p: Plan, k: nat)
    requires Runnable(p) && k <= Passes(p) && After(p, k).throttled
    ensures exists j: nat :: j < k && ControlAt(p, j).throttled
    decreases k
  {
    ThrottleFlagStep(p, k);
    if ControlAt(p, k - 1).throttled {
      var j: nat := k - 1;
      assert j < k && ControlAt(p, j).throttled;
    } else {
      ThrottleFlagHasCause(p, k - 1);
    }
  }

  /**
   * The throttle flag is set after `k` passes exactly when some pass so far was cut back to
   * the limit; it is never reset.
   */
  lemma ThrottleFlagRecordsAnyCut(p: Plan, k: nat)
    requires Runnable(p) && k <= Passes(p)
    ensures After(p, k).throttled <==> exists j: nat :: j < k && ControlAt(p, j).throttled
  {
    if After(p, k).throttled {
      ThrottleFlagHasCause(p, k);
    } else {
      forall j: nat | j < k && ControlAt(p, j).throttled ensures After(p, k).throttled {
        ThrottleFlagSticks(p, j, k);
      }
    }
  }

  /** Only throttle mode with a positive limit ever raises the flag. */
  lemma ThrottleFlagNeedsThrottleMode(p: Plan, k: nat)
    requires Runnable(p) && k < Passes(p) && ControlAt(p, k).throttled
    ensures p.mode == Throttle && 0.0 < p.accelerationMaximum
  {
    Unfold(p, k);
  }

  /**
   * The loop ends with no time left, and (if it ran at all) less than one pulse past the end
   * time; it runs not at all exactly when the end time is not after the start time.
   */
  lemma LoopExit(p: Plan)
    requires Runnable(p)
    ensures var s := After(p, Passes(p));
      && s.timeToGo <= 0.0
      && s.time + s.timeToGo == p.endTime
      && (0 < Passes(p) ==> -p.pulseTime < s.timeToGo)
      && (Passes(p) == 0 <==> p.endTime <= p.startTime)
  {
    PassesSpec(p, Passes(p));
    PassesSpec(p, 0);
    if 0 < Passes(p) {
      Unfold(p, Passes(p) - 1);
    }
  }

  /** A chaser starting at rest on the target never thrusts and never moves. */
  lemma {:induction false} RestStaysAtRest(p: Plan, k: nat)
    requires Runnable(p) && Lawful(p.math) && Faithful(p.routines, p.math)
    requires k <= Passes(p) && p.initialState == Zero(6)
    ensures After(p, k).state == Zero(6)
    ensures k < Passes(p) ==> ControlAt(p, k).acceleration == Zero(3)
    decreases k
  {
    if k > 0 {
      RestStaysAtRest(p, k - 1);
      Unfold(p, k - 1);
      PassesSpec(p, k - 1);
      ControlAtRest(p.mode, After(p, k - 1).timeToGo, p.meanMotion, p.accelerationMaximum, p.routines, p.math);
      RestIsFixedPoint(p.pulseTime, p.meanMotion, p.math);
    }
    if k < Passes(p) {
      Unfold(p, k);
      ControlAtRest(p.mode, After(p, k).timeToGo, p.meanMotion, p.accelerationMaximum, p.routines, p.math);
    }
  }

  /**
   * An illustration of `PulseCountSpec`: a hundred seconds at one pulse per second take a
   * hundred passes.
   */
  lemma HundredSecondsAtOneHertz()
    ensures PulseCount(100.0, 1.0) == 100
  {
  }

  /**
   * The arrival verdict of src/main.cpp:282-292: the run reached the target unless the norm
   * of the final six-vector (positions and velocities together) exceeds the tolerance.
   */
  function Arrived(finalState: seq<real>, tolerance: real, m: MathLib): bool
  {
    !(Norm(finalState, m) > tolerance)
  }

  /** A chaser at rest on the target has arrived exactly when the tolerance is not negative. */
  lemma ArrivedAtTarget(tolerance: real, m: MathLib)
    requires Lawful(m)
    ensures Arrived(Zero(6), tolerance, m) <==> 0.0 <= tolerance
  {
    NormOfZero(m, 6);
  }

  /** A chaser further from the target than the tolerance has not arrived. */
  lemma FarFromTargetNotArrived(finalState: seq<real>, tolerance: real, m: MathLib)
    requires Lawful(m) && 0.0 <= tolerance && tolerance * tolerance < SumSquares(finalState)
    ensures !Arrived(finalState, tolerance, m)
  {
    NormSquared(m, finalState);
    var n := Norm(finalState, m);
    if n <= tolerance {
      SquareMonotone(n, tolerance);
    }
  }

  lemma SquareMonotone(a: real, b: real)
    requires 0.0 <= a <= b
    ensures a * a <= b * b
  {
    if a < b {
      SquareIncreasing(a, b);
    }
  }

  /** What a run of the program leaves behind: the two histories, the throttle flag and the verdict. */
  datatype Report = Report(
    stateHistory: map<real, seq<real>>,
    thrustHistory: map<real, seq<real>>,
    throttled: bool,
    finalState: seq<real>,
    reached: bool)

  /**
   * The whole run of src/main.cpp:88-292 from the parsed configuration: the validation
   * failure, or the report of the simulation of the validated input.
   */
  function Outcome(c: Config, meanMotion: real, lib: Routines, m: MathLib): Result<Report, InputError>
    requires Readable(c) && meanMotion != 0.0 && WellShaped(lib)
    requires Validate(c).Success? ==> Validate(c).value.chaserWetMass != 0.0
  {
    match Validate(c)
    case Failure(e) => Failure(e)
    case Success(input) =>
      ValidatedInputIsRunnable(c, meanMotion, lib, m);
      var p := PlanOf(input, meanMotion, lib, m);
      var last := After(p, Passes(p));
      Success(Report(StateHistory(p, Passes(p)), ThrustHistory(p, Passes(p)), last.throttled,
                     last.state, Arrived(last.state, input.arrivalDistanceTolerance, m)))
  }

  /**
   * A run fails exactly when validation fails, with the validator's reason.  A completed run
   * judges arrival by the state stored under the latest time of the state history, which is
   * the entry the source reads back with `rbegin`.
   */
  lemma OutcomeSpec(c: Config, meanMotion: real, lib: Routines, m: MathLib)
    requires Readable(c) && meanMotion != 0.0 && WellShaped(lib)
    requires Validate(c).Success? ==> Validate(c).value.chaserWetMass != 0.0
    ensures Outcome(c, meanMotion, lib, m).Failure? <==> Validate(c).Failure?
    ensures Outcome(c, meanMotion, lib, m).Failure? ==> Outcome(c, meanMotion, lib, m).error == Validate(c).error
    ensures Outcome(c, meanMotion, lib, m).Success? ==>
      var report := Outcome(c, meanMotion, lib, m).value;
      exists t :: t in report.stateHistory
        && (forall u | u in report.stateHistory :: u <= t)
        && report.finalState == report.stateHistory[t]
        && report.reached == Arrived(report.stateHistory[t], Validate(c).value.arrivalDistanceTolerance, m)
  {
    if Validate(c).Success? {
      ValidatedInputIsRunnable(c, meanMotion, lib, m);
      var p := PlanOf(Validate(c).value, meanMotion, lib, m);
      LatestStateIsFinal(p, Passes(p));
      var t := After(p, Passes(p)).time;
      assert t in StateHistory(p, Passes(p));
    }
  }

  /**
   * The program's run from the parsed configuration: validation, the plan, the loop and the
   * arrival verdict on the state it ended with.
   */
  method Run(c: Config, meanMotion: real, lib: Routines, m: MathLib) returns (r: Result<Report, InputError>)
    requires Readable(c) && meanMotion != 0.0 && WellShaped(lib)
    requires Validate(c).Success? ==> Validate(c).value.chaserWetMass != 0.0
    ensures r == Outcome(c, meanMotion, lib, m)
  {
    var checked := CheckInput(c);
    if checked.Failure? {
      return Failure(checked.error);
    }
    var input := checked.value;
    ValidatedInputIsRunnable(c, meanMotion, lib, m);
    var p := PlanOf(input, meanMotion, lib, m);
    var states, thrusts, isThrottleMax, currentTime, timeToGo, finalState := Simulate(p);
    var reached := Arrived(finalState, input.arrivalDistanceTolerance, m);
    r := Success(Report(states, thrusts, isThrottleMax, finalState, reached));
  }
}
