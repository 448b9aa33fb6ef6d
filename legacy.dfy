/**
 * The earlier driver src/rvdsim.cpp.  It runs the same loop as src/main.cpp, with three
 * differences: it reads the thrust settings as [maximum, mode, frequency] and checks only the
 * mode string; it dispatches on the mode string inside the loop; and it computes the guidance
 * command with the formula written out at src/rvdsim.cpp:336-340.
 */
module LegacyRvdsim {
  import opened Wrappers
  import opened Numerics
  import opened InputModel
  import opened InputCheck
  import opened Guidance
  import opened Astrodynamics
  import opened ThrustControl
  import opened Simulation

  /** The mass option of this driver; the validator asks for `chaser_wet_mass` instead. */
  const ChaserMass: string := "chaser_mass"

  /** The thrust settings as this driver holds them, with the mode kept as a string. */
  datatype LegacySettings = LegacySettings(maximum: real, mode: string, frequency: real)

  /** The three mode strings this driver accepts, in the order it compares them. */
  predicate LegacyModeAccepted(mode: string)
  {
    mode == "throttle" || mode == "on_off" || mode == "off"
  }

  /**
   * The thrust settings hold the maximum at [0] and the mode string at [1], and the frequency
   * at [2] as far as the driver gets to read it.
   */
  predicate LegacySettingsReadable(j: Json)
  {
    j.Array? && 2 <= |j.items| && j.items[0].Number? && j.items[1].Text?
    && (LegacyModeAccepted(j.items[1].str) ==> NumberAt(j, 2))
  }

  /**
   * The reading of src/rvdsim.cpp:159-184: the maximum, then the mode string, which must be
   * one of the three spellings, then the frequency.  No value is range-checked.
   */
  function ReadLegacySettings(j: Json): (r: Result<LegacySettings, InputError>)
    requires LegacySettingsReadable(j)
    ensures r.Failure? <==> !LegacyModeAccepted(j.items[1].str)
    ensures r.Failure? ==> r.error == InvalidThrustMode(j.items[1].str)
    ensures r.Success? ==> r.value.maximum == j.items[0].num && r.value.mode == j.items[1].str
                           && r.value.frequency == j.items[2].num
  {
    var maximum := j.items[0].num;
    var mode := j.items[1].str;
    if mode == "throttle" || mode == "on_off" || mode == "off" then
      Success(LegacySettings(maximum, mode, j.items[2].num))
    else
      Failure(InvalidThrustMode(mode))
  }

  /** This driver accepts exactly the mode strings the validator maps to a mode. */
  lemma LegacyModeCheckAgrees(mode: string)
    ensures LegacyModeAccepted(mode) <==> ParseThrustMode(mode).Some?
  {
  }

  /**
   * An illustration: the two layouts of the thrust settings exclude each other. A settings
   * array the validator can read ([mode, maximum, frequency]) is one this driver cannot, and
   * the other way round.
   */
  lemma SettingsLayoutsDiffer(j: Json)
    ensures !(ThrustSettingsReadable(j) && LegacySettingsReadable(j))
  {
  }

  /**
   * Unlike the validator, this driver range-checks nothing: whatever the maximum and the
   * frequency, an accepted mode reads them as given, while the validator refuses the same values
   * in its own layout when the maximum is negative or the frequency is below epsilon.
   */
  lemma LegacySkipsRangeChecks(mode: string, maximum: real, frequency: real)
    requires LegacyModeAccepted(mode)
    ensures ReadLegacySettings(Array([Number(maximum), Text(mode), Number(frequency)]))
              == Success(LegacySettings(maximum, mode, frequency))
    ensures var j := Array([Text(mode), Number(maximum), Number(frequency)]);
      && ThrustSettingsReadable(j)
      && (maximum < 0.0 ==> ThrustSettingsError(j) == Some(NegativeThrustMaximum(maximum)))
      && (0.0 <= maximum && frequency < Epsilon ==>
            ThrustSettingsError(j) == Some(NonPositiveThrustFrequency(frequency)))
  {
    LegacyModeCheckAgrees(mode);
  }

  /**
   * The saturation of src/rvdsim.cpp:342-375, dispatched on the mode string: with a positive
   * limit, "throttle" caps the norm and "on_off" switches between nothing and the full limit.
   */
  function LegacySaturation(mode: string, cmd: seq<real>, maxAcc: real, m: MathLib): Command
  {
    if 0.0 < maxAcc then
      var norm := Norm(cmd, m);
      if mode == "throttle" && norm > maxAcc then Command(Rescaled(cmd, maxAcc, norm), true)
      else if mode == "on_off" then
        if norm > maxAcc / 2.0 then Command(Rescaled(cmd, maxAcc, norm), false)
        else Command(Zero(|cmd|), false)
      else Command(cmd, false)
    else Command(cmd, false)
  }

  /**
   * The control step of src/rvdsim.cpp:309-376: nothing in mode "off"; otherwise the
   * guidance formula toward the coasting end state, saturated by the mode string.
   */
  function LegacyControl(mode: string, state: seq<real>, timeToGo: real, n: real, maxAcc: real,
                         propagate: (seq<real>, real, real, seq<real>) -> seq<real>, m: MathLib): Command
    requires 6 <= |state| && 6 <= |propagate(state, timeToGo, n, Zero(3))| && timeToGo != 0.0
  {
    if mode == "off" then Command(Zero(3), false)
    else
      var end := propagate(state, timeToGo, n, Zero(3));
      LegacySaturation(mode, GuidanceLaw(ZeroEffortMiss(end), ZeroEffortVelocity(end), timeToGo), maxAcc, m)
  }

  /**
   * The control step as src/rvdsim.cpp:309-376 runs it: a fresh acceleration vector, zero in
   * mode "off", otherwise filled by the guidance loop and saturated in place by the mode string.
   */
  method LegacyControlStep(mode: string, state: seq<real>, timeToGo: real, n: real, maxAcc: real,
                           propagate: (seq<real>, real, real, seq<real>) -> seq<real>, m: MathLib)
    returns (acceleration: array<real>, throttled: bool)
    requires 6 <= |state| && 6 <= |propagate(state, timeToGo, n, Zero(3))| && timeToGo != 0.0
    ensures fresh(acceleration)
    ensures Command(acceleration[..], throttled) == LegacyControl(mode, state, timeToGo, n, maxAcc, propagate, m)
  {
    acceleration := new real[3];
    throttled := false;
    if mode == "off" {
      acceleration[0], acceleration[1], acceleration[2] := 0.0, 0.0, 0.0;
      assert acceleration[..] == Zero(3);
    } else {
      var coastEnd := propagate(state, timeToGo, n, Zero(3));
      FillGuidance(acceleration, ZeroEffortMiss(coastEnd), ZeroEffortVelocity(coastEnd), timeToGo);
      if 0.0 < maxAcc {
        var norm := Norm(acceleration[..], m);
        if mode == "throttle" && norm > maxAcc {
          throttled := true;
          RescaleToMaximum(acceleration, maxAcc, norm);
        } else if mode == "on_off" {
          if norm > maxAcc / 2.0 {
            RescaleToMaximum(acceleration, maxAcc, norm);
          } else {
            acceleration[0], acceleration[1], acceleration[2] := 0.0, 0.0, 0.0;
            assert acceleration[..] == Zero(3);
          }
        }
      }
    }
  }

  /** The routines this driver runs: the given propagator and its own guidance formula. */
  function LegacyRoutines(propagate: (seq<real>, real, real, seq<real>) -> seq<real>): Routines
  {
    Routines(propagate, LocalGuidance())
  }

  /** A propagator that keeps the length of the state makes the driver's routines well shaped. */
  lemma LegacyRoutinesShaped(propagate: (seq<real>, real, real, seq<real>) -> seq<real>)
    requires forall s, dt, n, a :: |propagate(s, dt, n, a)| == |s|
    ensures WellShaped(LegacyRoutines(propagate))
  {
    var lib := LegacyRoutines(propagate);
    forall zem, zev, t ensures |lib.guidance(zem, zev, t)| == 3 {
      if |zem| == 3 && |zev| == 3 && t != 0.0 {
        assert lib.guidance(zem, zev, t) == GuidanceLaw(zem, zev, t);
      } else {
        assert lib.guidance(zem, zev, t) == Zero(3);
      }
    }
  }

  /** For an accepted mode string, the string dispatch saturates as the enum dispatch does. */
  lemma LegacySaturationAgrees(mode: string, cmd: seq<real>, maxAcc: real, m: MathLib)
    requires LegacyModeAccepted(mode)
    ensures LegacySaturation(mode, cmd, maxAcc, m) == Saturation(ParseThrustMode(mode).value, cmd, maxAcc, m)
  {
  }

  /**
   * For an accepted mode string, this driver's control step is the one src/main.cpp computes,
   * run with this driver's routines and the mode the validator maps the string to.
   */
  lemma LegacyControlAgrees(mode: string, state: seq<real>, timeToGo: real, n: real, maxAcc: real,
                            propagate: (seq<real>, real, real, seq<real>) -> seq<real>, m: MathLib)
    requires LegacyModeAccepted(mode) && 6 <= |state| && timeToGo != 0.0
    requires forall s, dt, n, a :: |propagate(s, dt, n, a)| == |s|
    ensures (LegacyRoutinesShaped(propagate);
      LegacyControl(mode, state, timeToGo, n, maxAcc, propagate, m)
        == Control(ParseThrustMode(mode).value, state, timeToGo, n, maxAcc, LegacyRoutines(propagate), m))
  {
    LegacyRoutinesShaped(propagate);
    if mode != "off" {
      var end := propagate(state, timeToGo, n, Zero(3));
      var zem, zev := ZeroEffortMiss(end), ZeroEffortVelocity(end);
      assert LegacyRoutines(propagate).guidance(zem, zev, timeToGo) == GuidanceLaw(zem, zev, timeToGo);
      LegacySaturationAgrees(mode, GuidanceLaw(zem, zev, timeToGo), maxAcc, m);
    }
  }

  /**
   * The loop's plan in this driver: acceleration limit = thrust maximum / mass
   * (src/rvdsim.cpp:271) and pulse length = 1 / frequency (:276), neither of them checked.
   */
  function LegacyPlan(settings: LegacySettings, startTime: real, endTime: real,
                      initialState: seq<real>, mass: real, meanMotion: real,
                      propagate: (seq<real>, real, real, seq<real>) -> seq<real>, m: MathLib): (p: Plan)
    requires LegacyModeAccepted(settings.mode) && mass != 0.0 && settings.frequency != 0.0
    ensures p.accelerationMaximum * mass == settings.maximum
    ensures p.pulseTime * settings.frequency == 1.0
    ensures p.mode == ParseThrustMode(settings.mode).value && p.routines == LegacyRoutines(propagate)
  {
    Plan(startTime, endTime, initialState, ParseThrustMode(settings.mode).value,
         settings.maximum / mass, 1.0 / settings.frequency, mass, meanMotion,
         LegacyRoutines(propagate), m)
  }

  /** The driver's plan can be run exactly when the frequency is positive (for a six-vector and a real orbit). */
  lemma LegacyPlanRunnable(settings: LegacySettings, startTime: real, endTime: real,
                           initialState: seq<real>, mass: real, meanMotion: real,
                           propagate: (seq<real>, real, real, seq<real>) -> seq<real>, m: MathLib)
    requires LegacyModeAccepted(settings.mode) && mass != 0.0 && settings.frequency != 0.0
    requires |initialState| == 6 && meanMotion != 0.0
    requires forall s, dt, n, a :: |propagate(s, dt, n, a)| == |s|
    ensures Runnable(LegacyPlan(settings, startTime, endTime, initialState, mass, meanMotion, propagate, m))
            <==> 0.0 < settings.frequency
  {
    LegacyRoutinesShaped(propagate);
    var p := LegacyPlan(settings, startTime, endTime, initialState, mass, meanMotion, propagate, m);
    if 0.0 < settings.frequency {
      if p.pulseTime <= 0.0 {
        NonPositiveProduct(p.pulseTime, settings.frequency);
      }
    } else if 0.0 < p.pulseTime {
      NonPositiveProduct(settings.frequency, p.pulseTime);
    }
  }

  /**
   * With a pulse that is not positive (a negative frequency in this driver), no grid time
   * ever reaches a later end time: the loop's guard `timeToGo > 0` stays true for ever.
   */
  lemma {:induction false} NoPositivePulseNeverEnds(start: real, end: real, pulse: real, k: nat)
    requires pulse <= 0.0 && start < end
    ensures GridTime(start, pulse, k) < end
    decreases k
  {
    if k > 0 {
      NoPositivePulseNeverEnds(start, end, pulse, k - 1);
    }
  }

  /** Every pass of the loop on the driver's plan makes the control step the driver's code makes. */
  lemma LegacyPassesAgree(settings: LegacySettings, startTime: real, endTime: real,
                          initialState: seq<real>, mass: real, meanMotion: real,
                          propagate: (seq<real>, real, real, seq<real>) -> seq<real>, m: MathLib, k: nat)
    requires LegacyModeAccepted(settings.mode) && mass != 0.0 && 0.0 < settings.frequency
    requires |initialState| == 6 && meanMotion != 0.0
    requires forall s, dt, n, a :: |propagate(s, dt, n, a)| == |s|
    ensures var p := LegacyPlan(settings, startTime, endTime, initialState, mass, meanMotion, propagate, m);
      (LegacyPlanRunnable(settings, startTime, endTime, initialState, mass, meanMotion, propagate, m);
       k < Passes(p) ==>
         (Unfold(p, k);
          ControlAt(p, k) == LegacyControl(settings.mode, After(p, k).state, After(p, k).timeToGo,
                                           meanMotion, p.accelerationMaximum, propagate, m)))
  {
    var p := LegacyPlan(settings, startTime, endTime, initialState, mass, meanMotion, propagate, m);
    LegacyPlanRunnable(settings, startTime, endTime, initialState, mass, meanMotion, propagate, m);
    if k < Passes(p) {
      Unfold(p, k);
      LegacyControlAgrees(settings.mode, After(p, k).state, After(p, k).timeToGo, meanMotion,
                          p.accelerationMaximum, propagate, m);
    }
  }

  /**
   * The simulation of src/rvdsim.cpp:293-406 for settings already read: the loop of
   * src/main.cpp on the driver's plan, with the arrival verdict on the state it ends with.
   */
  method SimulateLegacy(settings: LegacySettings, startTime: real, endTime: real,
                        initialState: seq<real>, mass: real, tolerance: real, meanMotion: real,
                        propagate: (seq<real>, real, real, seq<real>) -> seq<real>, m: MathLib)
    returns (report: Report)
    requires LegacyModeAccepted(settings.mode) && mass != 0.0 && 0.0 < settings.frequency
    requires |initialState| == 6 && meanMotion != 0.0
    requires forall s, dt, n, a :: |propagate(s, dt, n, a)| == |s|
    ensures var p := LegacyPlan(settings, startTime, endTime, initialState, mass, meanMotion, propagate, m);
      (LegacyPlanRunnable(settings, startTime, endTime, initialState, mass, meanMotion, propagate, m);
       var last := After(p, Passes(p));
       report == Report(StateHistory(p, Passes(p)), ThrustHistory(p, Passes(p)), last.throttled,
                        last.state, Arrived(last.state, tolerance, m)))
  {
    LegacyPlanRunnable(settings, startTime, endTime, initialState, mass, meanMotion, propagate, m);
    var p := LegacyPlan(settings, startTime, endTime, initialState, mass, meanMotion, propagate, m);
    var states, thrusts, isThrottleMax, currentTime, timeToGo, finalState := Simulate(p);
    report := Report(states, thrusts, isThrottleMax, finalState, Arrived(finalState, tolerance, m));
  }
}
