/**
 * One control step of the simulation loop: the guidance command toward the coasting end state
 * and the thrust-mode saturation policy applied to it (src/main.cpp:136-202,
 * src/rvdsim.cpp:316-375), and the thrust recorded for it (src/main.cpp:211-216).
 */
module ThrustControl {
  import opened Numerics
  import opened InputModel
  import opened RelativeMotion
  import opened Guidance
  import opened Astrodynamics

  /** The acceleration applied over one pulse, and whether the throttle limit cut it back. */
  datatype Command = Command(acceleration: seq<real>, throttled: bool)

  /** The command pointed the same way with magnitude `max`, computed as the source does. */
  function Rescaled(v: seq<real>, max: real, norm: real): seq<real>
    requires norm != 0.0
  {
    seq(|v|, i requires 0 <= i < |v| => max * v[i] / norm)
  }

  /** Rescaling is scaling by the positive factor max / norm. */
  lemma RescaledIsScale(v: seq<real>, max: real, norm: real)
    requires norm != 0.0
    ensures Rescaled(v, max, norm) == Scale(v, max / norm)
  {
    forall i | 0 <= i < |v| ensures Rescaled(v, max, norm)[i] == Scale(v, max / norm)[i] {
      assert max * v[i] / norm == (max / norm) * v[i];
    }
  }

  /** The rescaling loops of src/main.cpp:178-183 and :189-194, in place. */
  method RescaleToMaximum(a: array<real>, max: real, norm: real)
    requires norm != 0.0
    modifies a
    ensures a[..] == Rescaled(old(a[..]), max, norm)
  {
    for i := 0 to a.Length
      invariant forall k | 0 <= k < i :: a[k] == max * old(a[k]) / norm
      invariant forall k | i <= k < a.Length :: a[k] == old(a[k])
    {
      a[i] := max * a[i] / norm;
    }
    assert forall k | 0 <= k < a.Length :: a[..][k] == Rescaled(old(a[..]), max, norm)[k];
  }

  /**
   * The saturation policy for a command `cmd` and the acceleration limit `maxAcc`.  With no
   * positive limit the command passes unchanged.  Otherwise throttle caps the norm at the limit,
   * and on-off applies either nothing or the full limit, whichever is nearer.
   */
  function Saturation(mode: ThrustMode, cmd: seq<real>, maxAcc: real, m: MathLib): Command
  {
    if 0.0 < maxAcc then
      var norm := Norm(cmd, m);
      if mode == Throttle && norm > maxAcc then Command(Rescaled(cmd, maxAcc, norm), true)
      else if mode == OnOff then
        if norm > maxAcc / 2.0 then Command(Rescaled(cmd, maxAcc, norm), false)
        else Command(Zero(|cmd|), false)
      else Command(cmd, false)
    else Command(cmd, false)
  }

  /**
   * The saturation step as the source runs it, changing the command in place and reporting
   * whether the throttle limit was hit.
   */
  method Saturate(mode: ThrustMode, a: array<real>, maxAcc: real, m: MathLib) returns (throttled: bool)
    modifies a
    ensures Command(a[..], throttled) == Saturation(mode, old(a[..]), maxAcc, m)
  {
    throttled := false;
    if 0.0 < maxAcc {
      var norm := Norm(a[..], m);
      if mode == Throttle && norm > maxAcc {
        throttled := true;
        RescaleToMaximum(a, maxAcc, norm);
      } else if mode == OnOff {
        if norm > maxAcc / 2.0 {
          RescaleToMaximum(a, maxAcc, norm);
        } else {
          for i := 0 to a.Length
            invariant forall k | 0 <= k < i :: a[k] == 0.0
          {
            a[i] := 0.0;
          }
          assert a[..] == Zero(a.Length);
        }
      }
    }
  }

  /**
   * Throttle mode with a limit: the command is cut back, along its own direction, to norm
   * exactly the limit when it exceeds it and is left alone otherwise; the result never exceeds
   * the limit, and the flag is raised exactly when the cut happened.
   */
  lemma ThrottleSaturates(cmd: seq<real>, maxAcc: real, m: MathLib)
    requires Lawful(m) && 0.0 < maxAcc
    ensures var r, norm := Saturation(Throttle, cmd, maxAcc, m), Norm(cmd, m);
      && (r.throttled <==> norm > maxAcc)
      && (r.throttled ==> r.acceleration == Scale(cmd, maxAcc / norm) && 0.0 < maxAcc / norm < 1.0)
      && (!r.throttled ==> r.acceleration == cmd)
      && (r.throttled ==> Norm(r.acceleration, m) == maxAcc)
      && Norm(r.acceleration, m) <= maxAcc
  {
    var norm := Norm(cmd, m);
    assert 0.0 <= norm by { SumSquaresNonNegative(cmd); }
    if norm > maxAcc {
      RescaledIsScale(cmd, maxAcc, norm);
      NormOfRescaled(m, cmd, maxAcc);
      QuotientBelowOne(maxAcc, norm);
    }
  }

  /**
   * On-off mode with a limit: the result is either no thrust at all or the full limit along
   * the command's direction, with the switch at half the limit; it never raises the flag.
   */
  lemma OnOffIsBangBang(cmd: seq<real>, maxAcc: real, m: MathLib)
    requires Lawful(m) && 0.0 < maxAcc
    ensures var r, norm := Saturation(OnOff, cmd, maxAcc, m), Norm(cmd, m);
      && !r.throttled
      && (norm > maxAcc / 2.0 ==>
            r.acceleration == Scale(cmd, maxAcc / norm) && 0.0 < maxAcc / norm
            && Norm(r.acceleration, m) == maxAcc)
      && (norm <= maxAcc / 2.0 ==> r.acceleration == Zero(|cmd|))
      && (Norm(r.acceleration, m) == 0.0 || Norm(r.acceleration, m) == maxAcc)
  {
    var norm := Norm(cmd, m);
    if norm > maxAcc / 2.0 {
      RescaledIsScale(cmd, maxAcc, norm);
      NormOfRescaled(m, cmd, maxAcc);
    } else {
      NormOfZero(m, |cmd|);
    }
  }

  /** Without a positive limit, throttle and on-off both pass the command through unchanged. */
  lemma UnconstrainedIsUnchanged(mode: ThrustMode, cmd: seq<real>, maxAcc: real, m: MathLib)
    requires maxAcc <= 0.0
    ensures Saturation(mode, cmd, maxAcc, m) == Command(cmd, false)
  {
  }

  /** Saturating an already saturated command changes nothing. */
  lemma SaturationIdempotent(mode: ThrustMode, cmd: seq<real>, maxAcc: real, m: MathLib)
    requires Lawful(m)
    ensures var once := Saturation(mode, cmd, maxAcc, m).acceleration;
      Saturation(mode, once, maxAcc, m).acceleration == once
  {
    if 0.0 < maxAcc {
      if mode == Throttle {
        ThrottleIdempotent(cmd, maxAcc, m);
      } else if mode == OnOff {
        OnOffIdempotent(cmd, maxAcc, m);
      }
    }
  }

  lemma ThrottleIdempotent(cmd: seq<real>, maxAcc: real, m: MathLib)
    requires Lawful(m) && 0.0 < maxAcc
    ensures var once := Saturation(Throttle, cmd, maxAcc, m).acceleration;
      Saturation(Throttle, once, maxAcc, m).acceleration == once
  {
    var once := Saturation(Throttle, cmd, maxAcc, m).acceleration;
    ThrottleSaturates(cmd, maxAcc, m);
    ThrottleSaturates(once, maxAcc, m);
  }

  lemma OnOffIdempotent(cmd: seq<real>, maxAcc: real, m: MathLib)
    requires Lawful(m) && 0.0 < maxAcc
    ensures var once := Saturation(OnOff, cmd, maxAcc, m).acceleration;
      Saturation(OnOff, once, maxAcc, m).acceleration == once
  {
    var once := Saturation(OnOff, cmd, maxAcc, m).acceleration;
    OnOffIsBangBang(cmd, maxAcc, m);
    if Norm(cmd, m) > maxAcc / 2.0 {
      assert Norm(once, m) == maxAcc;
      assert Saturation(OnOff, once, maxAcc, m).acceleration == Rescaled(once, maxAcc, maxAcc);
      RescaledIsScale(once, maxAcc, maxAcc);
      DividedBySelf(maxAcc);
      ScaleByOne(once);
    } else {
      assert once == Zero(|cmd|);
      NormOfZero(m, |cmd|);
      assert Saturation(OnOff, once, maxAcc, m).acceleration == Zero(|once|);
    }
  }

  /** A positive number divided by a larger one is below one. */
  lemma QuotientBelowOne(a: real, b: real)
    requires 0.0 < a < b
    ensures a / b < 1.0
  {
    var q := a / b;
    assert q * b == a;
    assert 1.0 * b == b;
    CancelPositive(q, 1.0, b);
  }

  /** Multiplication by a positive number preserves strict order, so it can be cancelled. */
  lemma CancelPositive(x: real, y: real, b: real)
    requires 0.0 < b && x * b < y * b
    ensures x < y
  {
  }

  lemma DividedBySelf(x: real)
    requires x != 0.0
    ensures x / x == 1.0
  {
  }

  /** Scaling by one is the identity. */
  lemma ScaleByOne(v: seq<real>)
    ensures Scale(v, 1.0) == v
  {
  }

  /**
   * The control step: in off mode no thrust at all; otherwise the guidance command toward the
   * zero-thrust end state over the remaining time, saturated by the policy of the mode.
   */
  function Control(mode: ThrustMode, state: seq<real>, timeToGo: real, n: real, maxAcc: real,
                   lib: Routines, m: MathLib): Command
    requires 6 <= |state| && WellShaped(lib)
  {
    if mode == Off then Command(Zero(3), false)
    else
      var end := lib.propagate(state, timeToGo, n, Zero(3));
      Saturation(mode, lib.guidance(ZeroEffortMiss(end), ZeroEffortVelocity(end), timeToGo), maxAcc, m)
  }

  /**
   * The control step as the loop body runs it (src/main.cpp:136-202): a fresh acceleration
   * vector, zero in off mode, otherwise the guidance command saturated in place.
   */
  method ControlStep(mode: ThrustMode, state: seq<real>, timeToGo: real, n: real, maxAcc: real,
                     lib: Routines, m: MathLib)
    returns (acceleration: array<real>, throttled: bool)
    requires 6 <= |state| && WellShaped(lib)
    ensures fresh(acceleration)
    ensures Command(acceleration[..], throttled) == Control(mode, state, timeToGo, n, maxAcc, lib, m)
  {
    acceleration := new real[3];
    if mode == Off {
      acceleration[0], acceleration[1], acceleration[2] := 0.0, 0.0, 0.0;
      assert acceleration[..] == Zero(3);
      throttled := false;
    } else {
      var coastEnd := lib.propagate(state, timeToGo, n, Zero(3));
      var command := lib.guidance(ZeroEffortMiss(coastEnd), ZeroEffortVelocity(coastEnd), timeToGo);
      acceleration[0], acceleration[1], acceleration[2] := command[0], command[1], command[2];
      assert acceleration[..] == command;
      throttled := Saturate(mode, acceleration, maxAcc, m);
    }
  }

  /** Every control step yields a three-component acceleration; off mode yields zero. */
  lemma ControlShape(mode: ThrustMode, state: seq<real>, timeToGo: real, n: real, maxAcc: real,
                     lib: Routines, m: MathLib)
    requires 6 <= |state| && WellShaped(lib)
    ensures |Control(mode, state, timeToGo, n, maxAcc, lib, m).acceleration| == 3
    ensures mode == Off ==> Control(mode, state, timeToGo, n, maxAcc, lib, m) == Command(Zero(3), false)
  {
  }

  /** A chaser already at rest on the target is commanded no thrust, whatever the mode. */
  lemma ControlAtRest(mode: ThrustMode, timeToGo: real, n: real, maxAcc: real, lib: Routines, m: MathLib)
    requires Lawful(m) && WellShaped(lib) && Faithful(lib, m) && n != 0.0 && timeToGo != 0.0
    ensures Control(mode, Zero(6), timeToGo, n, maxAcc, lib, m) == Command(Zero(3), false)
  {
    if mode != Off {
      RestIsFixedPoint(timeToGo, n, m);
      var end := lib.propagate(Zero(6), timeToGo, n, Zero(3));
      assert end == Zero(6);
      assert ZeroEffortMiss(end) == Zero(3) && ZeroEffortVelocity(end) == Zero(3);
      GuidanceVanishesWithoutError(timeToGo);
      NormOfZero(m, 3);
    }
  }

  /** The thrust a commanded acceleration needs: acceleration times the chaser's wet mass. */
  function Thrust(acceleration: seq<real>, mass: real): seq<real>
  {
    seq(|acceleration|, i requires 0 <= i < |acceleration| => acceleration[i] * mass)
  }

  /** The recording loop of src/main.cpp:213-216. */
  method ThrustOf(acceleration: array<real>, mass: real) returns (thrust: seq<real>)
    ensures thrust == Thrust(acceleration[..], mass)
  {
    var buffer := new real[acceleration.Length];
    for i := 0 to acceleration.Length
      invariant forall k | 0 <= k < i :: buffer[k] == acceleration[k] * mass
    {
      buffer[i] := acceleration[i] * mass;
    }
    thrust := buffer[..];
    assert forall k | 0 <= k < |thrust| :: thrust[k] == Thrust(acceleration[..], mass)[k];
  }

  /** The recorded thrust determines the acceleration again, for a non-zero mass. */
  lemma ThrustRecoversAcceleration(acceleration: seq<real>, mass: real)
    requires mass != 0.0
    ensures Scale(Thrust(acceleration, mass), 1.0 / mass) == acceleration
  {
    forall i | 0 <= i < |acceleration|
      ensures Scale(Thrust(acceleration, mass), 1.0 / mass)[i] == acceleration[i]
    {
      assert 1.0 / mass * (acceleration[i] * mass) == acceleration[i];
    }
  }

  /** No acceleration, no thrust. */
  lemma ThrustOfZero(len: nat, mass: real)
    ensures Thrust(Zero(len), mass) == Zero(len)
  {
  }
}
