/**
 * The zero-effort-miss / zero-effort-velocity guidance law, in the form src/rvdsim.cpp:325-340
 * writes it out; src/main.cpp:163 obtains the same command from a library call.
 */
module Guidance {
  import opened Numerics

  /** The position the chaser still has to cover: the zero-thrust end position, negated. */
  function ZeroEffortMiss(end: seq<real>): seq<real>
    requires 6 <= |end|
  {
    [-end[0], -end[1], -end[2]]
  }

  /** The velocity the chaser still has to cancel: the zero-thrust end velocity, negated. */
  function ZeroEffortVelocity(end: seq<real>): seq<real>
    requires 6 <= |end|
  {
    [-end[3], -end[4], -end[5]]
  }

  /** The commanded acceleration, per axis 6/T^2 ZEM - 2/T ZEV for the time to go T. */
  function GuidanceLaw(zem: seq<real>, zev: seq<real>, timeToGo: real): seq<real>
    requires |zem| == 3 && |zev| == 3 && timeToGo != 0.0
  {
    seq(3, i requires 0 <= i < 3 =>
      6.0 / (timeToGo * timeToGo) * zem[i] - 2.0 / timeToGo * zev[i])
  }

  /** The guidance loop of src/rvdsim.cpp:336-340, writing the command into `a`. */
  method FillGuidance(a: array<real>, zem: seq<real>, zev: seq<real>, timeToGo: real)
    requires a.Length == 3 && |zem| == 3 && |zev| == 3 && timeToGo != 0.0
    modifies a
    ensures a[..] == GuidanceLaw(zem, zev, timeToGo)
  {
    for i := 0 to 3
      invariant forall k | 0 <= k < i :: a[k] == GuidanceLaw(zem, zev, timeToGo)[k]
    {
      a[i] := 6.0 / (timeToGo * timeToGo) * zem[i] - 2.0 / timeToGo * zev[i];
    }
  }

  /** There is nothing to correct when the coasting chaser ends at rest on the target. */
  lemma GuidanceVanishesWithoutError(timeToGo: real)
    requires timeToGo != 0.0
    ensures GuidanceLaw(Zero(3), Zero(3), timeToGo) == Zero(3)
  {
    var g := GuidanceLaw(Zero(3), Zero(3), timeToGo);
    forall i | 0 <= i < 3 ensures g[i] == 0.0 {
      assert 6.0 / (timeToGo * timeToGo) * 0.0 == 0.0 && 2.0 / timeToGo * 0.0 == 0.0;
    }
  }
}
