/**
 * The two library routines the simulation loop of src/main.cpp calls and whose code is not
 * part of this model: astro::propagateClohessyWiltshireSolution (src/main.cpp:138, :205) and
 * control::computeOptimalGuidanceLaw (src/main.cpp:163).  They are passed in as a value, like
 * the math library.  The loop itself relies only on `WellShaped`; the results that need the
 * actual dynamics assume `Faithful`, that the routines compute what the project's own copies
 * of them compute (include/Rvdsim/relativeMotion.hpp:20-92 and src/rvdsim.cpp:338-339).
 */
module Astrodynamics {
  import opened Numerics
  import opened RelativeMotion
  import opened Guidance

  /** A propagator (state, time step, mean motion, acceleration) and a guidance law (zem, zev, time-to-go). */
  datatype Routines = Routines(
    propagate: (seq<real>, real, real, seq<real>) -> seq<real>,
    guidance: (seq<real>, seq<real>, real) -> seq<real>)

  /** The routines' vector shapes: a state comes back as long as it went in, a command has three components. */
  ghost predicate WellShaped(lib: Routines)
  {
    && (forall s, dt, n, a :: |lib.propagate(s, dt, n, a)| == |s|)
    && (forall zem, zev, t :: |lib.guidance(zem, zev, t)| == 3)
  }

  /** The routines agree with the project's own propagator and guidance formula wherever those are defined. */
  ghost predicate Faithful(lib: Routines, m: MathLib)
  {
    && (forall s, dt, n, a | 6 <= |s| && 3 <= |a| && n != 0.0 ::
          lib.propagate(s, dt, n, a) == Propagate(s, dt, n, a, m))
    && (forall zem, zev, t | |zem| == 3 && |zev| == 3 && t != 0.0 ::
          lib.guidance(zem, zev, t) == GuidanceLaw(zem, zev, t))
  }

  /** The guidance law of src/rvdsim.cpp:338-339 as a routine; outside its domain it commands nothing. */
  function LocalGuidance(): (seq<real>, seq<real>, real) -> seq<real>
  {
    (zem: seq<real>, zev: seq<real>, t: real) =>
      if |zem| == 3 && |zev| == 3 && t != 0.0 then GuidanceLaw(zem, zev, t) else Zero(3)
  }

  /**
   * The routines built from the project's own formulas; outside the propagator's domain the
   * state is returned unchanged.  They are well shaped and faithful, so the assumption is
   * consistent.
   */
  function Local(m: MathLib): (lib: Routines)
    ensures WellShaped(lib) && Faithful(lib, m)
  {
    Routines(
      (s: seq<real>, dt: real, n: real, a: seq<real>) =>
        if 6 <= |s| && 3 <= |a| && n != 0.0 then Propagate(s, dt, n, a, m) else s,
      LocalGuidance())
  }
}
