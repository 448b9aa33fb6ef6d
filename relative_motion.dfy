/**
 * Closed-form relative motion of the chaser in the target's rotating frame
 * (include/Rvdsim/relativeMotion.hpp).  A state is [x, y, z, xdot, ydot, zdot]; an
 * acceleration is [ax, ay, az].  Vectors are sequences: the source copies the input vector
 * and overwrites its first six entries, so anything past index 5 is carried through.
 */
module RelativeMotion {
  import opened Numerics

  /**
   * The constant-acceleration Clohessy-Wiltshire solution, exactly as the source writes it:
   * each output is a closed-form expression over the initial values, the propagation time
   * `dt`, the mean motion `n` and the thrust acceleration, with sin and cos of `n dt`.  Each
   * output row is a function of the inputs that row reads.
   */
  function Propagate(s: seq<real>, dt: real, n: real, a: seq<real>, m: MathLib): (r: seq<real>)
    requires 6 <= |s| && 3 <= |a| && n != 0.0
    ensures |r| == |s| && r[6..] == s[6..]
  {
    var sn, cs := m.sin(n * dt), m.cos(n * dt);
    [XPosition(s[0], s[2], s[3], s[5], a[0], a[2], dt, n, sn, cs),
     YPosition(s[1], s[4], a[1], n, sn, cs),
     ZPosition(s[2], s[3], s[5], a[0], a[2], dt, n, sn, cs),
     XVelocity(s[2], s[3], s[5], n, sn, cs),
     YVelocity(s[1], n, sn),
     ZVelocity(s[2], s[3], s[5], n, sn, cs)] + s[6..]
  }

  /** The along-track position (include/Rvdsim/relativeMotion.hpp:27-45). */
  function XPosition(x0: real, z0: real, xd0: real, zd0: real, ax: real, az: real,
                     dt: real, n: real, sn: real, cs: real): real
    requires n != 0.0
  {
    (4.0 / n * xd0 - 6.0 * z0) * sn
    - 2.0 * zd0 / n * cs
    + (6.0 * n * z0 - 3.0 * xd0) * dt
    + (x0 + 2.0 * zd0 / n)
    + 2.0 / (n * n) * az * (n * dt - sn)
    + ax * (4.0 / (n * n) * (1.0 - cs) - 1.5 * dt * dt)
  }

  /** The cross-track position (include/Rvdsim/relativeMotion.hpp:47-54). */
  function YPosition(y0: real, yd0: real, ay: real, n: real, sn: real, cs: real): real
    requires n != 0.0
  {
    y0 * cs + yd0 / n * sn + ay / (n * n) * (1.0 - cs)
  }

  /** The radial position (include/Rvdsim/relativeMotion.hpp:56-70). */
  function ZPosition(z0: real, xd0: real, zd0: real, ax: real, az: real,
                     dt: real, n: real, sn: real, cs: real): real
    requires n != 0.0
  {
    (2.0 * xd0 / n - 3.0 * z0) * cs
    + zd0 / n * sn
    + (4.0 * z0 - 2.0 * xd0 / n)
    + 2.0 / (n * n) * ax * (sn - n * dt)
    + az / (n * n) * (1.0 - cs)
  }

  /** The along-track velocity (include/Rvdsim/relativeMotion.hpp:72-79). */
  function XVelocity(z0: real, xd0: real, zd0: real, n: real, sn: real, cs: real): real
    requires n != 0.0
  {
    n * (4.0 / n * xd0 - 6.0 * z0) * cs + 2.0 * zd0 * sn + (6.0 * n * z0 - 3.0 * xd0)
  }

  /** The cross-track velocity (include/Rvdsim/relativeMotion.hpp:81-83). */
  function YVelocity(y0: real, n: real, sn: real): real
  {
    -n * y0 * sn
  }

  /** The radial velocity (include/Rvdsim/relativeMotion.hpp:85-89). */
  function ZVelocity(z0: real, xd0: real, zd0: real, n: real, sn: real, cs: real): real
    requires n != 0.0
  {
    -n * (2.0 * xd0 / n - 3.0 * z0) * sn + zd0 * cs
  }

  /** The velocity outputs never read the thrust acceleration. */
  lemma VelocityIgnoresAcceleration(s: seq<real>, dt: real, n: real, a: seq<real>, b: seq<real>, m: MathLib)
    requires 6 <= |s| && 3 <= |a| && 3 <= |b| && n != 0.0
    ensures Propagate(s, dt, n, a, m)[3..6] == Propagate(s, dt, n, b, m)[3..6]
  {
  }

  /**
   * Out-of-plane decoupling, first direction: the y position depends only on y0, ydot0 and ay,
   * and the y velocity only on y0 (ydot0 does not enter it at all).
   */
  lemma OutOfPlaneDependsOnlyOnY(s: seq<real>, t: seq<real>, dt: real, n: real, a: seq<real>, b: seq<real>, m: MathLib)
    requires 6 <= |s| && 6 <= |t| && 3 <= |a| && 3 <= |b| && n != 0.0
    requires s[1] == t[1] && s[4] == t[4] && a[1] == b[1]
    ensures Propagate(s, dt, n, a, m)[1] == Propagate(t, dt, n, b, m)[1]
    ensures s[1] == t[1] ==> Propagate(s, dt, n, a, m)[4] == Propagate(t, dt, n, b, m)[4]
  {
  }

  /** The y velocity equals -n y0 sin(n dt) whatever the initial y velocity. */
  lemma YVelocityIgnoresYVelocity(s: seq<real>, dt: real, n: real, a: seq<real>, m: MathLib, ydot: real)
    requires 6 <= |s| && 3 <= |a| && n != 0.0
    ensures Propagate(s[4 := ydot], dt, n, a, m)[4] == Propagate(s, dt, n, a, m)[4]
  {
  }

  /**
   * Out-of-plane decoupling, second direction: x, z, xdot and zdot never read y0, ydot0 or ay.
   */
  lemma InPlaneIgnoresY(s: seq<real>, t: seq<real>, dt: real, n: real, a: seq<real>, b: seq<real>, m: MathLib)
    requires 6 <= |s| && 6 <= |t| && 3 <= |a| && 3 <= |b| && n != 0.0
    requires s[0] == t[0] && s[2] == t[2] && s[3] == t[3] && s[5] == t[5]
    requires a[0] == b[0] && a[2] == b[2]
    ensures var r, q := Propagate(s, dt, n, a, m), Propagate(t, dt, n, b, m);
      r[0] == q[0] && r[2] == q[2] && r[3] == q[3] && r[5] == q[5]
  {
  }

  /**
   * Over a zero step, x, y, z, xdot and zdot are left at their initial values, while ydot
   * becomes 0 rather than ydot0 (the ydot0 cos(n dt) term is absent from the source).
   */
  lemma PropagateOverZeroTime(s: seq<real>, n: real, a: seq<real>, m: MathLib)
    requires 6 <= |s| && 3 <= |a| && n != 0.0 && Lawful(m)
    ensures var r := Propagate(s, 0.0, n, a, m);
      r[0] == s[0] && r[1] == s[1] && r[2] == s[2] && r[3] == s[3] && r[4] == 0.0 && r[5] == s[5]
  {
    assert n * 0.0 == 0.0;
    var r := Propagate(s, 0.0, n, a, m);
    assert 4.0 / n * s[3] * n == 4.0 * s[3];
    assert n * (4.0 / n * s[3] - 6.0 * s[2]) == 4.0 * s[3] - 6.0 * n * s[2];
    assert r[3] == n * (4.0 / n * s[3] - 6.0 * s[2]) + (6.0 * n * s[2] - 3.0 * s[3]);
  }

  /** A chaser at rest on the target without thrust stays there. */
  lemma RestIsFixedPoint(dt: real, n: real, m: MathLib)
    requires n != 0.0
    ensures Propagate(Zero(6), dt, n, Zero(3), m) == Zero(6)
  {
    var r := Propagate(Zero(6), dt, n, Zero(3), m);
    assert r[0] == 0.0 && r[1] == 0.0 && r[2] == 0.0 && r[3] == 0.0 && r[4] == 0.0 && r[5] == 0.0;
  }

  /** The unperturbed Hill equations: the time derivative of the relative state. */
  function HillDerivative(s: seq<real>, n: real): (r: seq<real>)
    requires 6 <= |s|
    ensures |r| == |s| && r[6..] == s[6..]
  {
    [s[3], s[4], s[5],
     2.0 * n * s[5],
     -n * n * s[1],
     3.0 * n * n * s[2] - 2.0 * n * s[3]] + s[6..]
  }

  /** The position derivatives are the current velocities. */
  lemma HillPositionRates(s: seq<real>, n: real)
    requires 6 <= |s|
    ensures HillDerivative(s, n)[..3] == s[3..6]
  {
  }

  /** The y channel of the derivative reads only the y components. */
  lemma HillOutOfPlane(s: seq<real>, t: seq<real>, n: real)
    requires 6 <= |s| && 6 <= |t| && s[1] == t[1] && s[4] == t[4]
    ensures HillDerivative(s, n)[1] == HillDerivative(t, n)[1]
    ensures HillDerivative(s, n)[4] == HillDerivative(t, n)[4]
  {
  }

  /** The component-wise linear combination `c * u + d * v` of two vectors of equal length. */
  function Combine(c: real, u: seq<real>, d: real, v: seq<real>): seq<real>
    requires |u| == |v|
  {
    seq(|u|, i requires 0 <= i < |u| => c * u[i] + d * v[i])
  }

  /** The Hill derivative is linear in the state. */
  lemma HillLinear(c: real, u: seq<real>, d: real, v: seq<real>, n: real)
    requires 6 <= |u| && |u| == |v|
    ensures HillDerivative(Combine(c, u, d, v), n)
         == Combine(c, HillDerivative(u, n), d, HillDerivative(v, n))
  {
    var lhs := HillDerivative(Combine(c, u, d, v), n);
    var rhs := Combine(c, HillDerivative(u, n), d, HillDerivative(v, n));
    forall i | 0 <= i < |u| ensures lhs[i] == rhs[i] {
      HillLinearAt(c, u, d, v, n, i);
    }
  }

  /** Linearity, one component at a time. */
  lemma HillLinearAt(c: real, u: seq<real>, d: real, v: seq<real>, n: real, i: nat)
    requires 6 <= |u| && |u| == |v| && i < |u|
    ensures HillDerivative(Combine(c, u, d, v), n)[i]
         == c * HillDerivative(u, n)[i] + d * HillDerivative(v, n)[i]
  {
    if i == 3 || i == 4 {
      HillRateXYLinear(c, u, d, v, n);
    } else if i == 5 {
      HillRateZLinear(c, u, d, v, n);
    }
  }

  /** The x- and y-acceleration rows of the derivative are linear in the state. */
  lemma HillRateXYLinear(c: real, u: seq<real>, d: real, v: seq<real>, n: real)
    requires 6 <= |u| && |u| == |v|
    ensures HillDerivative(Combine(c, u, d, v), n)[3]
         == c * HillDerivative(u, n)[3] + d * HillDerivative(v, n)[3]
    ensures HillDerivative(Combine(c, u, d, v), n)[4]
         == c * HillDerivative(u, n)[4] + d * HillDerivative(v, n)[4]
  {
    var w := Combine(c, u, d, v);
    Distribute(2.0 * n, 0.0, c, d, u[5], u[5], v[5], v[5], w[5], w[5]);
    Distribute(-n * n, 0.0, c, d, u[1], u[1], v[1], v[1], w[1], w[1]);
  }

  /** The z-acceleration row of the derivative is linear in the state. */
  lemma HillRateZLinear(c: real, u: seq<real>, d: real, v: seq<real>, n: real)
    requires 6 <= |u| && |u| == |v|
    ensures HillDerivative(Combine(c, u, d, v), n)[5]
         == c * HillDerivative(u, n)[5] + d * HillDerivative(v, n)[5]
  {
    var w := Combine(c, u, d, v);
    var hw, hu, hv := HillDerivative(w, n), HillDerivative(u, n), HillDerivative(v, n);
    var k, j := 3.0 * n * n, 2.0 * n;
    assert hw[5] == k * w[2] - j * w[3];
    assert hu[5] == k * u[2] - j * u[3];
    assert hv[5] == k * v[2] - j * v[3];
    Distribute(k, j, c, d, u[2], u[3], v[2], v[3], w[2], w[3]);
  }

  /** Scaling and subtraction distribute over a linear combination. */
  lemma Distribute(k: real, j: real, c: real, d: real, x1: real, x2: real, y1: real, y2: real, w1: real, w2: real)
    requires w1 == c * x1 + d * y1 && w2 == c * x2 + d * y2
    ensures k * w1 - j * w2 == c * (k * x1 - j * x2) + d * (k * y1 - j * y2)
    ensures k * w1 == c * (k * x1) + d * (k * y1)
  {
  }

  /** The derivative of the zero state is zero. */
  lemma HillOfZero(n: real)
    ensures HillDerivative(Zero(6), n) == Zero(6)
  {
    assert HillDerivative(Zero(6), n) == [0.0, 0.0, 0.0, 2.0 * n * 0.0, -n * n * 0.0, 3.0 * n * n * 0.0 - 2.0 * n * 0.0];
  }
}
