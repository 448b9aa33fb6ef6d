/**
 * The numerical building blocks the simulation relies on: the <cmath> functions and the
 * Euclidean norm of the sml library (src/main.cpp:171, :283), kept abstract.
 */
module Numerics {

  /**
   * The math library, passed in as a value.  Nothing is known about these functions except
   * what `Lawful` states.
   */
  datatype MathLib = MathLib(sin: real -> real, cos: real -> real, sqrt: real -> real,
                             norm: seq<real> -> real)

  /**
   * The only facts about the library that the model uses: sin 0 = 0, cos 0 = 1, sqrt is the
   * non-negative square root, and the norm is the square root of the sum of squares.
   */
  ghost predicate Lawful(m: MathLib)
  {
    && m.sin(0.0) == 0.0
    && m.cos(0.0) == 1.0
    && (forall x: real :: 0.0 <= x ==> 0.0 <= m.sqrt(x) && m.sqrt(x) * m.sqrt(x) == x)
    && (forall v: seq<real> :: m.norm(v) == m.sqrt(SumSquares(v)))
  }

  /** The zero vector of the given length. */
  function Zero(len: nat): seq<real>
  {
    seq(len, _ => 0.0)
  }

  /** Component-wise multiplication by a scalar. */
  function Scale(v: seq<real>, c: real): seq<real>
  {
    seq(|v|, i requires 0 <= i < |v| => c * v[i])
  }

  /** The sum of the squares of the components. */
  function SumSquares(v: seq<real>): real
  {
    if |v| == 0 then 0.0 else v[0] * v[0] + SumSquares(v[1..])
  }

  /** A sum of squares is never negative. */
  lemma {:induction false} SumSquaresNonNegative(v: seq<real>)
    ensures 0.0 <= SumSquares(v)
    decreases |v|
  {
    if |v| > 0 {
      SumSquaresNonNegative(v[1..]);
      NonNegativeSquare(v[0]);
    }
  }

  lemma NonNegativeSquare(x: real)
    ensures 0.0 <= x * x
  {
  }

  /** The norm sml::norm computes. */
  function Norm(v: seq<real>, m: MathLib): real
  {
    m.norm(v)
  }

  lemma SumSquaresOfScale(v: seq<real>, c: real)
    ensures SumSquares(Scale(v, c)) == c * c * SumSquares(v)
  {
    SumSquaresOfMultiple(v, Scale(v, c), c);
  }

  /** A vector whose components are `c` times those of `v` has `c * c` times its sum of squares. */
  lemma {:induction false} SumSquaresOfMultiple(v: seq<real>, w: seq<real>, c: real)
    requires |w| == |v| && forall i | 0 <= i < |v| :: w[i] == c * v[i]
    ensures SumSquares(w) == c * c * SumSquares(v)
    decreases |v|
  {
    if |v| > 0 {
      SumSquaresOfMultiple(v[1..], w[1..], c);
      SquareStep(c, v[0], SumSquares(v[1..]), SumSquares(v), SumSquares(w[1..]), SumSquares(w));
    } else {
      ScaledZero(c, SumSquares(v));
    }
  }

  /** One step of the induction above, over plain numbers. */
  lemma SquareStep(c: real, u: real, rest: real, total: real, crest: real, ctotal: real)
    requires total == u * u + rest
    requires ctotal == (c * u) * (c * u) + crest
    requires crest == c * c * rest
    ensures ctotal == c * c * total
  {
    ScaledSquare(c, u);
  }

  lemma ScaledZero(c: real, x: real)
    requires x == 0.0
    ensures 0.0 == c * c * x
  {
  }

  lemma ScaledSquare(c: real, u: real)
    ensures (c * u) * (c * u) == c * c * (u * u)
  {
  }

  lemma {:induction false} SumSquaresOfZero(len: nat)
    ensures SumSquares(Zero(len)) == 0.0
    decreases len
  {
    if len > 0 {
      assert Zero(len)[1..] == Zero(len - 1);
      SumSquaresOfZero(len - 1);
    }
  }

  lemma PositiveProduct(x: real, y: real)
    requires 0.0 < x && 0.0 < y
    ensures 0.0 < x * y
  {
  }

  lemma SquareIncreasing(a: real, r: real)
    requires 0.0 <= a < r
    ensures a * a < r * r
  {
    PositiveProduct(r - a, r + a);
    assert (r - a) * (r + a) == r * r - a * a;
  }

  /** Two non-negative numbers with the same square are equal. */
  lemma SquareRootUnique(r: real, a: real)
    requires 0.0 <= r && 0.0 <= a && r * r == a * a
    ensures r == a
  {
    if a < r {
      SquareIncreasing(a, r);
    } else if r < a {
      SquareIncreasing(r, a);
    }
  }

  /** The square root of a square is the (non-negative) base. */
  lemma SqrtOfSquare(m: MathLib, a: real)
    requires Lawful(m) && 0.0 <= a
    ensures m.sqrt(a * a) == a
  {
    var r := m.sqrt(a * a);
    assert 0.0 <= a * a;
    assert 0.0 <= r && r * r == a * a;
    SquareRootUnique(r, a);
  }

  /** The zero vector has norm zero. */
  lemma NormOfZero(m: MathLib, len: nat)
    requires Lawful(m)
    ensures Norm(Zero(len), m) == 0.0
  {
    SumSquaresOfZero(len);
    SqrtOfSquare(m, 0.0);
  }

  /** The norm is non-negative and squares to the sum of squares. */
  lemma NormSquared(m: MathLib, v: seq<real>)
    requires Lawful(m)
    ensures 0.0 <= Norm(v, m) && Norm(v, m) * Norm(v, m) == SumSquares(v)
  {
    SumSquaresNonNegative(v);
  }

  /** A vector whose sum of squares is `a * a`, for a non-negative `a`, has norm `a`. */
  lemma NormOfSquare(m: MathLib, v: seq<real>, a: real)
    requires Lawful(m) && 0.0 <= a && SumSquares(v) == a * a
    ensures Norm(v, m) == a
  {
    SqrtOfSquare(m, a);
  }

  /** The arithmetic of rescaling: `(max / n)^2 * n^2 == max^2`. */
  lemma RescaledSquare(max: real, n: real, s: real, t: real)
    requires n != 0.0 && n * n == s && t == (max / n) * (max / n) * s
    ensures t == max * max
  {
    assert (max / n) * n == max;
    assert (max / n) * (max / n) * (n * n) == ((max / n) * n) * ((max / n) * n);
  }

  /** Scaling a non-zero vector by `max / norm` makes its sum of squares `max * max`. */
  lemma SumSquaresOfRescaled(m: MathLib, v: seq<real>, max: real)
    requires Lawful(m) && Norm(v, m) != 0.0
    ensures SumSquares(Scale(v, max / Norm(v, m))) == max * max
  {
    var n := Norm(v, m);
    NormSquared(m, v);
    SumSquaresOfScale(v, max / n);
    RescaledSquare(max, n, SumSquares(v), SumSquares(Scale(v, max / n)));
  }

  /** Scaling a non-zero vector by `max / norm` gives it norm exactly `max`. */
  lemma NormOfRescaled(m: MathLib, v: seq<real>, max: real)
    requires Lawful(m) && 0.0 < max && Norm(v, m) != 0.0
    ensures Norm(Scale(v, max / Norm(v, m)), m) == max
  {
    SumSquaresOfRescaled(m, v, max);
    NormOfSquare(m, Scale(v, max / Norm(v, m)), max);
  }
}
