/** Evaluating the piecewise cubic spline, or its first or second derivative, at a point. */
module SplineValue {
  import opened Wrappers
  import opened IntervalIndex

  /** An evaluation that cannot proceed: the derivative selector is not 0, 1 or 2. */
  datatype EvalError = InvalidDerivative(order: int)

  /** The cubic a + b·s + c·s² + d·s³ in the offset s from a piece's left knot. */
  datatype Cubic = Cubic(a: real, b: real, c: real, d: real)

  function Eval(p: Cubic, s: real): real {
    p.a + p.b * s + p.c * s * s + p.d * s * s * s
  }

  /** The formal derivative with respect to s. */
  function Derivative(p: Cubic): Cubic {
    Cubic(p.b, 2.0 * p.c, 3.0 * p.d, 0.0)
  }

  function NthDerivative(p: Cubic, k: nat): Cubic {
    if k == 0 then p else Derivative(NthDerivative(p, k - 1))
  }

  lemma LowDerivatives(p: Cubic)
    ensures NthDerivative(p, 0) == p
    ensures NthDerivative(p, 1) == Derivative(p)
    ensures NthDerivative(p, 2) == Derivative(Derivative(p))
  {
  }

  /** `Derivative` is the derivative: a step e changes the cubic by e times the
      derivative, up to a remainder of order e². */
  lemma DerivativeIsTangent(p: Cubic, s: real, e: real)
    ensures Eval(p, s + e) - Eval(p, s) - e * Eval(Derivative(p), s)
         == e * e * (p.c + 3.0 * p.d * s + p.d * e)
  {
  }

  /** The coefficients A, B, C, D that the evaluator's documentation gives for a piece
      of width h with end values yl, yr and end second derivatives pl, pr. */
  function Coefficients(yl: real, yr: real, pl: real, pr: real, h: real): Cubic
    requires h != 0.0
  {
    Cubic(yl, (yr - yl) / h - (pr + 2.0 * pl) * h / 6.0, pl / 2.0, (pr - pl) / (6.0 * h))
  }

  /** The value expression (order 0), in the nested form of the source; it is the
      documented cubic. */
  function PieceValue(yl: real, yr: real, pl: real, pr: real, h: real, dt: real): (v: real)
    requires h != 0.0
    ensures v == Eval(Coefficients(yl, yr, pl, pr, h), dt)
  {
    var q := (pr - pl) / (6.0 * h);
    assert (pr / 6.0 + pl / 3.0) * h == (pr + 2.0 * pl) * h / 6.0;
    yl + dt * ((yr - yl) / h - (pr / 6.0 + pl / 3.0) * h + dt * (0.5 * pl + dt * q))
  }

  /** The slope expression (order 1); it is the derivative of the documented cubic. */
  function PieceSlope(yl: real, yr: real, pl: real, pr: real, h: real, dt: real): (v: real)
    requires h != 0.0
    ensures v == Eval(Derivative(Coefficients(yl, yr, pl, pr, h)), dt)
  {
    assert 0.5 * (pr - pl) / h == 3.0 * ((pr - pl) / (6.0 * h));
    (yr - yl) / h - (pr / 6.0 + pl / 3.0) * h + dt * (pl + dt * (0.5 * (pr - pl) / h))
  }

  /** The curvature expression (order 2); it is the second derivative of the
      documented cubic. */
  function PieceCurvature(yl: real, yr: real, pl: real, pr: real, h: real, dt: real): (v: real)
    requires h != 0.0
    ensures v == Eval(Derivative(Derivative(Coefficients(yl, yr, pl, pr, h))), dt)
  {
    assert dt * (pr - pl) / h == 6.0 * ((pr - pl) / (6.0 * h)) * dt;
    pl + dt * (pr - pl) / h
  }

  /** Knots, values and second derivatives that the evaluator can index. */
  predicate Evaluable(t: seq<real>, y: seq<real>, ypp: seq<real>) {
    2 <= |t| && StrictlyIncreasing(t) && |t| <= |y| && |t| <= |ypp|
  }

  /** The cubic on the piece that starts at knot `left`. */
  function PieceCubic(t: seq<real>, y: seq<real>, ypp: seq<real>, left: int): Cubic
    requires Evaluable(t, y, ypp) && 0 <= left < |t| - 1
  {
    Coefficients(y[left], y[left + 1], ypp[left], ypp[left + 1], t[left + 1] - t[left])
  }

  /** The derivative of order k of the piece starting at `left`, evaluated at tval. */
  function PieceEval(t: seq<real>, y: seq<real>, ypp: seq<real>, left: int, tval: real, k: nat): real
    requires Evaluable(t, y, ypp) && 0 <= left < |t| - 1
  {
    Eval(NthDerivative(PieceCubic(t, y, ypp, left), k), tval - t[left])
  }

  /** The evaluator: brackets tval, then returns the value (0), slope (1) or
      curvature (2) of the bracketed piece; any other selector is an error. */
  function SplineCubicValue(t: seq<real>, y: seq<real>, ypp: seq<real>, tval: real, derivative: int)
    : (r: Result<real, EvalError>)
    requires Evaluable(t, y, ypp)
    ensures r.Failure? <==> !(0 <= derivative <= 2)
    ensures r.Failure? ==> r.error == InvalidDerivative(derivative)
    ensures r.Success? ==>
      r.value == PieceEval(t, y, ypp, IntervalBracketBinarySearch(t, tval).left, tval, derivative)
    ensures 0 <= derivative <= 2 && tval <= t[0] ==>
      r == Success(PieceEval(t, y, ypp, 0, tval, derivative))
    ensures 0 <= derivative <= 2 && t[|t| - 1] <= tval ==>
      r == Success(PieceEval(t, y, ypp, |t| - 2, tval, derivative))
  {
    var br := IntervalBracketBinarySearch(t, tval);
    var left, right := br.left, br.right;
    var dt := tval - t[left];
    var h := t[right] - t[left];
    LowDerivatives(PieceCubic(t, y, ypp, left));
    match derivative
    case 0 => Success(PieceValue(y[left], y[right], ypp[left], ypp[right], h, dt))
    case 1 => Success(PieceSlope(y[left], y[right], ypp[left], ypp[right], h, dt))
    case 2 => Success(PieceCurvature(y[left], y[right], ypp[left], ypp[right], h, dt))
    case _ => Failure(InvalidDerivative(derivative))
  }

  /** A piece takes the value y[left] and curvature ypp[left] at its left knot, and
      y[left+1] and ypp[left+1] at its right knot. */
  lemma PieceMatchesKnots(t: seq<real>, y: seq<real>, ypp: seq<real>, left: int)
    requires Evaluable(t, y, ypp) && 0 <= left < |t| - 1
    ensures PieceEval(t, y, ypp, left, t[left], 0) == y[left]
    ensures PieceEval(t, y, ypp, left, t[left + 1], 0) == y[left + 1]
    ensures PieceEval(t, y, ypp, left, t[left], 2) == ypp[left]
    ensures PieceEval(t, y, ypp, left, t[left + 1], 2) == ypp[left + 1]
  {
    var h := t[left + 1] - t[left];
    var yl, yr, pl, pr := y[left], y[left + 1], ypp[left], ypp[left + 1];
    var p := PieceCubic(t, y, ypp, left);
    assert p.b * h == (yr - yl) - (pr + 2.0 * pl) * h * h / 6.0;
    assert p.d * h == (pr - pl) / 6.0;
    LowDerivatives(p);
    assert Eval(p, h) == yr;
    assert Eval(Derivative(Derivative(p)), h) == pr;
  }

  /** Order 0 interpolates: at every knot the evaluator returns that knot's value,
      whatever the second derivatives are. */
  lemma SplineInterpolatesKnots(t: seq<real>, y: seq<real>, ypp: seq<real>, k: int)
    requires Evaluable(t, y, ypp) && 0 <= k < |t|
    ensures SplineCubicValue(t, y, ypp, t[k], 0) == Success(y[k])
    ensures SplineCubicValue(t, y, ypp, t[k], 2) == Success(ypp[k])
  {
    var n := |t|;
    if k == 0 {
      PieceMatchesKnots(t, y, ypp, 0);
    } else if k == n - 1 {
      PieceMatchesKnots(t, y, ypp, n - 2);
    } else {
      PieceMatchesKnots(t, y, ypp, k - 1);
    }
  }

  /** On each piece the curvature runs linearly from ypp[left] to ypp[left+1]: at the
      fraction s of the way across it is (1-s)·ypp[left] + s·ypp[left+1]. */
  lemma CurvatureInterpolatesLinearly(t: seq<real>, y: seq<real>, ypp: seq<real>, left: int, s: real)
    requires Evaluable(t, y, ypp) && 0 <= left < |t| - 1
    ensures PieceEval(t, y, ypp, left, t[left] + s * (t[left + 1] - t[left]), 2)
         == (1.0 - s) * ypp[left] + s * ypp[left + 1]
  {
    var h := t[left + 1] - t[left];
    var p := PieceCubic(t, y, ypp, left);
    LowDerivatives(p);
    assert 6.0 * p.d * (s * h) == s * (ypp[left + 1] - ypp[left]);
  }

  /** At an interior knot both adjacent pieces give the same value and curvature, so
      which of the two the bracket picks there does not change orders 0 and 2. */
  lemma KnotTieBreakIsInvisible(t: seq<real>, y: seq<real>, ypp: seq<real>, k: int)
    requires Evaluable(t, y, ypp) && 1 <= k < |t| - 1
    ensures PieceEval(t, y, ypp, k - 1, t[k], 0) == PieceEval(t, y, ypp, k, t[k], 0)
    ensures PieceEval(t, y, ypp, k - 1, t[k], 2) == PieceEval(t, y, ypp, k, t[k], 2)
  {
    PieceMatchesKnots(t, y, ypp, k - 1);
    PieceMatchesKnots(t, y, ypp, k);
  }
}
