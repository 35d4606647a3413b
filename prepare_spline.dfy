/** Building the cubic spline: validating the knots, assembling the banded system for the
    second derivatives at the knots, and solving it. */
module PrepareSpline {
  import opened Wrappers
  import opened IntervalIndex
  import opened SplineValue
  import opened SolvePentadiagonal

  /** Why a build does not produce second derivatives. */
  datatype BuildError =
    | TooFewKnots               // fewer than two knots
    | KnotsNotIncreasing        // some t[i+1] <= t[i]
    | BadLeftFlag               // left boundary flag outside 0..3
    | BadRightFlag              // right boundary flag outside 0..3
    | NotAKnotNeedsThreeKnots   // flag 3 on either end with only two knots
    | SingularSystem            // the elimination meets a zero pivot

  /** One row of the banded system: its five band entries and its right-hand side. */
  datatype Row = Row(a1: real, a2: real, a3: real, a4: real, a5: real, b: real)

  /** The left-hand side of row `i` of the system at x. */
  function RowValue(r: Row, x: seq<real>, i: int): real {
    Term(r.a1, x, i - 2) + Term(r.a2, x, i - 1) + Term(r.a3, x, i) + Term(r.a4, x, i + 1) + Term(r.a5, x, i + 2)
  }

  function RowOf(s: Bands, i: int): Row
    requires Shaped(s) && 0 <= i < |s.b|
  {
    Row(s.a1[i], s.a2[i], s.a3[i], s.a4[i], s.a5[i], s.b[i])
  }

  /** Knots, values and boundary flags that the builder accepts. */
  predicate ValidBuild(t: seq<real>, y: seq<real>, leftFlag: int, rightFlag: int) {
    && 2 <= |t| <= |y|
    && StrictlyIncreasing(t)
    && 0 <= leftFlag <= 3 && 0 <= rightFlag <= 3
    && (leftFlag == 3 ==> 3 <= |t|)
    && (rightFlag == 3 ==> 3 <= |t|)
  }

  /** Row 0, chosen by the left boundary flag. */
  function LeftRow(t: seq<real>, y: seq<real>, flag: int, value: real): Row
    requires 2 <= |t| <= |y| && StrictlyIncreasing(t) && 0 <= flag <= 3 && (flag == 3 ==> 3 <= |t|)
  {
    match flag
    case 0 => Row(0.0, 0.0, 1.0, -1.0, 0.0, 0.0)
    case 1 => Row(0.0, 0.0, (t[1] - t[0]) / 3.0, (t[1] - t[0]) / 6.0, 0.0, (y[1] - y[0]) / (t[1] - t[0]) - value)
    case 2 => Row(0.0, 0.0, 1.0, 0.0, 0.0, value)
    case _ => Row(0.0, 0.0, -(t[2] - t[1]), t[2] - t[0], -(t[1] - t[0]), 0.0)
  }

  /** Row n-1, chosen by the right boundary flag. */
  function RightRow(t: seq<real>, y: seq<real>, flag: int, value: real): Row
    requires 2 <= |t| <= |y| && StrictlyIncreasing(t) && 0 <= flag <= 3 && (flag == 3 ==> 3 <= |t|)
  {
    var n := |t|;
    match flag
    case 0 => Row(0.0, -1.0, 1.0, 0.0, 0.0, 0.0)
    case 1 => Row(0.0, (t[n - 1] - t[n - 2]) / 6.0, (t[n - 1] - t[n - 2]) / 3.0, 0.0, 0.0,
                  value - (y[n - 1] - y[n - 2]) / (t[n - 1] - t[n - 2]))
    case 2 => Row(0.0, 0.0, 1.0, 0.0, 0.0, value)
    case _ => Row(-(t[n - 1] - t[n - 2]), t[n - 1] - t[n - 3], -(t[n - 2] - t[n - 3]), 0.0, 0.0, 0.0)
  }

  /** The slope difference at knot i, the right-hand side of every interior row. */
  function SlopeJump(t: seq<real>, y: seq<real>, i: int): real
    requires 1 <= i < |t| - 1 && |t| <= |y| && StrictlyIncreasing(t)
  {
    (y[i + 1] - y[i]) / (t[i + 1] - t[i]) - (y[i] - y[i - 1]) / (t[i] - t[i - 1])
  }

  /** Interior row i, with the width of the piece to the left of t[i] on x[i-1] and the
      width of the piece to its right on x[i+1]. */
  function InteriorRow(t: seq<real>, y: seq<real>, i: int): Row
    requires 1 <= i < |t| - 1 && |t| <= |y| && StrictlyIncreasing(t)
  {
    Row(0.0, (t[i] - t[i - 1]) / 6.0, (t[i + 1] - t[i - 1]) / 3.0, (t[i + 1] - t[i]) / 6.0, 0.0, SlopeJump(t, y, i))
  }

  /** Interior row i as src/prepare_spline.rs assembles it: the two widths trade places. */
  function InteriorRowAsWritten(t: seq<real>, y: seq<real>, i: int): Row
    requires 1 <= i < |t| - 1 && |t| <= |y| && StrictlyIncreasing(t)
  {
    Row(0.0, (t[i + 1] - t[i]) / 6.0, (t[i + 1] - t[i - 1]) / 3.0, (t[i] - t[i - 1]) / 6.0, 0.0, SlopeJump(t, y, i))
  }

  function SystemRow(t: seq<real>, y: seq<real>, leftFlag: int, leftValue: real, rightFlag: int, rightValue: real, i: int): Row
    requires ValidBuild(t, y, leftFlag, rightFlag) && 0 <= i < |t|
  {
    if i == 0 then LeftRow(t, y, leftFlag, leftValue)
    else if i == |t| - 1 then RightRow(t, y, rightFlag, rightValue)
    else InteriorRow(t, y, i)
  }

  /** Row i of the system the source assembles: the boundary rows, and the interior rows
      with their widths swapped. */
  function SystemRowAsWritten(t: seq<real>, y: seq<real>, leftFlag: int, leftValue: real, rightFlag: int, rightValue: real, i: int): Row
    requires ValidBuild(t, y, leftFlag, rightFlag) && 0 <= i < |t|
  {
    if i == 0 then LeftRow(t, y, leftFlag, leftValue)
    else if i == |t| - 1 then RightRow(t, y, rightFlag, rightValue)
    else InteriorRowAsWritten(t, y, i)
  }

  /** The bands whose row i is rows[i]. */
  function BandsOfRows(rows: seq<Row>): (s: Bands)
    requires 2 <= |rows|
    ensures Shaped(s) && |s.b| == |rows| && |s.a1| == |s.a2| == |s.a3| == |s.a4| == |s.a5| == |rows|
    ensures forall i :: 0 <= i < |rows| ==> RowOf(s, i) == rows[i]
  {
    var n := |rows|;
    Bands(seq(n, i requires 0 <= i < n => rows[i].a1), seq(n, i requires 0 <= i < n => rows[i].a2),
          seq(n, i requires 0 <= i < n => rows[i].a3), seq(n, i requires 0 <= i < n => rows[i].a4),
          seq(n, i requires 0 <= i < n => rows[i].a5), seq(n, i requires 0 <= i < n => rows[i].b))
  }

  /** The banded system whose solution is the second derivatives at the knots. */
  function SplineSystem(t: seq<real>, y: seq<real>, leftFlag: int, leftValue: real, rightFlag: int, rightValue: real): (s: Bands)
    requires ValidBuild(t, y, leftFlag, rightFlag)
    ensures Shaped(s) && |s.b| == |t| && |s.a1| == |s.a2| == |s.a3| == |s.a4| == |s.a5| == |t|
    ensures forall i :: 0 <= i < |t| ==> RowOf(s, i) == SystemRow(t, y, leftFlag, leftValue, rightFlag, rightValue, i)
  {
    BandsOfRows(seq(|t|, i requires 0 <= i < |t| => SystemRow(t, y, leftFlag, leftValue, rightFlag, rightValue, i)))
  }

  /** The banded system as src/prepare_spline.rs assembles it. */
  function SplineSystemAsWritten(t: seq<real>, y: seq<real>, leftFlag: int, leftValue: real, rightFlag: int, rightValue: real)
    : (s: Bands)
    requires ValidBuild(t, y, leftFlag, rightFlag)
    ensures Shaped(s) && |s.b| == |t| && |s.a1| == |s.a2| == |s.a3| == |s.a4| == |s.a5| == |t|
    ensures forall i :: 0 <= i < |t| ==> RowOf(s, i) == SystemRowAsWritten(t, y, leftFlag, leftValue, rightFlag, rightValue, i)
  {
    BandsOfRows(seq(|t|, i requires 0 <= i < |t| => SystemRowAsWritten(t, y, leftFlag, leftValue, rightFlag, rightValue, i)))
  }

  // ---------------------------------------------------------------------------
  // What the rows mean for the spline
  // ---------------------------------------------------------------------------

  /** The slope at its left end of a piece of width h with end values yl, yr and end
      curvatures pl, pr. */
  function StartSlope(yl: real, yr: real, pl: real, pr: real, h: real): real
    requires h != 0.0
  {
    (yr - yl) / h - (pr + 2.0 * pl) * h / 6.0
  }

  /** The slope at its right end of the same piece. */
  function EndSlope(yl: real, yr: real, pl: real, pr: real, h: real): real
    requires h != 0.0
  {
    (yr - yl) / h + (pl + 2.0 * pr) * h / 6.0
  }

  /** The slope of the piece starting at knot `left`, at that knot. */
  lemma SlopeAtLeftKnot(t: seq<real>, y: seq<real>, ypp: seq<real>, left: int)
    requires Evaluable(t, y, ypp) && 0 <= left < |t| - 1
    ensures PieceEval(t, y, ypp, left, t[left], 1)
         == StartSlope(y[left], y[left + 1], ypp[left], ypp[left + 1], t[left + 1] - t[left])
  {
    LowDerivatives(PieceCubic(t, y, ypp, left));
  }

  /** The slope of the piece ending at knot `right`, at that knot. */
  lemma SlopeAtRightKnot(t: seq<real>, y: seq<real>, ypp: seq<real>, right: int)
    requires Evaluable(t, y, ypp) && 1 <= right < |t|
    ensures PieceEval(t, y, ypp, right - 1, t[right], 1)
         == EndSlope(y[right - 1], y[right], ypp[right - 1], ypp[right], t[right] - t[right - 1])
  {
    var h := t[right] - t[right - 1];
    var p := PieceCubic(t, y, ypp, right - 1);
    LowDerivatives(p);
    assert 3.0 * p.d * h * h == (ypp[right] - ypp[right - 1]) * h / 2.0;
  }

  /** The third derivative of a piece, 6·d, is the change in curvature over its width. */
  lemma CubicTermOfPiece(t: seq<real>, y: seq<real>, ypp: seq<real>, left: int)
    requires Evaluable(t, y, ypp) && 0 <= left < |t| - 1
    ensures 6.0 * PieceCubic(t, y, ypp, left).d * (t[left + 1] - t[left]) == ypp[left + 1] - ypp[left]
  {
  }

  /** The spline is continuously differentiable at interior knot i: the pieces on either
      side reach t[i] with the same slope. */
  predicate SlopeContinuousAt(t: seq<real>, y: seq<real>, ypp: seq<real>, i: int)
    requires Evaluable(t, y, ypp) && 1 <= i < |t| - 1
  {
    PieceEval(t, y, ypp, i - 1, t[i], 1) == PieceEval(t, y, ypp, i, t[i], 1)
  }

  /** Interior row i holds exactly when the slope is continuous at t[i]. */
  lemma InteriorRowMeansC1(t: seq<real>, y: seq<real>, ypp: seq<real>, i: int)
    requires Evaluable(t, y, ypp) && |ypp| == |t| && 1 <= i < |t| - 1
    ensures RowValue(InteriorRow(t, y, i), ypp, i) == InteriorRow(t, y, i).b <==> SlopeContinuousAt(t, y, ypp, i)
  {
    InteriorRowIsSlopeGap(t, y, ypp, i);
  }

  /** The slope jump at t[i] is the amount by which interior row i fails to hold. */
  lemma InteriorRowIsSlopeGap(t: seq<real>, y: seq<real>, ypp: seq<real>, i: int)
    requires Evaluable(t, y, ypp) && |ypp| == |t| && 1 <= i < |t| - 1
    ensures PieceEval(t, y, ypp, i, t[i], 1) - PieceEval(t, y, ypp, i - 1, t[i], 1)
         == InteriorRow(t, y, i).b - RowValue(InteriorRow(t, y, i), ypp, i)
  {
    var hl, hr := t[i] - t[i - 1], t[i + 1] - t[i];
    SlopeAtRightKnot(t, y, ypp, i);
    SlopeAtLeftKnot(t, y, ypp, i);
    var row := InteriorRow(t, y, i);
    InteriorRowValue(t, y, ypp, i);
    assert t[i - 1] < t[i] < t[i + 1];
    SlopeGap(y[i - 1], y[i], y[i + 1], ypp[i - 1], ypp[i], ypp[i + 1], hl, hr, row,
             PieceEval(t, y, ypp, i, t[i], 1), PieceEval(t, y, ypp, i - 1, t[i], 1), RowValue(row, ypp, i));
  }

  /** The left-hand side of interior row i takes the three unknowns around i. */
  lemma InteriorRowValue(t: seq<real>, y: seq<real>, ypp: seq<real>, i: int)
    requires Evaluable(t, y, ypp) && |ypp| == |t| && 1 <= i < |t| - 1
    ensures var row := InteriorRow(t, y, i);
      RowValue(row, ypp, i) == row.a2 * ypp[i - 1] + row.a3 * ypp[i] + row.a4 * ypp[i + 1]
  {
  }

  /** Two pieces of widths hl and hr meet at the middle knot with slopes whose difference
      is the amount by which the interior row built from their widths fails to hold. */
  lemma SlopeGap(y0: real, y1: real, y2: real, m0: real, m1: real, m2: real, hl: real, hr: real, row: Row,
                 right: real, left: real, lhs: real)
    requires 0.0 < hl && 0.0 < hr
    requires row.a2 == hl / 6.0 && row.a3 == (hl + hr) / 3.0 && row.a4 == hr / 6.0
    requires row.b == (y2 - y1) / hr - (y1 - y0) / hl
    requires right == StartSlope(y1, y2, m1, m2, hr) && left == EndSlope(y0, y1, m0, m1, hl)
    requires lhs == row.a2 * m0 + row.a3 * m1 + row.a4 * m2
    ensures right - left == row.b - lhs
  {
  }

  /** The condition the left boundary flag imposes on the spline. */
  predicate LeftCondition(t: seq<real>, y: seq<real>, ypp: seq<real>, flag: int, value: real)
    requires Evaluable(t, y, ypp) && 0 <= flag <= 3 && (flag == 3 ==> 3 <= |t|)
  {
    match flag
    // the first piece has no cubic term
    case 0 => PieceCubic(t, y, ypp, 0).d == 0.0
    // the slope at t[0] is the given value
    case 1 => PieceEval(t, y, ypp, 0, t[0], 1) == value
    // the curvature at t[0] is the given value
    case 2 => PieceEval(t, y, ypp, 0, t[0], 2) == value
    // not-a-knot: the first two pieces have the same cubic term
    case _ => PieceCubic(t, y, ypp, 0).d == PieceCubic(t, y, ypp, 1).d
  }

  /** The condition the right boundary flag imposes on the spline. */
  predicate RightCondition(t: seq<real>, y: seq<real>, ypp: seq<real>, flag: int, value: real)
    requires Evaluable(t, y, ypp) && 0 <= flag <= 3 && (flag == 3 ==> 3 <= |t|)
  {
    var n := |t|;
    match flag
    case 0 => PieceCubic(t, y, ypp, n - 2).d == 0.0
    case 1 => PieceEval(t, y, ypp, n - 2, t[n - 1], 1) == value
    case 2 => PieceEval(t, y, ypp, n - 2, t[n - 1], 2) == value
    case _ => PieceCubic(t, y, ypp, n - 3).d == PieceCubic(t, y, ypp, n - 2).d
  }

  /** The left-hand side of a first row. */
  lemma FirstRowValue(r: Row, x: seq<real>)
    requires 3 <= |x| || (2 <= |x| && r.a5 == 0.0)
    requires r.a1 == 0.0 && r.a2 == 0.0
    ensures RowValue(r, x, 0) == r.a3 * x[0] + r.a4 * x[1] + (if r.a5 == 0.0 then 0.0 else r.a5 * x[2])
  {
  }

  /** The left-hand side of a last row. */
  lemma LastRowValue(r: Row, x: seq<real>)
    requires 3 <= |x| || (2 <= |x| && r.a1 == 0.0)
    requires r.a4 == 0.0 && r.a5 == 0.0
    ensures var n := |x|;
      RowValue(r, x, n - 1) == (if r.a1 == 0.0 then 0.0 else r.a1 * x[n - 3]) + r.a2 * x[n - 2] + r.a3 * x[n - 1]
  {
  }

  /** Row 0 holds exactly when the left boundary condition does. */
  lemma LeftRowMeaning(t: seq<real>, y: seq<real>, ypp: seq<real>, flag: int, value: real)
    requires Evaluable(t, y, ypp) && |ypp| == |t| && 0 <= flag <= 3 && (flag == 3 ==> 3 <= |t|)
    ensures RowValue(LeftRow(t, y, flag, value), ypp, 0) == LeftRow(t, y, flag, value).b
        <==> LeftCondition(t, y, ypp, flag, value)
  {
    if flag == 0 {
      LeftQuadraticRow(t, y, ypp, value);
    } else if flag == 1 {
      LeftSlopeRow(t, y, ypp, value);
    } else if flag == 2 {
      LeftCurvatureRow(t, y, ypp, value);
    } else {
      LeftNotAKnotRow(t, y, ypp, value);
    }
  }

  /** Flag 0 on the left: ypp[0] - ypp[1] = 0 says the first piece has no cubic term. */
  lemma LeftQuadraticRow(t: seq<real>, y: seq<real>, ypp: seq<real>, value: real)
    requires Evaluable(t, y, ypp) && |ypp| == |t|
    ensures (RowValue(LeftRow(t, y, 0, value), ypp, 0) == LeftRow(t, y, 0, value).b)
        <==> LeftCondition(t, y, ypp, 0, value)
  {
    FirstRowValue(LeftRow(t, y, 0, value), ypp);
    CubicTermOfPiece(t, y, ypp, 0);
    EndPieceQuadratic(t[1] - t[0], ypp[0], ypp[1], PieceCubic(t, y, ypp, 0).d);
  }

  /** Flag 1 on the left: h/3·ypp[0] + h/6·ypp[1] = (y[1]-y[0])/h - value says the slope at
      t[0] is the value. */
  lemma LeftSlopeRow(t: seq<real>, y: seq<real>, ypp: seq<real>, value: real)
    requires Evaluable(t, y, ypp) && |ypp| == |t|
    ensures (RowValue(LeftRow(t, y, 1, value), ypp, 0) == LeftRow(t, y, 1, value).b)
        <==> LeftCondition(t, y, ypp, 1, value)
  {
    var row := LeftRow(t, y, 1, value);
    FirstRowValue(row, ypp);
    SlopeAtLeftKnot(t, y, ypp, 0);
    assert t[0] < t[1];
    LeftSlopeAlgebra(y[0], y[1], ypp[0], ypp[1], t[1] - t[0], value, row);
  }

  /** A piece's start slope is v exactly when h/3·m0 + h/6·m1 = (y1 - y0)/h - v. */
  lemma LeftSlopeAlgebra(y0: real, y1: real, m0: real, m1: real, h: real, v: real, row: Row)
    requires 0.0 < h
    requires row.a3 == h / 3.0 && row.a4 == h / 6.0 && row.b == (y1 - y0) / h - v
    ensures row.a3 * m0 + row.a4 * m1 == row.b <==> StartSlope(y0, y1, m0, m1, h) == v
  {
    assert row.a3 * m0 + row.a4 * m1 == (m1 + 2.0 * m0) * h / 6.0;
  }

  /** Flag 2 on the left: ypp[0] = value says the curvature at t[0] is the value. */
  lemma LeftCurvatureRow(t: seq<real>, y: seq<real>, ypp: seq<real>, value: real)
    requires Evaluable(t, y, ypp) && |ypp| == |t|
    ensures (RowValue(LeftRow(t, y, 2, value), ypp, 0) == LeftRow(t, y, 2, value).b)
        <==> LeftCondition(t, y, ypp, 2, value)
  {
    FirstRowValue(LeftRow(t, y, 2, value), ypp);
    PieceMatchesKnots(t, y, ypp, 0);
  }

  /** Flag 3 on the left: -h1·ypp[0] + (h0+h1)·ypp[1] - h0·ypp[2] = 0 says the first two
      pieces share their cubic term (not-a-knot at t[1]). */
  lemma LeftNotAKnotRow(t: seq<real>, y: seq<real>, ypp: seq<real>, value: real)
    requires Evaluable(t, y, ypp) && |ypp| == |t| && 3 <= |t|
    ensures (RowValue(LeftRow(t, y, 3, value), ypp, 0) == LeftRow(t, y, 3, value).b)
        <==> LeftCondition(t, y, ypp, 3, value)
  {
    FirstRowValue(LeftRow(t, y, 3, value), ypp);
    CubicTermOfPiece(t, y, ypp, 0);
    CubicTermOfPiece(t, y, ypp, 1);
    NotAKnotRow(t[1] - t[0], t[2] - t[1], ypp[0], ypp[1], ypp[2],
                PieceCubic(t, y, ypp, 0).d, PieceCubic(t, y, ypp, 1).d);
  }

  /** Row n-1 holds exactly when the right boundary condition does. */
  lemma RightRowMeaning(t: seq<real>, y: seq<real>, ypp: seq<real>, flag: int, value: real)
    requires Evaluable(t, y, ypp) && |ypp| == |t| && 0 <= flag <= 3 && (flag == 3 ==> 3 <= |t|)
    ensures RowValue(RightRow(t, y, flag, value), ypp, |t| - 1) == RightRow(t, y, flag, value).b
        <==> RightCondition(t, y, ypp, flag, value)
  {
    if flag == 0 {
      RightQuadraticRow(t, y, ypp, value);
    } else if flag == 1 {
      RightSlopeRow(t, y, ypp, value);
    } else if flag == 2 {
      RightCurvatureRow(t, y, ypp, value);
    } else {
      RightNotAKnotRow(t, y, ypp, value);
    }
  }

  /** Flag 0 on the right: ypp[n-1] - ypp[n-2] = 0 says the last piece has no cubic term. */
  lemma RightQuadraticRow(t: seq<real>, y: seq<real>, ypp: seq<real>, value: real)
    requires Evaluable(t, y, ypp) && |ypp| == |t|
    ensures (RowValue(RightRow(t, y, 0, value), ypp, |t| - 1) == RightRow(t, y, 0, value).b)
        <==> RightCondition(t, y, ypp, 0, value)
  {
    var n := |t|;
    LastRowValue(RightRow(t, y, 0, value), ypp);
    CubicTermOfPiece(t, y, ypp, n - 2);
    EndPieceQuadratic(t[n - 1] - t[n - 2], ypp[n - 1], ypp[n - 2], -PieceCubic(t, y, ypp, n - 2).d);
  }

  /** Flag 1 on the right: h/6·ypp[n-2] + h/3·ypp[n-1] = value - (y[n-1]-y[n-2])/h says
      the slope at t[n-1] is the value. */
  lemma RightSlopeRow(t: seq<real>, y: seq<real>, ypp: seq<real>, value: real)
    requires Evaluable(t, y, ypp) && |ypp| == |t|
    ensures (RowValue(RightRow(t, y, 1, value), ypp, |t| - 1) == RightRow(t, y, 1, value).b)
        <==> RightCondition(t, y, ypp, 1, value)
  {
    var n := |t|;
    var row := RightRow(t, y, 1, value);
    LastRowValue(row, ypp);
    SlopeAtRightKnot(t, y, ypp, n - 1);
    assert t[n - 2] < t[n - 1];
    RightSlopeAlgebra(y[n - 2], y[n - 1], ypp[n - 2], ypp[n - 1], t[n - 1] - t[n - 2], value, row);
  }

  /** A piece's end slope is v exactly when h/6·m0 + h/3·m1 = v - (y1 - y0)/h. */
  lemma RightSlopeAlgebra(y0: real, y1: real, m0: real, m1: real, h: real, v: real, row: Row)
    requires 0.0 < h
    requires row.a2 == h / 6.0 && row.a3 == h / 3.0 && row.b == v - (y1 - y0) / h
    ensures row.a2 * m0 + row.a3 * m1 == row.b <==> EndSlope(y0, y1, m0, m1, h) == v
  {
    assert row.a2 * m0 + row.a3 * m1 == (m0 + 2.0 * m1) * h / 6.0;
  }

  /** Flag 2 on the right: ypp[n-1] = value says the curvature at t[n-1] is the value. */
  lemma RightCurvatureRow(t: seq<real>, y: seq<real>, ypp: seq<real>, value: real)
    requires Evaluable(t, y, ypp) && |ypp| == |t|
    ensures (RowValue(RightRow(t, y, 2, value), ypp, |t| - 1) == RightRow(t, y, 2, value).b)
        <==> RightCondition(t, y, ypp, 2, value)
  {
    LastRowValue(RightRow(t, y, 2, value), ypp);
    PieceMatchesKnots(t, y, ypp, |t| - 2);
  }

  /** Flag 3 on the right: -h1·ypp[n-3] + (h0+h1)·ypp[n-2] - h0·ypp[n-1] = 0 says the last
      two pieces share their cubic term (not-a-knot at t[n-2]). */
  lemma RightNotAKnotRow(t: seq<real>, y: seq<real>, ypp: seq<real>, value: real)
    requires Evaluable(t, y, ypp) && |ypp| == |t| && 3 <= |t|
    ensures (RowValue(RightRow(t, y, 3, value), ypp, |t| - 1) == RightRow(t, y, 3, value).b)
        <==> RightCondition(t, y, ypp, 3, value)
  {
    var n := |t|;
    LastRowValue(RightRow(t, y, 3, value), ypp);
    CubicTermOfPiece(t, y, ypp, n - 3);
    CubicTermOfPiece(t, y, ypp, n - 2);
    NotAKnotRow(t[n - 2] - t[n - 3], t[n - 1] - t[n - 2], ypp[n - 3], ypp[n - 2], ypp[n - 1],
                PieceCubic(t, y, ypp, n - 3).d, PieceCubic(t, y, ypp, n - 2).d);
  }

  /** A piece of positive width has no cubic term exactly when its end curvatures agree. */
  lemma EndPieceQuadratic(h: real, m0: real, m1: real, d: real)
    requires 0.0 < h && 6.0 * d * h == m1 - m0
    ensures m0 - m1 == 0.0 <==> d == 0.0
  {
  }

  /** Two adjacent pieces of widths h0, h1 have the same cubic term exactly when
      -h1·m0 + (h0+h1)·m1 - h0·m2 = 0. */
  lemma NotAKnotRow(h0: real, h1: real, m0: real, m1: real, m2: real, d0: real, d1: real)
    requires 0.0 < h0 && 0.0 < h1
    requires 6.0 * d0 * h0 == m1 - m0 && 6.0 * d1 * h1 == m2 - m1
    ensures -h1 * m0 + (h0 + h1) * m1 - h0 * m2 == 0.0 <==> d0 == d1
  {
    assert -h1 * m0 + (h0 + h1) * m1 - h0 * m2 == h1 * (m1 - m0) - h0 * (m2 - m1);
    assert h1 * (m1 - m0) - h0 * (m2 - m1) == 6.0 * h0 * h1 * (d0 - d1);
  }

  /** The spline built on ypp is the one the boundary flags ask for: the assembled system
      holds exactly when the slope is continuous at every interior knot and both boundary
      conditions hold. */
  lemma SplineSystemMeaning(t: seq<real>, y: seq<real>, leftFlag: int, leftValue: real,
                            rightFlag: int, rightValue: real, ypp: seq<real>)
    requires ValidBuild(t, y, leftFlag, rightFlag) && |ypp| == |t|
    ensures Solves(SplineSystem(t, y, leftFlag, leftValue, rightFlag, rightValue), ypp)
        <==> && (forall i :: 1 <= i < |t| - 1 ==> SlopeContinuousAt(t, y, ypp, i))
             && LeftCondition(t, y, ypp, leftFlag, leftValue)
             && RightCondition(t, y, ypp, rightFlag, rightValue)
  {
    var n := |t|;
    var s := SplineSystem(t, y, leftFlag, leftValue, rightFlag, rightValue);
    var left, right := LeftRow(t, y, leftFlag, leftValue), RightRow(t, y, rightFlag, rightValue);
    assert RowOf(s, 0) == left;
    assert RowOf(s, n - 1) == right;
    LeftRowMeaning(t, y, ypp, leftFlag, leftValue);
    RightRowMeaning(t, y, ypp, rightFlag, rightValue);
    if Solves(s, ypp) {
      assert BandedRow(s, ypp, 0) == s.b[0];
      assert BandedRow(s, ypp, n - 1) == s.b[n - 1];
      forall i | 1 <= i < n - 1 ensures SlopeContinuousAt(t, y, ypp, i) {
        assert RowOf(s, i) == InteriorRow(t, y, i);
        assert BandedRow(s, ypp, i) == s.b[i];
        InteriorRowMeansC1(t, y, ypp, i);
      }
    }
    if && (forall i :: 1 <= i < n - 1 ==> SlopeContinuousAt(t, y, ypp, i))
       && LeftCondition(t, y, ypp, leftFlag, leftValue)
       && RightCondition(t, y, ypp, rightFlag, rightValue)
    {
      forall i | 0 <= i < n ensures BandedRow(s, ypp, i) == s.b[i] {
        if 1 <= i < n - 1 {
          assert RowOf(s, i) == InteriorRow(t, y, i);
          InteriorRowMeansC1(t, y, ypp, i);
        }
      }
    }
  }

  /** Only the not-a-knot flags reach past the tridiagonal part: a5[0] is nonzero exactly
      for left flag 3, a1[n-1] exactly for right flag 3, and every other a1 and a5 entry
      is zero, as are the entries a2[0] and a4[n-1] that fall outside the matrix. */
  lemma OuterBands(t: seq<real>, y: seq<real>, leftFlag: int, leftValue: real, rightFlag: int, rightValue: real)
    requires ValidBuild(t, y, leftFlag, rightFlag)
    ensures var s, n := SplineSystem(t, y, leftFlag, leftValue, rightFlag, rightValue), |t|;
      && (s.a5[0] != 0.0 <==> leftFlag == 3)
      && (s.a1[n - 1] != 0.0 <==> rightFlag == 3)
      && (forall i :: 0 <= i < n - 1 ==> s.a1[i] == 0.0)
      && (forall i :: 0 < i < n ==> s.a5[i] == 0.0)
      && s.a2[0] == 0.0 && s.a4[n - 1] == 0.0
  {
    var s, n := SplineSystem(t, y, leftFlag, leftValue, rightFlag, rightValue), |t|;
    assert RowOf(s, 0) == LeftRow(t, y, leftFlag, leftValue);
    assert RowOf(s, n - 1) == RightRow(t, y, rightFlag, rightValue);
    assert t[0] < t[1] && t[n - 2] < t[n - 1];
    forall i | 0 <= i < n ensures (i < n - 1 ==> s.a1[i] == 0.0) && (0 < i ==> s.a5[i] == 0.0) {
      assert RowOf(s, i) == SystemRow(t, y, leftFlag, leftValue, rightFlag, rightValue, i);
    }
  }

  /** With a slope or a curvature given at each end, every pivot is nonzero, so the
      builder always succeeds: those systems are diagonally dominant. */
  lemma ClampedOrNaturalEndsSolvable(t: seq<real>, y: seq<real>, leftFlag: int, leftValue: real,
                                     rightFlag: int, rightValue: real)
    requires ValidBuild(t, y, leftFlag, rightFlag)
    requires leftFlag in {1, 2} && rightFlag in {1, 2}
    ensures NonzeroPivots(SplineSystem(t, y, leftFlag, leftValue, rightFlag, rightValue))
  {
    var s, n := SplineSystem(t, y, leftFlag, leftValue, rightFlag, rightValue), |t|;
    forall i | 0 <= i < n
      ensures && s.a1[i] == 0.0 && s.a5[i] == 0.0 && 0.0 <= s.a2[i] && 0.0 <= s.a4[i]
              && s.a2[i] + s.a4[i] < s.a3[i]
    {
      assert RowOf(s, i) == SystemRow(t, y, leftFlag, leftValue, rightFlag, rightValue, i);
      if i == 0 {
        assert t[0] < t[1];
      } else if i == n - 1 {
        assert t[n - 2] < t[n - 1];
      } else {
        assert t[i - 1] < t[i] < t[i + 1];
      }
    }
    DominantHasNonzeroPivots(s);
  }

  /** With two knots and flag 0 at both ends the two rows say ypp[0] = ypp[1] twice over:
      the last pivot is zero and the builder reports a singular system. */
  lemma TwoKnotQuadraticEndsSingular(t: seq<real>, y: seq<real>, leftValue: real, rightValue: real)
    requires ValidBuild(t, y, 0, 0) && |t| == 2
    ensures !NonzeroPivots(SplineSystem(t, y, 0, leftValue, 0, rightValue))
  {
    var s := SplineSystem(t, y, 0, leftValue, 0, rightValue);
    assert RowOf(s, 0) == LeftRow(t, y, 0, leftValue);
    assert RowOf(s, 1) == RightRow(t, y, 0, rightValue);
    assert Sweep(s, 0) == Some(s);
    assert LastPivot(s) == 0.0;
  }

  /** Whenever the builder succeeds its second derivatives are the only ones whose spline
      is C1 at the interior knots and meets both boundary conditions. */
  lemma BuiltSplineUnique(t: seq<real>, y: seq<real>, leftFlag: int, leftValue: real,
                          rightFlag: int, rightValue: real, ypp: seq<real>, zpp: seq<real>)
    requires ValidBuild(t, y, leftFlag, rightFlag)
    requires NonzeroPivots(SplineSystem(t, y, leftFlag, leftValue, rightFlag, rightValue))
    requires |ypp| == |t| && |zpp| == |t|
    requires && (forall i :: 1 <= i < |t| - 1 ==> SlopeContinuousAt(t, y, ypp, i))
             && LeftCondition(t, y, ypp, leftFlag, leftValue)
             && RightCondition(t, y, ypp, rightFlag, rightValue)
    requires && (forall i :: 1 <= i < |t| - 1 ==> SlopeContinuousAt(t, y, zpp, i))
             && LeftCondition(t, y, zpp, leftFlag, leftValue)
             && RightCondition(t, y, zpp, rightFlag, rightValue)
    ensures ypp == zpp
  {
    var s := SplineSystem(t, y, leftFlag, leftValue, rightFlag, rightValue);
    SplineSystemMeaning(t, y, leftFlag, leftValue, rightFlag, rightValue, ypp);
    SplineSystemMeaning(t, y, leftFlag, leftValue, rightFlag, rightValue, zpp);
    SolutionUnique(s, ypp, zpp);
  }

  /** The swapped interior row admits a spline that is not C¹: on knots 0, 1, 3 with zero
      data, second derivatives 3, -1, 0 satisfy interior row 1, yet the two pieces meet at
      t[1] with slopes 1/6 and 2/3. */
  lemma AsWrittenInteriorRowBreaksC1()
    ensures var t, y, ypp := [0.0, 1.0, 3.0], [0.0, 0.0, 0.0], [3.0, -1.0, 0.0];
      && RowValue(InteriorRowAsWritten(t, y, 1), ypp, 1) == InteriorRowAsWritten(t, y, 1).b
      && PieceEval(t, y, ypp, 0, t[1], 1) == 1.0 / 6.0
      && PieceEval(t, y, ypp, 1, t[1], 1) == 2.0 / 3.0
      && !SlopeContinuousAt(t, y, ypp, 1)
  {
    var t, y, ypp := [0.0, 1.0, 3.0], [0.0, 0.0, 0.0], [3.0, -1.0, 0.0];
    SlopeAtRightKnot(t, y, ypp, 1);
    SlopeAtLeftKnot(t, y, ypp, 1);
  }

  /** On equally spaced knots the two widths are equal, so the row as written is the
      intended one. */
  lemma AsWrittenAgreesOnUniformKnots(t: seq<real>, y: seq<real>, i: int)
    requires 1 <= i < |t| - 1 && |t| <= |y| && StrictlyIncreasing(t)
    requires t[i + 1] - t[i] == t[i] - t[i - 1]
    ensures InteriorRowAsWritten(t, y, i) == InteriorRow(t, y, i)
  {
  }

  /** On equally spaced knots the source's system is the corrected one. */
  lemma AsWrittenSystemAgreesOnUniformKnots(t: seq<real>, y: seq<real>, leftFlag: int, leftValue: real,
                                            rightFlag: int, rightValue: real)
    requires ValidBuild(t, y, leftFlag, rightFlag)
    requires forall i :: 1 <= i < |t| - 1 ==> t[i + 1] - t[i] == t[i] - t[i - 1]
    ensures SplineSystemAsWritten(t, y, leftFlag, leftValue, rightFlag, rightValue)
         == SplineSystem(t, y, leftFlag, leftValue, rightFlag, rightValue)
  {
    var w := SplineSystemAsWritten(t, y, leftFlag, leftValue, rightFlag, rightValue);
    var c := SplineSystem(t, y, leftFlag, leftValue, rightFlag, rightValue);
    forall j | 0 <= j < |t| ensures RowOf(w, j) == RowOf(c, j) {
      if 1 <= j < |t| - 1 {
        AsWrittenAgreesOnUniformKnots(t, y, j);
      }
    }
    BandsFromRows(w, c);
  }

  /** The source's builder on knots 0, 1, 3 with zero data and end curvatures 3 and 0
      (flag 2 at both ends): its system has nonzero pivots and the single solution
      3, -1, 0, and the spline with those second derivatives is not C¹ at t[1]. */
  lemma AsWrittenBuildBreaksC1()
    ensures var t, y, ypp := [0.0, 1.0, 3.0], [0.0, 0.0, 0.0], [3.0, -1.0, 0.0];
      && ValidBuild(t, y, 2, 2)
      && NonzeroPivots(SplineSystemAsWritten(t, y, 2, 3.0, 2, 0.0))
      && Solves(SplineSystemAsWritten(t, y, 2, 3.0, 2, 0.0), ypp)
      && (forall x :: Solves(SplineSystemAsWritten(t, y, 2, 3.0, 2, 0.0), x) ==> x == ypp)
      && !SlopeContinuousAt(t, y, ypp, 1)
  {
    var t, y, ypp := [0.0, 1.0, 3.0], [0.0, 0.0, 0.0], [3.0, -1.0, 0.0];
    assert StrictlyIncreasing(t);
    var s := SplineSystemAsWritten(t, y, 2, 3.0, 2, 0.0);
    assert RowOf(s, 0) == Row(0.0, 0.0, 1.0, 0.0, 0.0, 3.0);
    assert RowOf(s, 1) == Row(0.0, 1.0 / 3.0, 1.0, 1.0 / 6.0, 0.0, 0.0);
    assert RowOf(s, 2) == Row(0.0, 0.0, 1.0, 0.0, 0.0, 0.0);
    assert Dominant(s);
    DominantHasNonzeroPivots(s);
    assert BandedRow(s, ypp, 1) == s.b[1];
    assert Solves(s, ypp);
    forall x | Solves(s, x) ensures x == ypp {
      SolutionUnique(s, x, ypp);
    }
    AsWrittenInteriorRowBreaksC1();
  }

  /** The corrected builder on the same input: its single solution is 3, -1/2, 0, and that
      spline is C¹ at t[1]. */
  lemma CorrectedBuildOnSameInput()
    ensures var t, y, ypp := [0.0, 1.0, 3.0], [0.0, 0.0, 0.0], [3.0, -0.5, 0.0];
      && ValidBuild(t, y, 2, 2)
      && NonzeroPivots(SplineSystem(t, y, 2, 3.0, 2, 0.0))
      && Solves(SplineSystem(t, y, 2, 3.0, 2, 0.0), ypp)
      && (forall x :: Solves(SplineSystem(t, y, 2, 3.0, 2, 0.0), x) ==> x == ypp)
      && SlopeContinuousAt(t, y, ypp, 1)
  {
    var t, y, ypp := [0.0, 1.0, 3.0], [0.0, 0.0, 0.0], [3.0, -0.5, 0.0];
    assert StrictlyIncreasing(t);
    var s := SplineSystem(t, y, 2, 3.0, 2, 0.0);
    assert RowOf(s, 0) == Row(0.0, 0.0, 1.0, 0.0, 0.0, 3.0);
    assert RowOf(s, 1) == Row(0.0, 1.0 / 6.0, 1.0, 1.0 / 3.0, 0.0, 0.0);
    assert RowOf(s, 2) == Row(0.0, 0.0, 1.0, 0.0, 0.0, 0.0);
    ClampedOrNaturalEndsSolvable(t, y, 2, 3.0, 2, 0.0);
    assert BandedRow(s, ypp, 1) == s.b[1];
    assert Solves(s, ypp);
    forall x | Solves(s, x) ensures x == ypp {
      SolutionUnique(s, x, ypp);
    }
    assert RowValue(InteriorRow(t, y, 1), ypp, 1) == InteriorRow(t, y, 1).b;
    InteriorRowMeansC1(t, y, ypp, 1);
  }

  // ---------------------------------------------------------------------------
  // The builder
  // ---------------------------------------------------------------------------

  /** Adjacent increases give an increasing sequence. */
  lemma {:induction false} IncreasingFromAdjacent(t: seq<real>)
    requires forall j :: 0 <= j < |t| - 1 ==> t[j] < t[j + 1]
    ensures StrictlyIncreasing(t)
    decreases |t|
  {
    if 2 <= |t| {
      var u := t[..|t| - 1];
      assert forall j :: 0 <= j < |u| - 1 ==> u[j] < u[j + 1];
      IncreasingFromAdjacent(u);
      forall i, j | 0 <= i < j < |t| ensures t[i] < t[j] {
        if j < |t| - 1 {
          assert u[i] < u[j];
        } else if i < j - 1 {
          assert u[i] < u[j - 1];
        }
      }
    }
  }

  /** Validates the knots and flags, assembles the system and solves it for the second
      derivatives at the knots. Boundary flags: 0 makes the end piece quadratic, 1 fixes
      the end slope, 2 fixes the end curvature, 3 is not-a-knot. */
  method SetSplineCubic(t: seq<real>, y: seq<real>, leftFlag: int, leftValue: real, rightFlag: int, rightValue: real)
    returns (r: Result<seq<real>, BuildError>)
    requires |t| <= |y|
    ensures r == Failure(TooFewKnots) <==> |t| < 2
    ensures r == Failure(KnotsNotIncreasing) <==> 2 <= |t| && !StrictlyIncreasing(t)
    ensures r == Failure(BadLeftFlag) <==> 2 <= |t| && StrictlyIncreasing(t) && !(0 <= leftFlag <= 3)
    ensures r == Failure(NotAKnotNeedsThreeKnots)
        <==> |t| == 2 && StrictlyIncreasing(t) && (leftFlag == 3 || (0 <= leftFlag <= 2 && rightFlag == 3))
    ensures r == Failure(BadRightFlag)
        <==> 2 <= |t| && StrictlyIncreasing(t) && 0 <= leftFlag <= 3 && (leftFlag == 3 ==> 3 <= |t|)
             && !(0 <= rightFlag <= 3)
    ensures r == Failure(SingularSystem)
        <==> ValidBuild(t, y, leftFlag, rightFlag)
             && !NonzeroPivots(SplineSystem(t, y, leftFlag, leftValue, rightFlag, rightValue))
    ensures r.Success?
        <==> ValidBuild(t, y, leftFlag, rightFlag)
             && NonzeroPivots(SplineSystem(t, y, leftFlag, leftValue, rightFlag, rightValue))
    ensures r.Success? ==> Solves(SplineSystem(t, y, leftFlag, leftValue, rightFlag, rightValue), r.value)
  {
    var n := |t|;
    if n < 2 {
      return Failure(TooFewKnots);
    }
    var increasing := KnotsIncrease(t);
    if !increasing {
      return Failure(KnotsNotIncreasing);
    }
    r := AssembleAndSolve(t, y, leftFlag, leftValue, rightFlag, rightValue);
  }

  /** Everything after the knot checks: fills the six buffers row by row, then solves. */
  method AssembleAndSolve(t: seq<real>, y: seq<real>, leftFlag: int, leftValue: real, rightFlag: int, rightValue: real)
    returns (r: Result<seq<real>, BuildError>)
    requires 2 <= |t| <= |y| && StrictlyIncreasing(t)
    ensures r == Failure(BadLeftFlag) <==> !(0 <= leftFlag <= 3)
    ensures r == Failure(NotAKnotNeedsThreeKnots) <==> |t| == 2 && (leftFlag == 3 || (0 <= leftFlag <= 2 && rightFlag == 3))
    ensures r == Failure(BadRightFlag)
        <==> 0 <= leftFlag <= 3 && (leftFlag == 3 ==> 3 <= |t|) && !(0 <= rightFlag <= 3)
    ensures r.Failure? && r.error != SingularSystem <==> !ValidBuild(t, y, leftFlag, rightFlag)
    ensures r == Failure(SingularSystem)
        <==> ValidBuild(t, y, leftFlag, rightFlag)
             && !NonzeroPivots(SplineSystem(t, y, leftFlag, leftValue, rightFlag, rightValue))
    ensures r.Success? ==> ValidBuild(t, y, leftFlag, rightFlag)
    ensures r.Success? ==> Solves(SplineSystem(t, y, leftFlag, leftValue, rightFlag, rightValue), r.value)
  {
    var err, a1, a2, a3, a4, a5, b := AssembleSystem(t, y, leftFlag, leftValue, rightFlag, rightValue);
    if err.Some? {
      return Failure(err.value);
    }
    r := SolveAssembled(a1, a2, a3, a4, a5, b);
  }

  /** Allocates the six zeroed buffers and fills the left, interior and right rows;
      on success the buffers hold exactly the spline system. */
  method AssembleSystem(t: seq<real>, y: seq<real>, leftFlag: int, leftValue: real, rightFlag: int, rightValue: real)
    returns (err: Option<BuildError>, a1: array<real>, a2: array<real>, a3: array<real>, a4: array<real>,
             a5: array<real>, b: array<real>)
    requires 2 <= |t| <= |y| && StrictlyIncreasing(t)
    ensures fresh(a1) && fresh(a2) && fresh(a3) && fresh(a4) && fresh(a5) && fresh(b)
    ensures Buffers(|t|, a1, a2, a3, a4, a5, b)
    ensures err == Some(BadLeftFlag) <==> !(0 <= leftFlag <= 3)
    ensures err == Some(NotAKnotNeedsThreeKnots) <==> |t| == 2 && (leftFlag == 3 || (0 <= leftFlag <= 2 && rightFlag == 3))
    ensures err == Some(BadRightFlag)
        <==> 0 <= leftFlag <= 3 && (leftFlag == 3 ==> 3 <= |t|) && !(0 <= rightFlag <= 3)
    ensures err.Some? ==> err.value != SingularSystem
    ensures err == None <==> ValidBuild(t, y, leftFlag, rightFlag)
    ensures err == None ==>
      Bands(a1[..], a2[..], a3[..], a4[..], a5[..], b[..]) == SplineSystem(t, y, leftFlag, leftValue, rightFlag, rightValue)
  {
    var n := |t|;
    a1 := new real[n](_ => 0.0);
    a2 := new real[n](_ => 0.0);
    a3 := new real[n](_ => 0.0);
    a4 := new real[n](_ => 0.0);
    a5 := new real[n](_ => 0.0);
    b := new real[n](_ => 0.0);

    err := FirstEquation(t, y, leftFlag, leftValue, a1, a2, a3, a4, a5, b);
    if err.Some? {
      return;
    }
    IntermediateEquations(t, y, a1, a2, a3, a4, a5, b);
    err := LastEquation(t, y, rightFlag, rightValue, a1, a2, a3, a4, a5, b);
    if err.Some? {
      return;
    }

    ghost var assembled := Bands(a1[..], a2[..], a3[..], a4[..], a5[..], b[..]);
    forall j | 0 <= j < n ensures RowOf(assembled, j) == RowAt(a1, a2, a3, a4, a5, b, j) {
    }
    AssembledIsSplineSystem(t, y, leftFlag, leftValue, rightFlag, rightValue, assembled);
  }

  /** Hands the assembled system to the solver, unless an elimination pivot is zero. */
  method SolveAssembled(a1: array<real>, a2: array<real>, a3: array<real>, a4: array<real>, a5: array<real>, b: array<real>)
    returns (r: Result<seq<real>, BuildError>)
    requires Buffers(b.Length, a1, a2, a3, a4, a5, b) && 2 <= b.Length
    modifies a2, a3, a4, b
    ensures r.Success? || r == Failure(SingularSystem)
    ensures r == Failure(SingularSystem) <==> !NonzeroPivots(old(Bands(a1[..], a2[..], a3[..], a4[..], a5[..], b[..])))
    ensures r.Success? ==> Solves(old(Bands(a1[..], a2[..], a3[..], a4[..], a5[..], b[..])), r.value)
    ensures r.Success? ==> Bands(a1[..], a2[..], a3[..], a4[..], a5[..], b[..])
                           == Eliminated(old(Bands(a1[..], a2[..], a3[..], a4[..], a5[..], b[..])))
    ensures r.Failure? ==> unchanged(a2, a3, a4, b)
  {
    if !NonzeroPivots(Bands(a1[..], a2[..], a3[..], a4[..], a5[..], b[..])) {
      return Failure(SingularSystem);
    }
    var ypp := Penta(a1, a2, a3, a4, a5, b);
    return Success(ypp[..]);
  }

  /** The knot check: every adjacent pair strictly increases. */
  method KnotsIncrease(t: seq<real>) returns (ok: bool)
    ensures ok <==> StrictlyIncreasing(t)
  {
    if |t| < 2 {
      return true;
    }
    for i := 0 to |t| - 1
      invariant forall j :: 0 <= j < i ==> t[j] < t[j + 1]
    {
      if t[i + 1] <= t[i] {
        return false;
      }
    }
    IncreasingFromAdjacent(t);
    return true;
  }

  /** Row j of the arrays being assembled. */
  function RowAt(a1: array<real>, a2: array<real>, a3: array<real>, a4: array<real>, a5: array<real>, b: array<real>, j: int): Row
    reads a1, a2, a3, a4, a5, b
    requires 0 <= j < a1.Length && j < a2.Length && j < a3.Length && j < a4.Length && j < a5.Length && j < b.Length
  {
    Row(a1[j], a2[j], a3[j], a4[j], a5[j], b[j])
  }

  /** Six distinct arrays of the order of the system. */
  predicate Buffers(n: int, a1: array<real>, a2: array<real>, a3: array<real>, a4: array<real>, a5: array<real>, b: array<real>) {
    && a1.Length == n && a2.Length == n && a3.Length == n && a4.Length == n && a5.Length == n && b.Length == n
    && a1 != a2 && a1 != a3 && a1 != a4 && a1 != a5 && a1 != b
    && a2 != a3 && a2 != a4 && a2 != a5 && a2 != b
    && a3 != a4 && a3 != a5 && a3 != b
    && a4 != a5 && a4 != b
    && a5 != b
  }

  /** The first equation, from the left boundary flag; indices other than 0 are left
      alone. An unknown flag, or flag 3 with only two knots, is an error. */
  method FirstEquation(t: seq<real>, y: seq<real>, flag: int, value: real,
                       a1: array<real>, a2: array<real>, a3: array<real>, a4: array<real>, a5: array<real>, b: array<real>)
    returns (err: Option<BuildError>)
    requires 2 <= |t| <= |y| && StrictlyIncreasing(t) && Buffers(|t|, a1, a2, a3, a4, a5, b)
    requires RowAt(a1, a2, a3, a4, a5, b, 0) == Row(0.0, 0.0, 0.0, 0.0, 0.0, 0.0)
    modifies a3, a4, a5, b
    ensures err == None <==> 0 <= flag <= 3 && (flag == 3 ==> 3 <= |t|)
    ensures err == Some(BadLeftFlag) <==> !(0 <= flag <= 3)
    ensures err == Some(NotAKnotNeedsThreeKnots) <==> flag == 3 && |t| < 3
    ensures err == None ==> RowAt(a1, a2, a3, a4, a5, b, 0) == LeftRow(t, y, flag, value)
    ensures forall j :: 1 <= j < |t| ==> RowAt(a1, a2, a3, a4, a5, b, j) == old(RowAt(a1, a2, a3, a4, a5, b, j))
  {
    var n := |t|;
    if flag == 0 {
      b[0] := 0.0;
      a3[0] := 1.0;
      a4[0] := -1.0;
    } else if flag == 1 {
      b[0] := (y[1] - y[0]) / (t[1] - t[0]) - value;
      a3[0] := (t[1] - t[0]) / 3.0;
      a4[0] := (t[1] - t[0]) / 6.0;
    } else if flag == 2 {
      b[0] := value;
      a3[0] := 1.0;
      a4[0] := 0.0;
    } else if flag == 3 {
      b[0] := 0.0;
      if n < 3 {
        return Some(NotAKnotNeedsThreeKnots);
      }
      a3[0] := -(t[2] - t[1]);
      a4[0] := t[2] - t[0];
      a5[0] := -(t[1] - t[0]);
    } else {
      return Some(BadLeftFlag);
    }
    return None;
  }

  /** The intermediate equations, rows 1..n-2; rows 0 and n-1 are left alone. */
  method IntermediateEquations(t: seq<real>, y: seq<real>,
                               a1: array<real>, a2: array<real>, a3: array<real>, a4: array<real>, a5: array<real>, b: array<real>)
    requires 2 <= |t| <= |y| && StrictlyIncreasing(t) && Buffers(|t|, a1, a2, a3, a4, a5, b)
    modifies a2, a3, a4, b
    ensures forall j :: 1 <= j < |t| - 1 ==>
      RowAt(a1, a2, a3, a4, a5, b, j) == old(RowAt(a1, a2, a3, a4, a5, b, j)).(a2 := InteriorRow(t, y, j).a2,
        a3 := InteriorRow(t, y, j).a3, a4 := InteriorRow(t, y, j).a4, b := InteriorRow(t, y, j).b)
    ensures RowAt(a1, a2, a3, a4, a5, b, 0) == old(RowAt(a1, a2, a3, a4, a5, b, 0))
    ensures RowAt(a1, a2, a3, a4, a5, b, |t| - 1) == old(RowAt(a1, a2, a3, a4, a5, b, |t| - 1))
  {
    var n := |t|;
    for i := 1 to n - 1
      invariant forall j :: 1 <= j < i ==>
        RowAt(a1, a2, a3, a4, a5, b, j) == old(RowAt(a1, a2, a3, a4, a5, b, j)).(a2 := InteriorRow(t, y, j).a2,
          a3 := InteriorRow(t, y, j).a3, a4 := InteriorRow(t, y, j).a4, b := InteriorRow(t, y, j).b)
      invariant forall j :: 0 <= j < n && !(1 <= j < i) ==>
        RowAt(a1, a2, a3, a4, a5, b, j) == old(RowAt(a1, a2, a3, a4, a5, b, j))
    {
      b[i] := (y[i + 1] - y[i]) / (t[i + 1] - t[i]) - (y[i] - y[i - 1]) / (t[i] - t[i - 1]);
      a2[i] := (t[i] - t[i - 1]) / 6.0;
      a3[i] := (t[i + 1] - t[i - 1]) / 3.0;
      a4[i] := (t[i + 1] - t[i]) / 6.0;
    }
  }

  /** The last equation, from the right boundary flag; indices other than n-1 are left
      alone. An unknown flag, or flag 3 with only two knots, is an error. */
  method LastEquation(t: seq<real>, y: seq<real>, flag: int, value: real,
                      a1: array<real>, a2: array<real>, a3: array<real>, a4: array<real>, a5: array<real>, b: array<real>)
    returns (err: Option<BuildError>)
    requires 2 <= |t| <= |y| && StrictlyIncreasing(t) && Buffers(|t|, a1, a2, a3, a4, a5, b)
    requires RowAt(a1, a2, a3, a4, a5, b, |t| - 1) == Row(0.0, 0.0, 0.0, 0.0, 0.0, 0.0)
    modifies a1, a2, a3, b
    ensures err == None <==> 0 <= flag <= 3 && (flag == 3 ==> 3 <= |t|)
    ensures err == Some(BadRightFlag) <==> !(0 <= flag <= 3)
    ensures err == Some(NotAKnotNeedsThreeKnots) <==> flag == 3 && |t| < 3
    ensures err == None ==> RowAt(a1, a2, a3, a4, a5, b, |t| - 1) == RightRow(t, y, flag, value)
    ensures forall j :: 0 <= j < |t| - 1 ==> RowAt(a1, a2, a3, a4, a5, b, j) == old(RowAt(a1, a2, a3, a4, a5, b, j))
  {
    var n := |t|;
    if flag == 0 {
      b[n - 1] := 0.0;
      a2[n - 1] := -1.0;
      a3[n - 1] := 1.0;
    } else if flag == 1 {
      b[n - 1] := value - (y[n - 1] - y[n - 2]) / (t[n - 1] - t[n - 2]);
      a2[n - 1] := (t[n - 1] - t[n - 2]) / 6.0;
      a3[n - 1] := (t[n - 1] - t[n - 2]) / 3.0;
    } else if flag == 2 {
      b[n - 1] := value;
      a2[n - 1] := 0.0;
      a3[n - 1] := 1.0;
    } else if flag == 3 {
      b[n - 1] := 0.0;
      if n < 3 {
        return Some(NotAKnotNeedsThreeKnots);
      }
      a1[n - 1] := -(t[n - 1] - t[n - 2]);
      a2[n - 1] := t[n - 1] - t[n - 3];
      a3[n - 1] := -(t[n - 2] - t[n - 3]);
    } else {
      return Some(BadRightFlag);
    }
    return None;
  }

  /** Bands whose first row is the left row, whose last row is the right row and whose
      other rows are interior rows are the spline system. */
  lemma AssembledIsSplineSystem(t: seq<real>, y: seq<real>, leftFlag: int, leftValue: real,
                                rightFlag: int, rightValue: real, s: Bands)
    requires ValidBuild(t, y, leftFlag, rightFlag) && Shaped(s) && |s.b| == |t|
    requires |s.a1| == |s.a2| == |s.a3| == |s.a4| == |s.a5| == |t|
    requires RowOf(s, 0) == LeftRow(t, y, leftFlag, leftValue)
    requires RowOf(s, |t| - 1) == RightRow(t, y, rightFlag, rightValue)
    requires forall j :: 1 <= j < |t| - 1 ==> RowOf(s, j) == InteriorRow(t, y, j)
    ensures s == SplineSystem(t, y, leftFlag, leftValue, rightFlag, rightValue)
  {
    var sys := SplineSystem(t, y, leftFlag, leftValue, rightFlag, rightValue);
    forall j | 0 <= j < |t| ensures RowOf(s, j) == RowOf(sys, j) {
      assert RowOf(sys, j) == SystemRow(t, y, leftFlag, leftValue, rightFlag, rightValue, j);
    }
    BandsFromRows(s, sys);
  }

  /** Two systems of the same order with the same rows are the same system. */
  lemma BandsFromRows(s: Bands, r: Bands)
    requires Shaped(s) && Shaped(r) && |s.b| == |r.b|
    requires |s.a1| == |s.a2| == |s.a3| == |s.a4| == |s.a5| == |s.b|
    requires |r.a1| == |r.a2| == |r.a3| == |r.a4| == |r.a5| == |r.b|
    requires forall j :: 0 <= j < |s.b| ==> RowOf(s, j) == RowOf(r, j)
    ensures s == r
  {
    assert s.a1 == r.a1 by { forall j | 0 <= j < |s.b| ensures s.a1[j] == r.a1[j] { assert RowOf(s, j) == RowOf(r, j); } }
    assert s.a2 == r.a2 by { forall j | 0 <= j < |s.b| ensures s.a2[j] == r.a2[j] { assert RowOf(s, j) == RowOf(r, j); } }
    assert s.a3 == r.a3 by { forall j | 0 <= j < |s.b| ensures s.a3[j] == r.a3[j] { assert RowOf(s, j) == RowOf(r, j); } }
    assert s.a4 == r.a4 by { forall j | 0 <= j < |s.b| ensures s.a4[j] == r.a4[j] { assert RowOf(s, j) == RowOf(r, j); } }
    assert s.a5 == r.a5 by { forall j | 0 <= j < |s.b| ensures s.a5[j] == r.a5[j] { assert RowOf(s, j) == RowOf(r, j); } }
    assert s.b == r.b by { forall j | 0 <= j < |s.b| ensures s.b[j] == r.b[j] { assert RowOf(s, j) == RowOf(r, j); } }
  }
}
