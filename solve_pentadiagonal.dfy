/** Solving a pentadiagonal linear system by banded Gaussian elimination without
    pivoting, followed by back substitution. */
module SolvePentadiagonal {
  import opened Wrappers

  /** The bands and right-hand side of a system of order n = |b|; row i reads
      a1[i]·x[i-2] + a2[i]·x[i-1] + a3[i]·x[i] + a4[i]·x[i+1] + a5[i]·x[i+2] = b[i],
      where a term whose column lies outside 0..n-1 is absent. */
  datatype Bands = Bands(a1: seq<real>, a2: seq<real>, a3: seq<real>, a4: seq<real>, a5: seq<real>, b: seq<real>)

  /** At least two rows, and every band at least as long as the right-hand side. */
  predicate Shaped(s: Bands) {
    && 2 <= |s.b|
    && |s.b| <= |s.a1| && |s.b| <= |s.a2| && |s.b| <= |s.a3| && |s.b| <= |s.a4| && |s.b| <= |s.a5|
  }

  /** Both systems have bands of the same lengths. */
  predicate SameShape(s: Bands, r: Bands) {
    && |r.a1| == |s.a1| && |r.a2| == |s.a2| && |r.a3| == |s.a3|
    && |r.a4| == |s.a4| && |r.a5| == |s.a5| && |r.b| == |s.b|
  }

  /** A band entry times the unknown in column `col`, or nothing outside the matrix. */
  function Term(c: real, x: seq<real>, col: int): real {
    if 0 <= col < |x| then c * x[col] else 0.0
  }

  /** The left-hand side of row i of the system. */
  function BandedRow(s: Bands, x: seq<real>, i: int): real
    requires Shaped(s) && |x| == |s.b| && 0 <= i < |s.b|
  {
    Term(s.a1[i], x, i - 2) + Term(s.a2[i], x, i - 1) + Term(s.a3[i], x, i)
      + Term(s.a4[i], x, i + 1) + Term(s.a5[i], x, i + 2)
  }

  /** x solves the banded system. */
  predicate Solves(s: Bands, x: seq<real>)
    requires Shaped(s)
  {
    |x| == |s.b| && forall i :: 0 <= i < |s.b| ==> BandedRow(s, x, i) == s.b[i]
  }

  /** Row i once the first k elimination steps have run: the sub-diagonal entries they
      eliminated (a2 in rows up to k, a1 in rows up to k + 1) count as zero, although
      the arrays still hold their old values. */
  function ReducedRow(s: Bands, k: int, x: seq<real>, i: int): real
    requires Shaped(s) && |x| == |s.b| && 0 <= i < |s.b|
  {
    (if i >= k + 2 then Term(s.a1[i], x, i - 2) else 0.0)
      + (if i >= k + 1 then Term(s.a2[i], x, i - 1) else 0.0)
      + Term(s.a3[i], x, i) + Term(s.a4[i], x, i + 1) + Term(s.a5[i], x, i + 2)
  }

  predicate SolvesReduced(s: Bands, k: int, x: seq<real>)
    requires Shaped(s)
  {
    |x| == |s.b| && forall i :: 0 <= i < |s.b| ==> ReducedRow(s, k, x, i) == s.b[i]
  }

  /** Elimination step i (1 <= i <= n-2): row i-1 clears the a2 entry of row i and the
      a1 entry of row i+1. */
  function Step(s: Bands, i: int): (r: Bands)
    requires Shaped(s) && 1 <= i <= |s.b| - 2 && s.a3[i - 1] != 0.0
    ensures Shaped(r) && SameShape(s, r)
  {
    var m := s.a2[i] / s.a3[i - 1];
    var m2 := s.a1[i + 1] / s.a3[i - 1];
    s.(a2 := s.a2[i + 1 := s.a2[i + 1] - m2 * s.a4[i - 1]],
       a3 := s.a3[i := s.a3[i] - m * s.a4[i - 1]][i + 1 := s.a3[i + 1] - m2 * s.a5[i - 1]],
       a4 := s.a4[i := s.a4[i] - m * s.a5[i - 1]],
       b := s.b[i := s.b[i] - m * s.b[i - 1]][i + 1 := s.b[i + 1] - m2 * s.b[i - 1]])
  }

  /** The first k elimination steps, or None when one of them meets a zero pivot. */
  function Sweep(s: Bands, k: nat): (r: Option<Bands>)
    requires Shaped(s) && k <= |s.b| - 2
    ensures r.Some? ==> Shaped(r.value) && SameShape(s, r.value)
    decreases k
  {
    if k == 0 then Some(s)
    else
      match Sweep(s, k - 1)
      case None => None
      case Some(u) => if u.a3[k - 1] == 0.0 then None else Some(Step(u, k))
  }

  /** The diagonal entry of the last row once its a2 entry is eliminated by row n-2. */
  function LastPivot(u: Bands): real
    requires Shaped(u) && u.a3[|u.b| - 2] != 0.0
  {
    var n := |u.b|;
    u.a3[n - 1] - u.a2[n - 1] / u.a3[n - 2] * u.a4[n - 2]
  }

  /** Every pivot the elimination divides by is nonzero. */
  predicate NonzeroPivots(s: Bands) {
    && Shaped(s)
    && var u := Sweep(s, |s.b| - 2);
    && u.Some?
    && u.value.a3[|s.b| - 2] != 0.0
    && LastPivot(u.value) != 0.0
  }

  /** The swept system with the last row's diagonal entry reduced by row n-2. */
  function ReduceLast(u: Bands): (e: Bands)
    requires Shaped(u) && u.a3[|u.b| - 2] != 0.0
    ensures Shaped(e) && SameShape(u, e)
  {
    u.(a3 := u.a3[|u.b| - 1 := LastPivot(u)])
  }

  /** The bands as the solver leaves them. */
  function Eliminated(s: Bands): (e: Bands)
    requires NonzeroPivots(s)
    ensures Shaped(e) && SameShape(s, e)
  {
    ReduceLast(Sweep(s, |s.b| - 2).value)
  }

  /** x solves the upper-triangular system the elimination leaves in e: the last row,
      whose x[n-2] entry is eliminated with the multiplier a2[n-1]/a3[n-2] (b[n-1] itself
      is not updated), the row n-2, and rows 0..n-3 with their three upper entries. */
  predicate BackSubstituted(e: Bands, x: seq<real>)
    requires Shaped(e) && e.a3[|e.b| - 2] != 0.0
  {
    var n := |e.b|;
    && |x| == n
    && LastRowsHold(e, x)
    && forall i :: 0 <= i < n - 2 ==> UpperRowHolds(e, x, i)
  }

  /** The last row and row n-2 of the upper-triangular system hold at x. */
  predicate LastRowsHold(e: Bands, x: seq<real>)
    requires Shaped(e) && e.a3[|e.b| - 2] != 0.0 && |x| == |e.b|
  {
    var n := |e.b|;
    && e.a3[n - 1] * x[n - 1] == e.b[n - 1] - e.a2[n - 1] / e.a3[n - 2] * e.b[n - 2]
    && e.a3[n - 2] * x[n - 2] + e.a4[n - 2] * x[n - 1] == e.b[n - 2]
  }

  /** Row i < n-2 of the upper-triangular system holds at x. */
  predicate UpperRowHolds(e: Bands, x: seq<real>, i: int)
    requires Shaped(e) && |x| == |e.b| && 0 <= i < |e.b| - 2
  {
    e.a3[i] * x[i] + e.a4[i] * x[i + 1] + e.a5[i] * x[i + 2] == e.b[i]
  }

  // ---------------------------------------------------------------------------
  // Properties of the elimination
  // ---------------------------------------------------------------------------

  /** Before any step, the reduced system is the banded system itself. */
  lemma ReducedZeroIsBanded(s: Bands, x: seq<real>)
    requires Shaped(s) && |x| == |s.b|
    ensures SolvesReduced(s, 0, x) <==> Solves(s, x)
  {
    assert forall i :: 0 <= i < |s.b| ==> ReducedRow(s, 0, x, i) == BandedRow(s, x, i);
  }

  /** Subtracting m = c/p times the pivot row p·x0 + q4·x1 + q5·x2 from a row
      c·x0 + r3·x1 + r4·x2 + rest removes its x0 term. */
  lemma SubtractPivotRow(p: real, q4: real, q5: real, c: real, r3: real, r4: real, rest: real,
                         x0: real, x1: real, x2: real)
    requires p != 0.0
    ensures var m := c / p;
      (r3 - m * q4) * x1 + (r4 - m * q5) * x2 + rest
        == (c * x0 + r3 * x1 + r4 * x2 + rest) - m * (p * x0 + q4 * x1 + q5 * x2)
  {
    var m := c / p;
    assert m * p == c;
    assert m * (p * x0) == c * x0;
  }

  /** Step i replaces row i by row i minus m times row i-1, with m = a2[i]/a3[i-1]. */
  lemma StepRowPivot(s: Bands, i: int, x: seq<real>)
    requires Shaped(s) && 1 <= i <= |s.b| - 2 && s.a3[i - 1] != 0.0 && |x| == |s.b|
    ensures var r := Step(s, i); var m := s.a2[i] / s.a3[i - 1];
      && ReducedRow(r, i, x, i) == ReducedRow(s, i - 1, x, i) - m * ReducedRow(s, i - 1, x, i - 1)
      && r.b[i] == s.b[i] - m * s.b[i - 1]
  {
    var r := Step(s, i);
    var m := s.a2[i] / s.a3[i - 1];
    assert r.a3[i] == s.a3[i] - m * s.a4[i - 1];
    assert r.a4[i] == s.a4[i] - m * s.a5[i - 1];
    assert r.a5 == s.a5;
    var rest := Term(s.a5[i], x, i + 2);
    assert ReducedRow(s, i - 1, x, i - 1) == s.a3[i - 1] * x[i - 1] + s.a4[i - 1] * x[i] + s.a5[i - 1] * x[i + 1];
    assert ReducedRow(s, i - 1, x, i) == s.a2[i] * x[i - 1] + s.a3[i] * x[i] + s.a4[i] * x[i + 1] + rest;
    assert ReducedRow(r, i, x, i) == r.a3[i] * x[i] + r.a4[i] * x[i + 1] + rest;
    SubtractPivotRow(s.a3[i - 1], s.a4[i - 1], s.a5[i - 1], s.a2[i], s.a3[i], s.a4[i], rest, x[i - 1], x[i], x[i + 1]);
  }

  /** Step i replaces row i+1 by row i+1 minus m2 times row i-1, with m2 = a1[i+1]/a3[i-1]. */
  lemma StepRowNext(s: Bands, i: int, x: seq<real>)
    requires Shaped(s) && 1 <= i <= |s.b| - 2 && s.a3[i - 1] != 0.0 && |x| == |s.b|
    ensures var r := Step(s, i); var m2 := s.a1[i + 1] / s.a3[i - 1];
      && ReducedRow(r, i, x, i + 1) == ReducedRow(s, i - 1, x, i + 1) - m2 * ReducedRow(s, i - 1, x, i - 1)
      && r.b[i + 1] == s.b[i + 1] - m2 * s.b[i - 1]
  {
    var r := Step(s, i);
    var m2 := s.a1[i + 1] / s.a3[i - 1];
    assert r.a2[i + 1] == s.a2[i + 1] - m2 * s.a4[i - 1];
    assert r.a3[i + 1] == s.a3[i + 1] - m2 * s.a5[i - 1];
    assert r.a4[i + 1] == s.a4[i + 1] && r.a5 == s.a5;
    var rest := Term(s.a4[i + 1], x, i + 2) + Term(s.a5[i + 1], x, i + 3);
    assert ReducedRow(s, i - 1, x, i - 1) == s.a3[i - 1] * x[i - 1] + s.a4[i - 1] * x[i] + s.a5[i - 1] * x[i + 1];
    assert ReducedRow(s, i - 1, x, i + 1)
        == s.a1[i + 1] * x[i - 1] + s.a2[i + 1] * x[i] + s.a3[i + 1] * x[i + 1] + rest;
    assert ReducedRow(r, i, x, i + 1) == r.a2[i + 1] * x[i] + r.a3[i + 1] * x[i + 1] + rest;
    SubtractPivotRow(s.a3[i - 1], s.a4[i - 1], s.a5[i - 1], s.a1[i + 1], s.a2[i + 1], s.a3[i + 1], rest, x[i - 1], x[i], x[i + 1]);
  }

  /** Step i leaves every row other than i and i+1 as it was. */
  lemma StepRowOther(s: Bands, i: int, x: seq<real>, j: int)
    requires Shaped(s) && 1 <= i <= |s.b| - 2 && s.a3[i - 1] != 0.0 && |x| == |s.b|
    requires 0 <= j < |s.b| && j != i && j != i + 1
    ensures ReducedRow(Step(s, i), i, x, j) == ReducedRow(s, i - 1, x, j)
    ensures Step(s, i).b[j] == s.b[j]
  {
  }

  /** One elimination step neither adds nor loses solutions. */
  lemma StepPreservesSolutions(s: Bands, i: int, x: seq<real>)
    requires Shaped(s) && 1 <= i <= |s.b| - 2 && s.a3[i - 1] != 0.0 && |x| == |s.b|
    ensures SolvesReduced(Step(s, i), i, x) <==> SolvesReduced(s, i - 1, x)
  {
    if SolvesReduced(s, i - 1, x) {
      StepKeepsSolution(s, i, x);
    }
    if SolvesReduced(Step(s, i), i, x) {
      StepRestoresSolution(s, i, x);
    }
  }

  /** One direction of `StepPreservesSolutions`. */
  lemma StepKeepsSolution(s: Bands, i: int, x: seq<real>)
    requires Shaped(s) && 1 <= i <= |s.b| - 2 && s.a3[i - 1] != 0.0 && |x| == |s.b|
    requires SolvesReduced(s, i - 1, x)
    ensures SolvesReduced(Step(s, i), i, x)
  {
    var r := Step(s, i);
    StepRowPivot(s, i, x);
    StepRowNext(s, i, x);
    StepRowOther(s, i, x, i - 1);
    var m, m2 := s.a2[i] / s.a3[i - 1], s.a1[i + 1] / s.a3[i - 1];
    var p, q, w := ReducedRow(s, i - 1, x, i - 1), ReducedRow(s, i - 1, x, i), ReducedRow(s, i - 1, x, i + 1);
    assert p == s.b[i - 1] && q == s.b[i] && w == s.b[i + 1];
    assert ReducedRow(r, i, x, i) == q - m * p;
    assert ReducedRow(r, i, x, i + 1) == w - m2 * p;
    forall j | 0 <= j < |s.b| ensures ReducedRow(r, i, x, j) == r.b[j] {
      if j != i && j != i + 1 {
        StepRowOther(s, i, x, j);
      }
    }
  }

  /** The other direction of `StepPreservesSolutions`. */
  lemma StepRestoresSolution(s: Bands, i: int, x: seq<real>)
    requires Shaped(s) && 1 <= i <= |s.b| - 2 && s.a3[i - 1] != 0.0 && |x| == |s.b|
    requires SolvesReduced(Step(s, i), i, x)
    ensures SolvesReduced(s, i - 1, x)
  {
    var r := Step(s, i);
    StepRowPivot(s, i, x);
    StepRowNext(s, i, x);
    StepRowOther(s, i, x, i - 1);
    var m, m2 := s.a2[i] / s.a3[i - 1], s.a1[i + 1] / s.a3[i - 1];
    var p, q, w := ReducedRow(s, i - 1, x, i - 1), ReducedRow(s, i - 1, x, i), ReducedRow(s, i - 1, x, i + 1);
    assert p == s.b[i - 1];
    assert q - m * p == s.b[i] - m * s.b[i - 1];
    assert w - m2 * p == s.b[i + 1] - m2 * s.b[i - 1];
    forall j | 0 <= j < |s.b| ensures ReducedRow(s, i - 1, x, j) == s.b[j] {
      if j != i && j != i + 1 {
        StepRowOther(s, i, x, j);
      }
    }
  }


  /** The first k steps neither add nor lose solutions of the original system. */
  lemma {:induction false} SweepPreservesSolutions(s: Bands, k: nat, x: seq<real>)
    requires Shaped(s) && k <= |s.b| - 2 && Sweep(s, k).Some? && |x| == |s.b|
    ensures SolvesReduced(Sweep(s, k).value, k, x) <==> Solves(s, x)
    decreases k
  {
    if k == 0 {
      ReducedZeroIsBanded(s, x);
    } else {
      var u := Sweep(s, k - 1).value;
      SweepPreservesSolutions(s, k - 1, x);
      StepPreservesSolutions(u, k, x);
    }
  }

  /** A completed sweep of k steps is step k applied to the sweep of k - 1 steps. */
  lemma SweepNext(s: Bands, k: nat, m: nat)
    requires Shaped(s) && 1 <= k <= m <= |s.b| - 2 && Sweep(s, m).Some?
    ensures Sweep(s, k - 1).Some? && Sweep(s, k - 1).value.a3[k - 1] != 0.0
    ensures Sweep(s, k) == Some(Step(Sweep(s, k - 1).value, k))
  {
    SweepPrefix(s, k, m);
  }

  /** A sweep that completes k steps completed each shorter prefix of them. */
  lemma {:induction false} SweepPrefix(s: Bands, j: nat, k: nat)
    requires Shaped(s) && j <= k <= |s.b| - 2 && Sweep(s, k).Some?
    ensures Sweep(s, j).Some?
    decreases k
  {
    if j < k {
      SweepPrefix(s, j, k - 1);
    }
  }

  /** Step k reads the pivot a3[k-1] and writes only rows k and k+1, so after k steps the
      diagonal entries of rows 0..k-1 are nonzero. */
  lemma {:induction false} SweepPivots(s: Bands, k: nat)
    requires Shaped(s) && k <= |s.b| - 2 && Sweep(s, k).Some?
    ensures forall j :: 0 <= j < k ==> Sweep(s, k).value.a3[j] != 0.0
    decreases k
  {
    if k > 0 {
      SweepPivots(s, k - 1);
    }
  }

  /** The sweep never writes a1, a5, row 0, a2[0], a2[1] or a4[n-1]. */
  lemma {:induction false} SweepLeavesUntouched(s: Bands, k: nat)
    requires Shaped(s) && k <= |s.b| - 2 && Sweep(s, k).Some?
    ensures var u := Sweep(s, k).value; var n := |s.b|;
      && u.a1 == s.a1 && u.a5 == s.a5
      && u.a3[0] == s.a3[0] && u.a4[0] == s.a4[0] && u.b[0] == s.b[0]
      && u.a2[0] == s.a2[0] && u.a2[1] == s.a2[1] && u.a4[n - 1] == s.a4[n - 1]
    decreases k
  {
    if k > 0 {
      SweepLeavesUntouched(s, k - 1);
    }
  }

  /** The last row reduced by row n-2: its x[n-2] term cancels. */
  lemma LastRowReduced(u: Bands, x: seq<real>)
    requires Shaped(u) && u.a3[|u.b| - 2] != 0.0 && |x| == |u.b|
    ensures var n := |u.b|; var m := u.a2[n - 1] / u.a3[n - 2];
      LastPivot(u) * x[n - 1]
        == ReducedRow(u, n - 2, x, n - 1) - m * ReducedRow(u, n - 2, x, n - 2)
  {
    var n := |u.b|;
    assert ReducedRow(u, n - 2, x, n - 1) == u.a2[n - 1] * x[n - 2] + u.a3[n - 1] * x[n - 1];
    assert ReducedRow(u, n - 2, x, n - 2) == u.a3[n - 2] * x[n - 2] + u.a4[n - 2] * x[n - 1];
    SubtractPivotRow(u.a3[n - 2], u.a4[n - 2], 0.0, u.a2[n - 1], u.a3[n - 1], 0.0, 0.0, x[n - 2], x[n - 1], 0.0);
  }

  /** Above the last row, the reduced rows are the upper-triangular rows. */
  lemma UpperRow(u: Bands, x: seq<real>, i: int)
    requires Shaped(u) && |x| == |u.b| && 0 <= i < |u.b| - 1
    ensures i == |u.b| - 2 ==> ReducedRow(u, i, x, i) == u.a3[i] * x[i] + u.a4[i] * x[i + 1]
    ensures i < |u.b| - 2 ==>
      ReducedRow(u, |u.b| - 2, x, i) == u.a3[i] * x[i] + u.a4[i] * x[i + 1] + u.a5[i] * x[i + 2]
  {
  }

  /** The last-row equation in either form, given the row n-2 equation. */
  lemma LastRowEquivalent(qx: real, m: real, r1: real, r2: real, b1: real, b2: real)
    requires qx == r1 - m * r2 && r2 == b2
    ensures qx == b1 - m * b2 <==> r1 == b1
  {
  }

  /** With the sweep done, the upper-triangular equations and the reduced system have the
      same solutions: the reduced last row is the last row minus a multiple of row n-2. */
  lemma BackSubstitutedIffReduced(u: Bands, x: seq<real>)
    requires Shaped(u) && u.a3[|u.b| - 2] != 0.0 && |x| == |u.b|
    ensures BackSubstituted(ReduceLast(u), x) <==> SolvesReduced(u, |u.b| - 2, x)
  {
    if BackSubstituted(ReduceLast(u), x) {
      BackSubstitutedGivesReduced(u, x);
    }
    if SolvesReduced(u, |u.b| - 2, x) {
      ReducedGivesBackSubstituted(u, x);
    }
  }

  /** One direction of `BackSubstitutedIffReduced`. */
  lemma BackSubstitutedGivesReduced(u: Bands, x: seq<real>)
    requires Shaped(u) && u.a3[|u.b| - 2] != 0.0 && |x| == |u.b|
    requires BackSubstituted(ReduceLast(u), x)
    ensures SolvesReduced(u, |u.b| - 2, x)
  {
    var n := |u.b|;
    var e := ReduceLast(u);
    var m := u.a2[n - 1] / u.a3[n - 2];
    var r1 := ReducedRow(u, n - 2, x, n - 1);
    var r2 := ReducedRow(u, n - 2, x, n - 2);
    assert e.a3[n - 1] == LastPivot(u);
    LastRowReduced(u, x);
    UpperRow(u, x, n - 2);
    LastRowEquivalent(LastPivot(u) * x[n - 1], m, r1, r2, u.b[n - 1], u.b[n - 2]);
    forall i | 0 <= i < n ensures ReducedRow(u, n - 2, x, i) == u.b[i] {
      if i < n - 2 {
        UpperRow(u, x, i);
        assert UpperRowHolds(e, x, i);
      }
    }
  }

  /** The other direction of `BackSubstitutedIffReduced`. */
  lemma ReducedGivesBackSubstituted(u: Bands, x: seq<real>)
    requires Shaped(u) && u.a3[|u.b| - 2] != 0.0 && |x| == |u.b|
    requires SolvesReduced(u, |u.b| - 2, x)
    ensures BackSubstituted(ReduceLast(u), x)
  {
    var n := |u.b|;
    var e := ReduceLast(u);
    var m := u.a2[n - 1] / u.a3[n - 2];
    var r1 := ReducedRow(u, n - 2, x, n - 1);
    var r2 := ReducedRow(u, n - 2, x, n - 2);
    assert e.a3[n - 1] == LastPivot(u);
    LastRowReduced(u, x);
    UpperRow(u, x, n - 2);
    assert r1 == u.b[n - 1];
    assert r2 == u.b[n - 2];
    LastRowEquivalent(LastPivot(u) * x[n - 1], m, r1, r2, u.b[n - 1], u.b[n - 2]);
    forall i | 0 <= i < n - 2 ensures UpperRowHolds(e, x, i) {
      UpperRow(u, x, i);
    }
  }


  /** The eliminated system has exactly the solutions of the original one. */
  lemma EliminatedSolutions(s: Bands, x: seq<real>)
    requires NonzeroPivots(s) && |x| == |s.b|
    ensures BackSubstituted(Eliminated(s), x) <==> Solves(s, x)
  {
    var u := Sweep(s, |s.b| - 2).value;
    assert Eliminated(s) == ReduceLast(u);
    SweepPreservesSolutions(s, |s.b| - 2, x);
    BackSubstitutedIffReduced(u, x);
  }

  /** Every diagonal entry the back substitution divides by is nonzero. */
  lemma EliminatedPivots(s: Bands)
    requires NonzeroPivots(s)
    ensures forall i :: 0 <= i < |s.b| ==> Eliminated(s).a3[i] != 0.0
  {
    SweepPivots(s, |s.b| - 2);
  }

  /** Dividing by a nonzero q and multiplying back by it is the identity. */
  lemma DivCancel(q: real, v: real)
    requires q != 0.0
    ensures q * (v / q) == v
  {
  }

  /** With every diagonal entry nonzero, back substitution has at most one solution. */
  lemma {:induction false} BackSubstitutionUnique(e: Bands, x: seq<real>, z: seq<real>, j: int)
    requires Shaped(e) && forall i :: 0 <= i < |e.b| ==> e.a3[i] != 0.0
    requires BackSubstituted(e, x) && BackSubstituted(e, z)
    requires 0 <= j <= |e.b| - 1
    ensures forall i :: j <= i < |e.b| ==> x[i] == z[i]
    decreases |e.b| - j
  {
    var n := |e.b|;
    var p := e.a3[j];
    assert LastRowsHold(e, x) && LastRowsHold(e, z);
    if j == n - 1 {
      assert p * x[j] == p * z[j];
    } else {
      BackSubstitutionUnique(e, x, z, j + 1);
      if j == n - 2 {
        assert p * x[j] == p * z[j];
      } else {
        assert UpperRowHolds(e, x, j) && UpperRowHolds(e, z, j);
        assert p * x[j] == p * z[j];
      }
    }
  }

  /** A system whose pivots are all nonzero has exactly the one solution. */
  lemma SolutionUnique(s: Bands, x: seq<real>, z: seq<real>)
    requires NonzeroPivots(s) && Solves(s, x) && Solves(s, z)
    ensures x == z
  {
    EliminatedSolutions(s, x);
    EliminatedSolutions(s, z);
    EliminatedPivots(s);
    BackSubstitutionUnique(Eliminated(s), x, z, 0);
  }

  /** A tridiagonal system (a1 and a5 zero) whose off-diagonal entries are nonnegative
      and whose every diagonal entry strictly exceeds the sum of its row's off-diagonal
      entries. */
  predicate Dominant(s: Bands) {
    && Shaped(s)
    && forall i :: 0 <= i < |s.b| ==>
         && s.a1[i] == 0.0 && s.a5[i] == 0.0 && 0.0 <= s.a2[i] && 0.0 <= s.a4[i]
         && s.a2[i] + s.a4[i] < s.a3[i]
  }

  /** A multiplier a4/p below one scales a nonnegative a2 to at most a2. */
  lemma ScaledBelow(a2: real, a4: real, p: real)
    requires 0.0 <= a2 && 0.0 <= a4 < p
    ensures a2 / p * a4 <= a2
  {
    assert a2 / p * a4 * p == a2 * a4;
    assert a2 * a4 <= a2 * p;
  }

  /** On a dominant system the first k steps all succeed, leave every band but a3 as it
      was, leave a3 alone beyond row k, and bring a3[k] down by at most a2[k]. */
  lemma {:induction false} DominantSweep(s: Bands, k: nat)
    requires Dominant(s) && k <= |s.b| - 2
    ensures Sweep(s, k).Some?
    ensures var u := Sweep(s, k).value;
      && u.a1 == s.a1 && u.a2 == s.a2 && u.a4 == s.a4 && u.a5 == s.a5
      && (forall j :: k < j < |s.b| ==> u.a3[j] == s.a3[j])
      && s.a3[k] - s.a2[k] <= u.a3[k]
    decreases k
  {
    if k > 0 {
      DominantSweep(s, k - 1);
      var u := Sweep(s, k - 1).value;
      var p := u.a3[k - 1];
      assert s.a4[k - 1] < p;
      DominantStep(s, u, k);
    }
  }

  /** One step of the sweep on a dominant system, for `DominantSweep`. */
  lemma DominantStep(s: Bands, u: Bands, k: int)
    requires Dominant(s) && 1 <= k <= |s.b| - 2 && SameShape(s, u)
    requires u.a1 == s.a1 && u.a2 == s.a2 && u.a4 == s.a4 && u.a5 == s.a5
    requires forall j :: k - 1 < j < |s.b| ==> u.a3[j] == s.a3[j]
    requires s.a4[k - 1] < u.a3[k - 1]
    ensures u.a3[k - 1] != 0.0
    ensures var r := Step(u, k);
      && r.a1 == s.a1 && r.a2 == s.a2 && r.a4 == s.a4 && r.a5 == s.a5
      && (forall j :: k < j < |s.b| ==> r.a3[j] == s.a3[j])
      && s.a3[k] - s.a2[k] <= r.a3[k]
  {
    var p := u.a3[k - 1];
    assert 0.0 <= s.a4[k - 1];
    var r := Step(u, k);
    assert u.a1[k + 1] / p == 0.0;
    assert u.a5[k - 1] == 0.0;
    assert r.a2 == s.a2 by {
      forall j | 0 <= j < |s.a2| ensures r.a2[j] == s.a2[j] {
      }
    }
    assert r.a4 == s.a4 by {
      forall j | 0 <= j < |s.a4| ensures r.a4[j] == s.a4[j] {
      }
    }
    ScaledBelow(s.a2[k], s.a4[k - 1], p);
  }

  /** Diagonal dominance is enough: no elimination pivot of a dominant system is zero. */
  lemma DominantHasNonzeroPivots(s: Bands)
    requires Dominant(s)
    ensures NonzeroPivots(s)
  {
    var n := |s.b|;
    DominantSweep(s, n - 2);
    var u := Sweep(s, n - 2).value;
    assert u.a2[n - 1] == s.a2[n - 1] && u.a3[n - 1] == s.a3[n - 1] && u.a4[n - 2] == s.a4[n - 2];
    LastPivotPositive(u);
  }

  /** When the last row's sub-diagonal stays below its diagonal and the swept pivot
      above it exceeds its super-diagonal, the last pivot is positive. */
  lemma LastPivotPositive(u: Bands)
    requires Shaped(u) && 2 <= |u.b|
    requires 0.0 <= u.a4[|u.b| - 2] < u.a3[|u.b| - 2]
    requires 0.0 <= u.a2[|u.b| - 1] < u.a3[|u.b| - 1]
    ensures LastPivot(u) > 0.0
  {
    var n := |u.b|;
    ScaledBelow(u.a2[n - 1], u.a4[n - 2], u.a3[n - 2]);
  }

  // ---------------------------------------------------------------------------
  // The solver
  // ---------------------------------------------------------------------------

  /** Solves the system: a2, a3, a4 and b are working storage and end up holding the
      eliminated system; a1 and a5 are only read. The pivots are not checked, so the
      caller must guarantee that none is zero. */
  method Penta(a1: array<real>, a2: array<real>, a3: array<real>, a4: array<real>, a5: array<real>, b: array<real>)
    returns (x: array<real>)
    requires a2 != a3 && a2 != a4 && a2 != b && a3 != a4 && a3 != b && a4 != b
    requires a1 != a2 && a1 != a3 && a1 != a4 && a1 != b
    requires a5 != a2 && a5 != a3 && a5 != a4 && a5 != b
    requires NonzeroPivots(Bands(a1[..], a2[..], a3[..], a4[..], a5[..], b[..]))
    modifies a2, a3, a4, b
    ensures fresh(x) && x.Length == b.Length
    ensures Solves(old(Bands(a1[..], a2[..], a3[..], a4[..], a5[..], b[..])), x[..])
    ensures Bands(a1[..], a2[..], a3[..], a4[..], a5[..], b[..])
         == Eliminated(old(Bands(a1[..], a2[..], a3[..], a4[..], a5[..], b[..])))
  {
    ghost var s0 := Bands(a1[..], a2[..], a3[..], a4[..], a5[..], b[..]);
    ForwardEliminate(a1, a2, a3, a4, a5, b);
    EliminatedPivots(s0);
    x := BackSubstitute(a1, a2, a3, a4, a5, b);
    EliminatedSolutions(s0, x[..]);
  }

  /** The forward elimination, ending with the reduction of the last diagonal entry. */
  method ForwardEliminate(a1: array<real>, a2: array<real>, a3: array<real>, a4: array<real>, a5: array<real>, b: array<real>)
    requires a2 != a3 && a2 != a4 && a2 != b && a3 != a4 && a3 != b && a4 != b
    requires a1 != a2 && a1 != a3 && a1 != a4 && a1 != b
    requires a5 != a2 && a5 != a3 && a5 != a4 && a5 != b
    requires NonzeroPivots(Bands(a1[..], a2[..], a3[..], a4[..], a5[..], b[..]))
    modifies a2, a3, a4, b
    ensures Bands(a1[..], a2[..], a3[..], a4[..], a5[..], b[..])
         == Eliminated(old(Bands(a1[..], a2[..], a3[..], a4[..], a5[..], b[..])))
  {
    var n := b.Length;
    ghost var s0 := Bands(a1[..], a2[..], a3[..], a4[..], a5[..], b[..]);
    SweepRows(a1, a2, a3, a4, a5, b);
    ghost var swept := Bands(a1[..], a2[..], a3[..], a4[..], a5[..], b[..]);
    assert Shaped(swept) && swept.a3[n - 2] != 0.0;
    ReduceLastRow(a1, a2, a3, a4, a5, b);
    assert Eliminated(s0) == ReduceLast(swept);
  }

  /** Steps 1..n-2 of the elimination, each one clearing the entries under one pivot. */
  method SweepRows(a1: array<real>, a2: array<real>, a3: array<real>, a4: array<real>, a5: array<real>, b: array<real>)
    requires a2 != a3 && a2 != a4 && a2 != b && a3 != a4 && a3 != b && a4 != b
    requires a1 != a2 && a1 != a3 && a1 != a4 && a1 != b
    requires a5 != a2 && a5 != a3 && a5 != a4 && a5 != b
    requires Shaped(Bands(a1[..], a2[..], a3[..], a4[..], a5[..], b[..]))
    requires Sweep(Bands(a1[..], a2[..], a3[..], a4[..], a5[..], b[..]), b.Length - 2).Some?
    modifies a2, a3, a4, b
    ensures Sweep(old(Bands(a1[..], a2[..], a3[..], a4[..], a5[..], b[..])), b.Length - 2)
         == Some(Bands(a1[..], a2[..], a3[..], a4[..], a5[..], b[..]))
  {
    var n := b.Length;
    ghost var s0 := Bands(a1[..], a2[..], a3[..], a4[..], a5[..], b[..]);
    for i := 1 to n - 1
      invariant Sweep(s0, i - 1) == Some(Bands(a1[..], a2[..], a3[..], a4[..], a5[..], b[..]))
    {
      SweepNext(s0, i, n - 2);
      EliminationStep(a1, a2, a3, a4, a5, b, i);
    }
  }

  /** The last row: row n-2 clears its a2 entry, which changes only a3[n-1]. */
  method ReduceLastRow(a1: array<real>, a2: array<real>, a3: array<real>, a4: array<real>, a5: array<real>, b: array<real>)
    requires a3 != a2 && a3 != a4 && a3 != b && a3 != a1 && a3 != a5
    requires Shaped(Bands(a1[..], a2[..], a3[..], a4[..], a5[..], b[..])) && a3[b.Length - 2] != 0.0
    modifies a3
    ensures Bands(a1[..], a2[..], a3[..], a4[..], a5[..], b[..])
         == ReduceLast(old(Bands(a1[..], a2[..], a3[..], a4[..], a5[..], b[..])))
  {
    var n := b.Length;
    ghost var u := Bands(a1[..], a2[..], a3[..], a4[..], a5[..], b[..]);
    var xmult := a2[n - 1] / a3[n - 2];
    a3[n - 1] := a3[n - 1] - xmult * a4[n - 2];
    assert a3[n - 1] == LastPivot(u);
    assert a3[..] == u.a3[n - 1 := LastPivot(u)];
  }

  /** Elimination step i: row i-1 clears the a2 entry of row i and the a1 entry of row
      i+1. */
  method EliminationStep(a1: array<real>, a2: array<real>, a3: array<real>, a4: array<real>, a5: array<real>, b: array<real>, i: int)
    requires a2 != a3 && a2 != a4 && a2 != b && a3 != a4 && a3 != b && a4 != b
    requires a1 != a2 && a1 != a3 && a1 != a4 && a1 != b
    requires a5 != a2 && a5 != a3 && a5 != a4 && a5 != b
    requires Shaped(Bands(a1[..], a2[..], a3[..], a4[..], a5[..], b[..]))
    requires 1 <= i <= b.Length - 2 && a3[i - 1] != 0.0
    modifies a2, a3, a4, b
    ensures Bands(a1[..], a2[..], a3[..], a4[..], a5[..], b[..])
         == Step(old(Bands(a1[..], a2[..], a3[..], a4[..], a5[..], b[..])), i)
  {
    ghost var u := Bands(a1[..], a2[..], a3[..], a4[..], a5[..], b[..]);
    ghost var r := Step(u, i);
    var xmult := a2[i] / a3[i - 1];
    a3[i] := a3[i] - xmult * a4[i - 1];
    a4[i] := a4[i] - xmult * a5[i - 1];
    b[i] := b[i] - xmult * b[i - 1];

    xmult := a1[i + 1] / a3[i - 1];
    a2[i + 1] := a2[i + 1] - xmult * a4[i - 1];
    a3[i + 1] := a3[i + 1] - xmult * a5[i - 1];
    b[i + 1] := b[i + 1] - xmult * b[i - 1];
    assert a3[i] == r.a3[i] && a3[i + 1] == r.a3[i + 1];
    assert a4[i] == r.a4[i];
    assert a2[i + 1] == r.a2[i + 1];
    assert b[i] == r.b[i] && b[i + 1] == r.b[i + 1];
    assert a2[..] == r.a2;
    assert a3[..] == r.a3;
    assert a4[..] == r.a4;
    assert b[..] == r.b;
  }

  /** Back substitution on the eliminated system, from the last row upwards. */
  method BackSubstitute(a1: array<real>, a2: array<real>, a3: array<real>, a4: array<real>, a5: array<real>, b: array<real>)
    returns (x: array<real>)
    requires Shaped(Bands(a1[..], a2[..], a3[..], a4[..], a5[..], b[..]))
    requires forall i :: 0 <= i < b.Length ==> a3[i] != 0.0
    ensures fresh(x)
    ensures BackSubstituted(Bands(a1[..], a2[..], a3[..], a4[..], a5[..], b[..]), x[..])
  {
    var n := b.Length;
    ghost var e := Bands(a1[..], a2[..], a3[..], a4[..], a5[..], b[..]);
    x := new real[n];
    var xmult := a2[n - 1] / a3[n - 2];
    x[n - 1] := (b[n - 1] - xmult * b[n - 2]) / a3[n - 1];
    DivCancel(e.a3[n - 1], e.b[n - 1] - e.a2[n - 1] / e.a3[n - 2] * e.b[n - 2]);
    x[n - 2] := (b[n - 2] - a4[n - 2] * x[n - 1]) / a3[n - 2];
    DivCancel(e.a3[n - 2], e.b[n - 2] - e.a4[n - 2] * x[n - 1]);
    assert LastRowsHold(e, x[..]);
    for i := n - 2 downto 0
      invariant LastRowsHold(e, x[..])
      invariant forall j :: i <= j < n - 2 ==> UpperRowHolds(e, x[..], j)
    {
      ghost var before := x[..];
      var v := (b[i] - a4[i] * x[i + 1] - a5[i] * x[i + 2]) / a3[i];
      BackStep(e, before, i, v, before[i := v]);
      x[i] := v;
      assert x[..] == before[i := v];
    }
  }

  /** One back-substitution step: solving row i for x[i] keeps the rows below it, and
      the last two, satisfied. */
  lemma BackStep(e: Bands, x: seq<real>, i: int, v: real, y: seq<real>)
    requires Shaped(e) && |x| == |e.b| && 0 <= i < |e.b| - 2
    requires e.a3[i] != 0.0 && e.a3[|e.b| - 2] != 0.0
    requires LastRowsHold(e, x) && forall j :: i < j < |e.b| - 2 ==> UpperRowHolds(e, x, j)
    requires v == (e.b[i] - e.a4[i] * x[i + 1] - e.a5[i] * x[i + 2]) / e.a3[i]
    requires y == x[i := v]
    ensures LastRowsHold(e, y)
    ensures forall j :: i <= j < |e.b| - 2 ==> UpperRowHolds(e, y, j)
  {
    var n := |e.b|;
    DivCancel(e.a3[i], e.b[i] - e.a4[i] * x[i + 1] - e.a5[i] * x[i + 2]);
    assert UpperRowHolds(e, y, i);
    forall j | i < j < n - 2 ensures UpperRowHolds(e, y, j) {
      assert UpperRowHolds(e, x, j);
    }
    assert y[n - 2] == x[n - 2] && y[n - 1] == x[n - 1];
  }
}
