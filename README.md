# Cubic spline interpolation, modelled in Dafny

This project models the Rust crate Cubic_Spline. The crate fits an interpolating cubic spline to data `(t[i], y[i])` and then evaluates it. The fit has two stages:
- `set_spline_cubic` assembles a banded linear system for the second derivatives `ypp` at the knots. Row 0 and row n-1 come from a left and a right boundary flag:
  - 0: the end piece is quadratic;
  - 1: the end slope is given;
  - 2: the end curvature is given;
  - 3: not-a-knot.
- `penta` solves the system by Gaussian elimination without pivoting, then back substitution.

`spline_cubic_value` brackets a query point with `interval_bracket_binarysearch`. It then returns the value, the slope or the curvature of that piece. A second bracketing routine, `interval_bracket`, is a linear scan.

Every `f64` is modelled by `real`, so all arithmetic is exact. Each source panic becomes one of two things:
- a failure value (`Option`, `Result`);
- a precondition, for the index errors listed below.

| file | module | models |
|---|---|---|
| `wrappers.dfy` | `Wrappers` | `Option` and `Result` |
| `interval_index.dfy` | `IntervalIndex` | `src/interval_index.rs` |
| `spline_value.dfy` | `SplineValue` | `src/spline_value.rs` |
| `solve_pentadiagonal.dfy` | `SolvePentadiagonal` | `src/solve_pentadiagonal.rs` |
| `prepare_spline.dfy` | `PrepareSpline` | `src/prepare_spline.rs` |

The two imperative routines keep their form: they are methods over arrays.
- `Penta` works in place on `a2`, `a3`, `a4` and `b`. It is proved against two specification functions:
  - `Eliminated`, the bands the elimination leaves;
  - `Solves`, the original banded system holding at the result.
- `SetSplineCubic` validates the knots. It then calls `AssembleAndSolve`, which does two things:
  - `AssembleSystem` allocates the six buffers and fills them row by row (`FirstEquation`, `IntermediateEquations`, `LastEquation`);
  - `SolveAssembled` calls `Penta`.

  It is proved against `SplineSystem`. That system puts each interior width on the side it measures. The source swaps the two widths at src/prepare_spline.rs:75,77 (see Findings), so `SplineSystem` is the corrected system, not the source's. `SplineSystemMeaning` states what solving the corrected system means for the spline: C¹ at every interior knot, plus both boundary conditions.

- `SplineSystemAsWritten` is the system the source assembles. It equals `SplineSystem` on equally spaced knots. `AsWrittenBuildBreaksC1` gives unequally spaced knots where its only solution makes a spline that is not C¹.

## Model

| member | source | states |
|---|---|---|
| IntervalIndex.IntervalBracket | src/interval_index.rs:7-22 | Fails exactly when there are fewer than two knots. Otherwise it returns `(right-1, right)`, where `right` is the first index in 1..n-2 whose knot lies above the query, or n-1 when there is none. |
| IntervalIndex.LinearScanResultUnique | src/interval_index.rs:14-21 | The scan's bracket is determined by the knots and the query. |
| IntervalIndex.LowerBound | src/interval_index.rs:41 | The count of leading knots below the query: all knots before it are below, and the knot at it is not. |
| IntervalIndex.LowerBoundUnique | src/interval_index.rs:41 | On sorted knots, the lower bound is the only index splitting the knots below the query from those at or above it. |
| IntervalIndex.SearchResult | src/interval_index.rs:41-55 | The library search on sorted knots. `Found` holds exactly when the query is a knot, and it carries that knot's index. Otherwise it carries the insertion point, with every knot before it below the query and every knot from it on at or above. |
| IntervalIndex.BinarySearchBy | src/interval_index.rs:41 | The lo/hi loop returns exactly `SearchResult`. |
| IntervalIndex.IntervalBracketBinarySearch | src/interval_index.rs:29-57 | Always `right == left + 1` with both in range. A query at or below `x[0]` gives `(0,1)`; one at or above `x[n-1]` gives `(n-2,n-1)`. A strictly interior query has `x[left] < xval <= x[right]`. A query equal to interior knot `x[k]` gives `(k-1,k)`. |
| IntervalIndex.SearchIsInterior | src/interval_index.rs:42-55 | For an interior query the search lands in 1..n-1, and an exact match in 1..n-2. So the `index == 0` and `index == n-1` branches never run. |
| IntervalIndex.LinearAgreesWithBinary | src/interval_index.rs:7-57 | The two routines agree on every query except an interior knot `x[k]`. There the scan gives `(k,k+1)` and the binary search gives `(k-1,k)`. |
| SplineValue.DerivativeIsTangent | src/spline_value.rs:52-61 | The formal derivative of a cubic is its derivative: a step `e` changes the value by `e` times it, plus a term in `e²`. |
| SplineValue.PieceValue | src/spline_value.rs:45-49 | The nested order-0 expression equals `A + B·dt + C·dt² + D·dt³`, with the coefficients documented at lines 24-28. |
| SplineValue.PieceSlope | src/spline_value.rs:54-56 | The order-1 expression is the derivative of that cubic. |
| SplineValue.PieceCurvature | src/spline_value.rs:61 | The order-2 expression is its second derivative. |
| SplineValue.SplineCubicValue | src/spline_value.rs:4-69 | Fails exactly on a selector outside 0..2, reporting it. Otherwise it returns that derivative of the piece the binary bracket picks. Queries beyond either end use the first or last piece. |
| SplineValue.PieceMatchesKnots | src/spline_value.rs:39-61 | Each piece takes value `y` and curvature `ypp` at both of its knots. |
| SplineValue.SplineInterpolatesKnots | src/spline_value.rs:36-61 | At every knot `t[k]`, order 0 returns `y[k]` and order 2 returns `ypp[k]`, whatever `ypp` is. |
| SplineValue.CurvatureInterpolatesLinearly | src/spline_value.rs:61 | Across a piece, the curvature runs linearly from `ypp[left]` to `ypp[right]`. |
| SplineValue.KnotTieBreakIsInvisible | src/spline_value.rs:36-61 | At an interior knot both adjacent pieces give the same value and curvature. So the bracket's tie-break does not change orders 0 and 2. |
| SolvePentadiagonal.Step | src/solve_pentadiagonal.rs:31-41 | One elimination step keeps every band's length. |
| SolvePentadiagonal.Sweep | src/solve_pentadiagonal.rs:31-41 | The first k loop iterations. They fail when a pivot `a3[i-1]` is zero, and otherwise keep every band's length. |
| SolvePentadiagonal.ReduceLast | src/solve_pentadiagonal.rs:44-45 | The last-row reduction. With a nonzero `a3[n-2]`, it replaces `a3[n-1]` by the last pivot and keeps every band's length. |
| SolvePentadiagonal.Eliminated | src/solve_pentadiagonal.rs:31-45 | The bands after the whole forward elimination, defined when `NonzeroPivots` holds: every pivot the loop divides by and `a3[n-2]` are nonzero. The result keeps every band's length. |
| SolvePentadiagonal.ReducedZeroIsBanded | src/solve_pentadiagonal.rs:10-20 | Before any step, the reduced system is the banded system itself: a vector solves one exactly when it solves the other. |
| SolvePentadiagonal.SubtractPivotRow | src/solve_pentadiagonal.rs:32-40 | Subtracting `c/p` times the pivot row from a row with `c` in the pivot column removes that column and leaves the updated coefficients. |
| SolvePentadiagonal.StepRowPivot | src/solve_pentadiagonal.rs:32-35 | After step i, row i is the old row i minus `a2[i]/a3[i-1]` times pivot row i-1, on both sides of the equation. |
| SolvePentadiagonal.StepRowNext | src/solve_pentadiagonal.rs:37-40 | After step i, row i+1 is the old row i+1 minus `a1[i+1]/a3[i-1]` times pivot row i-1, on both sides. |
| SolvePentadiagonal.StepRowOther | src/solve_pentadiagonal.rs:31-41 | Step i leaves every row other than i and i+1 unchanged. |
| SolvePentadiagonal.StepKeepsSolution | src/solve_pentadiagonal.rs:31-41 | A solution of the system before step i solves the system after it. |
| SolvePentadiagonal.StepRestoresSolution | src/solve_pentadiagonal.rs:31-41 | A solution of the system after step i solves the system before it. |
| SolvePentadiagonal.StepPreservesSolutions | src/solve_pentadiagonal.rs:31-41 | Step i changes no solution: a vector solves the system reduced through i-1 exactly when it solves the one reduced through i. |
| SolvePentadiagonal.SweepPreservesSolutions | src/solve_pentadiagonal.rs:31-41 | After k steps, the reduced system has exactly the solutions of the original. |
| SolvePentadiagonal.SweepPrefix | src/solve_pentadiagonal.rs:31-41 | A sweep that completes k steps completes every shorter one. |
| SolvePentadiagonal.SweepNext | src/solve_pentadiagonal.rs:31-41 | Within a completed sweep, step k found a nonzero pivot at row k-1, and the sweep of k steps is step k applied to the sweep of k-1 steps. |
| SolvePentadiagonal.SweepPivots | src/solve_pentadiagonal.rs:32-37 | The diagonal entries left in rows 0..k-1 are nonzero. |
| SolvePentadiagonal.SweepLeavesUntouched | src/solve_pentadiagonal.rs:31-41 | The sweep never changes `a1`, `a5`, row 0, `a2[0]`, `a2[1]` or `a4[n-1]`. |
| SolvePentadiagonal.LastRowReduced | src/solve_pentadiagonal.rs:44-46 | Eliminating `a2[n-1]` with row n-2 cancels the last row's `x[n-2]` term. |
| SolvePentadiagonal.UpperRow | src/solve_pentadiagonal.rs:49-53 | After the sweep, row i < n-2 involves only `x[i]`, `x[i+1]` and `x[i+2]`, and row n-2 only `x[n-2]` and `x[n-1]`. |
| SolvePentadiagonal.LastRowEquivalent | src/solve_pentadiagonal.rs:44-46 | Once row n-2 holds, the reduced last row holds exactly when the unreduced one does. |
| SolvePentadiagonal.BackSubstitutedGivesReduced | src/solve_pentadiagonal.rs:43-54 | A vector satisfying every triangular row solves the fully swept system. |
| SolvePentadiagonal.ReducedGivesBackSubstituted | src/solve_pentadiagonal.rs:43-54 | A solution of the fully swept system satisfies every triangular row. |
| SolvePentadiagonal.BackSubstitutedIffReduced | src/solve_pentadiagonal.rs:43-54 | The triangular system back substitution solves has exactly the solutions of the fully swept system. |
| SolvePentadiagonal.EliminatedSolutions | src/solve_pentadiagonal.rs:9-54 | With nonzero pivots, a vector satisfies the eliminated triangular rows exactly when it solves the original banded system. |
| SolvePentadiagonal.EliminatedPivots | src/solve_pentadiagonal.rs:44-53 | Every diagonal entry the back substitution divides by is nonzero. |
| SolvePentadiagonal.BackSubstitutionUnique | src/solve_pentadiagonal.rs:46-54 | Two vectors satisfying the triangular rows agree from every index on. |
| SolvePentadiagonal.SolutionUnique | src/solve_pentadiagonal.rs:9-22 | With nonzero pivots, the banded system has at most one solution. |
| SolvePentadiagonal.DominantSweep | src/solve_pentadiagonal.rs:31-41 | On a diagonally dominant tridiagonal system: every step succeeds, among the bands `a1`..`a5` only `a3` changes, and each pivot drops by at most its row's `a2`. |
| SolvePentadiagonal.DominantStep | src/solve_pentadiagonal.rs:31-41 | One step on a dominant tridiagonal system divides by a nonzero pivot, changes only `a3` among the bands `a1`..`a5`, and lowers the new pivot by at most its row's `a2`. |
| SolvePentadiagonal.LastPivotPositive | src/solve_pentadiagonal.rs:44-45 | When the last row's `a2` is below its `a3` and the swept pivot above exceeds its `a4`, the last pivot is positive. |
| SolvePentadiagonal.DominantHasNonzeroPivots | src/solve_pentadiagonal.rs:31-46 | A diagonally dominant tridiagonal system has no zero pivot. |
| SolvePentadiagonal.Penta | src/solve_pentadiagonal.rs:1-57 | On nonzero pivots, returns a fresh vector of length n that solves the original system. It leaves the arrays holding `Eliminated` of their old contents; `a1` and `a5` are never written. |
| SolvePentadiagonal.ForwardEliminate | src/solve_pentadiagonal.rs:30-45 | The loop and the last-row reduction leave the arrays holding `Eliminated` of their old contents. |
| SolvePentadiagonal.SweepRows | src/solve_pentadiagonal.rs:31-41 | The loop leaves the arrays holding the sweep of n-2 steps of their old contents. |
| SolvePentadiagonal.EliminationStep | src/solve_pentadiagonal.rs:31-41 | One loop iteration leaves the arrays holding `Step` of their old contents. |
| SolvePentadiagonal.ReduceLastRow | src/solve_pentadiagonal.rs:44-45 | Replaces `a3[n-1]` by the last pivot and changes nothing else. |
| SolvePentadiagonal.BackSubstitute | src/solve_pentadiagonal.rs:46-54 | The vector it fills satisfies every row of the triangular system. |
| SolvePentadiagonal.BackStep | src/solve_pentadiagonal.rs:52-54 | Writing `x[i]` by the loop's formula makes row i hold and keeps every row below it holding. |
| PrepareSpline.SplineSystem | src/prepare_spline.rs:42-100 | Every row of the assembled system is the boundary row or the corrected interior row for its index. |
| PrepareSpline.BandsOfRows | src/prepare_spline.rs:42-48 | Six bands of length n whose row i is the i-th given row. |
| PrepareSpline.SplineSystemAsWritten | src/prepare_spline.rs:42-100 | Every row of the system the source assembles is the boundary row for its index, or the interior row with the widths swapped as at lines 75 and 77. |
| PrepareSpline.SlopeAtLeftKnot | src/spline_value.rs:54-56 | A piece's slope at its left knot is `(y1-y0)/h - (ypp1 + 2·ypp0)·h/6`. |
| PrepareSpline.SlopeAtRightKnot | src/spline_value.rs:54-56 | A piece's slope at its right knot is `(y1-y0)/h + (ypp0 + 2·ypp1)·h/6`. |
| PrepareSpline.CubicTermOfPiece | src/spline_value.rs:28 | Six times a piece's cubic coefficient times its width is the change in curvature across it. |
| PrepareSpline.InteriorRowMeansC1 | src/prepare_spline.rs:72-78 | Interior row i, with the widths on the correct sides, holds exactly when the two pieces meeting at `t[i]` have the same slope there. |
| PrepareSpline.InteriorRowIsSlopeGap | src/prepare_spline.rs:72-78 | At `t[i]`, the right piece's slope minus the left piece's slope equals the interior row's `b` minus its left-hand side. |
| PrepareSpline.SlopeGap | src/prepare_spline.rs:74-77 | Take a row with `hl/6` on `x[i-1]`, `(hl+hr)/3` on `x[i]`, `hr/6` on `x[i+1]`, and `b` the difference of the two divided differences. Then the next piece's start slope minus the previous piece's end slope is `b` minus the row's left-hand side. |
| PrepareSpline.LeftRowMeaning | src/prepare_spline.rs:50-70 | Row 0 holds exactly when the left flag's condition does. |
| PrepareSpline.LeftQuadraticRow | src/prepare_spline.rs:51-54 | Flag 0, `ypp[0] - ypp[1] = 0`: the first piece has no cubic term. |
| PrepareSpline.LeftSlopeRow | src/prepare_spline.rs:55-58 | Flag 1: the slope at `t[0]` is the given value. |
| PrepareSpline.LeftSlopeAlgebra | src/prepare_spline.rs:56-58 | With the flag-1 coefficients, row 0 holds exactly when the first piece's start slope is the given value. |
| PrepareSpline.LeftCurvatureRow | src/prepare_spline.rs:59-62 | Flag 2: the curvature at `t[0]` is the given value. |
| PrepareSpline.LeftNotAKnotRow | src/prepare_spline.rs:63-67 | Flag 3: the first two pieces have the same cubic term. |
| PrepareSpline.EndPieceQuadratic | src/prepare_spline.rs:51-54 | The row `ypp0 - ypp1 = 0` holds exactly when the piece's cubic coefficient is zero. |
| PrepareSpline.NotAKnotRow | src/prepare_spline.rs:63-67 | The not-a-knot row holds exactly when the two adjacent pieces have the same cubic coefficient. |
| PrepareSpline.RightRowMeaning | src/prepare_spline.rs:80-100 | Row n-1 holds exactly when the right flag's condition does. |
| PrepareSpline.RightQuadraticRow | src/prepare_spline.rs:81-84 | Flag 0: the last piece has no cubic term. |
| PrepareSpline.RightSlopeRow | src/prepare_spline.rs:85-88 | Flag 1: the slope at `t[n-1]` is the given value. |
| PrepareSpline.RightSlopeAlgebra | src/prepare_spline.rs:86-88 | With the flag-1 coefficients, row n-1 holds exactly when the last piece's end slope is the given value. |
| PrepareSpline.RightCurvatureRow | src/prepare_spline.rs:89-92 | Flag 2: the curvature at `t[n-1]` is the given value. |
| PrepareSpline.RightNotAKnotRow | src/prepare_spline.rs:93-97 | Flag 3: the last two pieces have the same cubic term. |
| PrepareSpline.SplineSystemMeaning | src/prepare_spline.rs:23-26 | `ypp` solves the assembled system exactly when three things hold: the spline is C¹ at every interior knot, the left condition holds, and the right condition holds. |
| PrepareSpline.OuterBands | src/prepare_spline.rs:43-97 | `a5[0]` is nonzero exactly for left flag 3, and `a1[n-1]` exactly for right flag 3. Every other `a1` and `a5` entry is zero, as are `a2[0]` and `a4[n-1]`. |
| PrepareSpline.ClampedOrNaturalEndsSolvable | src/prepare_spline.rs:55-92 | With flag 1 or 2 at both ends, no pivot is zero. |
| PrepareSpline.TwoKnotQuadraticEndsSingular | src/prepare_spline.rs:51-84 | With two knots and flag 0 at both ends, the last pivot is zero. |
| PrepareSpline.BuiltSplineUnique | src/prepare_spline.rs:102-106 | When the pivots are nonzero, only one `ypp` gives a spline that is C¹ and meets both boundary conditions. |
| PrepareSpline.AsWrittenInteriorRowBreaksC1 | src/prepare_spline.rs:73-78 | The interior row as the source writes it can hold while the slope jumps at `t[1]` (see Findings). |
| PrepareSpline.AsWrittenAgreesOnUniformKnots | src/prepare_spline.rs:75-77 | On equally spaced knots, the row as written is the correct one. |
| PrepareSpline.AsWrittenSystemAgreesOnUniformKnots | src/prepare_spline.rs:72-78 | On equally spaced knots, the system the source assembles is `SplineSystem`. |
| PrepareSpline.AsWrittenBuildBreaksC1 | src/prepare_spline.rs:42-106 | On knots 0, 1, 3 with zero data and flag 2 at both ends, with values 3 and 0, the source's system has nonzero pivots. Its only solution is `ypp = [3, -1, 0]`, and that spline is not C¹ at `t[1]`. |
| PrepareSpline.CorrectedBuildOnSameInput | src/prepare_spline.rs:42-106 | On the same input, the corrected system has nonzero pivots. Its only solution is `ypp = [3, -1/2, 0]`, and that spline is C¹ at `t[1]`. |
| PrepareSpline.IncreasingFromAdjacent | src/prepare_spline.rs:36-40 | Checking only adjacent pairs is enough for the knots to be strictly increasing. |
| PrepareSpline.KnotsIncrease | src/prepare_spline.rs:36-40 | Succeeds exactly when the knots are strictly increasing. |
| PrepareSpline.FirstEquation | src/prepare_spline.rs:50-70 | Fails exactly on a left flag outside 0..3 or on flag 3 with two knots. Otherwise row 0 becomes the left row for the flag. No other row changes. |
| PrepareSpline.IntermediateEquations | src/prepare_spline.rs:72-78 | Each interior row gets the `a2`, `a3`, `a4` and `b` entries of the interior row; rows 0 and n-1 are untouched. |
| PrepareSpline.LastEquation | src/prepare_spline.rs:80-100 | Mirrors `FirstEquation` for the right flag and row n-1. |
| PrepareSpline.AssembledIsSplineSystem | src/prepare_spline.rs:42-100 | Buffers holding the left row, the interior rows and the right row are `SplineSystem`. |
| PrepareSpline.AssembleSystem | src/prepare_spline.rs:42-100 | Allocates six fresh, distinct buffers of length n. Fails exactly on a bad left flag, not-a-knot with two knots, or a bad right flag, each on its own inputs. Otherwise the buffers hold `SplineSystem`. |
| PrepareSpline.SolveAssembled | src/prepare_spline.rs:102-106 | Reports a singular system exactly when a pivot is zero, and then leaves the buffers unchanged. Otherwise it returns `penta`'s result, which solves the assembled system, and leaves the buffers holding `Eliminated` of their old contents. |
| PrepareSpline.AssembleAndSolve | src/prepare_spline.rs:42-106 | On strictly increasing knots, the flag failures hold exactly on their inputs. `SingularSystem` holds exactly on a valid build with a zero pivot. A success is a valid build whose result solves `SplineSystem`. |
| PrepareSpline.SetSplineCubic | src/prepare_spline.rs:4-107 | One failure per source panic, each holding exactly on its inputs and in source order: too few knots, knots not increasing, bad left flag, not-a-knot with two knots, bad right flag. `SingularSystem` holds exactly on a valid build with a zero pivot. Success holds exactly on a valid build with nonzero pivots, and the result then solves `SplineSystem`. |

## Left out

- src/main.rs is not part of this model. It is a demonstration driver built on `sin`, `PI` and printing.
- Floating point is not modelled: every `f64` is an exact `real`. Rounding, overflow and NaN are out, including the panic of `partial_cmp(...).unwrap()` on a NaN knot at src/interval_index.rs:41.
- IntervalIndex.IntervalBracketBinarySearch: requires at least two strictly increasing knots. The source does not check this. With no knots, `x[0]` is out of range. With one knot and a query at or below it, the source returns `(0, 1)`. With one knot and a query above it, `n - 2` underflows. On repeated or unsorted knots it returns an in-range pair that need not bracket the query. The model does not give these results. Every caller meets the precondition: `set_spline_cubic` rejects fewer than two knots and non-increasing knots (src/prepare_spline.rs:30-40), and src/main.rs evaluates only on the knots it has just built a spline from.
- IntervalIndex.BinarySearchBy: which index Rust's `binary_search_by` returns among equal knots is not modelled. The loop returns the first one, and strictly increasing knots have no duplicates.
- SplineValue.SplineCubicValue: requires `Evaluable`: at least two strictly increasing knots, and `y` and `ypp` at least as long as `t`. Outside it, the source behaves as follows. With no knots, `x[0]` at src/interval_index.rs:32 is out of range. With one knot and a query at or below it, the bracket returns `(0, 1)` and `t[right]` at src/spline_value.rs:40 is out of range. With one knot and a query above it, `n - 2` underflows at src/interval_index.rs:35-37. When `y` or `ypp` is shorter than `t`, the source panics only once a read at src/spline_value.rs:45-61 passes their end; `y` is read only for orders 0 and 1. Otherwise it returns the ordinary piece value. On repeated or unsorted knots it returns a pair that need not bracket the query, or infinity or NaN from a piece of width zero. The model gives none of these outcomes. Every caller meets the precondition, because `set_spline_cubic` checks the knots before src/main.rs evaluates.
- PrepareSpline.SetSplineCubic: requires `|t| <= |y|`. The source itself indexes `y` only where a row needs it, so with two knots and flags 0 or 2 at both ends it would accept a shorter `y`. On two knots, flag 3 panics on `t[2]` at src/prepare_spline.rs:65 or `t[n - 3]` at :96, whatever `y` is.
- PrepareSpline.SetSplineCubic: `SingularSystem` is an outcome the source lacks. On a zero pivot the source divides by zero and returns infinities or NaN. The model reports it instead, because exact reals cannot represent that result.
- SolvePentadiagonal.Penta: requires `NonzeroPivots`, which the source does not check. Through it, it also requires `Shaped`: at least two rows, and every band at least as long as `b`. The source panics without that. With n = 0, `n - 1` underflows at src/solve_pentadiagonal.rs:31. With n = 1, `n - 2` underflows at :44. A short band is indexed out of range. It also requires the six arrays to be distinct, which Rust's `&mut` borrows already guarantee.
- PrepareSpline.IntermediateEquations: writes the corrected interior widths, not the swapped ones at src/prepare_spline.rs:75,77 (see Findings). `InteriorRowAsWritten` models the source's row.
- PrepareSpline.SplineSystem: builds the corrected interior rows, not the source's swapped rows. On unequally spaced knots its system differs from the source's. They agree on equally spaced knots (`AsWrittenSystemAgreesOnUniformKnots`), and `SplineSystemAsWritten` models the source's system.
- PrepareSpline.AssembleSystem: fills the buffers with the corrected `SplineSystem`. On unequally spaced knots its buffers differ from the source's.
- PrepareSpline.AssembleAndSolve: solves the corrected system. On unequally spaced knots its result differs from the source's: on knots 0, 1, 3 it returns `[3, -1/2, 0]` where the source returns `[3, -1, 0]` (`CorrectedBuildOnSameInput`, `AsWrittenBuildBreaksC1`).
- PrepareSpline.SetSplineCubic: returns the corrected solution through `AssembleAndSolve`. Like it, its result differs from the source's on unequally spaced knots.
- The commented-out `main` functions (src/prepare_spline.rs:109-123, src/spline_value.rs:72-92, src/solve_pentadiagonal.rs:59-78, src/interval_index.rs:61-69) are dead code.
- The panic message texts are not modelled, and neither are the complexity remarks at src/interval_index.rs:24-27.

## Findings

| source | as written | input that shows it | evidently intended | confidence | as-written member | corrected member |
|---|---|---|---|---|---|---|
| src/prepare_spline.rs:75-77 | Interior row i puts the right-hand width `(t[i+1]-t[i])/6` on `x[i-1]` (`a2`) and the left-hand width `(t[i]-t[i-1])/6` on `x[i+1]` (`a4`). | `t = [0, 1, 3]`, `y = [0, 0, 0]`, both flags 2, with values 3 and 0. The source's system has the single solution `ypp = [3, -1, 0]`. Its two pieces reach `t[1]` with slopes 1/6 and 2/3, so the spline is not C¹ there. The corrected system gives `[3, -1/2, 0]`, which is C¹. | `a2[i] = (t[i]-t[i-1])/6` and `a4[i] = (t[i+1]-t[i])/6`: each width goes with the piece it measures, as C¹ continuity at `t[i]` needs. The two agree on equally spaced knots. | not executed | PrepareSpline.AsWrittenBuildBreaksC1 | PrepareSpline.CorrectedBuildOnSameInput |
