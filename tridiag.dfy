/**
  The Thomas-algorithm stencil `tridiag_solve`: for every (i, j) column of a
  3D grid it solves the tridiagonal system

      b[k] x[k] + a[k] x[k-1] + c[k] x[k+1] = d[k],   0 <= k < NK,

  where the x[k-1] term is absent in the first row and the x[k+1] term is
  absent in the last row. Values are modelled as `real`; floating-point
  rounding is not modelled, and a zero pivot is excluded by precondition.
*/
module Tridiag {

  /** The coefficients of one (i, j) column: lower, main and upper diagonal, right-hand side. */
  datatype Column = Column(a: seq<real>, b: seq<real>, c: seq<real>, d: seq<real>)
  {
    predicate Shaped() {
      |a| == |b| && |c| == |b| && |d| == |b|
    }

    function Size(): nat {
      |b|
    }
  }

  // ---------------------------------------------------------------------------
  // The forward sweep as functions of the column

  /**
    Real division made total: the quotient where the divisor is non-zero and 0.0
    otherwise. Every statement about the stencil requires non-zero pivots, so the
    value at a zero divisor is never relied on.
  */
  function Quot(x: real, y: real): (q: real)
    ensures y != 0.0 ==> y * q == x
  {
    if y == 0.0 then 0.0 else x / y
  }

  /** The divisor of level k: b[0] at the bottom, b[k] - a[k] * x_fwd[k-1] above it. */
  function Pivot(col: Column, k: nat): real
    requires col.Shaped() && k < col.Size()
    decreases k, 0
  {
    if k == 0 then col.b[0] else col.b[k] - col.a[k] * ForwardX(col, k - 1)
  }

  /** The value the forward sweep leaves in x[k]: c[k] over the pivot. */
  function ForwardX(col: Column, k: nat): real
    requires col.Shaped() && k < col.Size()
    decreases k, 1
  {
    Quot(col.c[k], Pivot(col, k))
  }

  /** The term a[k] * delta[k-1] that the forward sweep subtracts from d[k]; absent at level 0. */
  function LowerTerm(col: Column, k: nat): real
    requires col.Shaped() && k < col.Size()
    decreases k, 0
  {
    if k == 0 then 0.0 else col.a[k] * ForwardDelta(col, k - 1)
  }

  /** The value the forward sweep leaves in delta[k]: the pivoted right-hand side. */
  function ForwardDelta(col: Column, k: nat): real
    requires col.Shaped() && k < col.Size()
    decreases k, 1
  {
    Quot(col.d[k] - LowerTerm(col, k), Pivot(col, k))
  }

  /** Every pivot of the column is non-zero (vacuous for an empty column). */
  predicate Solvable(col: Column) {
    col.Shaped() && forall k :: 0 <= k < col.Size() ==> Pivot(col, k) != 0.0
  }

  // ---------------------------------------------------------------------------
  // The backward sweep as a function of the column

  /** The value the backward sweep leaves in x[k]. */
  function Solution(col: Column, k: nat): real
    requires col.Shaped() && k < col.Size()
    decreases col.Size() - k
  {
    if k == col.Size() - 1 then ForwardDelta(col, k)
    else ForwardDelta(col, k) - ForwardX(col, k) * Solution(col, k + 1)
  }

  function SolutionOf(col: Column): (x: seq<real>)
    requires col.Shaped()
    ensures |x| == col.Size()
    ensures forall k :: 0 <= k < |x| ==> x[k] == Solution(col, k)
  {
    seq(col.Size(), k requires 0 <= k < col.Size() && col.Shaped() => Solution(col, k))
  }

  function ForwardDeltaOf(col: Column): (delta: seq<real>)
    requires col.Shaped()
    ensures |delta| == col.Size()
    ensures forall k :: 0 <= k < |delta| ==> delta[k] == ForwardDelta(col, k)
  {
    seq(col.Size(), k requires 0 <= k < col.Size() && col.Shaped() => ForwardDelta(col, k))
  }

  // ---------------------------------------------------------------------------
  // The linear system the stencil solves, as an independent reference

  /** The contribution c[k] * x[k+1] of the upper diagonal to row k; absent in the last row. */
  function UpperOf(col: Column, x: seq<real>, k: nat): real
    requires col.Shaped() && |x| == col.Size() && k < col.Size()
  {
    if k < col.Size() - 1 then col.c[k] * x[k + 1] else 0.0
  }

  /** Row k of the matrix drawn in the stencil's documentation, applied to x, equals d[k]. */
  predicate RowHolds(col: Column, x: seq<real>, k: nat)
    requires col.Shaped() && |x| == col.Size() && k < col.Size()
  {
    col.b[k] * x[k] + (if k > 0 then col.a[k] * x[k - 1] else 0.0) + UpperOf(col, x, k) == col.d[k]
  }

  predicate SolvesSystem(col: Column, x: seq<real>) {
    col.Shaped() && |x| == col.Size() && forall k :: 0 <= k < col.Size() ==> RowHolds(col, x, k)
  }

  // ---------------------------------------------------------------------------
  // Algebra over plain reals

  lemma CancelPivot(p: real, u: real, v: real)
    requires p != 0.0 && p * u == p * v
    ensures u == v
  {
    calc {
      u;
      (p * u) / p;
      (p * v) / p;
      v;
    }
  }

  lemma EliminateAbove(p: real, c: real, fx: real, dl: real, rhs: real, s: real, s1: real)
    requires p * fx == c && p * dl == rhs && s == dl - fx * s1
    ensures p * s + c * s1 == rhs
  {
    calc {
      p * s + c * s1;
      p * (dl - fx * s1) + c * s1;
      p * dl - (p * fx) * s1 + c * s1;
      rhs - c * s1 + c * s1;
    }
  }

  lemma SubstituteBelow(p: real, a: real, b: real, fx: real, dl: real, lhs: real, s: real, sm: real)
    requires b == p + a * fx && sm == dl - fx * s && p * s + lhs == 0.0
    ensures b * s + a * sm + lhs == a * dl
  {
    calc {
      b * s + a * sm + lhs;
      (p + a * fx) * s + a * (dl - fx * s) + lhs;
      p * s + a * dl + lhs;
    }
  }

  lemma EliminateBelow(p: real, a: real, b: real, fx: real, dl: real, up: real, d: real, s: real, sm: real)
    requires b == p + a * fx && sm == dl - fx * s && b * s + a * sm + up == d
    ensures p * s + up == d - a * dl
  {
    calc {
      d;
      (p + a * fx) * s + a * (dl - fx * s) + up;
      p * s + a * dl + up;
    }
  }

  lemma SolveLevel(p: real, c: real, fx: real, dl: real, rhs: real, y: real, y1: real)
    requires p != 0.0 && p * fx == c && p * dl == rhs && p * y + c * y1 == rhs
    ensures y == dl - fx * y1
  {
    calc {
      p * (dl - fx * y1);
      p * dl - (p * fx) * y1;
      rhs - c * y1;
      p * y;
    }
    CancelPivot(p, y, dl - fx * y1);
  }

  // ---------------------------------------------------------------------------
  // The forward sweep with its divisions multiplied out

  lemma PivotAt(col: Column, k: nat)
    requires Solvable(col) && k < col.Size()
    ensures Pivot(col, k) != 0.0
  {
  }

  lemma ForwardXAt(col: Column, k: nat)
    requires Solvable(col) && k < col.Size()
    ensures Pivot(col, k) * ForwardX(col, k) == col.c[k]
  {
    PivotAt(col, k);
  }

  lemma ForwardDeltaAt(col: Column, k: nat)
    requires Solvable(col) && k < col.Size()
    ensures Pivot(col, k) * ForwardDelta(col, k) == col.d[k] - LowerTerm(col, k)
  {
    PivotAt(col, k);
  }

  /** Level k of the forward sweep: p[k] * x_fwd[k] == c[k] and p[k] * delta[k] == d[k] - a[k] * delta[k-1]. */
  lemma ForwardLevel(col: Column, k: nat)
    requires Solvable(col) && k < col.Size()
    ensures Pivot(col, k) != 0.0
    ensures Pivot(col, k) * ForwardX(col, k) == col.c[k]
    ensures Pivot(col, k) * ForwardDelta(col, k) == col.d[k] - LowerTerm(col, k)
  {
    PivotAt(col, k);
    ForwardXAt(col, k);
    ForwardDeltaAt(col, k);
  }

  // ---------------------------------------------------------------------------
  // Correctness: the result of both sweeps solves the system

  lemma EliminatedInnerRow(col: Column, k: nat)
    requires Solvable(col) && k < col.Size() - 1
    ensures Pivot(col, k) * Solution(col, k) + col.c[k] * Solution(col, k + 1) == col.d[k] - LowerTerm(col, k)
  {
    ForwardLevel(col, k);
    EliminateAbove(Pivot(col, k), col.c[k], ForwardX(col, k), ForwardDelta(col, k), col.d[k] - LowerTerm(col, k),
                   Solution(col, k), Solution(col, k + 1));
  }

  lemma EliminatedTopRow(col: Column, k: nat)
    requires Solvable(col) && k == col.Size() - 1
    ensures Pivot(col, k) * Solution(col, k) == col.d[k] - LowerTerm(col, k)
  {
    ForwardDeltaAt(col, k);
  }

  /** Row k with x[k-1] eliminated: p[k] * x[k] + c[k] * x[k+1] == d[k] - a[k] * delta[k-1]. */
  lemma EliminatedRow(col: Column, k: nat)
    requires Solvable(col) && k < col.Size()
    ensures Pivot(col, k) * Solution(col, k) + UpperOf(col, SolutionOf(col), k) == col.d[k] - LowerTerm(col, k)
  {
    if k < col.Size() - 1 {
      EliminatedInnerRow(col, k);
    } else {
      EliminatedTopRow(col, k);
    }
  }

  /** Row k > 0 of the system holds for the backward sweep's result. */
  lemma UpperRow(col: Column, k: nat)
    requires Solvable(col) && 0 < k < col.Size()
    ensures col.b[k] * Solution(col, k) + col.a[k] * Solution(col, k - 1) + UpperOf(col, SolutionOf(col), k) == col.d[k]
  {
    EliminatedRow(col, k);
    var lhs := UpperOf(col, SolutionOf(col), k) - col.d[k] + LowerTerm(col, k);
    SubstituteBelow(Pivot(col, k), col.a[k], col.b[k], ForwardX(col, k - 1), ForwardDelta(col, k - 1),
                    lhs, Solution(col, k), Solution(col, k - 1));
  }

  /** Row k of the system holds for the backward sweep's result. */
  lemma SolutionRow(col: Column, k: nat)
    requires Solvable(col) && k < col.Size()
    ensures RowHolds(col, SolutionOf(col), k)
  {
    if k == 0 {
      EliminatedRow(col, 0);
    } else {
      UpperRow(col, k);
    }
  }

  /** The result of both sweeps satisfies every row of the system. */
  lemma SolutionSolvesSystem(col: Column)
    requires Solvable(col)
    ensures SolvesSystem(col, SolutionOf(col))
  {
    forall k | 0 <= k < col.Size()
      ensures RowHolds(col, SolutionOf(col), k)
    {
      SolutionRow(col, k);
    }
  }

  // ---------------------------------------------------------------------------
  // Uniqueness: every solution of the system is the backward sweep's result

  /** From row k with x[k-1] eliminated, a solution obeys the backward recurrence at level k. */
  lemma AnyBackStep(col: Column, y: seq<real>, k: nat)
    requires Solvable(col) && |y| == col.Size() && k < col.Size()
    requires Pivot(col, k) * y[k] + UpperOf(col, y, k) == col.d[k] - LowerTerm(col, k)
    ensures y[k] == ForwardDelta(col, k) - (if k < col.Size() - 1 then ForwardX(col, k) * y[k + 1] else 0.0)
  {
    ForwardLevel(col, k);
    if k < col.Size() - 1 {
      SolveLevel(Pivot(col, k), col.c[k], ForwardX(col, k), ForwardDelta(col, k), col.d[k] - LowerTerm(col, k), y[k], y[k + 1]);
    } else {
      CancelPivot(Pivot(col, k), y[k], ForwardDelta(col, k));
    }
  }

  /** Row k > 0 of a solution, with x[k-1] replaced by the recurrence, is row k eliminated. */
  lemma AnyBelowStep(col: Column, y: seq<real>, k: nat)
    requires SolvesSystem(col, y) && 0 < k < col.Size()
    requires y[k - 1] == ForwardDelta(col, k - 1) - ForwardX(col, k - 1) * y[k]
    ensures Pivot(col, k) * y[k] + UpperOf(col, y, k) == col.d[k] - LowerTerm(col, k)
  {
    assert RowHolds(col, y, k);
    EliminateBelow(Pivot(col, k), col.a[k], col.b[k], ForwardX(col, k - 1), ForwardDelta(col, k - 1),
                   UpperOf(col, y, k), col.d[k], y[k], y[k - 1]);
  }

  /** Forward elimination applies to any solution: row k with x[k-1] eliminated holds for it. */
  lemma {:induction false} AnyEliminated(col: Column, y: seq<real>, k: nat)
    requires Solvable(col) && SolvesSystem(col, y) && k < col.Size()
    ensures Pivot(col, k) * y[k] + UpperOf(col, y, k) == col.d[k] - LowerTerm(col, k)
  {
    if k == 0 {
      assert RowHolds(col, y, 0);
    } else {
      AnyEliminated(col, y, k - 1);
      AnyBackStep(col, y, k - 1);
      AnyBelowStep(col, y, k);
    }
  }

  lemma {:induction false} AnySolutionIsBackward(col: Column, y: seq<real>, k: nat)
    requires Solvable(col) && SolvesSystem(col, y) && k < col.Size()
    ensures y[k] == Solution(col, k)
    decreases col.Size() - k
  {
    AnyEliminated(col, y, k);
    AnyBackStep(col, y, k);
    if k < col.Size() - 1 {
      AnySolutionIsBackward(col, y, k + 1);
    }
  }

  /** With non-zero pivots the system has exactly one solution, the one both sweeps compute. */
  lemma SolvesSystemIff(col: Column, y: seq<real>)
    requires Solvable(col)
    ensures SolvesSystem(col, y) <==> y == SolutionOf(col)
  {
    if SolvesSystem(col, y) {
      forall k | 0 <= k < |y|
        ensures y[k] == SolutionOf(col)[k]
      {
        AnySolutionIsBackward(col, y, k);
      }
    }
    if y == SolutionOf(col) {
      SolutionSolvesSystem(col);
    }
  }

  // ---------------------------------------------------------------------------
  // Further consequences of the recurrences

  /** Two columns that differ at most in a[0] and in c[NK-1]. */
  predicate SameExceptBoundary(col1: Column, col2: Column) {
    && col1.Shaped() && col2.Shaped() && col1.Size() == col2.Size()
    && col1.b == col2.b && col1.d == col2.d
    && (forall k :: 0 < k < col1.Size() ==> col1.a[k] == col2.a[k])
    && (forall k :: 0 <= k < col1.Size() - 1 ==> col1.c[k] == col2.c[k])
  }

  lemma {:induction false} ForwardIgnoresBoundary(col1: Column, col2: Column, k: nat)
    requires SameExceptBoundary(col1, col2) && k < col1.Size()
    ensures Pivot(col1, k) == Pivot(col2, k)
    ensures ForwardDelta(col1, k) == ForwardDelta(col2, k)
    ensures k < col1.Size() - 1 ==> ForwardX(col1, k) == ForwardX(col2, k)
  {
    if k > 0 {
      ForwardIgnoresBoundary(col1, col2, k - 1);
      assert LowerTerm(col1, k) == LowerTerm(col2, k);
    }
  }

  lemma {:induction false} BackwardIgnoresBoundary(col1: Column, col2: Column, k: nat)
    requires SameExceptBoundary(col1, col2) && k < col1.Size()
    ensures Solution(col1, k) == Solution(col2, k)
    decreases col1.Size() - k
  {
    ForwardIgnoresBoundary(col1, col2, k);
    if k < col1.Size() - 1 {
      BackwardIgnoresBoundary(col1, col2, k + 1);
    }
  }

  /** a[0] and c[NK-1] influence neither the solvability, nor delta, nor the final x. */
  lemma BoundaryCoefficientsIgnored(col1: Column, col2: Column)
    requires SameExceptBoundary(col1, col2)
    ensures Solvable(col1) <==> Solvable(col2)
    ensures SolutionOf(col1) == SolutionOf(col2) && ForwardDeltaOf(col1) == ForwardDeltaOf(col2)
  {
    forall k | 0 <= k < col1.Size()
      ensures Pivot(col1, k) == Pivot(col2, k)
      ensures Solution(col1, k) == Solution(col2, k) && ForwardDelta(col1, k) == ForwardDelta(col2, k)
    {
      ForwardIgnoresBoundary(col1, col2, k);
      BackwardIgnoresBoundary(col1, col2, k);
    }
  }

  /** A single-level column: the backward sweep replaces the forward c/b by delta = d/b. */
  lemma SingleLevel(col: Column)
    requires col.Shaped() && col.Size() == 1 && col.b[0] != 0.0
    ensures Solvable(col)
    ensures ForwardX(col, 0) == col.c[0] / col.b[0]
    ensures SolutionOf(col) == [col.d[0] / col.b[0]] == ForwardDeltaOf(col)
  {
    assert LowerTerm(col, 0) == 0.0;
  }

  /** The identity system (a = c = 0, b = 1): the forward sweep leaves x == 0 and delta == d. */
  lemma {:induction false} IdentityForward(col: Column, k: nat)
    requires col.Shaped() && k < col.Size()
    requires forall m :: 0 <= m < col.Size() ==> col.a[m] == 0.0 && col.b[m] == 1.0 && col.c[m] == 0.0
    ensures Pivot(col, k) == 1.0 && ForwardX(col, k) == 0.0 && ForwardDelta(col, k) == col.d[k]
  {
    if k > 0 {
      IdentityForward(col, k - 1);
    }
  }

  lemma IdentitySystem(col: Column)
    requires col.Shaped()
    requires forall m :: 0 <= m < col.Size() ==> col.a[m] == 0.0 && col.b[m] == 1.0 && col.c[m] == 0.0
    ensures Solvable(col) && SolutionOf(col) == col.d && ForwardDeltaOf(col) == col.d
  {
    forall k | 0 <= k < col.Size()
      ensures Pivot(col, k) == 1.0 && ForwardDelta(col, k) == col.d[k]
    {
      IdentityForward(col, k);
    }
    assert SolvesSystem(col, col.d) by {
      forall k | 0 <= k < col.Size()
        ensures RowHolds(col, col.d, k)
      {
      }
    }
    SolvesSystemIff(col, col.d);
  }

  /** The three-level column a = [0, 1, 1], b = [2, 2, 2], c = [1, 1, 0], d = [3, 3, 3]. */
  lemma ThreeLevelExample()
    ensures var col := Column([0.0, 1.0, 1.0], [2.0, 2.0, 2.0], [1.0, 1.0, 0.0], [3.0, 3.0, 3.0]);
            && Solvable(col)
            && ForwardX(col, 0) == 0.5 && ForwardX(col, 1) == 2.0 / 3.0 && ForwardX(col, 2) == 0.0
            && ForwardDeltaOf(col) == [1.5, 1.0, 1.5]
            && SolutionOf(col) == [1.5, 0.0, 1.5]
  {
    var col := Column([0.0, 1.0, 1.0], [2.0, 2.0, 2.0], [1.0, 1.0, 0.0], [3.0, 3.0, 3.0]);
    assert Pivot(col, 0) == 2.0 && ForwardX(col, 0) == 0.5;
    assert Pivot(col, 1) == 1.5 && ForwardX(col, 1) == 2.0 / 3.0;
    assert Pivot(col, 2) == 4.0 / 3.0;
    assert ForwardDelta(col, 0) == 1.5;
    assert ForwardDelta(col, 1) == 1.0;
    assert ForwardDelta(col, 2) == 1.5;
    assert ForwardDeltaOf(col) == [1.5, 1.0, 1.5];
    assert SolvesSystem(col, [1.5, 0.0, 1.5]) by {
      assert RowHolds(col, [1.5, 0.0, 1.5], 0);
      assert RowHolds(col, [1.5, 0.0, 1.5], 1);
      assert RowHolds(col, [1.5, 0.0, 1.5], 2);
    }
    SolvesSystemIff(col, [1.5, 0.0, 1.5]);
  }

  // ---------------------------------------------------------------------------
  // The stencil over 3D fields

  predicate SameShape(g: array3<real>, h: array3<real>) {
    g.Length0 == h.Length0 && g.Length1 == h.Length1 && g.Length2 == h.Length2
  }

  /** The six fields have one shape, and the two outputs alias neither each other nor an input. */
  predicate Fields(a: array3<real>, b: array3<real>, c: array3<real>, d: array3<real>,
                   x: array3<real>, delta: array3<real>) {
    && SameShape(a, b) && SameShape(a, c) && SameShape(a, d) && SameShape(a, x) && SameShape(a, delta)
    && x != delta && x !in {a, b, c, d} && delta !in {a, b, c, d}
  }

  /** The k-values of column (i, j) of a field. */
  ghost function Slice(g: array3<real>, i: nat, j: nat): (s: seq<real>)
    reads g
    requires i < g.Length0 && j < g.Length1
    ensures |s| == g.Length2 && forall k :: 0 <= k < g.Length2 ==> s[k] == g[i, j, k]
  {
    seq(g.Length2, k requires 0 <= k < g.Length2 reads g => g[i, j, k])
  }

  ghost function ColumnAt(a: array3<real>, b: array3<real>, c: array3<real>, d: array3<real>, i: nat, j: nat): (col: Column)
    reads a, b, c, d
    requires SameShape(a, b) && SameShape(a, c) && SameShape(a, d)
    requires i < a.Length0 && j < a.Length1
    ensures col.Shaped() && col.Size() == a.Length2
  {
    Column(Slice(a, i, j), Slice(b, i, j), Slice(c, i, j), Slice(d, i, j))
  }

  /** Level k > 0 of the forward sweep, computed as the stencil does from the level below. */
  lemma ForwardStep(col: Column, k: nat, xBelow: real, deltaBelow: real)
    requires Solvable(col) && 0 < k < col.Size()
    requires xBelow == ForwardX(col, k - 1) && deltaBelow == ForwardDelta(col, k - 1)
    ensures col.b[k] - col.a[k] * xBelow == Pivot(col, k) != 0.0
    ensures col.c[k] / (col.b[k] - col.a[k] * xBelow) == ForwardX(col, k)
    ensures (col.d[k] - col.a[k] * deltaBelow) / (col.b[k] - col.a[k] * xBelow) == ForwardDelta(col, k)
  {
    PivotAt(col, k);
  }

  /** One level of interval(1, None) in the FORWARD computation: x and delta at (i, j, k). */
  method ForwardLevelAt(a: array3<real>, b: array3<real>, c: array3<real>, d: array3<real>,
                        x: array3<real>, delta: array3<real>, i: nat, j: nat, k: nat, ghost col: Column)
    requires Fields(a, b, c, d, x, delta)
    requires i < a.Length0 && j < a.Length1 && 0 < k < a.Length2
    requires col == ColumnAt(a, b, c, d, i, j) && Solvable(col)
    requires x[i, j, k - 1] == ForwardX(col, k - 1) && delta[i, j, k - 1] == ForwardDelta(col, k - 1)
    modifies x, delta
    ensures x[i, j, k] == ForwardX(col, k) && delta[i, j, k] == ForwardDelta(col, k)
    ensures forall i', j', k' :: 0 <= i' < a.Length0 && 0 <= j' < a.Length1 && 0 <= k' < a.Length2 && (i' != i || j' != j || k' != k) ==>
              x[i', j', k'] == old(x[i', j', k']) && delta[i', j', k'] == old(delta[i', j', k'])
  {
    assert col.a[k] == a[i, j, k] && col.b[k] == b[i, j, k] && col.c[k] == c[i, j, k] && col.d[k] == d[i, j, k];
    ForwardStep(col, k, x[i, j, k - 1], delta[i, j, k - 1]);
    x[i, j, k] := c[i, j, k] / (b[i, j, k] - a[i, j, k] * x[i, j, k - 1]);
    delta[i, j, k] := (d[i, j, k] - a[i, j, k] * delta[i, j, k - 1]) / (b[i, j, k] - a[i, j, k] * x[i, j, k - 1]);
  }

  /** The FORWARD computation of the stencil on column (i, j). */
  method ForwardSweep(a: array3<real>, b: array3<real>, c: array3<real>, d: array3<real>,
                      x: array3<real>, delta: array3<real>, i: nat, j: nat)
    requires Fields(a, b, c, d, x, delta)
    requires i < a.Length0 && j < a.Length1
    requires Solvable(ColumnAt(a, b, c, d, i, j))
    modifies x, delta
    ensures forall k :: 0 <= k < a.Length2 ==>
              x[i, j, k] == ForwardX(ColumnAt(a, b, c, d, i, j), k)
              && delta[i, j, k] == ForwardDelta(ColumnAt(a, b, c, d, i, j), k)
    ensures forall i', j', k' :: 0 <= i' < a.Length0 && 0 <= j' < a.Length1 && 0 <= k' < a.Length2 && (i' != i || j' != j) ==>
              x[i', j', k'] == old(x[i', j', k']) && delta[i', j', k'] == old(delta[i', j', k'])
  {
    ghost var col := ColumnAt(a, b, c, d, i, j);
    var n := a.Length2;
    if n == 0 {
      return;
    }
    // interval(0, 1)
    PivotAt(col, 0);
    assert col.b[0] == b[i, j, 0] && col.c[0] == c[i, j, 0] && col.d[0] == d[i, j, 0];
    x[i, j, 0] := c[i, j, 0] / b[i, j, 0];
    delta[i, j, 0] := d[i, j, 0] / b[i, j, 0];
    // interval(1, None)
    var k := 1;
    while k < n
      invariant 1 <= k <= n
      invariant forall m :: 0 <= m < k ==> x[i, j, m] == ForwardX(col, m) && delta[i, j, m] == ForwardDelta(col, m)
      invariant forall i', j', k' :: 0 <= i' < a.Length0 && 0 <= j' < a.Length1 && 0 <= k' < n && (i' != i || j' != j) ==>
                  x[i', j', k'] == old(x[i', j', k']) && delta[i', j', k'] == old(delta[i', j', k'])
    {
      ForwardLevelAt(a, b, c, d, x, delta, i, j, k, col);
      k := k + 1;
    }
  }

  /** One level of interval(0, -1) in the BACKWARD computation: x at (i, j, k) from x at k + 1. */
  method BackwardLevelAt(x: array3<real>, delta: array3<real>, i: nat, j: nat, k: nat, ghost col: Column)
    requires SameShape(x, delta) && x != delta
    requires i < x.Length0 && j < x.Length1 && k < x.Length2 - 1
    requires col.Shaped() && col.Size() == x.Length2
    requires x[i, j, k] == ForwardX(col, k) && delta[i, j, k] == ForwardDelta(col, k)
    requires x[i, j, k + 1] == Solution(col, k + 1)
    modifies x
    ensures x[i, j, k] == Solution(col, k)
    ensures forall i', j', k' :: 0 <= i' < x.Length0 && 0 <= j' < x.Length1 && 0 <= k' < x.Length2 && (i' != i || j' != j || k' != k) ==>
              x[i', j', k'] == old(x[i', j', k'])
  {
    x[i, j, k] := delta[i, j, k] - x[i, j, k] * x[i, j, k + 1];
  }

  /** The BACKWARD computation of the stencil on column (i, j), from the forward values in x and delta. */
  method BackwardSweep(x: array3<real>, delta: array3<real>, i: nat, j: nat, ghost col: Column)
    requires SameShape(x, delta) && x != delta
    requires i < x.Length0 && j < x.Length1
    requires col.Shaped() && col.Size() == x.Length2
    requires forall k :: 0 <= k < x.Length2 ==> x[i, j, k] == ForwardX(col, k) && delta[i, j, k] == ForwardDelta(col, k)
    modifies x
    ensures forall k :: 0 <= k < x.Length2 ==> x[i, j, k] == Solution(col, k)
    ensures forall i', j', k' :: 0 <= i' < x.Length0 && 0 <= j' < x.Length1 && 0 <= k' < x.Length2 && (i' != i || j' != j) ==>
              x[i', j', k'] == old(x[i', j', k'])
  {
    var n := x.Length2;
    if n == 0 {
      return;
    }
    // interval(-1, None)
    x[i, j, n - 1] := delta[i, j, n - 1];
    // interval(0, -1)
    var k := n - 1;
    while k > 0
      invariant 0 <= k <= n - 1
      invariant forall m :: k <= m < n ==> x[i, j, m] == Solution(col, m)
      invariant forall m :: 0 <= m < k ==> x[i, j, m] == ForwardX(col, m)
      invariant forall i', j', k' :: 0 <= i' < x.Length0 && 0 <= j' < x.Length1 && 0 <= k' < n && (i' != i || j' != j) ==>
                  x[i', j', k'] == old(x[i', j', k'])
    {
      k := k - 1;
      BackwardLevelAt(x, delta, i, j, k, col);
    }
  }

  /** `tridiag_solve`: both sweeps on every (i, j) column. */
  method TridiagSolve(a: array3<real>, b: array3<real>, c: array3<real>, d: array3<real>,
                      x: array3<real>, delta: array3<real>)
    requires Fields(a, b, c, d, x, delta)
    requires forall i, j :: 0 <= i < a.Length0 && 0 <= j < a.Length1 ==> Solvable(ColumnAt(a, b, c, d, i, j))
    modifies x, delta
    ensures forall i, j, k :: 0 <= i < a.Length0 && 0 <= j < a.Length1 && 0 <= k < a.Length2 ==>
              x[i, j, k] == Solution(ColumnAt(a, b, c, d, i, j), k)
              && delta[i, j, k] == ForwardDelta(ColumnAt(a, b, c, d, i, j), k)
    ensures forall i, j :: 0 <= i < a.Length0 && 0 <= j < a.Length1 ==>
              SolvesSystem(ColumnAt(a, b, c, d, i, j), Slice(x, i, j))
  {
    var i := 0;
    while i < a.Length0
      invariant 0 <= i <= a.Length0
      invariant forall i', j', k' :: 0 <= i' < i && 0 <= j' < a.Length1 && 0 <= k' < a.Length2 ==>
                  x[i', j', k'] == Solution(ColumnAt(a, b, c, d, i', j'), k')
                  && delta[i', j', k'] == ForwardDelta(ColumnAt(a, b, c, d, i', j'), k')
    {
      var j := 0;
      while j < a.Length1
        invariant 0 <= j <= a.Length1
        invariant forall i', j', k' :: 0 <= i' < a.Length0 && 0 <= j' < a.Length1 && 0 <= k' < a.Length2 && (i' < i || (i' == i && j' < j)) ==>
                    x[i', j', k'] == Solution(ColumnAt(a, b, c, d, i', j'), k')
                    && delta[i', j', k'] == ForwardDelta(ColumnAt(a, b, c, d, i', j'), k')
      {
        ForwardSweep(a, b, c, d, x, delta, i, j);
        BackwardSweep(x, delta, i, j, ColumnAt(a, b, c, d, i, j));
        j := j + 1;
      }
      i := i + 1;
    }
    forall i, j | 0 <= i < a.Length0 && 0 <= j < a.Length1
      ensures SolvesSystem(ColumnAt(a, b, c, d, i, j), Slice(x, i, j))
    {
      var col := ColumnAt(a, b, c, d, i, j);
      assert Slice(x, i, j) == SolutionOf(col);
      SolutionSolvesSystem(col);
    }
  }
}
