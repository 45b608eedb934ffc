/** A model of the grid fluid solver in the Stam "stable fluids" style: six
    N x N fields stored as flat row-major sequences, the boundary rule, the
    fixed-count Gauss-Seidel relaxation, diffusion, projection,
    semi-Lagrangian advection, the impulse injectors and the swap-based step.

    Floats are modelled as reals. Fields are values: an operation that the
    source performs in place returns the new field instead. */
module Fluid {
  import opened RealMath

  /** Side length of the grid (GRID_SIZE). */
  const N: int := 128
  /** Number of cells in every field (GRID_SIZE_SQ). */
  const Size: int := N * N
  /** Gauss-Seidel iterations per linear solve; there is no convergence test. */
  const Iterations: nat := 20
  /** Multiplicative density fade applied at the end of every step. */
  const Fade: real := 0.99
  /** Cell spacing used by the projection, 1 / N. */
  const H: real := 1.0 / 128.0

  // ---------------------------------------------------------------------
  // Indexing
  // ---------------------------------------------------------------------

  predicate InGrid(x: int, y: int) { 0 <= x < N && 0 <= y < N }

  /** Cells the solver computes; every other cell is a border cell. */
  predicate Interior(x: int, y: int) { 1 <= x <= N - 2 && 1 <= y <= N - 2 }

  /** Row-major linear index of column x, row y. On the grid it is a
      bijection onto [0, Size) whose inverse is (k % N, k / N). */
  function IX(x: int, y: int): (k: int)
    ensures InGrid(x, y) ==> 0 <= k < Size && k % N == x && k / N == y
  {
    x + y * N
  }

  /** Every linear index names exactly one cell. */
  lemma CellOfIndex(k: int)
    requires 0 <= k < Size
    ensures InGrid(k % N, k / N) && IX(k % N, k / N) == k
  {
  }

  // ---------------------------------------------------------------------
  // Fields
  // ---------------------------------------------------------------------

  predicate IsField(f: seq<real>) { |f| == Size }

  predicate AllZero(f: seq<real>) { forall k :: 0 <= k < |f| ==> f[k] == 0.0 }

  ghost predicate InteriorZero(f: seq<real>)
    requires IsField(f)
  {
    forall x, y :: Interior(x, y) ==> f[IX(x, y)] == 0.0
  }

  /** The two fields agree on every interior cell. */
  ghost predicate SameInterior(f: seq<real>, g: seq<real>)
    requires IsField(f) && IsField(g)
  {
    forall x, y :: Interior(x, y) ==> f[IX(x, y)] == g[IX(x, y)]
  }

  /** The two fields agree on every border cell. */
  ghost predicate SameBorder(f: seq<real>, g: seq<real>)
    requires IsField(f) && IsField(g)
  {
    forall x, y :: InGrid(x, y) && !Interior(x, y) ==> f[IX(x, y)] == g[IX(x, y)]
  }

  function Zeros(): (f: seq<real>)
    ensures IsField(f) && AllZero(f)
  {
    seq(Size, _ => 0.0)
  }

  /** A field is all zero exactly when it is the zero field. */
  lemma ZerosIff(f: seq<real>)
    requires IsField(f)
    ensures AllZero(f) <==> f == Zeros()
  {
    if AllZero(f) {
      assert forall k :: 0 <= k < Size ==> f[k] == Zeros()[k];
    }
  }

  /** Sum of all cells: the total mass of a density field. */
  function Total(f: seq<real>): real
  {
    if |f| == 0 then 0.0 else Total(f[..|f| - 1]) + f[|f| - 1]
  }

  // ---------------------------------------------------------------------
  // Boundary rule (set_bnd)
  // ---------------------------------------------------------------------

  function Reflect(negate: bool, v: real): real
  {
    if negate then -v else v
  }

  /** Each edge cell copies its interior neighbour; the copy is negated for
      the velocity component normal to that edge (b == 2 on the top and
      bottom rows, b == 1 on the left and right columns). */
  predicate EdgesMirrored(b: int, f: seq<real>)
    requires IsField(f)
  {
    && (forall i :: 1 <= i <= N - 2 ==>
          f[IX(i, 0)] == Reflect(b == 2, f[IX(i, 1)]) &&
          f[IX(i, N - 1)] == Reflect(b == 2, f[IX(i, N - 2)]))
    && (forall j :: 1 <= j <= N - 2 ==>
          f[IX(0, j)] == Reflect(b == 1, f[IX(1, j)]) &&
          f[IX(N - 1, j)] == Reflect(b == 1, f[IX(N - 2, j)]))
  }

  /** Each corner is the mean of its two adjacent edge cells. */
  predicate CornersAveraged(f: seq<real>)
    requires IsField(f)
  {
    && f[IX(0, 0)] == 0.5 * (f[IX(1, 0)] + f[IX(0, 1)])
    && f[IX(0, N - 1)] == 0.5 * (f[IX(1, N - 1)] + f[IX(0, N - 2)])
    && f[IX(N - 1, 0)] == 0.5 * (f[IX(N - 2, 0)] + f[IX(N - 1, 1)])
    && f[IX(N - 1, N - 1)] == 0.5 * (f[IX(N - 2, N - 1)] + f[IX(N - 1, N - 2)])
  }

  /** The state set_bnd(b, .) leaves a field in. */
  predicate BoundaryRule(b: int, f: seq<real>)
  {
    IsField(f) && EdgesMirrored(b, f) && CornersAveraged(f)
  }

  /** Value the edge loops of set_bnd give cell (i, j); interior cells and
      corners keep their value at this stage. */
  function EdgeValue(b: int, x: seq<real>, i: int, j: int): real
    requires IsField(x) && InGrid(i, j)
  {
    if 1 <= i <= N - 2 && j == 0 then Reflect(b == 2, x[IX(i, 1)])
    else if 1 <= i <= N - 2 && j == N - 1 then Reflect(b == 2, x[IX(i, N - 2)])
    else if i == 0 && 1 <= j <= N - 2 then Reflect(b == 1, x[IX(1, j)])
    else if i == N - 1 && 1 <= j <= N - 2 then Reflect(b == 1, x[IX(N - 2, j)])
    else x[IX(i, j)]
  }

  /** The two edge loops of set_bnd: every edge cell copies (or negates) its
      interior neighbour; interior cells and corners are not written. */
  function EdgePass(b: int, x: seq<real>): (e: seq<real>)
    requires IsField(x)
    ensures IsField(e)
    ensures forall i, j :: InGrid(i, j) ==> e[IX(i, j)] == EdgeValue(b, x, i, j)
  {
    seq(Size, k requires 0 <= k < Size => EdgeValue(b, x, k % N, k / N))
  }

  predicate IsCorner(x: int, y: int)
  {
    (x == 0 || x == N - 1) && (y == 0 || y == N - 1)
  }

  /** The corner statements of set_bnd: each corner becomes the mean of its
      two (already updated) edge neighbours; nothing else is written. */
  function CornerPass(e: seq<real>): (r: seq<real>)
    requires IsField(e)
    ensures IsField(r) && CornersAveraged(r)
    ensures forall i, j :: InGrid(i, j) && !IsCorner(i, j) ==> r[IX(i, j)] == e[IX(i, j)]
  {
    e[IX(0, 0) := 0.5 * (e[IX(1, 0)] + e[IX(0, 1)])]
     [IX(0, N - 1) := 0.5 * (e[IX(1, N - 1)] + e[IX(0, N - 2)])]
     [IX(N - 1, 0) := 0.5 * (e[IX(N - 2, 0)] + e[IX(N - 1, 1)])]
     [IX(N - 1, N - 1) := 0.5 * (e[IX(N - 2, N - 1)] + e[IX(N - 1, N - 2)])]
  }

  /** set_bnd: the two edge loops, then the four corners from the new edges.
      The interior is untouched and the result obeys the rule for b. */
  function SetBnd(b: int, x: seq<real>): (r: seq<real>)
    requires IsField(x)
    ensures BoundaryRule(b, r)
    ensures SameInterior(r, x)
  {
    var e := EdgePass(b, x);
    var r := CornerPass(e);
    assert EdgesMirrored(b, r) by {
      forall i | 1 <= i <= N - 2
        ensures r[IX(i, 0)] == Reflect(b == 2, r[IX(i, 1)])
        ensures r[IX(i, N - 1)] == Reflect(b == 2, r[IX(i, N - 2)])
        ensures r[IX(0, i)] == Reflect(b == 1, r[IX(1, i)])
        ensures r[IX(N - 1, i)] == Reflect(b == 1, r[IX(N - 2, i)])
      {
        assert r[IX(i, 1)] == e[IX(i, 1)] == x[IX(i, 1)];
        assert r[IX(i, N - 2)] == e[IX(i, N - 2)] == x[IX(i, N - 2)];
        assert r[IX(1, i)] == e[IX(1, i)] == x[IX(1, i)];
        assert r[IX(N - 2, i)] == e[IX(N - 2, i)] == x[IX(N - 2, i)];
        assert r[IX(i, 0)] == e[IX(i, 0)];
        assert r[IX(i, N - 1)] == e[IX(i, N - 1)];
        assert r[IX(0, i)] == e[IX(0, i)];
        assert r[IX(N - 1, i)] == e[IX(N - 1, i)];
      }
    }
    assert SameInterior(r, x) by {
      forall i, j | Interior(i, j) ensures r[IX(i, j)] == x[IX(i, j)] {
        assert r[IX(i, j)] == e[IX(i, j)];
      }
    }
    r
  }

  /** A field obeying the rule for b is fixed by its interior: two such
      fields with the same interior are equal. */
  lemma {:induction false} BoundaryDetermined(b: int, f: seq<real>, g: seq<real>)
    requires BoundaryRule(b, f) && BoundaryRule(b, g)
    requires SameInterior(f, g)
    ensures f == g
  {
    forall i | 1 <= i <= N - 2
      ensures f[IX(i, 0)] == g[IX(i, 0)] && f[IX(i, N - 1)] == g[IX(i, N - 1)]
      ensures f[IX(0, i)] == g[IX(0, i)] && f[IX(N - 1, i)] == g[IX(N - 1, i)]
    {
      assert f[IX(i, 1)] == g[IX(i, 1)] && f[IX(i, N - 2)] == g[IX(i, N - 2)];
      assert f[IX(1, i)] == g[IX(1, i)] && f[IX(N - 2, i)] == g[IX(N - 2, i)];
    }
    forall k | 0 <= k < Size
      ensures f[k] == g[k]
    {
      CellOfIndex(k);
      var x, y := k % N, k / N;
      assert k == IX(x, y);
      if Interior(x, y) {
        assert f[IX(x, y)] == g[IX(x, y)];
      } else if 1 <= x <= N - 2 && y == 0 {
        assert f[IX(x, 0)] == g[IX(x, 0)];
      } else if 1 <= x <= N - 2 && y == N - 1 {
        assert f[IX(x, N - 1)] == g[IX(x, N - 1)];
      } else if x == 0 && 1 <= y <= N - 2 {
        assert f[IX(0, y)] == g[IX(0, y)];
      } else if x == N - 1 && 1 <= y <= N - 2 {
        assert f[IX(N - 1, y)] == g[IX(N - 1, y)];
      } else {
        assert IsCorner(x, y);
        assert f[IX(1, 0)] == g[IX(1, 0)] && f[IX(0, 1)] == g[IX(0, 1)];
        assert f[IX(1, N - 1)] == g[IX(1, N - 1)] && f[IX(0, N - 2)] == g[IX(0, N - 2)];
        assert f[IX(N - 2, 0)] == g[IX(N - 2, 0)] && f[IX(N - 1, 1)] == g[IX(N - 1, 1)];
        assert f[IX(N - 2, N - 1)] == g[IX(N - 2, N - 1)] && f[IX(N - 1, N - 2)] == g[IX(N - 1, N - 2)];
      }
    }
  }

  /** set_bnd leaves a field that already obeys the rule unchanged; in
      particular applying it twice is the same as applying it once. */
  lemma SetBndFixesBounded(b: int, f: seq<real>)
    requires BoundaryRule(b, f)
    ensures SetBnd(b, f) == f
    ensures SetBnd(b, SetBnd(b, f)) == SetBnd(b, f)
  {
    BoundaryDetermined(b, SetBnd(b, f), f);
  }

  lemma SetBndIdempotent(b: int, f: seq<real>)
    requires IsField(f)
    ensures SetBnd(b, SetBnd(b, f)) == SetBnd(b, f)
  {
    SetBndFixesBounded(b, SetBnd(b, f));
  }

  /** The old border of a field has no influence on set_bnd's result. */
  lemma SetBndIgnoresBorder(b: int, f: seq<real>, g: seq<real>)
    requires IsField(f) && IsField(g) && SameInterior(f, g)
    ensures SetBnd(b, f) == SetBnd(b, g)
  {
    BoundaryDetermined(b, SetBnd(b, f), SetBnd(b, g));
  }

  /** A field whose interior is zero becomes all zero under set_bnd. */
  lemma SetBndOfZeroInterior(b: int, f: seq<real>)
    requires IsField(f)
    ensures InteriorZero(f) ==> AllZero(SetBnd(b, f))
  {
    if InteriorZero(f) {
      ZerosObeyBoundary(b);
      BoundaryDetermined(b, SetBnd(b, f), Zeros());
    }
  }

  /** The zero field satisfies every boundary rule. */
  lemma ZerosObeyBoundary(b: int)
    ensures BoundaryRule(b, Zeros())
  {
    var z := Zeros();
    assert Reflect(b == 1, 0.0) == 0.0 && Reflect(b == 2, 0.0) == 0.0;
    forall i | 1 <= i <= N - 2
      ensures z[IX(i, 0)] == Reflect(b == 2, z[IX(i, 1)])
      ensures z[IX(i, N - 1)] == Reflect(b == 2, z[IX(i, N - 2)])
      ensures z[IX(0, i)] == Reflect(b == 1, z[IX(1, i)])
      ensures z[IX(N - 1, i)] == Reflect(b == 1, z[IX(N - 2, i)])
    {
    }
  }

  // ---------------------------------------------------------------------
  // Linear solver (lin_solve) and diffusion (diffuse)
  // ---------------------------------------------------------------------

  /** The value the sweep gives interior cell (i, j) of buffer r: x0's
      value there plus a times the sum of its four neighbours as r holds
      them, all times cRecip. */
  function RelaxCell(x0: seq<real>, a: real, cRecip: real, r: seq<real>, i: int, j: int): real
    requires IsField(x0) && IsField(r) && Interior(i, j)
  {
    (x0[IX(i, j)] + a * (r[IX(i + 1, j)] + r[IX(i - 1, j)] + r[IX(i, j + 1)] + r[IX(i, j - 1)])) * cRecip
  }

  /** Interior cell (i, j) of r is relaxed from x the way a row-major sweep
      does it: the neighbours to the right and below have not been visited
      yet and still hold x's values; those to the left and above hold their
      new values in r (a border neighbour is never written, so r and x
      agree there). */
  ghost predicate Relaxed(x: seq<real>, x0: seq<real>, a: real, cRecip: real, r: seq<real>, i: int, j: int)
    requires IsField(x) && IsField(x0) && IsField(r) && Interior(i, j)
  {
    r[IX(i, j)] == (x0[IX(i, j)] + a * (x[IX(i + 1, j)] + r[IX(i - 1, j)] + x[IX(i, j + 1)] + r[IX(i, j - 1)])) * cRecip
  }

  /** Cell (i', j') comes before cell (i, j) in row-major order. */
  predicate Before(i': int, j': int, i: int, j: int)
  {
    j' < j || (j' == j && i' < i)
  }

  /** Every interior cell before (i, j) is relaxed. */
  ghost predicate RelaxedBefore(x: seq<real>, x0: seq<real>, a: real, cRecip: real, r: seq<real>, i: int, j: int)
    requires IsField(x) && IsField(x0) && IsField(r)
  {
    forall i', j' {:trigger Relaxed(x, x0, a, cRecip, r, i', j')} ::
      Interior(i', j') && Before(i', j', i, j) ==> Relaxed(x, x0, a, cRecip, r, i', j')
  }

  /** Every interior cell from (i, j) on still holds its value in x. */
  ghost predicate UntouchedFrom(x: seq<real>, r: seq<real>, i: int, j: int)
    requires IsField(x) && IsField(r)
  {
    forall i', j' {:trigger r[IX(i', j')]} ::
      Interior(i', j') && !Before(i', j', i, j) ==> r[IX(i', j')] == x[IX(i', j')]
  }

  /** r is the result of one Gauss-Seidel sweep over x: the border is not
      written and every interior cell is relaxed in row-major order. */
  ghost predicate IsSweep(x: seq<real>, x0: seq<real>, a: real, cRecip: real, r: seq<real>)
    requires IsField(x) && IsField(x0)
  {
    IsField(r) && SameBorder(r, x) && RelaxedBefore(x, x0, a, cRecip, r, 1, N - 1)
  }

  /** Relaxing cell (i, j) in place extends the relaxed prefix by one cell
      and leaves every later cell and the border alone. */
  lemma RelaxStep(x: seq<real>, x0: seq<real>, a: real, cRecip: real, r: seq<real>, i: int, j: int)
    requires IsField(x) && IsField(x0) && IsField(r) && Interior(i, j)
    requires SameBorder(r, x)
    requires RelaxedBefore(x, x0, a, cRecip, r, i, j) && UntouchedFrom(x, r, i, j)
    ensures var r' := r[IX(i, j) := RelaxCell(x0, a, cRecip, r, i, j)];
      && IsField(r') && SameBorder(r', x)
      && RelaxedBefore(x, x0, a, cRecip, r', i + 1, j) && UntouchedFrom(x, r', i + 1, j)
  {
    var k := IX(i, j);
    var r' := r[k := RelaxCell(x0, a, cRecip, r, i, j)];
    assert r[IX(i + 1, j)] == x[IX(i + 1, j)] && r[IX(i, j + 1)] == x[IX(i, j + 1)];
    assert r'[IX(i - 1, j)] == r[IX(i - 1, j)] && r'[IX(i, j - 1)] == r[IX(i, j - 1)];
    assert Relaxed(x, x0, a, cRecip, r', i, j);
    forall i', j' | Interior(i', j') && Before(i', j', i + 1, j)
      ensures Relaxed(x, x0, a, cRecip, r', i', j')
    {
      if (i', j') != (i, j) {
        assert Relaxed(x, x0, a, cRecip, r, i', j');
        assert IX(i', j') != k && IX(i' - 1, j') != k && IX(i', j' - 1) != k;
      }
    }
    forall i', j' | InGrid(i', j') && !Interior(i', j')
      ensures r'[IX(i', j')] == x[IX(i', j')]
    {
      assert IX(i', j') != k;
    }
    forall i', j' | Interior(i', j') && !Before(i', j', i + 1, j)
      ensures r'[IX(i', j')] == x[IX(i', j')]
    {
      assert IX(i', j') != k;
    }
  }

  /** A sweep is fully determined by its input: row-major order fixes the
      value of every interior cell from the ones before it. */
  lemma SweepDetermined(x: seq<real>, x0: seq<real>, a: real, cRecip: real, r1: seq<real>, r2: seq<real>)
    requires IsField(x) && IsField(x0)
    requires IsSweep(x, x0, a, cRecip, r1) && IsSweep(x, x0, a, cRecip, r2)
    ensures r1 == r2
  {
    forall i, j | Interior(i, j)
      ensures r1[IX(i, j)] == r2[IX(i, j)]
    {
      SweepCellsAgree(x, x0, a, cRecip, r1, r2, i, j);
    }
    forall k | 0 <= k < Size
      ensures r1[k] == r2[k]
    {
      CellOfIndex(k);
      var i, j := k % N, k / N;
      if Interior(i, j) {
        assert r1[IX(i, j)] == r2[IX(i, j)];
      } else {
        assert r1[IX(i, j)] == x[IX(i, j)] == r2[IX(i, j)];
      }
    }
  }

  /** Two sweeps of the same input agree on interior cell (i, j), by
      induction over row-major order. */
  lemma {:induction false} SweepCellsAgree(x: seq<real>, x0: seq<real>, a: real, cRecip: real,
                                           r1: seq<real>, r2: seq<real>, i: int, j: int)
    requires IsField(x) && IsField(x0)
    requires IsSweep(x, x0, a, cRecip, r1) && IsSweep(x, x0, a, cRecip, r2)
    requires Interior(i, j)
    ensures r1[IX(i, j)] == r2[IX(i, j)]
    decreases j, i
  {
    if i > 1 {
      SweepCellsAgree(x, x0, a, cRecip, r1, r2, i - 1, j);
    } else {
      assert r1[IX(i - 1, j)] == x[IX(i - 1, j)] == r2[IX(i - 1, j)];
    }
    if j > 1 {
      SweepCellsAgree(x, x0, a, cRecip, r1, r2, i, j - 1);
    } else {
      assert r1[IX(i, j - 1)] == x[IX(i, j - 1)] == r2[IX(i, j - 1)];
    }
    assert Relaxed(x, x0, a, cRecip, r1, i, j) && Relaxed(x, x0, a, cRecip, r2, i, j);
  }

  /** One Gauss-Seidel sweep of lin_solve: interior cells in row-major order,
      each relaxed from x0 and its four neighbours' current values (cells
      already visited in this sweep contribute their new value). */
  method Sweep(x: seq<real>, x0: seq<real>, a: real, cRecip: real) returns (r: seq<real>)
    requires IsField(x) && IsField(x0)
    ensures IsSweep(x, x0, a, cRecip, r)
    ensures a == 0.0 ==> forall i, j :: Interior(i, j) ==> r[IX(i, j)] == x0[IX(i, j)] * cRecip
    ensures AllZero(x) && AllZero(x0) ==> AllZero(r)
  {
    r := x;
    var j := 1;
    while j < N - 1
      invariant 1 <= j <= N - 1
      invariant IsField(r) && SameBorder(r, x)
      invariant RelaxedBefore(x, x0, a, cRecip, r, 1, j) && UntouchedFrom(x, r, 1, j)
      invariant AllZero(x) && AllZero(x0) ==> AllZero(r)
    {
      var i := 1;
      while i < N - 1
        invariant 1 <= i <= N - 1
        invariant IsField(r) && SameBorder(r, x)
        invariant RelaxedBefore(x, x0, a, cRecip, r, i, j) && UntouchedFrom(x, r, i, j)
        invariant AllZero(x) && AllZero(x0) ==> AllZero(r)
      {
        RelaxStep(x, x0, a, cRecip, r, i, j);
        r := r[IX(i, j) := RelaxCell(x0, a, cRecip, r, i, j)];
        i := i + 1;
      }
      RowDone(x, x0, a, cRecip, r, j);
      j := j + 1;
    }
    if a == 0.0 {
      forall i, j | Interior(i, j)
        ensures r[IX(i, j)] == x0[IX(i, j)] * cRecip
      {
        assert Relaxed(x, x0, a, cRecip, r, i, j);
      }
    }
  }

  /** Finishing row j is the same as starting row j + 1. */
  lemma RowDone(x: seq<real>, x0: seq<real>, a: real, cRecip: real, r: seq<real>, j: int)
    requires IsField(x) && IsField(x0) && IsField(r)
    requires RelaxedBefore(x, x0, a, cRecip, r, N - 1, j) && UntouchedFrom(x, r, N - 1, j)
    ensures RelaxedBefore(x, x0, a, cRecip, r, 1, j + 1) && UntouchedFrom(x, r, 1, j + 1)
  {
    forall i', j' | Interior(i', j') && Before(i', j', 1, j + 1)
      ensures Relaxed(x, x0, a, cRecip, r, i', j')
    {
      assert Before(i', j', N - 1, j);
    }
  }

  /** After set_bnd(b, .), t' holds one sweep of t. */
  ghost predicate SweptThenBounded(b: int, t: seq<real>, x0: seq<real>, a: real, cRecip: real, t': seq<real>)
  {
    IsField(t) && IsField(x0) && exists s :: IsSweep(t, x0, a, cRecip, s) && t' == SetBnd(b, s)
  }

  /** Entry k + 1 of the trace follows from entry k by one iteration. */
  ghost predicate TraceStep(b: int, x0: seq<real>, a: real, cRecip: real, trace: seq<seq<real>>, k: int)
    requires 0 <= k < |trace| - 1
  {
    SweptThenBounded(b, trace[k], x0, a, cRecip, trace[k + 1])
  }

  /** trace lists the contents of lin_solve's buffer after each iteration,
      starting from its initial contents. */
  ghost predicate SolveTrace(b: int, x0: seq<real>, a: real, cRecip: real, trace: seq<seq<real>>)
  {
    forall k {:trigger TraceStep(b, x0, a, cRecip, trace, k)} :: 0 <= k < |trace| - 1 ==> TraceStep(b, x0, a, cRecip, trace, k)
  }

  /** r is what lin_solve(b, ., x0, a, c) leaves in a buffer that held x:
      Iterations sweeps with cRecip = 1 / c, each followed by set_bnd(b, .). */
  ghost predicate LinSolved(b: int, x: seq<real>, x0: seq<real>, a: real, c: real, r: seq<real>)
    requires c != 0.0
  {
    exists trace {:trigger SolveTrace(b, x0, a, 1.0 / c, trace)} ::
      |trace| == Iterations + 1 && trace[0] == x && trace[Iterations] == r && SolveTrace(b, x0, a, 1.0 / c, trace)
  }

  /** Two traces from the same start agree entry by entry. */
  lemma {:induction false} TracesAgree(b: int, x0: seq<real>, a: real, cRecip: real, t1: seq<seq<real>>, t2: seq<seq<real>>, k: nat)
    requires SolveTrace(b, x0, a, cRecip, t1) && SolveTrace(b, x0, a, cRecip, t2)
    requires k < |t1| && k < |t2| && t1[0] == t2[0]
    ensures t1[k] == t2[k]
  {
    if k > 0 {
      TracesAgree(b, x0, a, cRecip, t1, t2, k - 1);
      assert TraceStep(b, x0, a, cRecip, t1, k - 1);
      assert TraceStep(b, x0, a, cRecip, t2, k - 1);
      NextAgrees(b, x0, a, cRecip, t1, t2, k - 1);
    }
  }

  /** Traces that agree at entry k agree at entry k + 1. */
  lemma NextAgrees(b: int, x0: seq<real>, a: real, cRecip: real, t1: seq<seq<real>>, t2: seq<seq<real>>, k: nat)
    requires k < |t1| - 1 && k < |t2| - 1 && t1[k] == t2[k]
    requires TraceStep(b, x0, a, cRecip, t1, k) && TraceStep(b, x0, a, cRecip, t2, k)
    ensures t1[k + 1] == t2[k + 1]
  {
    IterationDetermined(b, t1[k], x0, a, cRecip, t1[k + 1], t2[k + 1]);
  }

  /** One iteration of lin_solve is a function of the buffer it starts from. */
  lemma IterationDetermined(b: int, t: seq<real>, x0: seq<real>, a: real, cRecip: real, t1: seq<real>, t2: seq<real>)
    requires SweptThenBounded(b, t, x0, a, cRecip, t1) && SweptThenBounded(b, t, x0, a, cRecip, t2)
    ensures t1 == t2
  {
    var s1 :| IsSweep(t, x0, a, cRecip, s1) && t1 == SetBnd(b, s1);
    var s2 :| IsSweep(t, x0, a, cRecip, s2) && t2 == SetBnd(b, s2);
    SweepDetermined(t, x0, a, cRecip, s1, s2);
  }

  /** lin_solve is a function of its inputs: from the same start, the same
      right-hand side and coefficients it leaves the same buffer. */
  lemma LinSolveDetermined(b: int, x: seq<real>, x0: seq<real>, a: real, c: real, r1: seq<real>, r2: seq<real>)
    requires c != 0.0
    requires LinSolved(b, x, x0, a, c, r1) && LinSolved(b, x, x0, a, c, r2)
    ensures r1 == r2
  {
    var t1 :| |t1| == Iterations + 1 && t1[0] == x && t1[Iterations] == r1 && SolveTrace(b, x0, a, 1.0 / c, t1);
    var t2 :| |t2| == Iterations + 1 && t2[0] == x && t2[Iterations] == r2 && SolveTrace(b, x0, a, 1.0 / c, t2);
    TracesAgree(b, x0, a, 1.0 / c, t1, t2, Iterations);
  }

  /** Solving from the zero field with a zero right-hand side leaves the
      zero field, whatever the coefficients. */
  lemma LinSolveOfZeros(b: int, a: real, c: real, r: seq<real>)
    requires c != 0.0
    requires LinSolved(b, Zeros(), Zeros(), a, c, r)
    ensures r == Zeros()
  {
    var z := Zeros();
    var cRecip := 1.0 / c;
    assert IsSweep(z, z, a, cRecip, z) by {
      forall i, j | Interior(i, j)
        ensures Relaxed(z, z, a, cRecip, z, i, j)
      {
        assert z[IX(i, j)] == 0.0 && z[IX(i + 1, j)] == 0.0 && z[IX(i - 1, j)] == 0.0;
        assert z[IX(i, j + 1)] == 0.0 && z[IX(i, j - 1)] == 0.0;
      }
    }
    ZerosObeyBoundary(b);
    SetBndFixesBounded(b, z);
    var trace := seq(Iterations + 1, _ => z);
    forall k | 0 <= k < |trace| - 1
      ensures TraceStep(b, z, a, cRecip, trace, k)
    {
      assert trace[k] == z && trace[k + 1] == SetBnd(b, z);
    }
    assert SolveTrace(b, z, a, cRecip, trace);
    LinSolveDetermined(b, z, z, a, c, r, z);
  }

  /** lin_solve: Iterations sweeps, each followed by set_bnd(b, .). The
      right-hand side x0 is an input value and is never written. */
  method LinSolve(b: int, x: seq<real>, x0: seq<real>, a: real, c: real) returns (r: seq<real>)
    requires IsField(x) && IsField(x0)
    requires c != 0.0
    ensures LinSolved(b, x, x0, a, c, r)
    ensures BoundaryRule(b, r)
    ensures a == 0.0 ==> forall i, j :: Interior(i, j) ==> r[IX(i, j)] == x0[IX(i, j)] / c
    ensures AllZero(x) && AllZero(x0) ==> AllZero(r)
  {
    var cRecip := 1.0 / c;
    r := x;
    ghost var trace := [x];
    var k := 0;
    while k < Iterations
      invariant 0 <= k <= Iterations
      invariant IsField(r)
      invariant |trace| == k + 1 && trace[0] == x && trace[k] == r
      invariant SolveTrace(b, x0, a, cRecip, trace)
      invariant k > 0 ==> BoundaryRule(b, r)
      invariant k > 0 && a == 0.0 ==>
        forall i, j :: Interior(i, j) ==> r[IX(i, j)] == x0[IX(i, j)] * cRecip
      invariant AllZero(x) && AllZero(x0) ==> AllZero(r)
    {
      var s := Sweep(r, x0, a, cRecip);
      SetBndOfZeroInterior(b, s);
      ExtendTrace(b, x0, a, cRecip, trace, s);
      r := SetBnd(b, s);
      trace := trace + [r];
      k := k + 1;
    }
  }

  /** Appending set_bnd of a sweep of the last entry keeps a trace a trace. */
  lemma ExtendTrace(b: int, x0: seq<real>, a: real, cRecip: real, trace: seq<seq<real>>, s: seq<real>)
    requires |trace| > 0 && IsField(trace[|trace| - 1]) && IsField(x0)
    requires SolveTrace(b, x0, a, cRecip, trace)
    requires IsSweep(trace[|trace| - 1], x0, a, cRecip, s)
    ensures SolveTrace(b, x0, a, cRecip, trace + [SetBnd(b, s)])
  {
    var t := trace + [SetBnd(b, s)];
    forall k | 0 <= k < |t| - 1
      ensures TraceStep(b, x0, a, cRecip, t, k)
    {
      if k < |trace| - 1 {
        assert TraceStep(b, x0, a, cRecip, trace, k);
      }
    }
  }

  /** Diffusion coefficient a = dt * rate * (N - 2)^2: zero exactly when
      dt * rate is, otherwise of the same sign, so that the diagonal 1 + 4a
      is at least 1 whenever dt * rate is not negative. */
  function DiffusionCoeff(dt: real, rate: real): (a: real)
    ensures a == 0.0 <==> dt * rate == 0.0
    ensures dt * rate > 0.0 ==> a > 0.0
    ensures dt * rate < 0.0 ==> a < 0.0
    ensures dt * rate >= 0.0 ==> 1.0 + 4.0 * a >= 1.0
  {
    dt * rate * (N - 2) as real * (N - 2) as real
  }

  /** The diagonal 1 + 4a of the diffusion system is not zero. */
  predicate Solvable(dt: real, rate: real)
  {
    1.0 + 4.0 * DiffusionCoeff(dt, rate) != 0.0
  }

  /** r is what diffuse(b, ., x0, rate, dt) leaves in a buffer that held x. */
  ghost predicate Diffused(b: int, x: seq<real>, x0: seq<real>, rate: real, dt: real, r: seq<real>)
    requires Solvable(dt, rate)
  {
    LinSolved(b, x, x0, DiffusionCoeff(dt, rate), 1.0 + 4.0 * DiffusionCoeff(dt, rate), r)
  }

  /** diffuse is a function of its inputs. */
  lemma DiffusedDetermined(b: int, x: seq<real>, x0: seq<real>, rate: real, dt: real, r1: seq<real>, r2: seq<real>)
    requires Solvable(dt, rate)
    requires Diffused(b, x, x0, rate, dt, r1) && Diffused(b, x, x0, rate, dt, r2)
    ensures r1 == r2
  {
    var a := DiffusionCoeff(dt, rate);
    LinSolveDetermined(b, x, x0, a, 1.0 + 4.0 * a, r1, r2);
  }

  /** diffuse: lin_solve with a = dt * rate * (N - 2)^2 and c = 1 + 4a. */
  method Diffuse(b: int, x: seq<real>, x0: seq<real>, rate: real, dt: real) returns (r: seq<real>)
    requires IsField(x) && IsField(x0)
    requires Solvable(dt, rate)
    ensures Diffused(b, x, x0, rate, dt, r)
    ensures BoundaryRule(b, r)
    ensures dt * rate == 0.0 ==> SameInterior(r, x0)
    ensures x == Zeros() && x0 == Zeros() ==> r == Zeros()
  {
    var a := DiffusionCoeff(dt, rate);
    assert dt * rate == 0.0 ==> a == 0.0;
    r := LinSolve(b, x, x0, a, 1.0 + 4.0 * a);
    if x == Zeros() && x0 == Zeros() {
      ZerosIff(r);
    }
  }

  // ---------------------------------------------------------------------
  // Projection (project)
  // ---------------------------------------------------------------------

  /** The scaled central-difference divergence of (u, v) at interior cell
      (i, j). */
  function DivAt(u: seq<real>, v: seq<real>, i: int, j: int): real
    requires IsField(u) && IsField(v) && Interior(i, j)
  {
    -0.5 * H * (u[IX(i + 1, j)] - u[IX(i - 1, j)] + v[IX(i, j + 1)] - v[IX(i, j - 1)])
  }

  /** Interior cell (i, j) of w minus half the central difference of p along
      the axis (dx, dy), divided by H. */
  function GradAt(w: seq<real>, p: seq<real>, dx: int, dy: int, i: int, j: int): real
    requires IsField(w) && IsField(p) && Interior(i, j)
    requires (dx, dy) == (1, 0) || (dx, dy) == (0, 1)
  {
    w[IX(i, j)] - 0.5 * (p[IX(i + dx, j + dy)] - p[IX(i - dx, j - dy)]) / H
  }

  /** d holds, on every interior cell, the scaled central-difference
      divergence of the velocity field (u, v). */
  ghost predicate IsDivergence(u: seq<real>, v: seq<real>, d: seq<real>)
    requires IsField(u) && IsField(v) && IsField(d)
  {
    forall i, j {:trigger DivAt(u, v, i, j)} :: Interior(i, j) ==> d[IX(i, j)] == DivAt(u, v, i, j)
  }

  /** r is w minus the pressure gradient along the axis (dx, dy) on every
      interior cell. */
  ghost predicate GradientSubtracted(w: seq<real>, p: seq<real>, r: seq<real>, dx: int, dy: int)
    requires IsField(w) && IsField(p) && IsField(r)
    requires (dx, dy) == (1, 0) || (dx, dy) == (0, 1)
  {
    forall i, j {:trigger GradAt(w, p, dx, dy, i, j)} :: Interior(i, j) ==> r[IX(i, j)] == GradAt(w, p, dx, dy, i, j)
  }

  /** First loop of project, divergence half: interior cells get the
      scaled central-difference divergence, border cells keep div's value. */
  function Divergence(u: seq<real>, v: seq<real>, div: seq<real>): (r: seq<real>)
    requires IsField(u) && IsField(v) && IsField(div)
    ensures IsField(r)
    ensures IsDivergence(u, v, r)
  {
    seq(Size, k requires 0 <= k < Size =>
      var i, j := k % N, k / N;
      if Interior(i, j) then DivAt(u, v, i, j) else div[k])
  }

  /** First loop of project, pressure half: the interior is reset to zero. */
  function ClearInterior(p: seq<real>): (r: seq<real>)
    requires IsField(p)
    ensures IsField(r) && InteriorZero(r)
  {
    seq(Size, k requires 0 <= k < Size => if Interior(k % N, k / N) then 0.0 else p[k])
  }

  /** Last loop of project, for one velocity component: subtract half the
      central difference of p along the axis (dx, dy), divided by H. */
  function SubtractGradient(w: seq<real>, p: seq<real>, dx: int, dy: int): (r: seq<real>)
    requires IsField(w) && IsField(p)
    requires (dx, dy) == (1, 0) || (dx, dy) == (0, 1)
    ensures IsField(r)
    ensures GradientSubtracted(w, p, r, dx, dy)
  {
    seq(Size, k requires 0 <= k < Size =>
      var i, j := k % N, k / N;
      if Interior(i, j) then GradAt(w, p, dx, dy, i, j) else w[k])
  }

  /** First two stages of project: the divergence of (u, v) under rule 0,
      and the pressure lin_solve finds for it with a = 1, c = 4. The
      pressure solve starts from the zero field whatever p held: the loop
      clears p's interior and set_bnd(0, .) then zeroes its border. */
  method SolvePressure(u: seq<real>, v: seq<real>, p: seq<real>, div: seq<real>)
    returns (p': seq<real>, div': seq<real>)
    requires IsField(u) && IsField(v) && IsField(p) && IsField(div)
    ensures div' == SetBnd(0, Divergence(u, v, div))
    ensures LinSolved(0, Zeros(), div', 1.0, 4.0, p')
    ensures BoundaryRule(0, p') && BoundaryRule(0, div')
    ensures IsDivergence(u, v, div')
    ensures AllZero(u) && AllZero(v) ==> AllZero(p') && AllZero(div')
  {
    var d0 := Divergence(u, v, div);
    var p0 := ClearInterior(p);
    if AllZero(u) && AllZero(v) {
      DivergenceOfZero(u, v, div);
      SetBndOfZeroInterior(0, d0);
    }
    SetBndOfZeroInterior(0, p0);
    div' := SetBnd(0, d0);
    p' := SetBnd(0, p0);
    ZerosIff(p');
    p' := LinSolve(0, p', div', 1.0, 4.0);
  }

  /** Last loop of project for one velocity component followed by its
      set_bnd: b == 1 for u (axis x), b == 2 for v (axis y). */
  function CorrectVelocity(b: int, w: seq<real>, p: seq<real>, dx: int, dy: int): (r: seq<real>)
    requires IsField(w) && IsField(p)
    requires (b, dx, dy) == (1, 1, 0) || (b, dx, dy) == (2, 0, 1)
    ensures BoundaryRule(b, r)
    ensures GradientSubtracted(w, p, r, dx, dy)
    ensures AllZero(w) && AllZero(p) ==> AllZero(r)
  {
    var g := SubtractGradient(w, p, dx, dy);
    assert AllZero(w) && AllZero(p) ==> AllZero(SetBnd(b, g)) by {
      if AllZero(w) && AllZero(p) {
        GradientOfZero(w, p, dx, dy);
        SetBndOfZeroInterior(b, g);
      }
    }
    SetBnd(b, g)
  }

  /** The results of project(u, v, p, div): div' is the divergence of
      (u, v) under rule 0, p' the pressure lin_solve finds for it from the
      zero field, and (u', v') the velocity minus that pressure's gradient
      under rules 1 and 2. The old contents of p do not take part. */
  ghost predicate Projected(u: seq<real>, v: seq<real>, div: seq<real>,
                            u': seq<real>, v': seq<real>, p': seq<real>, div': seq<real>)
    requires IsField(u) && IsField(v) && IsField(div)
  {
    && div' == SetBnd(0, Divergence(u, v, div))
    && LinSolved(0, Zeros(), div', 1.0, 4.0, p')
    && IsField(p')
    && u' == CorrectVelocity(1, u, p', 1, 0)
    && v' == CorrectVelocity(2, v, p', 0, 1)
  }

  /** project(u, v, p, div): divergence, pressure solve, gradient
      subtraction; every output obeys its boundary rule, and the new
      velocity is the old one minus the gradient of the solved pressure. */
  method Project(u: seq<real>, v: seq<real>, p: seq<real>, div: seq<real>)
    returns (u': seq<real>, v': seq<real>, p': seq<real>, div': seq<real>)
    requires IsField(u) && IsField(v) && IsField(p) && IsField(div)
    ensures Projected(u, v, div, u', v', p', div')
    ensures BoundaryRule(1, u') && BoundaryRule(2, v')
    ensures BoundaryRule(0, p') && BoundaryRule(0, div')
    ensures IsDivergence(u, v, div')
    ensures GradientSubtracted(u, p', u', 1, 0) && GradientSubtracted(v, p', v', 0, 1)
    ensures u == Zeros() && v == Zeros() ==> u' == Zeros() && v' == Zeros() && p' == Zeros() && div' == Zeros()
  {
    p', div' := SolvePressure(u, v, p, div);
    u' := CorrectVelocity(1, u, p', 1, 0);
    v' := CorrectVelocity(2, v, p', 0, 1);
    if u == Zeros() && v == Zeros() {
      ZerosIff(u');
      ZerosIff(v');
      ZerosIff(p');
      ZerosIff(div');
    }
  }

  /** project is a function of (u, v) and div. */
  lemma ProjectDetermined(u: seq<real>, v: seq<real>, div: seq<real>,
                          u1: seq<real>, v1: seq<real>, p1: seq<real>, d1: seq<real>,
                          u2: seq<real>, v2: seq<real>, p2: seq<real>, d2: seq<real>)
    requires IsField(u) && IsField(v) && IsField(div)
    requires Projected(u, v, div, u1, v1, p1, d1) && Projected(u, v, div, u2, v2, p2, d2)
    ensures u1 == u2 && v1 == v2 && p1 == p2 && d1 == d2
  {
    LinSolveDetermined(0, Zeros(), d1, 1.0, 4.0, p1, p2);
  }

  /** A velocity field whose divergence is zero on every interior cell
      passes through project unchanged apart from its own set_bnd, and the
      solved pressure is zero. */
  lemma ProjectKeepsDivergenceFree(u: seq<real>, v: seq<real>, div: seq<real>,
                                   u': seq<real>, v': seq<real>, p': seq<real>, div': seq<real>)
    requires IsField(u) && IsField(v) && IsField(div)
    requires forall i, j :: Interior(i, j) ==> DivAt(u, v, i, j) == 0.0
    requires Projected(u, v, div, u', v', p', div')
    ensures div' == Zeros() && p' == Zeros()
    ensures u' == SetBnd(1, u) && v' == SetBnd(2, v)
  {
    var d := Divergence(u, v, div);
    assert InteriorZero(d) by {
      forall i, j | Interior(i, j)
        ensures d[IX(i, j)] == 0.0
      {
        assert d[IX(i, j)] == DivAt(u, v, i, j);
      }
    }
    SetBndOfZeroInterior(0, d);
    ZerosIff(div');
    LinSolveOfZeros(0, 1.0, 4.0, p');
    GradientOfZeroPressure(1, u, p', 1, 0);
    GradientOfZeroPressure(2, v, p', 0, 1);
  }

  /** Subtracting the gradient of the zero pressure changes no interior
      cell, so the corrected component is the set_bnd of the input. */
  lemma GradientOfZeroPressure(b: int, w: seq<real>, p: seq<real>, dx: int, dy: int)
    requires IsField(w) && p == Zeros()
    requires (b, dx, dy) == (1, 1, 0) || (b, dx, dy) == (2, 0, 1)
    ensures CorrectVelocity(b, w, p, dx, dy) == SetBnd(b, w)
  {
    var g := SubtractGradient(w, p, dx, dy);
    forall i, j | Interior(i, j)
      ensures g[IX(i, j)] == w[IX(i, j)]
    {
      assert p[IX(i + dx, j + dy)] == 0.0 && p[IX(i - dx, j - dy)] == 0.0;
      assert g[IX(i, j)] == GradAt(w, p, dx, dy, i, j);
    }
    SetBndIgnoresBorder(b, g, w);
  }

  /** A still velocity field has zero divergence. */
  lemma DivergenceOfZero(u: seq<real>, v: seq<real>, div: seq<real>)
    requires IsField(u) && IsField(v) && IsField(div)
    requires AllZero(u) && AllZero(v)
    ensures InteriorZero(Divergence(u, v, div))
  {
    var d := Divergence(u, v, div);
    forall i, j | Interior(i, j)
      ensures d[IX(i, j)] == 0.0
    {
      assert u[IX(i + 1, j)] == 0.0 && u[IX(i - 1, j)] == 0.0;
      assert v[IX(i, j + 1)] == 0.0 && v[IX(i, j - 1)] == 0.0;
    }
  }

  /** Subtracting the gradient of a zero pressure from a zero velocity
      leaves it zero. */
  lemma GradientOfZero(w: seq<real>, p: seq<real>, dx: int, dy: int)
    requires IsField(w) && IsField(p)
    requires (dx, dy) == (1, 0) || (dx, dy) == (0, 1)
    requires AllZero(w) && AllZero(p)
    ensures InteriorZero(SubtractGradient(w, p, dx, dy))
  {
    var g := SubtractGradient(w, p, dx, dy);
    forall i, j | Interior(i, j)
      ensures g[IX(i, j)] == 0.0
    {
      assert w[IX(i, j)] == 0.0;
      assert p[IX(i + dx, j + dy)] == 0.0 && p[IX(i - dx, j - dy)] == 0.0;
    }
  }

  // ---------------------------------------------------------------------
  // Advection (advect)
  // ---------------------------------------------------------------------

  /** One axis of a bilinear sample: the lower index lo (the upper is
      lo + 1) and the weights of the two samples. */
  datatype Stencil = Stencil(lo: int, w0: real, w1: real)

  /** Both sample indices on the grid, convex weights. */
  predicate ValidStencil(s: Stencil)
  {
    && 0 <= s.lo && s.lo + 1 <= N - 1
    && 0.0 <= s.w0 <= 1.0 && 0.0 <= s.w1 <= 1.0 && s.w0 + s.w1 == 1.0
  }


  /** dt0 = dt * (N - 2), the trace length per unit velocity. */
  function TraceScale(dt: real): real
  {
    dt * (N - 2) as real
  }

  /** Backward trace along one axis from cell coordinate pos by the
      distance shift = dt0 * velocity: the traced position is clamped to
      [0.5, N - 1.5], floored for the lower index and split into the two
      interpolation weights. */
  function TraceAxis(pos: int, shift: real): (s: Stencil)
    requires 1 <= pos <= N - 2
    ensures ValidStencil(s)
    ensures 0.5 <= s.lo as real + s.w1 <= N as real - 1.5
    ensures var t := pos as real - shift;
      0.5 <= t <= N as real - 1.5 ==> s.lo as real + s.w1 == t
    ensures s.lo as real + s.w1 == Clamp(pos as real - shift, 0.5, N as real - 1.5)
    ensures pos as real - shift < 0.5 ==> s.lo as real + s.w1 == 0.5
    ensures pos as real - shift > N as real - 1.5 ==> s.lo as real + s.w1 == N as real - 1.5
    ensures 0.0 <= s.w1 < 1.0
    ensures shift == 0.0 ==> s.lo == pos && s.w0 == 1.0 && s.w1 == 0.0
  {
    var p := Clamp(pos as real - shift, 0.5, N as real - 1.5);
    var i0 := p.Floor;
    Stencil(i0, 1.0 - (p - i0 as real), p - i0 as real)
  }

  /** A zero product dt * w means a zero trace distance. */
  lemma NoShift(dt: real, w: real)
    requires dt * w == 0.0
    ensures TraceScale(dt) * w == 0.0
  {
    assert TraceScale(dt) * w == (N - 2) as real * (dt * w);
  }

  /** Bilinear interpolation of d0 at the point the two stencils describe.
      It never leaves the range of the four samples it reads, and a point
      that sits on a sample (both upper weights zero) reads that sample. */
  function Bilinear(d0: seq<real>, sx: Stencil, sy: Stencil): (r: real)
    requires IsField(d0) && ValidStencil(sx) && ValidStencil(sy)
    ensures LowestSample(d0, sx, sy) <= r <= HighestSample(d0, sx, sy)
    ensures sx.w1 == 0.0 && sy.w1 == 0.0 ==> r == d0[IX(sx.lo, sy.lo)]
  {
    var a, b := d0[IX(sx.lo, sy.lo)], d0[IX(sx.lo, sy.lo + 1)];
    var c, d := d0[IX(sx.lo + 1, sy.lo)], d0[IX(sx.lo + 1, sy.lo + 1)];
    BilinearOfFour(sx.w0, sx.w1, sy.w0, sy.w1, a, b, c, d);
    Lerp2(sx.w0, sx.w1, sy.w0, sy.w1, a, b, c, d)
  }

  /** The weighted mean of a, b (weights t0, t1) and of c, d, weighted in
      turn by s0 and s1. */
  function Lerp2(s0: real, s1: real, t0: real, t1: real, a: real, b: real, c: real, d: real): real
  {
    s0 * (t0 * a + t1 * b) + s1 * (t0 * c + t1 * d)
  }

  function Min4(a: real, b: real, c: real, d: real): real { Min(Min(a, b), Min(c, d)) }

  function Max4(a: real, b: real, c: real, d: real): real { Max(Max(a, b), Max(c, d)) }


  /** Smallest of the four samples a bilinear interpolation reads. */
  function LowestSample(d0: seq<real>, sx: Stencil, sy: Stencil): real
    requires IsField(d0) && ValidStencil(sx) && ValidStencil(sy)
  {
    Min4(d0[IX(sx.lo, sy.lo)], d0[IX(sx.lo, sy.lo + 1)], d0[IX(sx.lo + 1, sy.lo)], d0[IX(sx.lo + 1, sy.lo + 1)])
  }

  /** Largest of the four samples a bilinear interpolation reads. */
  function HighestSample(d0: seq<real>, sx: Stencil, sy: Stencil): real
    requires IsField(d0) && ValidStencil(sx) && ValidStencil(sy)
  {
    Max4(d0[IX(sx.lo, sy.lo)], d0[IX(sx.lo, sy.lo + 1)], d0[IX(sx.lo + 1, sy.lo)], d0[IX(sx.lo + 1, sy.lo + 1)])
  }

  /** A convex combination of two values lies between their bounds. */
  lemma ConvexBetween(w0: real, w1: real, a: real, b: real, lo: real, hi: real)
    requires 0.0 <= w0 && 0.0 <= w1 && w0 + w1 == 1.0
    requires lo <= a <= hi && lo <= b <= hi
    ensures lo <= w0 * a + w1 * b <= hi
  {
    MulNonneg(w0, a - lo);
    MulNonneg(w1, b - lo);
    MulNonneg(w0, hi - a);
    MulNonneg(w1, hi - b);
    assert w0 * a + w1 * b - lo == w0 * (a - lo) + w1 * (b - lo);
    assert hi - (w0 * a + w1 * b) == w0 * (hi - a) + w1 * (hi - b);
  }

  lemma MulNonneg(p: real, q: real)
    requires 0.0 <= p && 0.0 <= q
    ensures 0.0 <= p * q
  {
  }

  /** The interpolation of four values lies between the least and the
      greatest of them. */
  lemma BilinearOfFour(s0: real, s1: real, t0: real, t1: real, a: real, b: real, c: real, d: real)
    requires 0.0 <= s0 && 0.0 <= s1 && s0 + s1 == 1.0
    requires 0.0 <= t0 && 0.0 <= t1 && t0 + t1 == 1.0
    ensures Min4(a, b, c, d) <= Lerp2(s0, s1, t0, t1, a, b, c, d) <= Max4(a, b, c, d)
  {
    var lo, hi := Min4(a, b, c, d), Max4(a, b, c, d);
    assert lo <= a <= hi && lo <= b <= hi && lo <= c <= hi && lo <= d <= hi;
    BilinearBetween(s0, s1, t0, t1, a, b, c, d, lo, hi);
  }

  lemma BilinearBetween(s0: real, s1: real, t0: real, t1: real, a: real, b: real, c: real, d: real, lo: real, hi: real)
    requires 0.0 <= s0 && 0.0 <= s1 && s0 + s1 == 1.0
    requires 0.0 <= t0 && 0.0 <= t1 && t0 + t1 == 1.0
    requires lo <= a <= hi && lo <= b <= hi && lo <= c <= hi && lo <= d <= hi
    ensures lo <= s0 * (t0 * a + t1 * b) + s1 * (t0 * c + t1 * d) <= hi
  {
    ConvexBetween(t0, t1, a, b, lo, hi);
    ConvexBetween(t0, t1, c, d, lo, hi);
    ConvexBetween(s0, s1, t0 * a + t1 * b, t0 * c + t1 * d, lo, hi);
  }

  /** The stencils advect uses at interior cell (i, j): the cell traced
      back by dt0 times its own velocity, along each axis. */
  function StencilX(u: seq<real>, dt: real, i: int, j: int): (s: Stencil)
    requires IsField(u) && Interior(i, j)
    ensures ValidStencil(s)
  {
    TraceAxis(i, TraceScale(dt) * u[IX(i, j)])
  }

  function StencilY(v: seq<real>, dt: real, i: int, j: int): (s: Stencil)
    requires IsField(v) && Interior(i, j)
    ensures ValidStencil(s)
  {
    TraceAxis(j, TraceScale(dt) * v[IX(i, j)])
  }

  /** Every interior value of r lies between the least and the greatest of
      the four d0 samples its backward trace interpolates. */
  ghost predicate WithinSamples(d0: seq<real>, u: seq<real>, v: seq<real>, dt: real, r: seq<real>)
    requires IsField(d0) && IsField(u) && IsField(v) && IsField(r)
  {
    forall i, j :: Interior(i, j) ==>
      LowestSample(d0, StencilX(u, dt, i, j), StencilY(v, dt, i, j)) <= r[IX(i, j)] <=
      HighestSample(d0, StencilX(u, dt, i, j), StencilY(v, dt, i, j))
  }

  /** The trace of cell (i, j) does not move it: dt times each velocity
      component there is zero. */
  predicate Unmoved(u: seq<real>, v: seq<real>, dt: real, i: int, j: int)
    requires IsField(u) && IsField(v) && Interior(i, j)
  {
    dt * u[IX(i, j)] == 0.0 && dt * v[IX(i, j)] == 0.0
  }

  /** Every interior cell the trace does not move keeps its d0 value. */
  ghost predicate StillCellsCopied(d0: seq<real>, u: seq<real>, v: seq<real>, dt: real, r: seq<real>)
    requires IsField(d0) && IsField(u) && IsField(v) && IsField(r)
  {
    forall i, j :: Interior(i, j) && Unmoved(u, v, dt, i, j) ==> r[IX(i, j)] == d0[IX(i, j)]
  }

  /** advect: every interior cell of d becomes d0 sampled at the point the
      velocity (u, v) traces back to; then set_bnd(b, .). Each interior
      result lies within its four samples, a cell that does not move copies
      d0, and the prior contents of d do not matter. */
  function Advect(b: int, d: seq<real>, d0: seq<real>, u: seq<real>, v: seq<real>, dt: real): (r: seq<real>)
    requires IsField(d) && IsField(d0) && IsField(u) && IsField(v)
    ensures BoundaryRule(b, r)
    ensures WithinSamples(d0, u, v, dt, r)
    ensures StillCellsCopied(d0, u, v, dt, r)
    ensures AllZero(d0) ==> AllZero(r)
  {
    var e := seq(Size, k requires 0 <= k < Size =>
      var i, j := k % N, k / N;
      if Interior(i, j)
      then Bilinear(d0, StencilX(u, dt, i, j), StencilY(v, dt, i, j))
      else d[k]);
    AdvectCellFacts(d0, e, u, v, dt);
    SetBndOfZeroInterior(b, e);
    SetBnd(b, e)
  }

  /** Through a zero velocity field advect is the identity on any field
      that already obeys the boundary rule. */
  lemma AdvectThroughStillFlow(b: int, d: seq<real>, d0: seq<real>, u: seq<real>, v: seq<real>, dt: real)
    requires IsField(d) && IsField(u) && IsField(v)
    requires BoundaryRule(b, d0) && AllZero(u) && AllZero(v)
    ensures Advect(b, d, d0, u, v, dt) == d0
  {
    var r := Advect(b, d, d0, u, v, dt);
    StillFlowUnmoved(u, v, dt);
    assert SameInterior(r, d0);
    BoundaryDetermined(b, r, d0);
  }

  /** A zero velocity field moves no cell. */
  lemma StillFlowUnmoved(u: seq<real>, v: seq<real>, dt: real)
    requires IsField(u) && IsField(v) && AllZero(u) && AllZero(v)
    ensures forall i, j :: Interior(i, j) ==> Unmoved(u, v, dt, i, j)
  {
    forall i, j | Interior(i, j)
      ensures Unmoved(u, v, dt, i, j)
    {
      assert u[IX(i, j)] == 0.0 && v[IX(i, j)] == 0.0;
    }
  }

  /** The facts about one sample of advect's interior pass. */
  lemma AdvectSample(d0: seq<real>, i: int, j: int, sx: Stencil, sy: Stencil)
    requires IsField(d0) && Interior(i, j) && ValidStencil(sx) && ValidStencil(sy)
    ensures LowestSample(d0, sx, sy) <= Bilinear(d0, sx, sy) <= HighestSample(d0, sx, sy)
    ensures sx == Stencil(i, 1.0, 0.0) && sy == Stencil(j, 1.0, 0.0) ==> Bilinear(d0, sx, sy) == d0[IX(i, j)]
    ensures AllZero(d0) ==> Bilinear(d0, sx, sy) == 0.0
  {
    if AllZero(d0) {
      assert d0[IX(sx.lo, sy.lo)] == 0.0 && d0[IX(sx.lo, sy.lo + 1)] == 0.0;
      assert d0[IX(sx.lo + 1, sy.lo)] == 0.0 && d0[IX(sx.lo + 1, sy.lo + 1)] == 0.0;
    }
  }

  /** A cell whose velocity does not move it copies its own d0 value. */
  lemma AdvectStill(d0: seq<real>, u: seq<real>, v: seq<real>, dt: real, i: int, j: int)
    requires IsField(d0) && IsField(u) && IsField(v) && Interior(i, j)
    requires dt * u[IX(i, j)] == 0.0 && dt * v[IX(i, j)] == 0.0
    ensures Bilinear(d0, StencilX(u, dt, i, j), StencilY(v, dt, i, j)) == d0[IX(i, j)]
  {
    NoShift(dt, u[IX(i, j)]);
    NoShift(dt, v[IX(i, j)]);
    assert StencilX(u, dt, i, j) == Stencil(i, 1.0, 0.0);
    assert StencilY(v, dt, i, j) == Stencil(j, 1.0, 0.0);
    AdvectSample(d0, i, j, Stencil(i, 1.0, 0.0), Stencil(j, 1.0, 0.0));
  }

  /** The interior facts about advect's sampling pass, before set_bnd. */
  lemma AdvectCellFacts(d0: seq<real>, e: seq<real>, u: seq<real>, v: seq<real>, dt: real)
    requires IsField(d0) && IsField(e) && IsField(u) && IsField(v)
    requires forall i, j :: Interior(i, j) ==>
      e[IX(i, j)] == Bilinear(d0, StencilX(u, dt, i, j), StencilY(v, dt, i, j))
    ensures forall i, j :: Interior(i, j) ==>
      LowestSample(d0, StencilX(u, dt, i, j), StencilY(v, dt, i, j)) <= e[IX(i, j)] <=
      HighestSample(d0, StencilX(u, dt, i, j), StencilY(v, dt, i, j))
    ensures forall i, j :: Interior(i, j) && dt * u[IX(i, j)] == 0.0 && dt * v[IX(i, j)] == 0.0 ==>
      e[IX(i, j)] == d0[IX(i, j)]
    ensures AllZero(d0) ==> InteriorZero(e)
  {
    forall i, j | Interior(i, j)
      ensures LowestSample(d0, StencilX(u, dt, i, j), StencilY(v, dt, i, j)) <= e[IX(i, j)] <=
        HighestSample(d0, StencilX(u, dt, i, j), StencilY(v, dt, i, j))
      ensures dt * u[IX(i, j)] == 0.0 && dt * v[IX(i, j)] == 0.0 ==> e[IX(i, j)] == d0[IX(i, j)]
      ensures AllZero(d0) ==> e[IX(i, j)] == 0.0
    {
      var sx, sy := StencilX(u, dt, i, j), StencilY(v, dt, i, j);
      AdvectSample(d0, i, j, sx, sy);
      if dt * u[IX(i, j)] == 0.0 && dt * v[IX(i, j)] == 0.0 {
        AdvectStill(d0, u, v, dt, i, j);
      }
    }
  }

  // ---------------------------------------------------------------------
  // Decay
  // ---------------------------------------------------------------------

  /** The final loop of the step: every density cell times Fade. Since
      Fade is not zero, the result is all zero exactly when f is. */
  function Decay(f: seq<real>): (r: seq<real>)
    ensures |r| == |f|
    ensures forall k :: 0 <= k < |f| ==> r[k] == Fade * f[k]
    ensures AllZero(r) <==> AllZero(f)
  {
    seq(|f|, k requires 0 <= k < |f| => Fade * f[k])
  }

  /** The uniform fade preserves every boundary rule (it is linear). */
  lemma DecayKeepsBoundary(b: int, f: seq<real>)
    requires BoundaryRule(b, f)
    ensures BoundaryRule(b, Decay(f))
  {
    var r := Decay(f);
    forall i | 1 <= i <= N - 2
      ensures r[IX(i, 0)] == Reflect(b == 2, r[IX(i, 1)])
      ensures r[IX(i, N - 1)] == Reflect(b == 2, r[IX(i, N - 2)])
      ensures r[IX(0, i)] == Reflect(b == 1, r[IX(1, i)])
      ensures r[IX(N - 1, i)] == Reflect(b == 1, r[IX(N - 2, i)])
    {
      ReflectScales(b == 2, f[IX(i, 1)]);
      ReflectScales(b == 2, f[IX(i, N - 2)]);
      ReflectScales(b == 1, f[IX(1, i)]);
      ReflectScales(b == 1, f[IX(N - 2, i)]);
    }
  }

  lemma ReflectScales(negate: bool, x: real)
    ensures Reflect(negate, Fade * x) == Fade * Reflect(negate, x)
  {
  }

  /** The fade scales the total mass by exactly Fade. */
  lemma {:induction false} DecayScalesTotal(f: seq<real>)
    ensures Total(Decay(f)) == Fade * Total(f)
  {
    if |f| > 0 {
      var n := |f| - 1;
      assert Decay(f)[..n] == Decay(f[..n]);
      DecayScalesTotal(f[..n]);
    }
  }

  /** Changing one cell changes the total by the difference. */
  lemma {:induction false} TotalUpdate(f: seq<real>, k: int, w: real)
    requires 0 <= k < |f|
    ensures Total(f[k := w]) == Total(f) - f[k] + w
  {
    var n := |f| - 1;
    if k == n {
      assert f[k := w][..n] == f[..n];
    } else {
      assert f[k := w][..n] == f[..n][k := w];
      TotalUpdate(f[..n], k, w);
    }
  }

  // ---------------------------------------------------------------------
  // Simulation state and the exported operations
  // ---------------------------------------------------------------------

  /** The six simulation buffers. */
  datatype FluidState = FluidState(
    u: seq<real>, v: seq<real>,
    uPrev: seq<real>, vPrev: seq<real>,
    dens: seq<real>, densPrev: seq<real>)

  predicate Valid(s: FluidState)
  {
    && IsField(s.u) && IsField(s.v) && IsField(s.uPrev) && IsField(s.vPrev)
    && IsField(s.dens) && IsField(s.densPrev)
  }

  /** All four velocity buffers are zero: no flow and no stale scratch. */
  predicate Quiescent(s: FluidState)
  {
    s.u == Zeros() && s.v == Zeros() && s.uPrev == Zeros() && s.vPrev == Zeros()
  }

  /** The buffers as allocated at start-up: all zero. */
  function InitialState(): (s: FluidState)
    ensures Valid(s) && Quiescent(s) && AllZero(s.dens) && AllZero(s.densPrev)
  {
    FluidState(Zeros(), Zeros(), Zeros(), Zeros(), Zeros(), Zeros())
  }

  /** fluidInit: the size argument is ignored; u, v and dens are zeroed and
      the three previous-step buffers are left as they were. */
  function FluidInit(s: FluidState, size: int): (r: FluidState)
    requires Valid(s)
    ensures Valid(r)
    ensures AllZero(r.u) && AllZero(r.v) && AllZero(r.dens)
    ensures r.uPrev == s.uPrev && r.vPrev == s.vPrev && r.densPrev == s.densPrev
  {
    s.(u := Zeros(), v := Zeros(), dens := Zeros())
  }

  /** fluidAddDensity: outside the grid nothing changes; inside, exactly one
      density cell grows by amount, and so does the total mass. */
  function AddDensity(s: FluidState, x: int, y: int, amount: real): (r: FluidState)
    requires Valid(s)
    ensures Valid(r)
    ensures !InGrid(x, y) ==> r == s
    ensures InGrid(x, y) ==> r.dens[IX(x, y)] == s.dens[IX(x, y)] + amount
    ensures forall k :: 0 <= k < Size && k != IX(x, y) ==> r.dens[k] == s.dens[k]
    ensures r.(dens := s.dens) == s
    ensures Total(r.dens) == Total(s.dens) + (if InGrid(x, y) then amount else 0.0)
  {
    if !InGrid(x, y) then s
    else
      var k := IX(x, y);
      TotalUpdate(s.dens, k, s.dens[k] + amount);
      s.(dens := s.dens[k := s.dens[k] + amount])
  }

  /** fluidAddVelocity: outside the grid nothing changes; inside, exactly one
      cell of u grows by amountX and the same cell of v by amountY. */
  function AddVelocity(s: FluidState, x: int, y: int, amountX: real, amountY: real): (r: FluidState)
    requires Valid(s)
    ensures Valid(r)
    ensures !InGrid(x, y) ==> r == s
    ensures InGrid(x, y) ==>
      r.u[IX(x, y)] == s.u[IX(x, y)] + amountX && r.v[IX(x, y)] == s.v[IX(x, y)] + amountY
    ensures forall k :: 0 <= k < Size && k != IX(x, y) ==> r.u[k] == s.u[k] && r.v[k] == s.v[k]
    ensures r.(u := s.u, v := s.v) == s
  {
    if !InGrid(x, y) then s
    else
      var k := IX(x, y);
      s.(u := s.u[k := s.u[k] + amountX], v := s.v[k := s.v[k] + amountY])
  }

  /** Two deposits into the same cell add up to one deposit of the sum. */
  lemma AddDensityAccumulates(s: FluidState, x: int, y: int, a1: real, a2: real)
    requires Valid(s)
    ensures AddDensity(AddDensity(s, x, y, a1), x, y, a2) == AddDensity(s, x, y, a1 + a2)
  {
  }

  /** The first half of the velocity step on (u0, v0, uPrev0, vPrev0): after
      the swap each component is diffused from its previous buffer toward
      the current one (rule 1 for u, rule 2 for v), and project then runs
      with the two old velocity buffers as its pressure and divergence
      scratch. (u, v) is the projected velocity, (uPrev, vPrev) the
      pressure and divergence project leaves. */
  ghost predicate VelocityDiffused(u0: seq<real>, v0: seq<real>, uPrev0: seq<real>, vPrev0: seq<real>,
                                   visc: real, dt: real,
                                   u: seq<real>, v: seq<real>, uPrev: seq<real>, vPrev: seq<real>)
    requires IsField(v0) && Solvable(dt, visc)
  {
    exists du, dv {:trigger Projected(du, dv, v0, u, v, uPrev, vPrev)} ::
      && IsField(du) && IsField(dv)
      && Diffused(1, uPrev0, u0, visc, dt, du) && Diffused(2, vPrev0, v0, visc, dt, dv)
      && Projected(du, dv, v0, u, v, uPrev, vPrev)
  }

  /** The whole velocity step: the first half, the swap, both components
      advected along the projected velocity (which the swap left in the
      previous buffers), and a second project that uses those previous
      buffers as its scratch. */
  ghost predicate VelocityStepped(u0: seq<real>, v0: seq<real>, uPrev0: seq<real>, vPrev0: seq<real>,
                                  visc: real, dt: real,
                                  u: seq<real>, v: seq<real>, uPrev: seq<real>, vPrev: seq<real>)
    requires IsField(v0) && Solvable(dt, visc)
  {
    exists pu, pv, pp, pd {:trigger VelocityDiffused(u0, v0, uPrev0, vPrev0, visc, dt, pu, pv, pp, pd)} ::
      && IsField(pu) && IsField(pv) && IsField(pp) && IsField(pd)
      && VelocityDiffused(u0, v0, uPrev0, vPrev0, visc, dt, pu, pv, pp, pd)
      && AdvectedAndProjected(pu, pv, pp, pd, dt, u, v, uPrev, vPrev)
  }

  /** The second half of the velocity step from the first half's results
      (pu, pv) and scratch (pp, pd): both components advected along
      (pu, pv), then projected with (pu, pv) as the scratch buffers. */
  ghost predicate AdvectedAndProjected(pu: seq<real>, pv: seq<real>, pp: seq<real>, pd: seq<real>, dt: real,
                                       u: seq<real>, v: seq<real>, uPrev: seq<real>, vPrev: seq<real>)
    requires IsField(pu) && IsField(pv) && IsField(pp) && IsField(pd)
  {
    Projected(Advect(1, pp, pu, pu, pv, dt), Advect(2, pd, pv, pu, pv, dt), pv, u, v, uPrev, vPrev)
  }

  /** The velocity step is a function of its four input buffers. */
  lemma VelocityStepDetermined(u0: seq<real>, v0: seq<real>, uPrev0: seq<real>, vPrev0: seq<real>,
                               visc: real, dt: real,
                               u1: seq<real>, v1: seq<real>, up1: seq<real>, vp1: seq<real>,
                               u2: seq<real>, v2: seq<real>, up2: seq<real>, vp2: seq<real>)
    requires IsField(v0) && Solvable(dt, visc)
    requires VelocityStepped(u0, v0, uPrev0, vPrev0, visc, dt, u1, v1, up1, vp1)
    requires VelocityStepped(u0, v0, uPrev0, vPrev0, visc, dt, u2, v2, up2, vp2)
    ensures u1 == u2 && v1 == v2 && up1 == up2 && vp1 == vp2
  {
    var pu1, pv1, pp1, pd1 := VelocityStepWitness(u0, v0, uPrev0, vPrev0, visc, dt, u1, v1, up1, vp1);
    var pu2, pv2, pp2, pd2 := VelocityStepWitness(u0, v0, uPrev0, vPrev0, visc, dt, u2, v2, up2, vp2);
    VelocityDiffusedDetermined(u0, v0, uPrev0, vPrev0, visc, dt, pu1, pv1, pp1, pd1, pu2, pv2, pp2, pd2);
    SecondProjectAgrees(pu1, pv1, pp1, pd1, dt, u1, v1, up1, vp1, u2, v2, up2, vp2);
  }

  /** The intermediate buffers of a velocity step: the first half's
      results and scratch. */
  lemma VelocityStepWitness(u0: seq<real>, v0: seq<real>, uPrev0: seq<real>, vPrev0: seq<real>,
                            visc: real, dt: real,
                            u: seq<real>, v: seq<real>, uPrev: seq<real>, vPrev: seq<real>)
    returns (pu: seq<real>, pv: seq<real>, pp: seq<real>, pd: seq<real>)
    requires IsField(v0) && Solvable(dt, visc)
    requires VelocityStepped(u0, v0, uPrev0, vPrev0, visc, dt, u, v, uPrev, vPrev)
    ensures IsField(pu) && IsField(pv) && IsField(pp) && IsField(pd)
    ensures VelocityDiffused(u0, v0, uPrev0, vPrev0, visc, dt, pu, pv, pp, pd)
    ensures AdvectedAndProjected(pu, pv, pp, pd, dt, u, v, uPrev, vPrev)
  {
    pu, pv, pp, pd :| && IsField(pu) && IsField(pv) && IsField(pp) && IsField(pd)
      && VelocityDiffused(u0, v0, uPrev0, vPrev0, visc, dt, pu, pv, pp, pd)
      && AdvectedAndProjected(pu, pv, pp, pd, dt, u, v, uPrev, vPrev);
  }

  /** The advect-and-project tail of the velocity step is a function of
      the first half's results. */
  lemma SecondProjectAgrees(pu: seq<real>, pv: seq<real>, pp: seq<real>, pd: seq<real>, dt: real,
                            u1: seq<real>, v1: seq<real>, up1: seq<real>, vp1: seq<real>,
                            u2: seq<real>, v2: seq<real>, up2: seq<real>, vp2: seq<real>)
    requires IsField(pu) && IsField(pv) && IsField(pp) && IsField(pd)
    requires AdvectedAndProjected(pu, pv, pp, pd, dt, u1, v1, up1, vp1)
    requires AdvectedAndProjected(pu, pv, pp, pd, dt, u2, v2, up2, vp2)
    ensures u1 == u2 && v1 == v2 && up1 == up2 && vp1 == vp2
  {
    var au, av := Advect(1, pp, pu, pu, pv, dt), Advect(2, pd, pv, pu, pv, dt);
    ProjectDetermined(au, av, pv, u1, v1, up1, vp1, u2, v2, up2, vp2);
  }

  /** The first half of the velocity step is a function of its inputs. */
  lemma VelocityDiffusedDetermined(u0: seq<real>, v0: seq<real>, uPrev0: seq<real>, vPrev0: seq<real>,
                                   visc: real, dt: real,
                                   u1: seq<real>, v1: seq<real>, up1: seq<real>, vp1: seq<real>,
                                   u2: seq<real>, v2: seq<real>, up2: seq<real>, vp2: seq<real>)
    requires IsField(v0) && Solvable(dt, visc)
    requires VelocityDiffused(u0, v0, uPrev0, vPrev0, visc, dt, u1, v1, up1, vp1)
    requires VelocityDiffused(u0, v0, uPrev0, vPrev0, visc, dt, u2, v2, up2, vp2)
    ensures u1 == u2 && v1 == v2 && up1 == up2 && vp1 == vp2
  {
    var du1, dv1 :| && IsField(du1) && IsField(dv1)
      && Diffused(1, uPrev0, u0, visc, dt, du1) && Diffused(2, vPrev0, v0, visc, dt, dv1)
      && Projected(du1, dv1, v0, u1, v1, up1, vp1);
    var du2, dv2 :| && IsField(du2) && IsField(dv2)
      && Diffused(1, uPrev0, u0, visc, dt, du2) && Diffused(2, vPrev0, v0, visc, dt, dv2)
      && Projected(du2, dv2, v0, u2, v2, up2, vp2);
    DiffusedDetermined(1, uPrev0, u0, visc, dt, du1, du2);
    DiffusedDetermined(2, vPrev0, v0, visc, dt, dv1, dv2);
    ProjectDetermined(du1, dv1, v0, u1, v1, up1, vp1, u2, v2, up2, vp2);
  }

  /** Velocity half of fluidStep (swap, diffuse, project, swap, advect,
      project) on (u, v, uPrev, vPrev). Afterwards u and v obey their
      boundary rules, the scratch buffers hold the last pressure and
      divergence, and a flow that is zero everywhere, scratch included,
      stays zero. */
  method VelocityStep(u0: seq<real>, v0: seq<real>, uPrev0: seq<real>, vPrev0: seq<real>, visc: real, dt: real)
    returns (u: seq<real>, v: seq<real>, uPrev: seq<real>, vPrev: seq<real>)
    requires IsField(u0) && IsField(v0) && IsField(uPrev0) && IsField(vPrev0)
    requires Solvable(dt, visc)
    ensures VelocityStepped(u0, v0, uPrev0, vPrev0, visc, dt, u, v, uPrev, vPrev)
    ensures BoundaryRule(1, u) && BoundaryRule(2, v)
    ensures BoundaryRule(0, uPrev) && BoundaryRule(0, vPrev)
    ensures u0 == Zeros() && v0 == Zeros() && uPrev0 == Zeros() && vPrev0 == Zeros() ==>
      u == Zeros() && v == Zeros() && uPrev == Zeros() && vPrev == Zeros()
  {
    u, v, uPrev, vPrev := DiffuseVelocity(u0, v0, uPrev0, vPrev0, visc, dt);
    ghost var pu, pv, pp, pd := u, v, uPrev, vPrev;
    u, uPrev := uPrev, u;
    v, vPrev := vPrev, v;
    u, v := SelfAdvect(u, v, uPrev, vPrev, dt);
    u, v, uPrev, vPrev := Project(u, v, uPrev, vPrev);
    assert VelocityDiffused(u0, v0, uPrev0, vPrev0, visc, dt, pu, pv, pp, pd);
  }

  /** First part of the velocity step: swap, diffuse each component with
      its own boundary rule, project. */
  method DiffuseVelocity(u0: seq<real>, v0: seq<real>, uPrev0: seq<real>, vPrev0: seq<real>, visc: real, dt: real)
    returns (u: seq<real>, v: seq<real>, uPrev: seq<real>, vPrev: seq<real>)
    requires IsField(u0) && IsField(v0) && IsField(uPrev0) && IsField(vPrev0)
    requires Solvable(dt, visc)
    ensures VelocityDiffused(u0, v0, uPrev0, vPrev0, visc, dt, u, v, uPrev, vPrev)
    ensures IsField(u) && IsField(v) && IsField(uPrev) && IsField(vPrev)
    ensures BoundaryRule(1, u) && BoundaryRule(2, v)
    ensures BoundaryRule(0, uPrev) && BoundaryRule(0, vPrev)
    ensures u0 == Zeros() && v0 == Zeros() && uPrev0 == Zeros() && vPrev0 == Zeros() ==>
      u == Zeros() && v == Zeros() && uPrev == Zeros() && vPrev == Zeros()
  {
    u, v, uPrev, vPrev := uPrev0, vPrev0, u0, v0;
    u := Diffuse(1, u, uPrev, visc, dt);
    v := Diffuse(2, v, vPrev, visc, dt);
    ghost var du, dv := u, v;
    u, v, uPrev, vPrev := Project(u, v, uPrev, vPrev);
    assert Projected(du, dv, v0, u, v, uPrev, vPrev);
  }

  /** The two advect calls of the velocity step: each component of the
      previous velocity (u0, v0) is carried along that same velocity. */
  method SelfAdvect(u: seq<real>, v: seq<real>, u0: seq<real>, v0: seq<real>, dt: real)
    returns (u': seq<real>, v': seq<real>)
    requires IsField(u) && IsField(v) && IsField(u0) && IsField(v0)
    ensures u' == Advect(1, u, u0, u0, v0, dt) && v' == Advect(2, v, v0, u0, v0, dt)
    ensures BoundaryRule(1, u') && BoundaryRule(2, v')
    ensures u0 == Zeros() && v0 == Zeros() ==> u' == Zeros() && v' == Zeros()
  {
    u' := Advect(1, u, u0, u0, v0, dt);
    v' := Advect(2, v, v0, u0, v0, dt);
    if u0 == Zeros() && v0 == Zeros() {
      ZerosIff(u');
      ZerosIff(v');
    }
  }

  /** Density half of fluidStep (swap, diffuse, swap, advect) followed by
      the fade. densPrev is the density diffused from the old previous
      buffer toward the old density; the new density is the faded
      advection of it, and through a zero velocity field the advection is
      the identity. */
  method DensityStep(dens0: seq<real>, densPrev0: seq<real>, u: seq<real>, v: seq<real>, diff: real, dt: real)
    returns (dens: seq<real>, densPrev: seq<real>)
    requires IsField(dens0) && IsField(densPrev0) && IsField(u) && IsField(v)
    requires Solvable(dt, diff)
    ensures Diffused(0, densPrev0, dens0, diff, dt, densPrev)
    ensures BoundaryRule(0, dens) && BoundaryRule(0, densPrev)
    ensures dens == Decay(Advect(0, dens0, densPrev, u, v, dt))
    ensures u == Zeros() && v == Zeros() ==> dens == Decay(densPrev)
  {
    dens, densPrev := densPrev0, dens0;
    dens := Diffuse(0, dens, densPrev, diff, dt);
    dens, densPrev := densPrev, dens;
    var advected := Advect(0, dens, densPrev, u, v, dt);
    DecayKeepsBoundary(0, advected);
    if u == Zeros() && v == Zeros() {
      AdvectThroughStillFlow(0, dens, densPrev, u, v, dt);
    }
    dens := Decay(advected);
  }

  /** The six buffers after fluidStep(dt, visc, diff) from s: the velocity
      step, the density diffused toward the old density, and the new
      density as the faded advection of it along the new velocity. */
  ghost predicate FluidStepped(s: FluidState, dt: real, visc: real, diff: real, r: FluidState)
    requires Valid(s) && Solvable(dt, visc) && Solvable(dt, diff)
  {
    && Valid(r)
    && VelocityStepped(s.u, s.v, s.uPrev, s.vPrev, visc, dt, r.u, r.v, r.uPrev, r.vPrev)
    && Diffused(0, s.densPrev, s.dens, diff, dt, r.densPrev)
    && r.dens == Decay(Advect(0, s.dens, r.densPrev, r.u, r.v, dt))
  }

  /** fluidStep is a function of the state and its three arguments. */
  lemma FluidStepDetermined(s: FluidState, dt: real, visc: real, diff: real, r1: FluidState, r2: FluidState)
    requires Valid(s) && Solvable(dt, visc) && Solvable(dt, diff)
    requires FluidStepped(s, dt, visc, diff, r1) && FluidStepped(s, dt, visc, diff, r2)
    ensures r1 == r2
  {
    VelocityStepDetermined(s.u, s.v, s.uPrev, s.vPrev, visc, dt,
                           r1.u, r1.v, r1.uPrev, r1.vPrev, r2.u, r2.v, r2.uPrev, r2.vPrev);
    DiffusedDetermined(0, s.densPrev, s.dens, diff, dt, r1.densPrev, r2.densPrev);
  }

  /** fluidStep: the velocity step, the density step and the fade.
      Afterwards every buffer obeys a boundary rule, the density is the
      faded advection of the diffused density (left in densPrev) through the
      final velocity, and a quiescent velocity stays quiescent, in which case
      the density is only diffused and faded. */
  method FluidStep(s: FluidState, dt: real, visc: real, diff: real) returns (r: FluidState)
    requires Valid(s)
    requires Solvable(dt, visc) && Solvable(dt, diff)
    ensures FluidStepped(s, dt, visc, diff, r)
    ensures BoundaryRule(1, r.u) && BoundaryRule(2, r.v)
    ensures BoundaryRule(0, r.uPrev) && BoundaryRule(0, r.vPrev)
    ensures BoundaryRule(0, r.dens) && BoundaryRule(0, r.densPrev)
    ensures Quiescent(s) ==> Quiescent(r) && r.dens == Decay(r.densPrev)
  {
    var u, v, uPrev, vPrev := VelocityStep(s.u, s.v, s.uPrev, s.vPrev, visc, dt);
    var dens, densPrev := DensityStep(s.dens, s.densPrev, u, v, diff, dt);
    r := FluidState(u, v, uPrev, vPrev, dens, densPrev);
  }
}
