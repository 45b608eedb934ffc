/** The bootstrap loader: a 64 x 64 heightmap over the spawn square
    [-32, 32] x [-32, 32] filled row by row by a worker, a raise-only
    percentage progress counter, start/reset flags, a simulated shader
    warm-up with the same progress arithmetic, and the height lookup that
    reads the table inside the square and falls back to the terrain noise
    outside it. The noise functions are parameters of the model. */
module Bootstrap {

  /** HEIGHTMAP_SIZE: cells per side. */
  const Side: int := 64

  /** SPAWN_AREA_RADIUS: half the side of the covered square. */
  const Radius: real := 32.0

  /** Number of heightmap cells. */
  const Cells: int := 4096

  /** Warm-up work units (1000000 iterations in chunks of 1000). */
  const Chunks: int := 1000

  /** fbm(x, y, octaves) and valueNoise2D(x, y), left uninterpreted. */
  datatype Noise = Noise(fbm: (real, real, int) -> real, valueNoise: (real, real) -> real)

  /** The terrain height formula the worker and the fallback share. */
  function TerrainHeight(noise: Noise, x: real, z: real): real
  {
    (noise.fbm(x * 0.05, z * 0.05, 4) + noise.valueNoise(x * 0.1, z * 0.1) * 0.5) * 3.0
  }

  /** World coordinate of grid line i. The cell size is 2 * 32 / 64 = 1, so
      the source's multiplication by it is the identity. */
  function WorldCoord(i: int): real
  {
    -Radius + i as real
  }

  /** The height the worker stores in cell k = row * 64 + col. */
  function CellHeight(noise: Noise, k: int): real
  {
    TerrainHeight(noise, WorldCoord(k % Side), WorldCoord(k / Side))
  }

  datatype LoaderState = LoaderState(progress: int, complete: bool, started: bool, completedRows: int,
                                     heightmap: seq<real>)

  datatype WarmupState = WarmupState(progress: int, complete: bool, started: bool, completedChunks: int)

  /** Both static state blocks. */
  datatype Globals = Globals(boot: LoaderState, warm: WarmupState)

  predicate Valid(g: Globals)
  {
    |g.boot.heightmap| == Cells
  }

  function ZeroMap(): (m: seq<real>)
    ensures |m| == Cells && forall k :: 0 <= k < Cells ==> m[k] == 0.0
  {
    seq(Cells, _ => 0.0)
  }

  // ---------------------------------------------------------------------
  // Progress arithmetic
  // ---------------------------------------------------------------------

  /** Percentage after k of total units, in integer arithmetic. The
      counts are never negative, where C's truncating division and Dafny's
      Euclidean one agree: the result is the whole percentage rounded down. */
  function Percent(k: nat, total: int): (p: int)
    requires total > 0
    ensures p * total <= k * 100 < (p + 1) * total
    ensures 0 <= p
    ensures k <= total ==> p <= 100 && (p == 100 <==> k == total)
  {
    DivisionBounds(k, total);
    (k * 100) / total
  }

  /** The floor-division facts behind Percent's contract. */
  lemma DivisionBounds(k: nat, total: int)
    requires total > 0
    ensures var p := (k * 100) / total;
      && p * total <= k * 100 < (p + 1) * total && 0 <= p
      && (k <= total ==> p <= 100 && (p == 100 <==> k == total))
  {
    var n := k * 100;
    var p := n / total;
    assert n == p * total + n % total && 0 <= n % total < total;
    assert (p + 1) * total == p * total + total;
    FactorPositive(p + 1, total);
    if k <= total {
      assert (101 - p) * total == 101 * total - p * total;
      FactorPositive(101 - p, total);
      if k == total {
        assert (p - 99) * total == p * total - 99 * total;
        FactorPositive(p - 99, total);
      }
    }
  }

  /** A product with a positive factor is positive only if the other
      factor is. */
  lemma FactorPositive(x: int, t: int)
    requires t > 0 && x * t > 0
    ensures x > 0
  {
  }

  /** The compare-and-swap loop stores the new value only if it is larger. */
  function RaiseTo(current: int, proposed: int): (r: int)
    ensures r >= current && r >= proposed
    ensures r == current || r == proposed
  {
    if proposed > current then proposed else current
  }

  /** Row progress rises with the number of completed rows, stays within
      [0, 100], and reaches exactly 100 with the last row. */
  lemma RowProgressMonotone(j: int, k: int)
    requires 0 <= j <= k <= Side
    ensures 0 <= Percent(j, Side) <= Percent(k, Side) <= 100
    ensures Percent(k, Side) == 100 <==> k == Side
  {
    PercentMonotone(j, k, Side);
  }

  /** More completed units never give a smaller percentage. */
  lemma PercentMonotone(j: nat, k: nat, total: int)
    requires j <= k && total > 0
    ensures Percent(j, total) <= Percent(k, total)
  {
    var p, q := Percent(j, total), Percent(k, total);
    assert (q + 1 - p) * total == (q + 1) * total - p * total;
    FactorPositive(q + 1 - p, total);
  }

  // ---------------------------------------------------------------------
  // The fill worker
  // ---------------------------------------------------------------------

  /** Every cell of m holds the worker's height for it. */
  ghost predicate Filled(noise: Noise, m: seq<real>)
  {
    |m| == Cells && forall k :: 0 <= k < Cells ==> m[k] == CellHeight(noise, k)
  }

  /** The index the fill loop writes for (row, col): every pair of the grid
      gets its own cell and every cell is reached, so each cell is written
      exactly once. */
  lemma FillIndexBijective(row: int, col: int, k: int)
    requires 0 <= row < Side && 0 <= col < Side && 0 <= k < Cells
    ensures 0 <= row * Side + col < Cells
    ensures k == row * Side + col <==> (k / Side == row && k % Side == col)
  {
  }

  /** Every value in s is at most every later one. */
  predicate NonDecreasing(s: seq<int>)
  {
    forall j, k :: 0 <= j <= k < |s| ==> s[j] <= s[k]
  }

  /** bootstrapMasterWorker run to completion: the rows are filled in order
      with progress raised after each row to the row percentage, and the run
      ends with every cell holding its terrain height, progress 100 and the
      complete flag set. published lists the progress value stored after
      each row, which is what a poller can observe: it never falls and
      reaches 100 exactly with the last row. */
  method BootstrapMasterWorker(noise: Noise, g: Globals) returns (g': Globals, published: seq<int>)
    requires Valid(g)
    ensures Valid(g') && Filled(noise, g'.boot.heightmap)
    ensures g'.boot.progress == 100 && g'.boot.complete && g'.boot.completedRows == Side
    ensures g'.boot.started == g.boot.started && g'.warm == g.warm
    ensures |published| == Side && NonDecreasing(published)
    ensures forall k :: 0 <= k < Side ==> published[k] == Percent(k + 1, Side)
    ensures forall k :: 0 <= k < Side ==> (published[k] == 100 <==> k == Side - 1)
  {
    var m := g.boot.heightmap;
    var rows := 0;
    var progress := 0;
    published := [];
    var row := 0;
    while row < Side
      invariant 0 <= row <= Side
      invariant |m| == Cells
      invariant rows == row && progress == Percent(row, Side)
      invariant |published| == row && NonDecreasing(published)
      invariant forall k :: 0 <= k < row ==> published[k] == Percent(k + 1, Side)
      invariant forall k :: 0 <= k < row * Side ==> m[k] == CellHeight(noise, k)
    {
      var col := 0;
      while col < Side
        invariant 0 <= col <= Side
        invariant |m| == Cells
        invariant forall k :: 0 <= k < row * Side + col ==> m[k] == CellHeight(noise, k)
      {
        var height := TerrainHeight(noise, WorldCoord(col), WorldCoord(row));
        var idx := row * Side + col;
        assert idx / Side == row && idx % Side == col;
        m := m[idx := height];
        col := col + 1;
      }
      rows := rows + 1;
      RowProgressMonotone(row, rows);
      progress := RaiseTo(progress, Percent(rows, Side));
      published := published + [progress];
      row := row + 1;
    }
    g' := g.(boot := g.boot.(progress := 100, complete := true, completedRows := rows, heightmap := m));
  }

  /** warmupMasterWorker run to completion, without its busy work: the
      chunk counter counts all chunks, the progress rises with them and
      ends at 100 with the complete flag set. published lists the progress
      value stored after each chunk; it never falls. */
  method WarmupMasterWorker(g: Globals) returns (g': Globals, published: seq<int>)
    ensures g'.warm.progress == 100 && g'.warm.complete && g'.warm.completedChunks == Chunks
    ensures g'.boot == g.boot && g'.warm.started == g.warm.started
    ensures GetShaderWarmupProgress(g') == 100
    ensures |published| == Chunks && NonDecreasing(published)
    ensures forall k :: 0 <= k < Chunks ==> published[k] == Percent(k + 1, Chunks)
  {
    var finished := 0;
    var progress := 0;
    published := [];
    while finished < Chunks
      invariant 0 <= finished <= Chunks
      invariant progress == Percent(finished, Chunks) && 0 <= progress <= 100
      invariant |published| == finished && NonDecreasing(published)
      invariant forall k :: 0 <= k < finished ==> published[k] == Percent(k + 1, Chunks)
    {
      finished := finished + 1;
      PercentMonotone(finished - 1, finished, Chunks);
      progress := RaiseTo(progress, Percent(finished, Chunks));
      published := published + [progress];
    }
    g' := g.(warm := g.warm.(progress := 100, complete := true, completedChunks := finished));
  }

  // ---------------------------------------------------------------------
  // Public API
  // ---------------------------------------------------------------------

  /** startBootstrapInit: a no-op once started; otherwise marks the loader
      started with progress, rows and the complete flag cleared. The worker
      thread it launches is BootstrapMasterWorker. */
  function StartBootstrapInit(g: Globals): (r: Globals)
    ensures g.boot.started ==> r == g
    ensures !g.boot.started ==>
      && r.boot.started && r.boot.progress == 0 && !r.boot.complete && r.boot.completedRows == 0
      && r.boot.heightmap == g.boot.heightmap && r.warm == g.warm
  {
    if g.boot.started then g
    else g.(boot := g.boot.(started := true, progress := 0, complete := false, completedRows := 0))
  }

  /** startShaderWarmup: the same guard for the warm-up block; the chunk
      counter is left to the worker. */
  function StartShaderWarmup(g: Globals): (r: Globals)
    ensures g.warm.started ==> r == g
    ensures !g.warm.started ==>
      && r.warm.started && r.warm.progress == 0 && !r.warm.complete
      && r.warm.completedChunks == g.warm.completedChunks && r.boot == g.boot
  {
    if g.warm.started then g
    else g.(warm := g.warm.(started := true, progress := 0, complete := false))
  }

  /** getShaderWarmupProgress: the stored warm-up percentage. */
  function GetShaderWarmupProgress(g: Globals): (p: int)
    ensures p == g.warm.progress
  {
    g.warm.progress
  }

  /** getBootstrapProgress: returns the progress as stored, and sets the
      complete flag as a side effect once progress has reached 100. */
  function GetBootstrapProgress(g: Globals): (r: (Globals, int))
    ensures r.1 == g.boot.progress
    ensures r.0.boot.complete <==> g.boot.complete || g.boot.progress >= 100
    ensures r.0 == g.(boot := g.boot.(complete := r.0.boot.complete))
  {
    if g.boot.progress >= 100 && !g.boot.complete then (g.(boot := g.boot.(complete := true)), g.boot.progress)
    else (g, g.boot.progress)
  }

  /** isBootstrapComplete: the flag as 1 or 0. */
  function IsBootstrapComplete(g: Globals): (r: int)
    ensures r == 1 <==> g.boot.complete
    ensures r == 0 || r == 1
  {
    if g.boot.complete then 1 else 0
  }

  /** resetBootstrap: both blocks back to not started, no progress, not
      complete, zero counters, and every heightmap cell zero. */
  function ResetBootstrap(g: Globals): (r: Globals)
    ensures Valid(r)
    ensures !r.boot.started && r.boot.progress == 0 && !r.boot.complete && r.boot.completedRows == 0
    ensures !r.warm.started && r.warm.progress == 0 && !r.warm.complete && r.warm.completedChunks == 0
    ensures forall k :: 0 <= k < Cells ==> r.boot.heightmap[k] == 0.0
  {
    Globals(LoaderState(0, false, false, 0, ZeroMap()), WarmupState(0, false, false, 0))
  }

  /** After a reset the loader can be started again. */
  lemma ResetAllowsRestart(g: Globals)
    ensures StartBootstrapInit(ResetBootstrap(g)).boot.started
    ensures StartBootstrapInit(ResetBootstrap(g)).boot.heightmap == ResetBootstrap(g).boot.heightmap
  {
  }

  // ---------------------------------------------------------------------
  // Height lookup
  // ---------------------------------------------------------------------

  function Abs(x: real): real { if x < 0.0 then -x else x }

  /** C's float-to-int conversion: truncation toward zero. */
  function Trunc(x: real): (n: int)
    ensures x >= 0.0 ==> 0 <= n && n as real <= x < n as real + 1.0
    ensures x < 0.0 ==> n <= 0 && n as real - 1.0 < x <= n as real
  {
    if x >= 0.0 then x.Floor else -((-x).Floor)
  }

  /** The grid column (or row) of a world coordinate inside the square:
      the truncated offset from the square's edge, clamped into [0, 63].
      Below the far edge it is the cell the coordinate lies in; on the far
      edge it is the last cell. */
  function CellOf(x: real): (c: int)
    ensures 0 <= c < Side
    ensures -Radius <= x < Radius ==> WorldCoord(c) <= x < WorldCoord(c) + 1.0
    ensures x == Radius ==> c == Side - 1
  {
    var c := Trunc(x + Radius);
    if c < 0 then 0 else if c >= Side then Side - 1 else c
  }

  /** Inside the square at all. */
  predicate InSquare(x: real, z: real)
  {
    Abs(x) <= Radius && Abs(z) <= Radius
  }

  /** The heightmap index read for a point inside the square. */
  function HeightIndex(x: real, z: real): (k: int)
    ensures 0 <= k < Cells
    ensures k % Side == CellOf(x) && k / Side == CellOf(z)
  {
    CellOf(z) * Side + CellOf(x)
  }

  /** getBootstrapHeight: outside the square the terrain formula, without
      reading the table; inside, the table cell of the point, always in
      bounds. */
  function GetBootstrapHeight(noise: Noise, g: Globals, x: real, z: real): (h: real)
    requires Valid(g)
    ensures !InSquare(x, z) ==> h == TerrainHeight(noise, x, z)
    ensures InSquare(x, z) ==> h == g.boot.heightmap[HeightIndex(x, z)]
  {
    if !InSquare(x, z) then TerrainHeight(noise, x, z)
    else g.boot.heightmap[HeightIndex(x, z)]
  }

  /** Once the worker has filled the table, a lookup at any grid point of
      the square returns exactly the terrain height the fallback formula
      gives there: table and formula agree on the grid. */
  lemma LookupAfterFill(noise: Noise, g: Globals, row: int, col: int)
    requires Valid(g) && Filled(noise, g.boot.heightmap)
    requires 0 <= row < Side && 0 <= col < Side
    ensures GetBootstrapHeight(noise, g, WorldCoord(col), WorldCoord(row)) ==
            TerrainHeight(noise, WorldCoord(col), WorldCoord(row))
  {
    var x, z := WorldCoord(col), WorldCoord(row);
    assert CellOf(x) == col && CellOf(z) == row;
    var k := HeightIndex(x, z);
    assert k == row * Side + col;
    assert g.boot.heightmap[k] == CellHeight(noise, k);
  }
}
