/**
 * The voxel picture of `tests/sound-speed-3d.py`: a 100 m by 100 m fetch,
 * 3500 m deep, sampled at 100 x 100 x 3500 points; the sound speed of the
 * shared ocean profiles plus a small horizontal gradient; the grid
 * downsampled by 40 along each axis for drawing, with voxel edges one more
 * than the cells along each axis; and the sloped seafloor tiled across the
 * downsampled y axis.
 */
module SoundSpeed3D {
  import opened Numerics
  import opened Geometry
  import opened Ocean

  const PLATFORM: Vec3 := Vec3(0.25, 0.5, 0.75)
  const DEPTH: real := 3500.0
  const FETCH: nat := 100
  const STEP: nat := 40

  /** `x = np.linspace(0, fetch, fetch)` */
  function XAxis(): seq<real> { Linspace(0.0, FETCH as real, FETCH) }
  /** `y = np.linspace(fetch, 0, fetch)` */
  function YAxis(): seq<real> { Linspace(FETCH as real, 0.0, FETCH) }
  /** `z = np.linspace(depth, 0, depth)` */
  function ZAxis(): seq<real> { Linspace(DEPTH, 0.0, 3500) }

  /** `platform_position`: every component of the normalised position,
      depth included, is multiplied by the fetch. */
  function PlatformPosition(p: Vec3): Vec3 {
    Scale(FETCH as real, p)
  }

  /** A position in the unit cube lands in [0, fetch] on each axis (the
      depth component too, though the script then draws the platform at the
      surface); the script's (0.25, 0.5, 0.75) becomes (25, 50, 75). */
  lemma PlatformInsideFetch(p: Vec3)
    requires 0.0 <= p.x <= 1.0 && 0.0 <= p.y <= 1.0 && 0.0 <= p.z <= 1.0
    ensures var q := PlatformPosition(p);
      && 0.0 <= q.x <= FETCH as real && 0.0 <= q.y <= FETCH as real && 0.0 <= q.z <= FETCH as real
    ensures PlatformPosition(PLATFORM) == Vec3(25.0, 50.0, 75.0)
  {
    ScaledUnit(FETCH as real, p.x);
    ScaledUnit(FETCH as real, p.y);
    ScaledUnit(FETCH as real, p.z);
  }

  lemma ScaledUnit(k: real, u: real)
    requires 0.0 <= k && 0.0 <= u <= 1.0
    ensures 0.0 <= k * u <= k
  {
    MulNonNegative(k, u);
    MulNonNegative(k, 1.0 - u);
  }

  /** `sound_speed_field(x, y, z)` without its sinusoidal perturbation: the
      polynomial of the depth's temperature and salinity, then
      `c += 0.1 * (x / x.max())` and `c += 0.1 * (y / y.max())`. A zero
      maximum makes numpy divide by zero, which is not a finite speed. */
  function SoundSpeedField(x: real, y: real, z: real, xMax: real, yMax: real): (c: Option<real>)
    ensures c.None? <==> xMax == 0.0 || yMax == 0.0
  {
    if xMax == 0.0 || yMax == 0.0 then None
    else
      var c0 := Mackenzie(Temperature(z), Salinity(z), z);
      var c1 := c0 + 0.1 * (x / xMax);
      var c2 := c1 + 0.1 * (y / yMax);
      Some(c2)
  }

  /** Inside [0, x.max()] by [0, y.max()] the two horizontal terms together
      add between 0 and 0.2 m/s to the depth profile, and the speed never
      falls as x or y grows. */
  lemma HorizontalGradient(x: real, y: real, z: real, xMax: real, yMax: real)
    requires 0.0 < xMax && 0.0 < yMax
    requires 0.0 <= x <= xMax && 0.0 <= y <= yMax
    ensures SoundSpeedField(x, y, z, xMax, yMax).Some?
    ensures var g := SoundSpeedField(x, y, z, xMax, yMax).value - Mackenzie(Temperature(z), Salinity(z), z);
      0.0 <= g <= 0.2
  {
    QuotientInUnit(x, xMax);
    QuotientInUnit(y, yMax);
  }

  lemma GradientMonotone(x1: real, x2: real, y1: real, y2: real, z: real, xMax: real, yMax: real)
    requires 0.0 < xMax && 0.0 < yMax && x1 <= x2 && y1 <= y2
    ensures SoundSpeedField(x1, y1, z, xMax, yMax).value <= SoundSpeedField(x2, y2, z, xMax, yMax).value
  {
    QuotientMonotone(x1, x2, xMax);
    QuotientMonotone(y1, y2, yMax);
  }

  lemma QuotientMonotone(a: real, b: real, w: real)
    requires 0.0 < w && a <= b
    ensures a / w <= b / w
  {
    assert (b / w - a / w) * w == b - a;
  }

  /** `C = sound_speed_field(X, Y, Z)` over `np.meshgrid(x, y, z,
      indexing='ij')`, with `x.max()` and `y.max()` taken over the grid
      (numpy refuses the maximum of an empty array). */
  function FieldGrid(xs: seq<real>, ys: seq<real>, zs: seq<real>): (c: seq<seq<seq<Option<real>>>>)
    requires |xs| > 0 && |ys| > 0 && |zs| > 0
    ensures Box(c, |xs|, |ys|, |zs|)
  {
    var xMax := SeqMax(xs);
    var yMax := SeqMax(ys);
    seq(|xs|, i requires 0 <= i < |xs| =>
      seq(|ys|, j requires 0 <= j < |ys| =>
        seq(|zs|, k requires 0 <= k < |zs| => SoundSpeedField(xs[i], ys[j], zs[k], xMax, yMax))))
  }

  /** A three-dimensional array of shape (n, m, l). */
  predicate Box<T>(g: seq<seq<seq<T>>>, n: nat, m: nat, l: nat) {
    && |g| == n
    && (forall i :: 0 <= i < n ==> |g[i]| == m)
    && (forall i, j :: 0 <= i < n && 0 <= j < m ==> |g[i][j]| == l)
  }

  /** On a grid whose x axis is `np.linspace(0, extent, n)` and whose y axis
      is `np.linspace(extent, 0, n)`, as in the script with extent = n =
      fetch, both maxima are the extent, so every speed is finite and
      within 0.2 m/s above the depth profile. */
  lemma FieldGridBounds(extent: real, n: nat, zs: seq<real>, i: nat, j: nat, k: nat)
    requires extent > 0.0 && n >= 2 && i < n && j < n && k < |zs|
    ensures var c := FieldGrid(Linspace(0.0, extent, n), Linspace(extent, 0.0, n), zs)[i][j][k];
      && c.Some?
      && 0.0 <= c.value - Mackenzie(Temperature(zs[k]), Salinity(zs[k]), zs[k]) <= 0.2
  {
    var xs := Linspace(0.0, extent, n);
    var ys := Linspace(extent, 0.0, n);
    LinspaceMax(0.0, extent, n);
    LinspaceMax(extent, 0.0, n);
    LinspaceBetween(0.0, extent, n, i);
    LinspaceBetween(extent, 0.0, n, j);
    HorizontalGradient(xs[i], ys[j], zs[k], extent, extent);
  }

  /** `C[::step, ::step, ::step]` */
  function Downsample3<T>(g: seq<seq<seq<T>>>, step: nat): seq<seq<seq<T>>>
    requires step > 0
  {
    var planes := Downsample(g, step);
    seq(|planes|, i requires 0 <= i < |planes| => DownsamplePlane(planes[i], step))
  }

  /** The last two axes of `C[::step, ::step, ::step]` for one plane. */
  function DownsamplePlane<T>(plane: seq<seq<T>>, step: nat): seq<seq<T>>
    requires step > 0
  {
    var rows := Downsample(plane, step);
    seq(|rows|, j requires 0 <= j < |rows| => Downsample(rows[j], step))
  }

  /** Downsampling an (n, m, l) array keeps CeilDiv entries per axis. */
  lemma Downsample3Shape<T>(g: seq<seq<seq<T>>>, n: nat, m: nat, l: nat, step: nat)
    requires step > 0 && Box(g, n, m, l)
    ensures Box(Downsample3(g, step), CeilDiv(n, step), CeilDiv(m, step), CeilDiv(l, step))
  {
    var d := Downsample3(g, step);
    var cm, cl := CeilDiv(m, step), CeilDiv(l, step);
    DownsampleLength(g, step);
    forall i | 0 <= i < |d|
      ensures |d[i]| == cm
      ensures forall j :: 0 <= j < cm ==> |d[i][j]| == cl
    {
      PlaneOf(g, step, i);
      PlaneShape(g[Stride(i, step)], m, l, step, cm, cl);
    }
  }

  /** Cell (i, j, k) of the downsampled array is cell (i step, j step,
      k step) of the original. */
  lemma Downsample3Cells<T>(g: seq<seq<seq<T>>>, step: nat)
    requires step > 0
    ensures var d := Downsample3(g, step);
      forall i, j, k :: 0 <= i < |d| && 0 <= j < |d[i]| && 0 <= k < |d[i][j]| ==>
        && Stride(i, step) < |g| && Stride(j, step) < |g[Stride(i, step)]|
        && Stride(k, step) < |g[Stride(i, step)][Stride(j, step)]|
        && d[i][j][k] == g[Stride(i, step)][Stride(j, step)][Stride(k, step)]
  {
    var d := Downsample3(g, step);
    forall i | 0 <= i < |d|
      ensures Stride(i, step) < |g|
      ensures forall j, k :: 0 <= j < |d[i]| && 0 <= k < |d[i][j]| ==>
        && Stride(j, step) < |g[Stride(i, step)]|
        && Stride(k, step) < |g[Stride(i, step)][Stride(j, step)]|
        && d[i][j][k] == g[Stride(i, step)][Stride(j, step)][Stride(k, step)]
    {
      PlaneOf(g, step, i);
      PlaneCells(g[Stride(i, step)], step);
    }
  }

  /** Plane i of the downsampled array is plane i step, downsampled. */
  lemma PlaneOf<T>(g: seq<seq<seq<T>>>, step: nat, i: nat)
    requires step > 0 && i < |Downsample3(g, step)|
    ensures Stride(i, step) < |g| && Downsample3(g, step)[i] == DownsamplePlane(g[Stride(i, step)], step)
  {
    var planes := Downsample(g, step);
    assert planes[i] == g[Stride(i, step)];
  }

  lemma PlaneShape<T>(plane: seq<seq<T>>, m: nat, l: nat, step: nat, cm: nat, cl: nat)
    requires step > 0 && cm == CeilDiv(m, step) && cl == CeilDiv(l, step)
    requires |plane| == m && forall j :: 0 <= j < m ==> |plane[j]| == l
    ensures |DownsamplePlane(plane, step)| == cm
    ensures forall j :: 0 <= j < cm ==> |DownsamplePlane(plane, step)[j]| == cl
  {
    var p := DownsamplePlane(plane, step);
    var rows := Downsample(plane, step);
    DownsampleLength(plane, step);
    forall j | 0 <= j < |rows|
      ensures |p[j]| == cl
    {
      assert rows[j] == plane[Stride(j, step)];
      DownsampleLength(rows[j], step);
    }
  }

  lemma PlaneCells<T>(plane: seq<seq<T>>, step: nat)
    requires step > 0
    ensures var p := DownsamplePlane(plane, step);
      forall j, k :: 0 <= j < |p| && 0 <= k < |p[j]| ==>
        Stride(j, step) < |plane| && Stride(k, step) < |plane[Stride(j, step)]| && p[j][k] == plane[Stride(j, step)][Stride(k, step)]
  {
  }

  /** Along each axis `Cv.shape[a] + 1` voxel edges, evenly spaced from the
      first sample of that axis to its last. */
  function VoxelEdges(axis: seq<real>, cells: nat): (e: seq<real>)
    requires |axis| > 0
    ensures |e| == cells + 1
    ensures e[0] == axis[0]
    ensures cells >= 1 ==> e[cells] == axis[|axis| - 1]
  {
    Linspace(axis[0], axis[|axis| - 1], cells + 1)
  }

  /** `Cv = C[::step, ::step, ::step]` for the script's field. */
  function Cv(): seq<seq<seq<Option<real>>>> {
    Downsample3(FieldGrid(XAxis(), YAxis(), ZAxis()), STEP)
  }

  /** The script's (100, 100, 3500) grid becomes (3, 3, 88) voxels. */
  lemma ScriptVoxelShape()
    ensures Box(Cv(), 3, 3, 88)
  {
    Downsample3Shape(FieldGrid(XAxis(), YAxis(), ZAxis()), FETCH, FETCH, 3500, STEP);
    assert CeilDiv(FETCH, STEP) == 3;
    assert CeilDiv(3500, STEP) == 88;
  }

  /** The script's voxel edges: 4, 4 and 89 of them, spanning [0, 100],
      [100, 0] and [3500, 0]. */
  lemma ScriptVoxelEdges()
    ensures |VoxelEdges(XAxis(), |Cv()|)| == 4 && VoxelEdges(XAxis(), |Cv()|)[3] == 100.0
    ensures |VoxelEdges(YAxis(), |Cv()[0]|)| == 4 && VoxelEdges(YAxis(), |Cv()[0]|)[3] == 0.0
    ensures |VoxelEdges(ZAxis(), |Cv()[0][0]|)| == 89 && VoxelEdges(ZAxis(), |Cv()[0][0]|)[88] == 0.0
  {
    ScriptVoxelShape();
  }

  /** `np.tile(seafloor[:, np.newaxis], (1, M))`: row i is M copies of
      seafloor[i]. */
  function Tile(s: seq<real>, m: nat): (t: seq<seq<real>>)
    ensures |t| == |s|
  {
    seq(|s|, i requires 0 <= i < |s| => seq(m, j requires 0 <= j < m => s[i]))
  }

  /** `Z_floor`: the seafloor `depth + 0.02 * (x_surf - x_surf[0])` over
      `x_surf = np.linspace(0, fetch, N)`, tiled across M columns. */
  function FloorTile(n: nat, m: nat): seq<seq<real>>
    requires n >= 1
  {
    Tile(Seafloor(DEPTH, Linspace(0.0, FETCH as real, n)), m)
  }

  /** Every row of the tiled floor is constant across the M columns, no
      point is shallower than depth, depth never decreases along x, and the
      far edge lies at depth + 0.02 fetch. */
  lemma TiledSeafloor(n: nat, m: nat)
    requires n >= 2
    ensures |FloorTile(n, m)| == n
    ensures forall i :: 0 <= i < n ==> |FloorTile(n, m)[i]| == m
    ensures forall i, j :: 0 <= i < n && 0 <= j < m ==> FloorTile(n, m)[i][j] == FloorTile(n, m)[i][0]
    ensures forall i, j :: 0 <= i < n && 0 <= j < m ==> DEPTH <= FloorTile(n, m)[i][j]
    ensures forall i, i', j {:trigger FloorTile(n, m)[i][j], FloorTile(n, m)[i'][j]} ::
      0 <= i <= i' < n && 0 <= j < m ==> FloorTile(n, m)[i][j] <= FloorTile(n, m)[i'][j]
    ensures m > 0 ==> FloorTile(n, m)[n - 1][0] == DEPTH + 0.02 * FETCH as real
  {
    LinspaceSeafloor(DEPTH, FETCH as real, n);
  }
}
