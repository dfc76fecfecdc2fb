/**
 * The vertical cross-section of `tests/sound-speed-2d.py`: a horizon of
 * 2000 m sampled at 2000 points, a water column of 4500 m sampled at 4500
 * points, the sound speed of the shared ocean profiles on that grid, the
 * platform column whose profile the second panel draws, and the sloped
 * seafloor line.
 */
module SoundSpeed2D {
  import opened Numerics
  import opened Ocean

  const PLATFORM: real := 0.5
  const DEPTH: real := 4000.0
  const GRADIENT_EXTENT: nat := 4500
  const HORIZ: nat := 2000

  /** `x = np.linspace(0, horiz, horiz)` */
  function XAxis(): seq<real> { Linspace(0.0, HORIZ as real, HORIZ) }

  /** `z = np.linspace(gradient_extent, 0, gradient_extent)`: from the
      bottom of the drawn extent up to the surface. */
  function ZAxis(): seq<real> { Linspace(GRADIENT_EXTENT as real, 0.0, GRADIENT_EXTENT) }

  /** `platform_position`: the fraction p of the horizon, truncated to an
      integer column. */
  function PlatformPosition(p: real): int {
    Trunc(HORIZ as real * p)
  }

  /** A fraction in [0, 1) lands on a valid column of the grid, at most one
      metre short of horiz * p; the script's 0.5 gives column 1000. */
  lemma PlatformColumn(p: real)
    requires 0.0 <= p < 1.0
    ensures 0 <= PlatformPosition(p) < HORIZ
    ensures HORIZ as real * p - 1.0 < PlatformPosition(p) as real <= HORIZ as real * p
    ensures PlatformPosition(PLATFORM) == 1000
  {
    MulNonNegative(HORIZ as real, p);
    assert HORIZ as real * p < HORIZ as real;
  }

  /** `sound_speed_profile(x, z)`: the sound-speed polynomial of the
      temperature and salinity at depth z; x is accepted and not used. */
  function SoundSpeedProfile(x: real, z: real): real {
    Mackenzie(Temperature(z), Salinity(z), z)
  }

  /** The speed at a depth is the same at every horizontal position. */
  lemma SoundSpeedIgnoresX(x1: real, x2: real, z: real)
    ensures SoundSpeedProfile(x1, z) == SoundSpeedProfile(x2, z)
  {
  }

  /** In the mixed layer (z <= 100 m) the water is at 20 deg C and 35 PSU,
      so both salinity terms vanish and the speed depends on z alone. */
  lemma SurfaceLayer(x: real, z: real)
    requires z <= 100.0
    ensures SoundSpeedProfile(x, z) == TemperatureTerms(20.0) + DepthTerms(20.0, z)
  {
    MackenzieSalinityTerms(20.0, 35.0, z);
  }

  /** Below 1000 m the water is at 2 deg C and 35.5 PSU: the speed is the
      polynomial of that fixed water mass. */
  lemma DeepLayer(x: real, z: real)
    requires z >= 1000.0
    ensures SoundSpeedProfile(x, z) == Mackenzie(2.0, 35.5, z)
  {
  }

  /** Within the mixed layer and within the deep layer the speed rises
      strictly with depth (down to the 4500 m of the drawn extent). */
  lemma SpeedRisesWithDepthOutsideThermocline(x: real, z1: real, z2: real)
    requires (-4500.0 <= z1 < z2 <= 100.0) || (1000.0 <= z1 < z2 <= 4500.0)
    ensures SoundSpeedProfile(x, z1) < SoundSpeedProfile(x, z2)
  {
    if z2 <= 100.0 {
      MackenzieDepthIncreasing(20.0, 35.0, z1, z2);
    } else {
      MackenzieDepthIncreasing(2.0, 35.5, z1, z2);
    }
  }

  /** `C = sound_speed_profile(X, Z)` over `np.meshgrid(x, z)`. */
  function SpeedGrid(xs: seq<real>, zs: seq<real>): seq<seq<real>> {
    MeshGrid((x: real, z: real) => SoundSpeedProfile(x, z), xs, zs)
  }

  /** `C[:, j]`, the profile the second panel draws, is the speed at each
      depth sample, and it is the same whichever column j is chosen. */
  lemma ColumnIsProfile(xs: seq<real>, zs: seq<real>, j: nat, k: nat)
    requires j < |xs| && k < |xs|
    ensures var c := SpeedGrid(xs, zs);
      && |Column(c, j)| == |zs|
      && (forall r :: 0 <= r < |zs| ==> Column(c, j)[r] == Mackenzie(Temperature(zs[r]), Salinity(zs[r]), zs[r]))
      && Column(c, j) == Column(c, k)
  {
  }

  /** The script's second panel: column 1000 of the 4500-by-2000 grid. */
  lemma PlatformProfile()
    ensures var c := SpeedGrid(XAxis(), ZAxis());
      && PlatformPosition(PLATFORM) == 1000
      && |Column(c, 1000)| == GRADIENT_EXTENT
      && Column(c, 1000) == Column(c, 0)
      && Column(c, 1000)[0] == Mackenzie(2.0, 35.5, 4500.0)
  {
    PlatformColumn(PLATFORM);
    ColumnIsProfile(XAxis(), ZAxis(), 1000, 0);
  }

  /** `seafloor_z = depth + 0.02 * (x - x[0])` over the horizon: from 4000 m
      at x = 0 down to 4040 m at x = 2000, never rising. */
  lemma ScriptSeafloor()
    ensures var floor := Seafloor(DEPTH, XAxis());
      && |floor| == HORIZ
      && floor[HORIZ - 1] == 4040.0
      && (forall i :: 0 <= i < HORIZ ==> DEPTH <= floor[i])
      && (forall i, j :: 0 <= i <= j < HORIZ ==> floor[i] <= floor[j])
  {
    LinspaceSeafloor(DEPTH, HORIZ as real, HORIZ);
  }
}
