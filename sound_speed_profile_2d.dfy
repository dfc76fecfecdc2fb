/**
 * The cross-section of `tests/sound-speed-profile-2d.py`: a 2000 m horizon
 * and a water column whose vertical axis runs from z = -2000 (the bottom)
 * to z = 0 (the surface), a sound speed for one fixed water mass
 * (10 deg C and 35 PSU unless given), and the profile drawn at the centre
 * column.
 *
 * As written, the function converts z to a positive depth but evaluates the
 * polynomial on the signed z, so speed falls with depth. The model keeps
 * that definition (`SoundSpeedProfile`) for the grid the script computes,
 * proves the discrepancy about it, and sets the corrected definition
 * (`SoundSpeedAtDepth`) and its grid beside it.
 */
module SoundSpeedProfile2D {
  import opened Numerics
  import opened Ocean

  const WIDTH: nat := 2000

  /** `x = np.linspace(0, 2000, 2000)` */
  function XAxis(): seq<real> { Linspace(0.0, WIDTH as real, WIDTH) }
  /** `z = np.linspace(-2000, 0, 2000)`: negative below the surface. */
  function ZAxis(): seq<real> { Linspace(-2000.0, 0.0, 2000) }

  /** `sound_speed_profile(x, z, T=10, S=35)` as written: the positive
      depth `-z` is computed and then not used, so the polynomial sees the
      signed z. */
  function SoundSpeedProfile(x: real, z: real, t: real := 10.0, s: real := 35.0): real {
    Mackenzie(t, s, z)
  }

  /** The corrected profile: the polynomial evaluated on the positive depth
      -z, as the conversion in the script intends. */
  function SoundSpeedAtDepth(x: real, z: real, t: real := 10.0, s: real := 35.0): real {
    Mackenzie(t, s, -z)
  }

  /** At the default salinity of 35 PSU both salinity terms vanish, so the
      speed depends only on temperature and z; any other salinity adds
      (s - 35)(1.340 - 0.01025 t). Neither definition reads x. */
  lemma DefaultSalinity(x1: real, x2: real, z: real, t: real, s: real)
    ensures SoundSpeedProfile(x1, z, t) == TemperatureTerms(t) + DepthTerms(t, z)
    ensures SoundSpeedProfile(x1, z, t, s) == SoundSpeedProfile(x2, z, t) + (s - 35.0) * (1.340 - 0.01025 * t)
    ensures SoundSpeedAtDepth(x1, z, t, s) == SoundSpeedAtDepth(x2, z, t) + (s - 35.0) * (1.340 - 0.01025 * t)
  {
    MackenzieSalinityTerms(t, s, z);
    MackenzieSalinityTerms(t, s, -z);
  }

  /** At the surface, with the default water mass, the two definitions
      agree on the polynomial's constant and temperature terms:
      1448.96 + 45.91 - 5.304 + 0.2374. */
  lemma SurfaceValue()
    ensures SoundSpeedProfile(0.0, 0.0) == 1489.8034
    ensures SoundSpeedAtDepth(0.0, 0.0) == 1489.8034
  {
  }

  /** As written, for any water mass of 0 to 20 deg C, the speed falls
      strictly as z goes down from the surface (z = 0) towards the bottom
      (z = -2000) and below: deeper water is slower, the reverse of the
      pressure effect the polynomial describes. */
  lemma AsWrittenSlowsWithDepth(x: real, z1: real, z2: real, t: real, s: real)
    requires 0.0 <= t <= 20.0
    requires -4500.0 <= z1 < z2 <= 0.0
    ensures SoundSpeedProfile(x, z1, t, s) < SoundSpeedProfile(x, z2, t, s)
  {
    MackenzieDepthIncreasing(t, s, z1, z2);
  }

  /** The plotted discrepancy at the defaults: 1000 m down is slower than
      the surface. */
  lemma AsWrittenCounterexample()
    ensures SoundSpeedProfile(0.0, -1000.0) < SoundSpeedProfile(0.0, 0.0)
  {
    AsWrittenSlowsWithDepth(0.0, -1000.0, 0.0, 10.0, 35.0);
  }

  /** Corrected, the speed rises strictly with depth for any water mass of
      0 to 20 deg C, down to 4500 m, and agrees with the as-written
      definition at the surface. */
  lemma CorrectedSpeedsUpWithDepth(x: real, z1: real, z2: real, t: real, s: real)
    requires 0.0 <= t <= 20.0
    requires -4500.0 <= z1 < z2 <= 0.0
    ensures SoundSpeedAtDepth(x, z2, t, s) < SoundSpeedAtDepth(x, z1, t, s)
    ensures SoundSpeedAtDepth(x, 0.0, t, s) == SoundSpeedProfile(x, 0.0, t, s)
  {
    MackenzieDepthIncreasing(t, s, -z2, -z1);
  }

  /** `C = sound_speed_profile(X, Z)` over `np.meshgrid(x, z)`, with the
      function as written. */
  function ProfileGrid(xs: seq<real>, zs: seq<real>): seq<seq<real>> {
    MeshGrid((x: real, z: real) => SoundSpeedProfile(x, z), xs, zs)
  }

  /** The grid the corrected profile gives, evaluated on the positive depth. */
  function CorrectedProfileGrid(xs: seq<real>, zs: seq<real>): seq<seq<real>> {
    MeshGrid((x: real, z: real) => SoundSpeedAtDepth(x, z), xs, zs)
  }

  /** `center_idx = len(x) // 2`: for a non-empty axis a valid index, at
      the middle of the axis. */
  function CenterIndex(xs: seq<real>): (c: nat)
    ensures |xs| > 0 ==> c < |xs|
    ensures 2 * c <= |xs| <= 2 * c + 1
  {
    FloorDiv(|xs|, 2)
  }

  /** The second panel as the script draws it: column 1000 of the
      2000-by-2000 grid. Each entry is the as-written speed at its z sample
      for the default water mass, and going up the column (from z = -2000
      towards the surface) the speed strictly rises, so the bottom sample
      is the slowest. */
  lemma CenterProfile(r1: nat, r2: nat)
    requires r1 < r2 < 2000
    ensures CenterIndex(XAxis()) == 1000
    ensures var col := Column(ProfileGrid(XAxis(), ZAxis()), CenterIndex(XAxis()));
      && |col| == 2000
      && col[r1] == Mackenzie(10.0, 35.0, ZAxis()[r1])
      && col[r1] < col[r2]
  {
    var zs := ZAxis();
    LinspaceIncreasing(-2000.0, 0.0, 2000, r1, r2);
    LinspaceBetween(-2000.0, 0.0, 2000, r1);
    LinspaceBetween(-2000.0, 0.0, 2000, r2);
    AsWrittenSlowsWithDepth(0.0, zs[r1], zs[r2], 10.0, 35.0);
  }

  /** The same column of the corrected grid runs the other way: the speed
      strictly falls going up towards the surface, so the bottom sample is
      the fastest. */
  lemma CorrectedCenterProfile(r1: nat, r2: nat)
    requires r1 < r2 < 2000
    ensures var col := Column(CorrectedProfileGrid(XAxis(), ZAxis()), CenterIndex(XAxis()));
      && |col| == 2000
      && col[r1] == Mackenzie(10.0, 35.0, -ZAxis()[r1])
      && col[r2] < col[r1]
  {
    var zs := ZAxis();
    LinspaceIncreasing(-2000.0, 0.0, 2000, r1, r2);
    LinspaceBetween(-2000.0, 0.0, 2000, r1);
    LinspaceBetween(-2000.0, 0.0, 2000, r2);
    CorrectedSpeedsUpWithDepth(0.0, zs[r1], zs[r2], 10.0, 35.0);
  }
}
