/**
 * The ocean model shared by the three sound-speed scripts: the
 * three-segment temperature and salinity profiles of depth (breakpoints at
 * 100 m and 1000 m), the first-order sound-speed polynomial after
 * Mackenzie (1981), and the sloped seafloor line.
 * Depth z is in metres, positive downwards.
 */
module Ocean {
  import opened Numerics

  /** `temperature_profile`: 20 degrees C down to 100 m, falling linearly to
      2 degrees C at 1000 m, and 2 degrees C below. */
  function Temperature(z: real): (t: real)
    ensures 2.0 <= t <= 20.0
  {
    if z <= 100.0 then 20.0
    else if z <= 1000.0 then 20.0 - 18.0 * ((z - 100.0) / 900.0)
    else 2.0
  }

  /** `salinity_profile`: 35 PSU down to 100 m, rising linearly to 35.5 PSU
      at 1000 m, and 35.5 PSU below. */
  function Salinity(z: real): (s: real)
    ensures 35.0 <= s <= 35.5
  {
    if z <= 100.0 then 35.0
    else if z <= 1000.0 then 35.0 + 0.5 * ((z - 100.0) / 900.0)
    else 35.5
  }

  /** z held to the interval [lo, hi]. */
  function Clamp(z: real, lo: real, hi: real): (c: real)
    requires lo <= hi
    ensures lo <= c <= hi
    ensures lo <= z <= hi ==> c == z
  {
    if z < lo then lo else if z > hi then hi else z
  }

  /** Both profiles are one ramp over the clamped depth: the three branches
      agree with a single affine function of Clamp(z, 100, 1000), so the
      profiles meet at the breakpoints (20 and 35 at 100 m, 2 and 35.5 at
      1000 m) with no jump. */
  lemma ProfilesAreClampedRamps(z: real)
    ensures Temperature(z) == 20.0 - (Clamp(z, 100.0, 1000.0) - 100.0) / 50.0
    ensures Salinity(z) == 35.0 + (Clamp(z, 100.0, 1000.0) - 100.0) / 1800.0
    ensures Temperature(100.0) == 20.0 && Temperature(1000.0) == 2.0
    ensures Salinity(100.0) == 35.0 && Salinity(1000.0) == 35.5
  {
  }

  /** Salinity is an affine function of temperature: 1/36 PSU gained per
      degree lost, at every depth. */
  lemma SalinityFollowsTemperature(z: real)
    ensures Salinity(z) == 35.0 + (20.0 - Temperature(z)) / 36.0
  {
    ProfilesAreClampedRamps(z);
  }

  /** Going deeper never warms the water, and it cools by at most
      0.02 degrees C per metre: the profile is monotone and Lipschitz
      continuous. */
  lemma TemperatureNonIncreasing(z1: real, z2: real)
    requires z1 <= z2
    ensures Temperature(z2) <= Temperature(z1)
    ensures Temperature(z1) - Temperature(z2) <= (z2 - z1) / 50.0
  {
    ProfilesAreClampedRamps(z1);
    ProfilesAreClampedRamps(z2);
    ClampMonotone(z1, z2, 100.0, 1000.0);
  }

  /** Going deeper never freshens the water, and salinity rises by at most
      1/1800 PSU per metre. */
  lemma SalinityNonDecreasing(z1: real, z2: real)
    requires z1 <= z2
    ensures Salinity(z1) <= Salinity(z2)
    ensures Salinity(z2) - Salinity(z1) <= (z2 - z1) / 1800.0
  {
    ProfilesAreClampedRamps(z1);
    ProfilesAreClampedRamps(z2);
    ClampMonotone(z1, z2, 100.0, 1000.0);
  }

  lemma ClampMonotone(z1: real, z2: real, lo: real, hi: real)
    requires z1 <= z2 && lo <= hi
    ensures 0.0 <= Clamp(z2, lo, hi) - Clamp(z1, lo, hi) <= z2 - z1
  {
  }

  /** The first-order sound-speed polynomial (m/s) of temperature t (deg C),
      salinity s (PSU) and depth z (m), with the coefficients of
      Mackenzie (1981) as the scripts write them. The nine terms are
      grouped by the variables they involve. */
  function Mackenzie(t: real, s: real, z: real): real {
    TemperatureTerms(t) + SalinityTerms(t, s) + DepthTerms(t, z)
  }

  function TemperatureTerms(t: real): real {
    1448.96 + 4.591 * t - 0.05304 * (t * t) + 0.0002374 * (t * t * t)
  }

  function SalinityTerms(t: real, s: real): real {
    1.340 * (s - 35.0) - 0.01025 * t * (s - 35.0)
  }

  function DepthTerms(t: real, z: real): real {
    0.01630 * z + 0.0000001675 * (z * z) - 0.0000000000007139 * t * (z * z * z)
  }

  /** Salinity enters only through the two (s - 35) terms: the speed is the
      speed at 35 PSU plus (s - 35)(1.340 - 0.01025 t), so both terms vanish
      exactly when s = 35 (for any temperature below 130 deg C). */
  lemma MackenzieSalinityTerms(t: real, s: real, z: real)
    ensures Mackenzie(t, s, z) == Mackenzie(t, 35.0, z) + (s - 35.0) * (1.340 - 0.01025 * t)
    ensures t < 130.0 ==> (Mackenzie(t, s, z) == Mackenzie(t, 35.0, z) <==> s == 35.0)
  {
    var k := 1.340 - 0.01025 * t;
    assert Mackenzie(t, s, z) - Mackenzie(t, 35.0, z) == 1.340 * (s - 35.0) - 0.01025 * t * (s - 35.0);
    assert 1.340 * (s - 35.0) - 0.01025 * t * (s - 35.0) == (s - 35.0) * k;
    if t < 130.0 {
      assert k > 0.0;
      if s != 35.0 {
        NonZeroProduct(s - 35.0, k);
      }
    }
  }

  lemma NonZeroProduct(u: real, v: real)
    requires u != 0.0 && v != 0.0
    ensures u * v != 0.0
  {
  }

  /** For a fixed water mass (0 <= t <= 20 deg C, any salinity), sound speed
      rises strictly with z over [-4500, 4500] m: the pressure terms
      dominate the cubic correction. */
  lemma MackenzieDepthIncreasing(t: real, s: real, z1: real, z2: real)
    requires 0.0 <= t <= 20.0
    requires -4500.0 <= z1 < z2 <= 4500.0
    ensures Mackenzie(t, s, z1) < Mackenzie(t, s, z2)
  {
    DepthDifference(t, s, z1, z2);
    DepthSlopePositive(t, z1, z2);
    MulPositive(z2 - z1, DepthSlope(t, z1, z2));
  }

  /** The difference quotient of the speed in z, for a fixed water mass:
      the linear and quadratic pressure terms and the cubic correction. */
  function DepthSlope(t: real, z1: real, z2: real): real {
    0.01630 + 0.0000001675 * (z1 + z2) - 0.0000000000007139 * t * (z1 * z1 + z1 * z2 + z2 * z2)
  }

  lemma DepthSlopePositive(t: real, z1: real, z2: real)
    requires 0.0 <= t <= 20.0
    requires -4500.0 <= z1 <= 4500.0 && -4500.0 <= z2 <= 4500.0
    ensures DepthSlope(t, z1, z2) > 0.0
  {
    var q := z1 * z1 + z1 * z2 + z2 * z2;
    QuadraticBound(z1, z2, 4500.0);
    WeightedBound(t, q, 20.0, 60750000.0);
    Regroup(0.0000000000007139, t, q);
  }

  /** The depth-dependent part of the difference, factored by z2 - z1. */
  lemma DepthDifference(t: real, s: real, z1: real, z2: real)
    ensures Mackenzie(t, s, z2) - Mackenzie(t, s, z1) == (z2 - z1) * DepthSlope(t, z1, z2)
  {
    DepthTermsDifference(t, z1, z2);
  }

  lemma DepthTermsDifference(t: real, z1: real, z2: real)
    ensures DepthTerms(t, z2) - DepthTerms(t, z1) == (z2 - z1) * DepthSlope(t, z1, z2)
  {
    DepthTermsPolynomial(t, z1, z2);
    DepthSlopePolynomial(t, z1, z2);
    FactoredDepthTerms(t, z1, z2);
  }

  lemma DepthTermsPolynomial(t: real, z1: real, z2: real)
    ensures DepthTerms(t, z2) - DepthTerms(t, z1)
         == (0.01630 * z2 + 0.0000001675 * (z2 * z2) - 0.0000000000007139 * t * (z2 * z2 * z2))
            - (0.01630 * z1 + 0.0000001675 * (z1 * z1) - 0.0000000000007139 * t * (z1 * z1 * z1))
  {
  }

  lemma DepthSlopePolynomial(t: real, z1: real, z2: real)
    ensures (z2 - z1) * DepthSlope(t, z1, z2)
         == (z2 - z1) * (0.01630 + 0.0000001675 * (z1 + z2) - 0.0000000000007139 * t * (z1 * z1 + z1 * z2 + z2 * z2))
  {
  }

  lemma FactoredDepthTerms(t: real, z1: real, z2: real)
    ensures (0.01630 * z2 + 0.0000001675 * (z2 * z2) - 0.0000000000007139 * t * (z2 * z2 * z2))
            - (0.01630 * z1 + 0.0000001675 * (z1 * z1) - 0.0000000000007139 * t * (z1 * z1 * z1))
         == (z2 - z1) * (0.01630 + 0.0000001675 * (z1 + z2) - 0.0000000000007139 * t * (z1 * z1 + z1 * z2 + z2 * z2))
  {
    PowerDifferences(z1, z2);
    Combine(z1, z2, z1 * z1, z2 * z2, z1 * z1 * z1, z2 * z2 * z2,
            z1 + z2, z1 * z1 + z1 * z2 + z2 * z2, 0.0000000000007139 * t);
  }

  /** The difference of two values of 0.01630 z + 0.0000001675 z^2 - c z^3,
      given the factored differences of the powers. */
  lemma Combine(z1: real, z2: real, sq1: real, sq2: real, cb1: real, cb2: real, w: real, q: real, c: real)
    requires sq2 - sq1 == (z2 - z1) * w
    requires cb2 - cb1 == (z2 - z1) * q
    ensures (0.01630 * z2 + 0.0000001675 * sq2 - c * cb2) - (0.01630 * z1 + 0.0000001675 * sq1 - c * cb1)
         == (z2 - z1) * (0.01630 + 0.0000001675 * w - c * q)
  {
    ScaledDifference(0.0000001675, sq2, sq1, (z2 - z1) * w);
    ScaledDifference(c, cb2, cb1, (z2 - z1) * q);
    SlopeFactor(z2 - z1, w, c, q);
  }

  /** z2^2 - z1^2 and z2^3 - z1^3 factored by z2 - z1. */
  lemma PowerDifferences(z1: real, z2: real)
    ensures z2 * z2 - z1 * z1 == (z2 - z1) * (z1 + z2)
    ensures z2 * z2 * z2 - z1 * z1 * z1 == (z2 - z1) * (z1 * z1 + z1 * z2 + z2 * z2)
  {
  }

  lemma ScaledDifference(k: real, a: real, b: real, p: real)
    requires a - b == p
    ensures k * a - k * b == k * p
  {
  }

  lemma SlopeFactor(d: real, w: real, c: real, q: real)
    ensures 0.01630 * d + 0.0000001675 * (d * w) - c * (d * q)
         == d * (0.01630 + 0.0000001675 * w - c * q)
  {
  }

  /** 0 <= z1^2 + z1 z2 + z2^2 <= 3 b^2 when both lie in [-b, b]. */
  lemma QuadraticBound(z1: real, z2: real, b: real)
    requires 0.0 <= b && -b <= z1 <= b && -b <= z2 <= b
    ensures 0.0 <= z1 * z1 + z1 * z2 + z2 * z2 <= 3.0 * (b * b)
  {
    SquareNonNegative(z1 + z2);
    SquareNonNegative(z1);
    SquareNonNegative(z2);
    assert 2.0 * (z1 * z1 + z1 * z2 + z2 * z2) == z1 * z1 + z2 * z2 + (z1 + z2) * (z1 + z2);
    ProductBound(z1, z1, b);
    ProductBound(z1, z2, b);
    ProductBound(z2, z2, b);
  }

  lemma SquareNonNegative(u: real)
    ensures 0.0 <= u * u
  {
    if u < 0.0 {
      MulPositive(-u, -u);
    }
  }

  /** u v <= b^2 when both lie in [-b, b]. */
  lemma ProductBound(u: real, v: real, b: real)
    requires 0.0 <= b && -b <= u <= b && -b <= v <= b
    ensures u * v <= b * b
  {
    MulNonNegative(b - u, b + v);
    MulNonNegative(b + u, b - v);
  }

  lemma Regroup(k: real, t: real, q: real)
    ensures k * t * q == k * (t * q)
  {
  }

  /** t q <= 20 m when 0 <= t <= 20 and 0 <= q <= m. */
  lemma WeightedBound(t: real, q: real, tMax: real, m: real)
    requires 0.0 <= t <= tMax && 0.0 <= q <= m
    ensures t * q <= tMax * m
  {
    MulNonNegative(tMax - t, q);
    MulNonNegative(tMax, m - q);
  }

  /** The sloped seafloor `depth + 0.02 * (x - x[0])` over the horizontal
      samples xs (the script indexes x[0], so xs must not be empty). */
  function Seafloor(depth: real, xs: seq<real>): (floor: seq<real>)
    requires |xs| > 0
    ensures |floor| == |xs|
    ensures floor[0] == depth
  {
    seq(|xs|, i requires 0 <= i < |xs| => depth + 0.02 * (xs[i] - xs[0]))
  }

  /** Any two points of the seafloor differ by 0.02 times their horizontal
      distance: the floor is a straight line of slope 0.02 through
      (xs[0], depth). */
  lemma SeafloorSlope(depth: real, xs: seq<real>, i: nat, j: nat)
    requires i < |xs| && j < |xs|
    ensures Seafloor(depth, xs)[j] - Seafloor(depth, xs)[i] == 0.02 * (xs[j] - xs[i])
  {
  }

  /** Over non-decreasing horizontal samples the seafloor is never shallower
      than depth and never rises. */
  lemma SeafloorDescends(depth: real, xs: seq<real>)
    requires |xs| > 0
    requires forall i, j :: 0 <= i <= j < |xs| ==> xs[i] <= xs[j]
    ensures forall i :: 0 <= i < |xs| ==> depth <= Seafloor(depth, xs)[i]
    ensures forall i, j :: 0 <= i <= j < |xs| ==> Seafloor(depth, xs)[i] <= Seafloor(depth, xs)[j]
  {
    var floor := Seafloor(depth, xs);
    forall i | 0 <= i < |xs| ensures depth <= floor[i] {
      SeafloorSlope(depth, xs, 0, i);
    }
    forall i, j | 0 <= i <= j < |xs| ensures floor[i] <= floor[j] {
      SeafloorSlope(depth, xs, i, j);
    }
  }

  /** Sampled at `np.linspace(0, extent, num)` with extent > 0, the
      seafloor descends from depth to depth + 0.02 extent. */
  lemma LinspaceSeafloor(depth: real, extent: real, num: nat)
    requires extent > 0.0 && num >= 2
    ensures var floor := Seafloor(depth, Linspace(0.0, extent, num));
      && floor[num - 1] == depth + 0.02 * extent
      && (forall i :: 0 <= i < num ==> depth <= floor[i])
      && (forall i, j :: 0 <= i <= j < num ==> floor[i] <= floor[j])
  {
    var xs := Linspace(0.0, extent, num);
    forall i, j | 0 <= i <= j < |xs| ensures xs[i] <= xs[j] {
      if i < j {
        LinspaceIncreasing(0.0, extent, num, i, j);
      }
    }
    SeafloorDescends(depth, xs);
  }
}
