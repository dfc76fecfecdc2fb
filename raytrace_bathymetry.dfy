/**
 * The ray/bathymetry intersection script: normalise the survey samples,
 * build the source's local frame, fan rays out from the source, sample each
 * ray as a straight trajectory and march it forward until it first reaches
 * the interpolated seafloor.
 *
 * The interpolated floor is an opaque lookup taking (y, x), in the order the
 * grid interpolator is queried; `None` stands for a NaN result, wherever in
 * the grid or outside it the interpolator yields one. Ray directions come from sines and cosines of the fan
 * angles and a vector norm, so they enter as an opaque function of the angle.
 */
module RaytraceBathymetry {
  import opened Numerics
  import opened Geometry

  const NUM_RAYS: nat := 100
  const RAY_LENGTH: real := 1.0
  const NUM_POINTS: nat := 1000
  /** `np.pi / 2`: the shortest decimal that rounds to the double numpy
      stores (that double itself is 1.57079632679489655799...). */
  const HALF_PI: real := 1.5707963267948966
  const SOURCE: Vec3 := Vec3(0.5, 0.5, 0.0)
  const DOWN: Vec3 := Vec3(0.0, 0.0, -1.0)
  /** The heading vector for the script's heading of 0 degrees:
      (cos 0 + .5, sin 0 + .5, 0). */
  const HEADING_XY: Vec3 := Vec3(1.5, 0.5, 0.0)

  /** Seafloor depth at (y, x); `None` where the interpolator yields NaN. */
  type FloorLookup = (real, real) -> Option<real>

  // ---------------------------------------------------------------------------
  // Coordinate normalisation

  /** `(v - v.min()) / (v.max() - v.min())`. There is no result for an empty
      vector (min and max fail) or a constant one (0 / 0 gives NaN). */
  function Normalize(v: seq<real>): (r: Option<seq<real>>)
    ensures r.None? <==> |v| == 0 || SeqMin(v) == SeqMax(v)
    ensures r.Some? ==> |r.value| == |v|
  {
    if |v| == 0 || SeqMin(v) == SeqMax(v) then None
    else Some(Rescale(v, SeqMin(v), SeqMax(v)))
  }

  /** The affine map of each sample sending lo to 0 and hi to 1. */
  function Rescale(v: seq<real>, lo: real, hi: real): (r: seq<real>)
    requires lo < hi
    ensures |r| == |v|
    ensures forall i :: 0 <= i < |v| ==> v[i] == lo + r[i] * (hi - lo)
    ensures forall i :: 0 <= i < |v| && lo <= v[i] <= hi ==> 0.0 <= r[i] <= 1.0
    ensures forall i :: 0 <= i < |v| && v[i] == lo ==> r[i] == 0.0
    ensures forall i :: 0 <= i < |v| && v[i] == hi ==> r[i] == 1.0
    ensures forall i, j :: 0 <= i < |v| && 0 <= j < |v| && v[i] <= v[j] ==> r[i] <= r[j]
  {
    var r := seq(|v|, i requires 0 <= i < |v| => Fraction(v[i], lo, hi));
    assert forall i, j :: 0 <= i < |v| && 0 <= j < |v| && v[i] <= v[j] ==> r[i] <= r[j] by {
      forall i, j | 0 <= i < |v| && 0 <= j < |v| && v[i] <= v[j] ensures r[i] <= r[j] {
        FractionMonotone(v[i], v[j], lo, hi);
      }
    }
    r
  }

  /** `(a - lo) / (hi - lo)`: where a sits between lo and hi, as a fraction
      of the distance from lo. */
  function Fraction(a: real, lo: real, hi: real): (f: real)
    requires lo < hi
    ensures a == lo + f * (hi - lo)
    ensures lo <= a <= hi ==> 0.0 <= f <= 1.0
    ensures a == lo ==> f == 0.0
    ensures a == hi ==> f == 1.0
  {
    QuotientInUnit(a - lo, hi - lo);
    SelfQuotient(hi - lo);
    (a - lo) / (hi - lo)
  }

  lemma FractionMonotone(a: real, b: real, lo: real, hi: real)
    requires lo < hi && a <= b
    ensures Fraction(a, lo, hi) <= Fraction(b, lo, hi)
  {
    var fa, fb := Fraction(a, lo, hi), Fraction(b, lo, hi);
    assert (fb - fa) * (hi - lo) == b - a;
    FactorSign(fb - fa, hi - lo);
  }

  lemma SelfQuotient(w: real)
    requires w > 0.0
    ensures w / w == 1.0
  {
  }

  lemma FactorSign(u: real, w: real)
    requires 0.0 < w && 0.0 <= u * w
    ensures 0.0 <= u
  {
    if u < 0.0 {
      MulPositive(-u, w);
    }
  }

  /** Normalised coordinates lie in [0, 1]; the minimum goes to 0, the maximum
      to 1, and the order of the samples is kept. */
  lemma NormalizeRange(v: seq<real>, n: seq<real>)
    requires Normalize(v) == Some(n)
    ensures |n| == |v|
    ensures forall i :: 0 <= i < |v| ==> 0.0 <= n[i] <= 1.0
    ensures forall i :: 0 <= i < |v| && v[i] == SeqMin(v) ==> n[i] == 0.0
    ensures forall i :: 0 <= i < |v| && v[i] == SeqMax(v) ==> n[i] == 1.0
    ensures forall i, j :: 0 <= i < |v| && 0 <= j < |v| && v[i] <= v[j] ==> n[i] <= n[j]
  {
  }

  /** Normalisation loses nothing: each sample is recovered from its
      normalised value n and the range [lo, hi] of the input. */
  lemma NormalizeInverse(v: seq<real>, n: seq<real>, lo: real, hi: real)
    requires Normalize(v) == Some(n) && lo == SeqMin(v) && hi == SeqMax(v)
    ensures |n| == |v| && forall i :: 0 <= i < |v| ==> v[i] == lo + n[i] * (hi - lo)
  {
    RescaleInverse(v, n, lo, hi);
  }

  /** Rescale's inverse, in a context free of the minimum and maximum. */
  lemma RescaleInverse(v: seq<real>, n: seq<real>, lo: real, hi: real)
    requires lo < hi && n == Rescale(v, lo, hi)
    ensures |n| == |v| && forall i :: 0 <= i < |v| ==> v[i] == lo + n[i] * (hi - lo)
  {
  }

  /** The depth column after the sign flip: `z_norm * -1`. */
  function NormalizeDepth(z: seq<real>): (r: Option<seq<real>>)
    ensures r.None? <==> Normalize(z).None?
    ensures r.Some? ==> |r.value| == |z|
  {
    match Normalize(z)
    case None => None
    case Some(n) => Some(Negate(n))
  }

  /** Each entry times -1. */
  function Negate(n: seq<real>): (r: seq<real>)
    ensures |r| == |n| && forall i :: 0 <= i < |n| ==> r[i] + n[i] == 0.0
  {
    seq(|n|, i requires 0 <= i < |n| => n[i] * -1.0)
  }

  /** After the flip depths lie in [-1, 0]: the smallest sample at 0, the
      largest at -1, and larger samples lower. */
  lemma NormalizeDepthRange(z: seq<real>, d: seq<real>)
    requires NormalizeDepth(z) == Some(d)
    ensures |d| == |z|
    ensures forall i :: 0 <= i < |z| ==> -1.0 <= d[i] <= 0.0
    ensures forall i :: 0 <= i < |z| && z[i] == SeqMin(z) ==> d[i] == 0.0
    ensures forall i :: 0 <= i < |z| && z[i] == SeqMax(z) ==> d[i] == -1.0
    ensures forall i, j :: 0 <= i < |z| && 0 <= j < |z| && z[i] <= z[j] ==> d[j] <= d[i]
  {
    var n := Normalize(z).value;
    NormalizeRange(z, n);
    NegatedRange(z, n, d, SeqMin(z), SeqMax(z));
  }

  /** Negating values in [0, 1] that send lo to 0, hi to 1 and keep the order
      gives values in [-1, 0] that send lo to 0, hi to -1 and reverse it. */
  lemma NegatedRange(v: seq<real>, n: seq<real>, d: seq<real>, lo: real, hi: real)
    requires |n| == |v| && d == Negate(n)
    requires forall i :: 0 <= i < |v| ==> 0.0 <= n[i] <= 1.0
    requires forall i :: 0 <= i < |v| && v[i] == lo ==> n[i] == 0.0
    requires forall i :: 0 <= i < |v| && v[i] == hi ==> n[i] == 1.0
    requires forall i, j :: 0 <= i < |v| && 0 <= j < |v| && v[i] <= v[j] ==> n[i] <= n[j]
    ensures |d| == |v|
    ensures forall i :: 0 <= i < |v| ==> -1.0 <= d[i] <= 0.0
    ensures forall i :: 0 <= i < |v| && v[i] == lo ==> d[i] == 0.0
    ensures forall i :: 0 <= i < |v| && v[i] == hi ==> d[i] == -1.0
    ensures forall i, j :: 0 <= i < |v| && 0 <= j < |v| && v[i] <= v[j] ==> d[j] <= d[i]
  {
  }

  // ---------------------------------------------------------------------------
  // Local frame and fan

  /** `np.cross(heading_xy, down)` */
  function Lateral(headingXY: Vec3): Vec3 {
    Cross(headingXY, DOWN)
  }

  /** For a horizontal heading (a, b, 0) the lateral axis is (-b, a, 0): it is
      horizontal and orthogonal to the heading and to down. */
  lemma LateralFrame(h: Vec3)
    requires h.z == 0.0
    ensures Lateral(h) == Vec3(-h.y, h.x, 0.0)
    ensures Dot(Lateral(h), h) == 0.0 && Dot(Lateral(h), DOWN) == 0.0
  {
    var l := Lateral(h);
    assert l == Vec3(-h.y, h.x, 0.0);
  }

  /** The frame degenerates, the lateral axis being the zero vector, exactly
      when the heading has no horizontal extent, that is, when it is zero or
      parallel to down; nothing in the script guards against it. */
  lemma LateralVanishes(h: Vec3)
    ensures Lateral(h) == Vec3(0.0, 0.0, 0.0) <==> h.x == 0.0 && h.y == 0.0
  {
    assert Lateral(h) == Vec3(-h.y, h.x, 0.0);
  }

  /** The script's heading of 0 degrees gives the lateral axis (-0.5, 1.5, 0),
      which is not of unit length. */
  lemma ScriptLateral()
    ensures Lateral(HEADING_XY) == Vec3(-0.5, 1.5, 0.0)
    ensures Dot(Lateral(HEADING_XY), Lateral(HEADING_XY)) == 2.5
  {
    var l := Lateral(HEADING_XY);
    assert l.x == 0.5 * -1.0 - 0.0 * 0.0;
    assert l.y == 0.0 * 0.0 - 1.5 * -1.0;
    assert l.z == 1.5 * 0.0 - 0.5 * 0.0;
    assert Dot(l, l) == 0.25 + 2.25;
  }

  /** `np.linspace(-np.pi/2, np.pi/2, num_rays)` */
  function FanAngles(numRays: nat): (angles: seq<real>)
    ensures |angles| == numRays
  {
    Linspace(-HALF_PI, HALF_PI, numRays)
  }

  /** The fan has numRays increasing angles from -pi/2 to pi/2, evenly spaced
      by pi / (numRays - 1) and symmetric about straight down. */
  lemma FanSpread(numRays: nat, i: nat)
    requires numRays >= 2 && i < numRays
    ensures var a := FanAngles(numRays);
      && a[0] == -HALF_PI && a[numRays - 1] == HALF_PI
      && -HALF_PI <= a[i] <= HALF_PI
      && a[numRays - 1 - i] == -a[i]
      && (i + 1 < numRays ==>
            a[i] < a[i + 1] && a[i + 1] - a[i] == 2.0 * HALF_PI / ((numRays - 1) as real))
  {
    LinspaceBetween(-HALF_PI, HALF_PI, numRays, i);
    LinspaceSymmetric(-HALF_PI, HALF_PI, numRays, i);
    if i + 1 < numRays {
      LinspaceStep(-HALF_PI, HALF_PI, numRays, i);
      LinspaceIncreasing(-HALF_PI, HALF_PI, numRays, i, i + 1);
    }
  }

  /** `source + direction * ray_length`: the endpoint lies ray_length times
      the direction's length away from the source, so a unit direction puts
      it exactly ray_length away. */
  function Endpoint(source: Vec3, direction: Vec3, rayLength: real): (e: Vec3)
    ensures Sub(e, source) == Scale(rayLength, direction)
    ensures Dot(Sub(e, source), Sub(e, source)) == (rayLength * rayLength) * Dot(direction, direction)
    ensures Dot(direction, direction) == 1.0 ==> Dot(Sub(e, source), Sub(e, source)) == rayLength * rayLength
  {
    ScaledLength(rayLength, direction);
    Add(source, Scale(rayLength, direction))
  }

  /** Scaling a vector by k scales its squared length by k * k. */
  lemma ScaledLength(k: real, v: Vec3)
    ensures Dot(Scale(k, v), Scale(k, v)) == (k * k) * Dot(v, v)
  {
    assert (k * v.x) * (k * v.x) == (k * k) * (v.x * v.x);
    assert (k * v.y) * (k * v.y) == (k * k) * (v.y * v.y);
    assert (k * v.z) * (k * v.z) == (k * k) * (v.z * v.z);
  }

  /** `np.outer(1 - t, source) + np.outer(t, endpoint)` with
      `t = np.linspace(0, 1, num_points)`. */
  function RayTrajectory(source: Vec3, endpoint: Vec3, numPoints: nat): (traj: seq<Vec3>)
    ensures |traj| == numPoints
  {
    Trajectory(Linspace(0.0, 1.0, numPoints), source, endpoint)
  }

  /** A ray of the script runs in NUM_POINTS samples from the source to
      source + direction * RAY_LENGTH. Sample i is the point the fraction
      i / 999 of the way along that segment, inside the box its ends span. */
  lemma ScriptRayTrajectory(direction: Vec3)
    ensures var e := Endpoint(SOURCE, direction, RAY_LENGTH);
      var traj := RayTrajectory(SOURCE, e, NUM_POINTS);
      && |traj| == NUM_POINTS && traj[0] == SOURCE && traj[NUM_POINTS - 1] == e
      && Sub(traj[NUM_POINTS - 1], SOURCE) == Scale(RAY_LENGTH, direction)
      && (forall i :: 0 <= i < NUM_POINTS ==>
            && 0.0 <= (i as real) / 999.0 <= 1.0
            && traj[i] == Lerp(SOURCE, e, (i as real) / 999.0))
      && (forall i :: 0 <= i < NUM_POINTS ==>
            Between(traj[i].x, SOURCE.x, e.x) && Between(traj[i].y, SOURCE.y, e.y)
            && Between(traj[i].z, SOURCE.z, e.z))
  {
    LinearTrajectory(SOURCE, Endpoint(SOURCE, direction, RAY_LENGTH), NUM_POINTS);
  }

  // ---------------------------------------------------------------------------
  // The march

  /** A sample reaches the floor when the floor is defined under it and the
      sample is at or below it. A sample over NaN is skipped, never a hit. */
  predicate IsHit(p: Vec3, floor: FloorLookup) {
    match floor(p.y, p.x)
    case None => false
    case Some(d) => p.z <= d
  }

  /** The first index at or after `from` whose sample is a hit. */
  function FirstHit(traj: seq<Vec3>, floor: FloorLookup, from: nat): (r: Option<nat>)
    requires from <= |traj|
    ensures r.Some? ==> from <= r.value < |traj| && IsHit(traj[r.value], floor)
                        && forall j :: from <= j < r.value ==> !IsHit(traj[j], floor)
    ensures r.None? ==> forall j :: from <= j < |traj| ==> !IsHit(traj[j], floor)
    decreases |traj| - from
  {
    if from == |traj| then None
    else if IsHit(traj[from], floor) then Some(from)
    else FirstHit(traj, floor, from + 1)
  }

  /** What the march leaves behind for one ray: the path that is drawn and
      the intersection recorded, if any. */
  datatype MarchResult = MarchResult(path: seq<Vec3>, hit: Option<Vec3>)

  /** On a hit at i the drawn path is `trajectory[:i+1]` and the hit point is
      `trajectory[i]`; without one the whole ray is drawn. */
  function March(traj: seq<Vec3>, floor: FloorLookup): MarchResult {
    match FirstHit(traj, floor, 0)
    case Some(i) => MarchResult(traj[..i + 1], Some(traj[i]))
    case None => MarchResult(traj, None)
  }

  /** The forward scan with its NaN skip, its break on the first hit and its
      for-else for a ray that never reaches the floor. */
  method MarchRay(trajectory: seq<Vec3>, floor: FloorLookup)
    returns (path: seq<Vec3>, hit: Option<Vec3>)
    ensures hit.None? <==> forall j :: 0 <= j < |trajectory| ==> !IsHit(trajectory[j], floor)
    ensures hit.None? ==> path == trajectory
    ensures hit.Some? ==>
      && 0 < |path| <= |trajectory| && path == trajectory[..|path|]
      && hit.value == path[|path| - 1] && IsHit(hit.value, floor)
      && forall j :: 0 <= j < |path| - 1 ==> !IsHit(trajectory[j], floor)
    ensures MarchResult(path, hit) == March(trajectory, floor)
  {
    path, hit := [], None;
    var i := 0;
    while i < |trajectory|
      invariant 0 <= i <= |trajectory|
      invariant hit == None
      invariant FirstHit(trajectory, floor, 0) == FirstHit(trajectory, floor, i)
    {
      var point := trajectory[i];
      var bathyZ := floor(point.y, point.x);
      if bathyZ.None? {
        i := i + 1;
        continue;
      }
      if point.z <= bathyZ.value {
        path := trajectory[..i + 1];
        hit := Some(point);
        break;
      }
      i := i + 1;
    }
    if hit.None? {
      path := trajectory;
    }
  }

  /** Two trajectories whose samples are hits at the same positions stop at
      the same index. */
  lemma {:induction false} FirstHitSameHits(t1: seq<Vec3>, t2: seq<Vec3>, floor: FloorLookup, from: nat)
    requires |t1| == |t2| && from <= |t1|
    requires forall j :: from <= j < |t1| ==> IsHit(t1[j], floor) == IsHit(t2[j], floor)
    ensures FirstHit(t1, floor, from) == FirstHit(t2, floor, from)
    decreases |t1| - from
  {
    if from < |t1| && !IsHit(t1[from], floor) {
      FirstHitSameHits(t1, t2, floor, from + 1);
    }
  }

  /** A sample over undefined floor is never the hit whatever its depth:
      moving it vertically changes neither where the march stops nor whether
      it records an intersection. */
  lemma UndefinedFloorIgnored(traj: seq<Vec3>, floor: FloorLookup, i: nat, z: real)
    requires i < |traj| && floor(traj[i].y, traj[i].x).None?
    ensures FirstHit(traj[i := traj[i].(z := z)], floor, 0) == FirstHit(traj, floor, 0)
    ensures March(traj[i := traj[i].(z := z)], floor).hit.Some? == March(traj, floor).hit.Some?
    ensures FirstHit(traj, floor, 0) != Some(i)
  {
    var moved := traj[i := traj[i].(z := z)];
    FirstHitSameHits(moved, traj, floor, 0);
  }

  /** Over a flat floor at depth d, a ray that starts above d and ends at or
      below it records one intersection, and that point lies less than one
      sample step below d. */
  lemma FlatFloorHit(source: Vec3, endpoint: Vec3, n: nat, d: real, floor: FloorLookup)
    requires n >= 2 && endpoint.z <= d < source.z
    requires forall y, x :: floor(y, x) == Some(d)
    ensures var r := March(RayTrajectory(source, endpoint, n), floor);
      && r.hit.Some?
      && d + (endpoint.z - source.z) / ((n - 1) as real) < r.hit.value.z <= d
  {
    var traj := RayTrajectory(source, endpoint, n);
    RayEnds(source, endpoint, n);
    assert IsHit(traj[n - 1], floor);
    var i := FirstHit(traj, floor, 0).value;
    assert !IsHit(traj[0], floor);
    assert 0 < i;
    assert !IsHit(traj[i - 1], floor);
    assert traj[i - 1].z > d;
    RayDepthStep(source, endpoint, n, i - 1);
    assert March(traj, floor).hit == Some(traj[i]);
  }

  /** A floor at the same depth d everywhere. */
  function FlatFloor(d: real): FloorLookup {
    (y: real, x: real) => Some(d)
  }

  /** A vertical ray over a flat floor at d, from above d to at or below it,
      records its hit directly below its source, less than one sample step
      below d. */
  lemma VerticalRayHit(source: Vec3, endpoint: Vec3, n: nat, d: real)
    requires n >= 2 && endpoint.x == source.x && endpoint.y == source.y
    requires endpoint.z <= d < source.z
    ensures var r := March(RayTrajectory(source, endpoint, n), FlatFloor(d));
      && r.hit.Some?
      && r.hit.value.x == source.x && r.hit.value.y == source.y
      && d + (endpoint.z - source.z) / ((n - 1) as real) < r.hit.value.z <= d
  {
    var traj := RayTrajectory(source, endpoint, n);
    FlatFloorHit(source, endpoint, n, d, FlatFloor(d));
    var i := FirstHit(traj, FlatFloor(d), 0).value;
    var t := Linspace(0.0, 1.0, n)[i];
    assert traj[i] == Lerp(source, endpoint, t);
    assert Mix(source.x, source.x, t) == source.x;
    assert Mix(source.y, source.y, t) == source.y;
  }

  /** Consecutive samples of a ray descend by the same depth step. */
  lemma RayDepthStep(source: Vec3, endpoint: Vec3, n: nat, i: nat)
    requires i + 1 < n
    ensures RayTrajectory(source, endpoint, n)[i + 1].z
            == RayTrajectory(source, endpoint, n)[i].z + (endpoint.z - source.z) / ((n - 1) as real)
  {
    var traj := RayTrajectory(source, endpoint, n);
    TrajectoryStep(source, endpoint, n, i);
    DepthOfStep(traj[i + 1], traj[i], (n - 1) as real, source, endpoint);
  }

  lemma DepthOfStep(p: Vec3, q: Vec3, k: real, a: Vec3, b: Vec3)
    requires k > 0.0 && Sub(p, q) == Scale(1.0 / k, Sub(b, a))
    ensures p.z == q.z + (b.z - a.z) / k
  {
    assert Sub(p, q).z == Scale(1.0 / k, Sub(b, a)).z;
    ReciprocalTimes(b.z - a.z, k);
  }

  lemma RayEnds(source: Vec3, endpoint: Vec3, n: nat)
    requires n >= 2
    ensures RayTrajectory(source, endpoint, n)[0] == source
    ensures RayTrajectory(source, endpoint, n)[n - 1] == endpoint
  {
    LinearTrajectory(source, endpoint, n);
  }

  lemma ReciprocalTimes(a: real, k: real)
    requires k > 0.0
    ensures 1.0 / k * a == a / k
  {
  }

  // ---------------------------------------------------------------------------
  // The fan loop

  /** The sampled trajectory of the ray at fan angle theta. */
  function FanRay(source: Vec3, theta: real, direction: real -> Vec3,
                  rayLength: real, numPoints: nat): (traj: seq<Vec3>)
    ensures |traj| == numPoints
  {
    RayTrajectory(source, Endpoint(source, direction(theta), rayLength), numPoints)
  }

  /** The trajectory of every ray of the fan, in angle order. */
  function FanTrajectories(source: Vec3, angles: seq<real>, direction: real -> Vec3,
                           rayLength: real, numPoints: nat): (rays: seq<seq<Vec3>>)
    ensures |rays| == |angles|
  {
    seq(|angles|, k requires 0 <= k < |angles| =>
      FanRay(source, angles[k], direction, rayLength, numPoints))
  }

  /** The outcome of marching each ray in turn. */
  function MarchAll(rays: seq<seq<Vec3>>, floor: FloorLookup): (results: seq<MarchResult>)
    ensures |results| == |rays|
  {
    seq(|rays|, k requires 0 <= k < |rays| => March(rays[k], floor))
  }

  /** The `intersection_points` list after the first k outcomes have been
      considered in order, each hit appended if there is one. */
  function Collected(results: seq<MarchResult>, k: nat): (pts: seq<Vec3>)
    requires k <= |results|
    ensures |pts| <= k
  {
    if k == 0 then [] else Collected(results, k - 1) + Recorded(results[k - 1].hit)
  }

  /** Considering one more outcome appends its hit, if it has one. */
  lemma CollectedStep(results: seq<MarchResult>, k: nat, hit: Option<Vec3>)
    requires k < |results| && results[k].hit == hit
    ensures hit.Some? ==> Collected(results, k + 1) == Collected(results, k) + [hit.value]
    ensures hit.None? ==> Collected(results, k + 1) == Collected(results, k)
  {
  }

  /** Drawing one more ray keeps the drawn paths in step with the outcomes. */
  lemma PathsStep(paths: seq<seq<Vec3>>, path: seq<Vec3>, results: seq<MarchResult>, k: nat)
    requires k < |results| && |paths| == k && results[k].path == path
    requires forall j :: 0 <= j < k ==> paths[j] == results[j].path
    ensures forall j :: 0 <= j < k + 1 ==> (paths + [path])[j] == results[j].path
  {
  }

  /** What a ray adds to the intersection list: its hit, if it has one. */
  function Recorded(hit: Option<Vec3>): (pts: seq<Vec3>)
    ensures |pts| <= 1
  {
    match hit
    case Some(p) => [p]
    case None => []
  }

  /** The positions, below k, of the outcomes with a hit, in increasing order. */
  function HitIndices(results: seq<MarchResult>, k: nat): (ks: seq<nat>)
    requires k <= |results|
    ensures forall m :: 0 <= m < |ks| ==> ks[m] < k
  {
    if k == 0 then []
    else if results[k - 1].hit.Some? then HitIndices(results, k - 1) + [k - 1]
    else HitIndices(results, k - 1)
  }

  /** The m-th collected point is the hit at the m-th hit position. */
  lemma {:induction false} CollectedMatches(results: seq<MarchResult>, k: nat)
    requires k <= |results|
    ensures |Collected(results, k)| == |HitIndices(results, k)|
    ensures forall m :: 0 <= m < |HitIndices(results, k)| ==>
              results[HitIndices(results, k)[m]].hit == Some(Collected(results, k)[m])
  {
    if k > 0 {
      CollectedMatches(results, k - 1);
    }
  }

  /** The hit positions are strictly increasing. */
  lemma {:induction false} HitIndicesIncreasing(results: seq<MarchResult>, k: nat)
    requires k <= |results|
    ensures forall m, m' :: 0 <= m < m' < |HitIndices(results, k)| ==>
              HitIndices(results, k)[m] < HitIndices(results, k)[m']
  {
    if k > 0 {
      HitIndicesIncreasing(results, k - 1);
      if results[k - 1].hit.Some? {
        assert HitIndices(results, k) == HitIndices(results, k - 1) + [k - 1];
      }
    }
  }

  /** A position below k is listed exactly when its outcome has a hit. */
  lemma {:induction false} HitIndicesComplete(results: seq<MarchResult>, k: nat)
    requires k <= |results|
    ensures forall j :: 0 <= j < k ==> (j in HitIndices(results, k) <==> results[j].hit.Some?)
  {
    if k > 0 {
      HitIndicesComplete(results, k - 1);
      var ks0 := HitIndices(results, k - 1);
      if results[k - 1].hit.Some? {
        var ks := HitIndices(results, k);
        forall j | 0 <= j < k - 1 ensures j in ks <==> j in ks0 {
          assert ks == ks0 + [k - 1];
        }
      }
    }
  }

  /** The intersections of the whole fan. */
  function Intersections(rays: seq<seq<Vec3>>, floor: FloorLookup): (pts: seq<Vec3>)
    ensures |pts| <= |rays|
  {
    Collected(MarchAll(rays, floor), |rays|)
  }

  /** The indices of the rays that reach the floor. */
  function HitRays(rays: seq<seq<Vec3>>, floor: FloorLookup): (ks: seq<nat>)
    ensures forall m :: 0 <= m < |ks| ==> ks[m] < |rays|
  {
    HitIndices(MarchAll(rays, floor), |rays|)
  }

  /** The recorded intersections are in ray order: the m-th one is the hit of
      the m-th ray that reaches the floor, those rays come in increasing
      order, and a ray is among them exactly when it has a hit. */
  lemma IntersectionsInRayOrder(rays: seq<seq<Vec3>>, floor: FloorLookup)
    ensures |Intersections(rays, floor)| == |HitRays(rays, floor)|
    ensures forall m :: 0 <= m < |HitRays(rays, floor)| ==>
              March(rays[HitRays(rays, floor)[m]], floor).hit == Some(Intersections(rays, floor)[m])
    ensures forall m, m' :: 0 <= m < m' < |HitRays(rays, floor)| ==>
              HitRays(rays, floor)[m] < HitRays(rays, floor)[m']
    ensures forall k :: 0 <= k < |rays| ==> (k in HitRays(rays, floor) <==> March(rays[k], floor).hit.Some?)
  {
    var results := MarchAll(rays, floor);
    CollectedMatches(results, |rays|);
    HitIndicesIncreasing(results, |rays|);
    HitIndicesComplete(results, |rays|);
  }

  /** The script's own fan: 100 rays from the source, each of 1000 samples
      starting at the source, and at most one intersection per ray. */
  lemma ScriptFan(direction: real -> Vec3, floor: FloorLookup)
    ensures var rays := FanTrajectories(SOURCE, FanAngles(NUM_RAYS), direction, RAY_LENGTH, NUM_POINTS);
      && |rays| == NUM_RAYS
      && (forall k :: 0 <= k < NUM_RAYS ==> |rays[k]| == NUM_POINTS && rays[k][0] == SOURCE)
      && |Intersections(rays, floor)| <= NUM_RAYS
  {
    var angles := FanAngles(NUM_RAYS);
    var rays := FanTrajectories(SOURCE, angles, direction, RAY_LENGTH, NUM_POINTS);
    forall k | 0 <= k < NUM_RAYS
      ensures |rays[k]| == NUM_POINTS && rays[k][0] == SOURCE
    {
      RayEnds(SOURCE, Endpoint(SOURCE, direction(angles[k]), RAY_LENGTH), NUM_POINTS);
    }
  }

  /** One pass of the script's loop body, for the k-th fan angle: compute
      the endpoint, sample the ray and march it. */
  method TraceRay(source: Vec3, angles: seq<real>, k: nat, direction: real -> Vec3,
                  rayLength: real, numPoints: nat, floor: FloorLookup)
    returns (path: seq<Vec3>, hit: Option<Vec3>)
    requires k < |angles|
    ensures MarchResult(path, hit)
            == MarchAll(FanTrajectories(source, angles, direction, rayLength, numPoints), floor)[k]
  {
    var theta := angles[k];
    var endpoint := Endpoint(source, direction(theta), rayLength);
    var trajectory := RayTrajectory(source, endpoint, numPoints);
    path, hit := MarchRay(trajectory, floor);
  }

  /** The script's loop body for the k-th angle, with the lists it extends:
      the ray's drawn path is appended to the paths and its hit, if any, to
      the intersections. */
  method AppendRay(source: Vec3, angles: seq<real>, k: nat, direction: real -> Vec3,
                   rayLength: real, numPoints: nat, floor: FloorLookup,
                   ghost results: seq<MarchResult>, paths: seq<seq<Vec3>>, intersections: seq<Vec3>)
    returns (paths': seq<seq<Vec3>>, intersections': seq<Vec3>)
    requires k < |angles|
    requires results == MarchAll(FanTrajectories(source, angles, direction, rayLength, numPoints), floor)
    requires |paths| == k && forall j :: 0 <= j < k ==> paths[j] == results[j].path
    requires intersections == Collected(results, k)
    ensures |paths'| == k + 1 && forall j :: 0 <= j < k + 1 ==> paths'[j] == results[j].path
    ensures intersections' == Collected(results, k + 1)
  {
    var path, hit := TraceRay(source, angles, k, direction, rayLength, numPoints, floor);
    CollectedStep(results, k, hit);
    PathsStep(paths, path, results, k);
    paths' := paths + [path];
    intersections' := intersections;
    if hit.Some? {
      intersections' := intersections + [hit.value];
    }
  }

  /** The script's loop: for each fan angle trace its ray, draw what it
      keeps and append its intersection. */
  method TraceFan(source: Vec3, angles: seq<real>, direction: real -> Vec3,
                  rayLength: real, numPoints: nat, floor: FloorLookup)
    returns (paths: seq<seq<Vec3>>, intersections: seq<Vec3>)
    ensures |paths| == |angles|
    ensures forall k :: 0 <= k < |angles| ==>
              paths[k] == March(FanTrajectories(source, angles, direction, rayLength, numPoints)[k], floor).path
    ensures intersections == Intersections(FanTrajectories(source, angles, direction, rayLength, numPoints), floor)
  {
    ghost var results := MarchAll(FanTrajectories(source, angles, direction, rayLength, numPoints), floor);
    paths, intersections := [], [];
    for k := 0 to |angles|
      invariant |paths| == k
      invariant forall j :: 0 <= j < k ==> paths[j] == results[j].path
      invariant intersections == Collected(results, k)
    {
      paths, intersections := AppendRay(source, angles, k, direction, rayLength, numPoints, floor,
                                        results, paths, intersections);
    }
  }

}
