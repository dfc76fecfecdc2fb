# sonar-sim: ray marching against bathymetry and ocean sound-speed profiles

sonar-sim is a set of stand-alone plotting scripts for underwater acoustics.
This project models the computation in five of them over Dafny `real`, as an
idealisation of their floating-point arithmetic:

- `tests/raytrace-bathymetry.py`: it normalises the survey coordinates, builds
  the source's local frame (heading, lateral axis, down), fans rays out over
  180 degrees and samples each ray as a straight trajectory. It then marches
  each trajectory forward to the first sample that is at or below the
  interpolated seafloor. Samples over undefined floor (NaN) are skipped. On a
  hit the drawn path is truncated there and one intersection is recorded; a ray
  with no hit is drawn whole. The march and the fan loop are methods with loop
  invariants, each proved equal to a specification function. Properties of the
  loop are proved about those functions: first hit, skip rule, truncation, at
  most one intersection per ray, and intersections in ray order.
- `tests/sound-speed-2d.py` and `tests/sound-speed-3d.py`: the piecewise-linear
  temperature and salinity profiles (breakpoints at 100 m and 1000 m), the
  Mackenzie (1981) sound-speed polynomial, the platform position and the
  sloped seafloor (the 3D script tiles it across the y axis). The 3D script
  adds the linear x/y gradient of the field, its `[::step]` downsampling, and
  the voxel edge counts.
- `tests/sound-speed-profile-2d.py`: the polynomial for a fixed water mass
  (10 deg C, 35 PSU by default), its grid and its centre column, as the
  script computes them. Beside them the model sets the corrected function
  and its grid (see "## Findings").
- `tests/raytrace-source-to-target.py`: the sample parameter `linspace(0, 1,
  100)` and the source-to-target trajectory.

Modules:

- `Numerics` models the numpy idioms: `linspace`, `min`/`max`, `int()`, `//`,
  `a[::step]`, `C[:, j]` and `np.meshgrid`.
- `Geometry` models 3-vectors, the cross product and the `np.outer`
  trajectory.
- `Ocean` holds the profiles, the polynomial and the seafloor line, which the
  sound-speed scripts share.
- One module per script: `RaytraceBathymetry`, `SoundSpeed2D`, `SoundSpeed3D`,
  `SoundSpeedProfile2D`, `RaytraceSourceToTarget`.

External pieces become parameters:

- The bathymetry interpolator is an opaque `(y, x) -> Option<real>` lookup.
  `None` stands for a NaN result, whether it comes from outside the samples'
  convex hull or from the smoothing spreading it inside the grid.
- The ray direction, which needs sines, cosines and a norm, is an opaque
  function of the fan angle.

The polynomial is written as the sum of three groups: its temperature terms,
its two salinity terms and its three depth terms. These are the same nine
terms with the same coefficients as in the scripts.

Three facts about the local frame and the fan:

- The lateral axis is not normalised. For the script's heading it has squared
  length 2.5 (`ScriptLateral`).
- A heading parallel to down (or zero) is not guarded; the lateral axis is
  then zero (`LateralVanishes`).
- The spread is the fixed 180 degrees of tests/raytrace-bathymetry.py:54
  (`FanSpread`).

## Model

| member | source | states |
|---|---|---|
| Numerics.Linspace | tests/raytrace-source-to-target.py:11 | `num` samples, the first is start and (for num >= 2) the last is stop |
| Numerics.LinspaceStep | tests/raytrace-source-to-target.py:11 | consecutive samples differ by the constant (stop - start) / (num - 1) |
| Numerics.LinspaceIncreasing | tests/raytrace-source-to-target.py:11 | for start < stop the samples rise strictly |
| Numerics.LinspaceDecreasing | tests/sound-speed-2d.py:12 | for stop < start (the z axis from 4500 to 0) the samples fall strictly |
| Numerics.LinspaceBetween | tests/raytrace-bathymetry.py:102 | every sample lies between start and stop |
| Numerics.LinspaceSymmetric | tests/raytrace-bathymetry.py:54 | samples i and num-1-i add up to start + stop (the fan is symmetric about straight down) |
| Numerics.SeqMin | tests/raytrace-bathymetry.py:27-29 | `v.min()` is an element of v and no element is smaller |
| Numerics.SeqMax | tests/raytrace-bathymetry.py:27-29 | `v.max()` is an element of v and no element is larger |
| Numerics.LinspaceMax | tests/sound-speed-3d.py:63-64 | the maximum of a linspace axis is the larger of its two ends |
| Numerics.Trunc | tests/sound-speed-2d.py:18 | `int()` truncates toward zero: n <= r < n + 1 for r >= 0, n - 1 < r <= n for r < 0 |
| Numerics.FloorDiv | tests/sound-speed-profile-2d.py:62 | `n // d` is the q with q d <= n < (q + 1) d |
| Numerics.Downsample | tests/sound-speed-3d.py:77 | `a[::step]` keeps entry i*step as its i-th entry, is empty only for an empty a, and its last kept index is the last multiple of step below len(a) |
| Numerics.DownsampleLength | tests/sound-speed-3d.py:77 | `a[::step]` has ceil(len(a) / step) entries |
| Numerics.Column | tests/sound-speed-2d.py:91 | `C[:, j]` has one entry per row |
| Numerics.MeshGrid | tests/sound-speed-profile-2d.py:10-29 | `f(X, Z)` over `np.meshgrid(x, z)` has one row per z sample and one column per x sample, the cell in row r and column k being f(x[k], z[r]) |
| Geometry.Cross | tests/raytrace-bathymetry.py:51 | `np.cross(a, b)`; no contract of its own, CrossOrthogonal and LateralFrame state its properties |
| Geometry.CrossOrthogonal | tests/raytrace-bathymetry.py:51 | the cross product is orthogonal to both operands |
| Geometry.Trajectory | tests/raytrace-source-to-target.py:12 | `np.outer(1 - t, a) + np.outer(t, b)` has one row per sample of t |
| Geometry.LerpConvex | tests/raytrace-source-to-target.py:12 | for t in [0, 1] each coordinate of a row lies between those of a and b |
| Geometry.LinearTrajectory | tests/raytrace-source-to-target.py:11-12 | sampled at linspace(0, 1, n), the trajectory has n rows, starts at a and ends at b; row i is the point (1 - f) a + f b with f = i / (n - 1) in [0, 1], so on the segment, and inside the box a and b span |
| Geometry.TrajectoryStep | tests/raytrace-source-to-target.py:11-12 | consecutive rows differ by (b - a) / (n - 1) |
| Geometry.LerpStep | tests/raytrace-bathymetry.py:103 | advancing the parameter by h moves the point by h (b - a) |
| RaytraceBathymetry.Normalize | tests/raytrace-bathymetry.py:27-28 | no result exactly when v is empty or constant (min == max); otherwise one value per sample |
| RaytraceBathymetry.Rescale | tests/raytrace-bathymetry.py:27-29 | each value is recovered as lo + r (hi - lo); values in [lo, hi] map into [0, 1], lo to 0 and hi to 1, and order is kept |
| RaytraceBathymetry.Fraction | tests/raytrace-bathymetry.py:27-29 | (a - lo) / (hi - lo) inverts lo + f (hi - lo), lies in [0, 1] for a in [lo, hi], 0 at lo and 1 at hi |
| RaytraceBathymetry.FractionMonotone | tests/raytrace-bathymetry.py:27-29 | the normalising map is monotone |
| RaytraceBathymetry.NormalizeRange | tests/raytrace-bathymetry.py:27-28 | a normalised coordinate lies in [0, 1], with the minimum at 0, the maximum at 1 and order kept |
| RaytraceBathymetry.NormalizeInverse | tests/raytrace-bathymetry.py:27-28 | the samples are recovered from the normalised values as min + n (max - min) |
| RaytraceBathymetry.RescaleInverse | tests/raytrace-bathymetry.py:27-29 | the rescaled values undo to the originals |
| RaytraceBathymetry.NormalizeDepth | tests/raytrace-bathymetry.py:29-30 | the flipped coordinate (the normalisation negated by `Negate`, `z_norm * -1`) exists exactly when z can be normalised, one value per sample |
| RaytraceBathymetry.NormalizeDepthRange | tests/raytrace-bathymetry.py:29-30 | the flipped coordinate lies in [-1, 0], the minimum z at 0, the maximum at -1, order reversed |
| RaytraceBathymetry.NegatedRange | tests/raytrace-bathymetry.py:30 | negating a [0, 1] normalisation gives [-1, 0] with the ends swapped in sign and order reversed |
| RaytraceBathymetry.Lateral | tests/raytrace-bathymetry.py:51 | `np.cross(heading_xy, down)`; no contract of its own, its properties are LateralFrame, LateralVanishes and ScriptLateral |
| RaytraceBathymetry.LateralFrame | tests/raytrace-bathymetry.py:50-51 | for a horizontal heading (a, b, 0) the lateral axis is (-b, a, 0), orthogonal to the heading and to down |
| RaytraceBathymetry.LateralVanishes | tests/raytrace-bathymetry.py:47-51 | for any heading, the lateral axis is zero exactly when the heading has no horizontal extent (it is zero or parallel to down) |
| RaytraceBathymetry.ScriptLateral | tests/raytrace-bathymetry.py:47-51 | heading 0 gives lateral (-0.5, 1.5, 0), of squared length 2.5 (not unit) |
| RaytraceBathymetry.FanAngles | tests/raytrace-bathymetry.py:54 | one angle per ray |
| RaytraceBathymetry.FanSpread | tests/raytrace-bathymetry.py:54 | the angles run from -pi/2 to pi/2, strictly increasing, evenly spaced by pi / (num_rays - 1) and symmetric |
| RaytraceBathymetry.Endpoint | tests/raytrace-bathymetry.py:99 | the endpoint lies ray_length times direction away from the source; its squared distance from the source is ray_length^2 times the direction's squared length, so exactly ray_length^2 for a unit direction |
| RaytraceBathymetry.RayTrajectory | tests/raytrace-bathymetry.py:102-103 | one sample per trajectory point |
| RaytraceBathymetry.ScriptRayTrajectory | tests/raytrace-bathymetry.py:99-103 | a script ray has 1000 samples from the source to source + direction * ray_length; sample i is the point the fraction i / 999 (in [0, 1]) along that segment, inside the box its ends span |
| RaytraceBathymetry.RayEnds | tests/raytrace-bathymetry.py:102-103 | sample 0 is the source and the last sample the endpoint |
| RaytraceBathymetry.RayDepthStep | tests/raytrace-bathymetry.py:102-103 | consecutive samples change depth by the same step (endpoint.z - source.z) / (n - 1) |
| RaytraceBathymetry.IsHit | tests/raytrace-bathymetry.py:107-110 | a sample is a hit when the floor under it is defined and the sample is at or below it; no contract of its own, used by FirstHit, MarchRay and UndefinedFloorIgnored |
| RaytraceBathymetry.FirstHit | tests/raytrace-bathymetry.py:105-114 | the first index at which the floor is defined and the sample is at or below it; every earlier index is not a hit; none when no index is |
| RaytraceBathymetry.March | tests/raytrace-bathymetry.py:110-117 | the prefix up to the first hit and that hit, or the whole ray and no hit; no contract of its own, MarchRay is proved equal to it and FlatFloorHit, UndefinedFloorIgnored and IntersectionsInRayOrder state its properties |
| RaytraceBathymetry.MarchRay | tests/raytrace-bathymetry.py:105-117 | the loop records a hit iff some sample is a hit; on a hit the path is the prefix ending at the hit, which is its last point, and no earlier sample is a hit; with no hit the path is the whole trajectory; the outcome equals March |
| RaytraceBathymetry.FirstHitSameHits | tests/raytrace-bathymetry.py:105-110 | the stopping index depends only on which samples are hits |
| RaytraceBathymetry.UndefinedFloorIgnored | tests/raytrace-bathymetry.py:107-109 | a sample over NaN floor is never the hit, and moving it vertically changes neither where the march stops nor whether it records a hit |
| RaytraceBathymetry.FlatFloorHit | tests/raytrace-bathymetry.py:102-114 | over a flat floor at d, a ray from above d to at or below d records a hit no more than one sample step below d |
| RaytraceBathymetry.VerticalRayHit | tests/raytrace-bathymetry.py:102-114 | a vertical ray crossing a flat floor records its hit directly below its source, within one sample step below the floor |
| RaytraceBathymetry.FanRay | tests/raytrace-bathymetry.py:92-103 | the ray at each angle has num_points samples |
| RaytraceBathymetry.FanTrajectories | tests/raytrace-bathymetry.py:92-103 | one trajectory per fan angle |
| RaytraceBathymetry.MarchAll | tests/raytrace-bathymetry.py:92-117 | one march outcome per ray |
| RaytraceBathymetry.Recorded | tests/raytrace-bathymetry.py:113 | a ray contributes at most one intersection |
| RaytraceBathymetry.Collected | tests/raytrace-bathymetry.py:89-114 | after k rays the list holds at most k intersections |
| RaytraceBathymetry.PathsStep | tests/raytrace-bathymetry.py:112-117 | appending a ray's drawn path keeps the drawn paths equal to the march outcomes |
| RaytraceBathymetry.HitIndices | tests/raytrace-bathymetry.py:92-114 | the indices of rays with a hit are below the ray count |
| RaytraceBathymetry.CollectedMatches | tests/raytrace-bathymetry.py:89-114 | the m-th collected point is the hit of the m-th ray with a hit |
| RaytraceBathymetry.HitIndicesIncreasing | tests/raytrace-bathymetry.py:92-114 | those ray indices are strictly increasing |
| RaytraceBathymetry.HitIndicesComplete | tests/raytrace-bathymetry.py:92-114 | a ray index is listed exactly when that ray has a hit |
| RaytraceBathymetry.Intersections | tests/raytrace-bathymetry.py:89-114 | the fan records at most num_rays intersections |
| RaytraceBathymetry.HitRays | tests/raytrace-bathymetry.py:92-114 | the hit rays are valid ray indices |
| RaytraceBathymetry.IntersectionsInRayOrder | tests/raytrace-bathymetry.py:89-117 | the intersections are exactly the hits of the rays that reach the floor, in increasing ray order |
| RaytraceBathymetry.ScriptFan | tests/raytrace-bathymetry.py:12-14 | with the angles of line 54 and the rays of lines 96-103, the script's fan has 100 rays, each of 1000 samples starting at the source, and records at most 100 intersections |
| RaytraceBathymetry.TraceRay | tests/raytrace-bathymetry.py:92-117 | one loop iteration (endpoint, trajectory, march) yields the k-th ray's march outcome |
| RaytraceBathymetry.AppendRay | tests/raytrace-bathymetry.py:92-117 | one iteration extends the drawn paths by the k-th path and the intersections by the k-th hit, if any |
| RaytraceBathymetry.TraceFan | tests/raytrace-bathymetry.py:89-117 | the loop draws for each ray its march path and leaves exactly the fan's intersections, in ray order |
| Ocean.Temperature | tests/sound-speed-2d.py:21-30 | the temperature stays within [2, 20] deg C |
| Ocean.Salinity | tests/sound-speed-2d.py:33-42 | the salinity stays within [35, 35.5] PSU |
| Ocean.ProfilesAreClampedRamps | tests/sound-speed-2d.py:21-42 | both profiles are linear ramps of the depth clamped to [100, 1000], hence continuous, with the breakpoint values 20/2 and 35/35.5 |
| Ocean.SalinityFollowsTemperature | tests/sound-speed-2d.py:21-42 | salinity is the affine function 35 + (20 - T) / 36 of temperature |
| Ocean.TemperatureNonIncreasing | tests/sound-speed-2d.py:21-30 | temperature never rises with depth, and falls by at most 1 deg C per 50 m |
| Ocean.SalinityNonDecreasing | tests/sound-speed-2d.py:33-42 | salinity never falls with depth, and rises by at most 1 PSU per 1800 m |
| Ocean.Mackenzie | tests/sound-speed-2d.py:48-58 | the nine-term polynomial (as its temperature, salinity and depth groups); no contract of its own, its properties are MackenzieSalinityTerms, DepthDifference and MackenzieDepthIncreasing |
| Ocean.MackenzieSalinityTerms | tests/sound-speed-2d.py:48-58 | salinity adds (S - 35)(1.340 - 0.01025 T) to the speed at 35 PSU, which vanishes (for T < 130) exactly when S = 35 |
| Ocean.DepthDifference | tests/sound-speed-2d.py:54-57 | the speed difference between two depths factors as (z2 - z1) times a slope polynomial |
| Ocean.DepthSlopePositive | tests/sound-speed-2d.py:54-57 | that slope is positive for 0 to 20 deg C and depths within 4500 m |
| Ocean.MackenzieDepthIncreasing | tests/sound-speed-2d.py:48-58 | for a fixed water mass of 0 to 20 deg C the speed rises strictly with z over [-4500, 4500] |
| Ocean.Seafloor | tests/sound-speed-2d.py:66 | one depth per x sample, starting at depth |
| Ocean.SeafloorSlope | tests/sound-speed-2d.py:66 | the floor's depth difference is 0.02 times the x difference |
| Ocean.SeafloorDescends | tests/sound-speed-2d.py:66 | over sorted x the floor is at least depth and never rises |
| Ocean.LinspaceSeafloor | tests/sound-speed-2d.py:66 | over linspace(0, extent, num) the floor ends at depth + 0.02 extent, is at least depth and never rises |
| SoundSpeed2D.XAxis | tests/sound-speed-2d.py:11 | `np.linspace(0, horiz, horiz)`; no contract of its own, PlatformProfile and ScriptSeafloor state what the script draws over it |
| SoundSpeed2D.ZAxis | tests/sound-speed-2d.py:12 | `np.linspace(gradient_extent, 0, gradient_extent)`; no contract of its own, PlatformProfile states the column drawn over it |
| SoundSpeed2D.PlatformPosition | tests/sound-speed-2d.py:16-18 | `int(horiz * p)`; no contract of its own, PlatformColumn states its range, truncation bracket and script value |
| SoundSpeed2D.PlatformColumn | tests/sound-speed-2d.py:16-18 | a fraction in [0, 1) gives a valid column of the horiz-wide grid, within one of horiz * p; 0.5 gives 1000 |
| SoundSpeed2D.SoundSpeedProfile | tests/sound-speed-2d.py:45-59 | the polynomial of (T(z), S(z), z); no contract of its own, SoundSpeedIgnoresX, SurfaceLayer, DeepLayer and SpeedRisesWithDepthOutsideThermocline state its properties |
| SoundSpeed2D.SoundSpeedIgnoresX | tests/sound-speed-2d.py:45-59 | the speed does not depend on x |
| SoundSpeed2D.SurfaceLayer | tests/sound-speed-2d.py:45-59 | down to 100 m the salinity terms vanish and the speed is that of 20 deg C water |
| SoundSpeed2D.DeepLayer | tests/sound-speed-2d.py:45-59 | below 1000 m the speed is that of 2 deg C, 35.5 PSU water |
| SoundSpeed2D.SpeedRisesWithDepthOutsideThermocline | tests/sound-speed-2d.py:45-59 | within the mixed layer and within the deep layer the speed rises strictly with depth |
| SoundSpeed2D.SpeedGrid | tests/sound-speed-2d.py:62 | `C` is `MeshGrid` of this script's profile; no contract of its own, the cells are stated by ColumnIsProfile and PlatformProfile |
| SoundSpeed2D.ColumnIsProfile | tests/sound-speed-2d.py:91 | any column of C is the depth profile at the z samples, the same for every column |
| SoundSpeed2D.PlatformProfile | tests/sound-speed-2d.py:91 | the drawn column 1000 has 4500 entries, equals column 0 and starts with the speed at 4500 m |
| SoundSpeed2D.ScriptSeafloor | tests/sound-speed-2d.py:66 | the script's floor runs from 4000 m to 4040 m, never rising |
| SoundSpeed3D.XAxis | tests/sound-speed-3d.py:11 | `np.linspace(0, fetch, fetch)`; no contract of its own, ScriptVoxelShape and ScriptVoxelEdges state its sample count and edges |
| SoundSpeed3D.YAxis | tests/sound-speed-3d.py:12 | `np.linspace(fetch, 0, fetch)`; no contract of its own, ScriptVoxelShape and ScriptVoxelEdges state its sample count and edges |
| SoundSpeed3D.ZAxis | tests/sound-speed-3d.py:13 | `np.linspace(depth, 0, depth)`; no contract of its own, ScriptVoxelShape and ScriptVoxelEdges state its sample count and edges |
| SoundSpeed3D.PlatformPosition | tests/sound-speed-3d.py:17-21 | every component of p scaled by fetch; no contract of its own, PlatformInsideFetch states its range and script value |
| SoundSpeed3D.PlatformInsideFetch | tests/sound-speed-3d.py:17-21 | a platform in the unit cube lands in [0, fetch] on all three axes, depth included; the script's gives (25, 50, 75) |
| SoundSpeed3D.SoundSpeedField | tests/sound-speed-3d.py:48-64 | no finite speed exactly when a maximum is zero |
| SoundSpeed3D.HorizontalGradient | tests/sound-speed-3d.py:63-64 | for x, y in [0, max] the speed is finite and the two linear terms add between 0 and 0.2 |
| SoundSpeed3D.GradientMonotone | tests/sound-speed-3d.py:63-64 | the speed never falls as x or y grows |
| SoundSpeed3D.FieldGrid | tests/sound-speed-3d.py:14-69 | `C` is an |x| by |y| by |z| box |
| SoundSpeed3D.FieldGridBounds | tests/sound-speed-3d.py:11-12 | over the script's x and y axes every cell of the field (without the sinusoidal term) is finite and within 0.2 of the depth profile |
| SoundSpeed3D.Downsample3 | tests/sound-speed-3d.py:77 | `C[::step, ::step, ::step]`; no contract of its own, Downsample3Shape and Downsample3Cells state its shape and cells |
| SoundSpeed3D.Downsample3Shape | tests/sound-speed-3d.py:77 | `C[::step, ::step, ::step]` of an n by m by l box is a ceil(n/step) by ceil(m/step) by ceil(l/step) box |
| SoundSpeed3D.Downsample3Cells | tests/sound-speed-3d.py:77 | voxel (i, j, k) is cell (i step, j step, k step) of the grid |
| SoundSpeed3D.VoxelEdges | tests/sound-speed-3d.py:80-82 | one more edge than cells, from the axis' first to its last sample |
| SoundSpeed3D.Cv | tests/sound-speed-3d.py:76-77 | the script's downsampled field; no contract of its own, ScriptVoxelShape and ScriptVoxelEdges state its shape and edges |
| SoundSpeed3D.ScriptVoxelShape | tests/sound-speed-3d.py:76-77 | the script's 100 by 100 by 3500 grid becomes 3 by 3 by 88 voxels |
| SoundSpeed3D.ScriptVoxelEdges | tests/sound-speed-3d.py:80-82 | 4, 4 and 89 edges, ending at 100, 0 and 0 |
| SoundSpeed3D.Tile | tests/sound-speed-3d.py:95 | one row per seafloor sample |
| SoundSpeed3D.FloorTile | tests/sound-speed-3d.py:94-95 | the seafloor over `x_surf` tiled across M columns; no contract of its own, TiledSeafloor states its properties |
| SoundSpeed3D.TiledSeafloor | tests/sound-speed-3d.py:94-95 | the tiled floor is N by M, equal across each row, at least depth, never rising along x, and ends at depth + 0.02 fetch |
| SoundSpeedProfile2D.XAxis | tests/sound-speed-profile-2d.py:6 | `np.linspace(0, 2000, 2000)`; no contract of its own, CenterProfile states its centre index |
| SoundSpeedProfile2D.ZAxis | tests/sound-speed-profile-2d.py:7 | `np.linspace(-2000, 0, 2000)`; no contract of its own, CenterProfile and CorrectedCenterProfile state the column drawn over it |
| SoundSpeedProfile2D.SoundSpeedProfile | tests/sound-speed-profile-2d.py:13-26 | the function as written, the polynomial on the signed z with defaults T = 10, S = 35; no contract of its own, DefaultSalinity, SurfaceValue, AsWrittenSlowsWithDepth and CenterProfile state its properties |
| SoundSpeedProfile2D.SoundSpeedAtDepth | tests/sound-speed-profile-2d.py:13-26 | the corrected function, the polynomial on the positive depth -z; no contract of its own, CorrectedSpeedsUpWithDepth and CorrectedCenterProfile state its properties |
| SoundSpeedProfile2D.DefaultSalinity | tests/sound-speed-profile-2d.py:13-25 | at the default 35 PSU the speed is the temperature and depth terms alone; other salinities add (S - 35)(1.340 - 0.01025 T); x is not used |
| SoundSpeedProfile2D.SurfaceValue | tests/sound-speed-profile-2d.py:13-25 | at z = 0 with the defaults the speed is 1489.8034 |
| SoundSpeedProfile2D.AsWrittenSlowsWithDepth | tests/sound-speed-profile-2d.py:14-24 | as written, speed falls strictly as z goes down from the surface |
| SoundSpeedProfile2D.AsWrittenCounterexample | tests/sound-speed-profile-2d.py:14-24 | as written, the speed at z = -1000 is below that at the surface |
| SoundSpeedProfile2D.CorrectedSpeedsUpWithDepth | tests/sound-speed-profile-2d.py:14-24 | evaluated on the positive depth, the speed rises strictly with depth and agrees at the surface |
| SoundSpeedProfile2D.ProfileGrid | tests/sound-speed-profile-2d.py:29 | `C` is `MeshGrid` of the function as written; no contract of its own, its centre column is stated by CenterProfile |
| SoundSpeedProfile2D.CenterIndex | tests/sound-speed-profile-2d.py:62 | `len(x) // 2` is a valid index of a non-empty axis, at its middle |
| SoundSpeedProfile2D.CenterProfile | tests/sound-speed-profile-2d.py:62-63 | the plotted column 1000 of the as-written grid has 2000 entries, each the polynomial at its signed z, rising strictly towards the surface (the bottom sample is the slowest) |
| SoundSpeedProfile2D.CorrectedProfileGrid | tests/sound-speed-profile-2d.py:10-29 | `MeshGrid` of the corrected function; no contract of its own, its centre column is stated by CorrectedCenterProfile |
| SoundSpeedProfile2D.CorrectedCenterProfile | tests/sound-speed-profile-2d.py:14-63 | in the corrected grid the same column falls strictly towards the surface (the bottom sample is the fastest) |
| RaytraceSourceToTarget.SampleParameter | tests/raytrace-source-to-target.py:11 | `np.linspace(0, 1, num_points)`; no contract of its own, SampleFractions states its values |
| RaytraceSourceToTarget.RayPath | tests/raytrace-source-to-target.py:12 | `np.outer(1 - t, source) + np.outer(t, target)`; no contract of its own, PathEnds and PathStep state its properties |
| RaytraceSourceToTarget.SampleFractions | tests/raytrace-source-to-target.py:10-11 | t has 100 entries from 0 to 1, strictly increasing in steps of 1/99 |
| RaytraceSourceToTarget.PathEnds | tests/raytrace-source-to-target.py:12 | the path has 100 points from source to target; point i is the point the fraction i / 99 along the segment, inside the box they span |
| RaytraceSourceToTarget.PathStep | tests/raytrace-source-to-target.py:11-12 | consecutive points differ by (target - source) / 99 |

## Left out

- Plotting (quiver, plot, scatter, surfaces, voxels, contours, colour bars, show). It is rendering only.
- `np.loadtxt` and the hard-coded file path (tests/raytrace-bathymetry.py:18-24). This is file I/O.
- `griddata`, `gaussian_filter` and `RegularGridInterpolator` (tests/raytrace-bathymetry.py:33-40, 82-87). They are library numerics, so the floor lookup is an opaque function returning `None` where the interpolator returns NaN.
- tests/visualize-bathymetry.py is not part of this model. It only loads, interpolates, smooths and plots.
- tests/ray-fan.py is not part of this model; its trajectory logic is the same as the bathymetry script's.
- The ray direction (tests/raytrace-bathymetry.py:94-98) uses sin, cos and a square-root norm. It is a parameter of the fan loop.
- The heading vector's `cos + .5`, `sin + .5` (tests/raytrace-bathymetry.py:47) is taken as the constant for the script's heading of 0 degrees.
- The sinusoidal perturbation of the 3D field (tests/sound-speed-3d.py:65) needs sin.
- IEEE rounding is not modelled; arithmetic is exact over `real`.
- NaN is modelled only where the scripts produce it: normalising a constant coordinate (0 / 0) and a zero `x.max()` or `y.max()` give `None`.
- Numerics.SeqMin: requires a non-empty vector, because numpy's `min` raises on an empty array.
- Numerics.SeqMax: requires a non-empty vector, because numpy's `max` raises on an empty array.
- Ocean.Seafloor: requires a non-empty x axis, because `x[0]` raises on an empty array.
- SoundSpeed3D.FieldGrid: requires non-empty axes, because `x.max()` and `y.max()` raise on an empty array.
- SoundSpeed3D.VoxelEdges: requires a non-empty axis, because `x[0]` and `x[-1]` raise on an empty array.
- SoundSpeed3D.FieldGridBounds: is stated for any linspace x and y axes of the script's form rather than for the concrete 100-sample axes of the script.
- SoundSpeed2D.SpeedRisesWithDepthOutsideThermocline: does not cover the thermocline (100 to 1000 m), where falling temperature and rising depth pull the speed in opposite directions.
- The meshgrids are modelled as nested sequences indexed in the scripts' order; the `Z` and `Y` arrays themselves are not separate values.

## Findings

| source | as written | input that shows it | evidently intended | confidence | as-written member | corrected member |
|---|---|---|---|---|---|---|
| tests/sound-speed-profile-2d.py:14-24 | `z_pos = -z` is computed but the polynomial uses the signed `z`, so below the surface the z and z^3 terms change sign | z = -1000 (1000 m down) with T = 10, S = 35 gives a lower speed than z = 0 | evaluate the polynomial on the positive depth `z_pos`, so speed rises with depth | high (not executed) | SoundSpeedProfile2D.AsWrittenCounterexample | SoundSpeedProfile2D.CorrectedSpeedsUpWithDepth |
