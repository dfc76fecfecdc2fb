/**
 * `tests/raytrace-source-to-target.py`: a straight ray from a source at
 * the origin to a target at (10, 5, -3), sampled at 100 fractions of the
 * way between them.
 */
module RaytraceSourceToTarget {
  import opened Numerics
  import opened Geometry

  const SOURCE: Vec3 := Vec3(0.0, 0.0, 0.0)
  const TARGET: Vec3 := Vec3(10.0, 5.0, -3.0)
  const NUM_POINTS: nat := 100

  /** `t = np.linspace(0, 1, num_points)` */
  function SampleParameter(): seq<real> { Linspace(0.0, 1.0, NUM_POINTS) }

  /** `trajectory = np.outer(1 - t, source) + np.outer(t, target)` */
  function RayPath(): seq<Vec3> { Trajectory(SampleParameter(), SOURCE, TARGET) }

  /** The fractions run from 0 to 1 in equal steps of 1/99 and rise
      strictly, so every one of them is in [0, 1]. */
  lemma SampleFractions(i: nat, j: nat)
    requires i < j < NUM_POINTS
    ensures var t := SampleParameter();
      && |t| == NUM_POINTS && t[0] == 0.0 && t[NUM_POINTS - 1] == 1.0
      && t[i] < t[j]
      && 0.0 <= t[i] <= 1.0
      && (j == i + 1 ==> t[j] - t[i] == 1.0 / 99.0)
  {
    LinspaceIncreasing(0.0, 1.0, NUM_POINTS, i, j);
    LinspaceBetween(0.0, 1.0, NUM_POINTS, i);
    if j == i + 1 {
      LinspaceStep(0.0, 1.0, NUM_POINTS, i);
    }
  }

  /** The plotted path has 100 points, from the source to the target. Point
      i is the point the fraction i / 99 of the way along the segment, so it
      lies in the box the two ends span (x in [0, 10], y in [0, 5],
      z in [-3, 0]). */
  lemma PathEnds()
    ensures var p := RayPath();
      && |p| == NUM_POINTS && p[0] == SOURCE && p[NUM_POINTS - 1] == TARGET
      && (forall i :: 0 <= i < NUM_POINTS ==>
            0.0 <= (i as real) / 99.0 <= 1.0 && p[i] == Lerp(SOURCE, TARGET, (i as real) / 99.0))
      && (forall i :: 0 <= i < NUM_POINTS ==>
            0.0 <= p[i].x <= 10.0 && 0.0 <= p[i].y <= 5.0 && -3.0 <= p[i].z <= 0.0)
  {
    LinearTrajectory(SOURCE, TARGET, NUM_POINTS);
  }

  /** Consecutive points are one 99th of the source-to-target vector apart:
      the samples are evenly spaced along the ray. */
  lemma PathStep(i: nat)
    requires i + 1 < NUM_POINTS
    ensures Sub(RayPath()[i + 1], RayPath()[i]) == Vec3(10.0 / 99.0, 5.0 / 99.0, -3.0 / 99.0)
  {
    TrajectoryStep(SOURCE, TARGET, NUM_POINTS, i);
  }
}
