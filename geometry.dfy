/**
 * Three-dimensional points and vectors as the ray scripts use them
 * (numpy arrays of length 3), and the trajectory construction
 * `np.outer(1 - t, a) + np.outer(t, b)` shared by both ray scripts.
 */
module Geometry {
  import opened Numerics

  datatype Vec3 = Vec3(x: real, y: real, z: real)

  function Add(a: Vec3, b: Vec3): Vec3 { Vec3(a.x + b.x, a.y + b.y, a.z + b.z) }
  function Sub(a: Vec3, b: Vec3): Vec3 { Vec3(a.x - b.x, a.y - b.y, a.z - b.z) }
  function Scale(k: real, a: Vec3): Vec3 { Vec3(k * a.x, k * a.y, k * a.z) }
  function Dot(a: Vec3, b: Vec3): real { a.x * b.x + a.y * b.y + a.z * b.z }

  /** `np.cross(a, b)` */
  function Cross(a: Vec3, b: Vec3): Vec3 {
    Vec3(a.y * b.z - a.z * b.y, a.z * b.x - a.x * b.z, a.x * b.y - a.y * b.x)
  }

  /** The cross product is orthogonal to both of its operands. */
  lemma CrossOrthogonal(a: Vec3, b: Vec3)
    ensures Dot(Cross(a, b), a) == 0.0 && Dot(Cross(a, b), b) == 0.0
  {
    var c := Cross(a, b);
    assert c.x * a.x + c.y * a.y + c.z * a.z
        == (a.y * b.z * a.x - a.z * b.y * a.x) + (a.z * b.x * a.y - a.x * b.z * a.y)
           + (a.x * b.y * a.z - a.y * b.x * a.z);
    assert c.x * b.x + c.y * b.y + c.z * b.z
        == (a.y * b.z * b.x - a.z * b.y * b.x) + (a.z * b.x * b.y - a.x * b.z * b.y)
           + (a.x * b.y * b.z - a.y * b.x * b.z);
  }

  /** Row i of `np.outer(1 - t, a) + np.outer(t, b)`: the point the fraction t
      of the way from a to b. */
  function Lerp(a: Vec3, b: Vec3, t: real): Vec3 {
    Vec3(Mix(a.x, b.x, t), Mix(a.y, b.y, t), Mix(a.z, b.z, t))
  }

  /** One coordinate of the interpolation: (1 - t) * p + t * q. */
  function Mix(p: real, q: real, t: real): real {
    (1.0 - t) * p + t * q
  }

  /** `np.outer(1 - t, a) + np.outer(t, b)`: one row per sample parameter. */
  function Trajectory(t: seq<real>, a: Vec3, b: Vec3): (rows: seq<Vec3>)
    ensures |rows| == |t|
  {
    seq(|t|, i requires 0 <= i < |t| => Lerp(a, b, t[i]))
  }

  /** A coordinate of a point on the segment lies between the coordinates of its ends. */
  predicate Between(v: real, p: real, q: real) {
    Min(p, q) <= v <= Max(p, q)
  }

  /** For 0 <= t <= 1 the interpolated point is a convex combination of a and b,
      so each of its coordinates lies between theirs. */
  lemma LerpConvex(a: Vec3, b: Vec3, t: real)
    requires 0.0 <= t <= 1.0
    ensures var p := Lerp(a, b, t);
      Between(p.x, a.x, b.x) && Between(p.y, a.y, b.y) && Between(p.z, a.z, b.z)
  {
    CombinationBetween(a.x, b.x, t);
    CombinationBetween(a.y, b.y, t);
    CombinationBetween(a.z, b.z, t);
  }

  lemma CombinationBetween(p: real, q: real, t: real)
    requires 0.0 <= t <= 1.0
    ensures Between(Mix(p, q, t), p, q)
  {
    var v := Mix(p, q, t);
    assert v - p == t * (q - p);
    assert q - v == (1.0 - t) * (q - p);
    if p <= q {
      MulNonNegative(t, q - p);
      MulNonNegative(1.0 - t, q - p);
    } else {
      MulNonNegative(t, p - q);
      MulNonNegative(1.0 - t, p - q);
    }
  }

  /** Sampled at `np.linspace(0, 1, n)`, the trajectory has n points, starts at a
      and ends at b. Point i lies on the segment between them, the fraction
      i / (n - 1) of the way from a, and so inside the box a and b span. */
  lemma {:induction false} LinearTrajectory(a: Vec3, b: Vec3, n: nat)
    requires n >= 2
    ensures var rows := Trajectory(Linspace(0.0, 1.0, n), a, b);
      && |rows| == n && rows[0] == a && rows[n - 1] == b
      && (forall i :: 0 <= i < n ==>
            && 0.0 <= (i as real) / ((n - 1) as real) <= 1.0
            && rows[i] == Lerp(a, b, (i as real) / ((n - 1) as real)))
      && (forall i :: 0 <= i < n ==>
            Between(rows[i].x, a.x, b.x) && Between(rows[i].y, a.y, b.y) && Between(rows[i].z, a.z, b.z))
  {
    var t := Linspace(0.0, 1.0, n);
    var rows := Trajectory(t, a, b);
    assert rows[0] == Lerp(a, b, 0.0);
    assert rows[n - 1] == Lerp(a, b, 1.0);
    forall i | 0 <= i < n
      ensures 0.0 <= (i as real) / ((n - 1) as real) <= 1.0
      ensures rows[i] == Lerp(a, b, (i as real) / ((n - 1) as real))
      ensures Between(rows[i].x, a.x, b.x) && Between(rows[i].y, a.y, b.y) && Between(rows[i].z, a.z, b.z)
    {
      LinspaceAt(0.0, 1.0, n, i);
      LinspaceBetween(0.0, 1.0, n, i);
      LerpConvex(a, b, t[i]);
    }
  }

  /** Consecutive points of the trajectory differ by the constant vector
      (b - a) / (n - 1). */
  lemma TrajectoryStep(a: Vec3, b: Vec3, n: nat, i: nat)
    requires i + 1 < n
    ensures var rows := Trajectory(Linspace(0.0, 1.0, n), a, b);
      Sub(rows[i + 1], rows[i]) == Scale(1.0 / ((n - 1) as real), Sub(b, a))
  {
    var t := Linspace(0.0, 1.0, n);
    var h := 1.0 / ((n - 1) as real);
    LinspaceStep(0.0, 1.0, n, i);
    assert t[i + 1] == t[i] + h;
    LerpStep(a, b, t[i], h);
  }

  lemma LerpStep(a: Vec3, b: Vec3, s: real, h: real)
    ensures Sub(Lerp(a, b, s + h), Lerp(a, b, s)) == Scale(h, Sub(b, a))
  {
    CombinationStep(a.x, b.x, s, h);
    CombinationStep(a.y, b.y, s, h);
    CombinationStep(a.z, b.z, s, h);
  }

  lemma CombinationStep(p: real, q: real, s: real, h: real)
    ensures Mix(p, q, s + h) - Mix(p, q, s) == h * (q - p)
  {
  }
}
