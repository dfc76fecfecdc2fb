/**
 * The numpy primitives the scripts lean on, over exact reals:
 * `np.linspace`, `min`/`max` of a vector, Python's `int()` on a float,
 * basic slicing with a step (`a[::step]`) and column selection (`C[:, j]`).
 * A float that numpy would turn into NaN is modelled as `None`.
 */
module Numerics {

  datatype Option<+T> = None | Some(value: T)

  /** `np.linspace(start, stop, num)` with its default `endpoint=True`:
      `num` evenly spaced samples, the first `start`, the last `stop`. */
  function Linspace(start: real, stop: real, num: nat): (r: seq<real>)
    ensures |r| == num
    ensures num >= 1 ==> r[0] == start
    ensures num >= 2 ==> r[num - 1] == stop
  {
    if num == 1 then [start]
    else
      var step := if num == 0 then 0.0 else (stop - start) / ((num - 1) as real);
      var r := seq(num, i requires 0 <= i < num => start + (i as real) * step);
      assert num >= 2 ==> r[num - 1] == start + (num - 1) as real * ((stop - start) / ((num - 1) as real));
      r
  }

  /** Consecutive samples differ by the constant step (stop - start) / (num - 1). */
  lemma LinspaceStep(start: real, stop: real, num: nat, i: nat)
    requires i + 1 < num
    ensures Linspace(start, stop, num)[i + 1] - Linspace(start, stop, num)[i]
            == (stop - start) / ((num - 1) as real)
  {
    var step := (stop - start) / ((num - 1) as real);
    var r := Linspace(start, stop, num);
    assert r[i] == start + (i as real) * step;
    assert r[i + 1] == start + ((i + 1) as real) * step;
  }

  /** Sample i sits at the fraction i / (num - 1) of the way from start to stop. */
  lemma LinspaceAt(start: real, stop: real, num: nat, i: nat)
    requires i < num && num >= 2
    ensures Linspace(start, stop, num)[i]
            == start + (i as real) / ((num - 1) as real) * (stop - start)
  {
    var d := (num - 1) as real;
    var r := Linspace(start, stop, num);
    assert r[i] == start + (i as real) * ((stop - start) / d);
    assert (i as real) * ((stop - start) / d) == (i as real) / d * (stop - start);
  }

  /** With start < stop the samples are strictly increasing. */
  lemma LinspaceIncreasing(start: real, stop: real, num: nat, i: nat, j: nat)
    requires start < stop && i < j < num
    ensures Linspace(start, stop, num)[i] < Linspace(start, stop, num)[j]
  {
    var step := (stop - start) / ((num - 1) as real);
    var r := Linspace(start, stop, num);
    assert step > 0.0;
    assert r[j] - r[i] == ((j - i) as real) * step;
  }

  /** With start > stop the samples are strictly decreasing. */
  lemma LinspaceDecreasing(start: real, stop: real, num: nat, i: nat, j: nat)
    requires stop < start && i < j < num
    ensures Linspace(start, stop, num)[j] < Linspace(start, stop, num)[i]
  {
    var step := (stop - start) / ((num - 1) as real);
    var r := Linspace(start, stop, num);
    assert step < 0.0;
    assert r[j] - r[i] == ((j - i) as real) * step;
  }

  /** Every sample lies between the two ends. */
  lemma LinspaceBetween(start: real, stop: real, num: nat, i: nat)
    requires i < num
    ensures Min(start, stop) <= Linspace(start, stop, num)[i] <= Max(start, stop)
  {
    if num >= 2 {
      LinspaceAt(start, stop, num, i);
      QuotientInUnit(i as real, (num - 1) as real);
      AffineBetween(start, stop, (i as real) / ((num - 1) as real));
    }
  }

  /** start + f * (stop - start), for f in [0, 1], lies between start and stop. */
  lemma AffineBetween(start: real, stop: real, f: real)
    requires 0.0 <= f <= 1.0
    ensures Min(start, stop) <= start + f * (stop - start) <= Max(start, stop)
  {
    if start <= stop {
      MulNonNegative(f, stop - start);
      MulNonNegative(1.0 - f, stop - start);
    } else {
      MulNonNegative(f, start - stop);
      MulNonNegative(1.0 - f, start - stop);
    }
  }

  lemma MulNonNegative(u: real, v: real)
    requires 0.0 <= u && 0.0 <= v
    ensures 0.0 <= u * v
  {
  }

  lemma MulPositive(u: real, v: real)
    requires 0.0 < u && 0.0 < v
    ensures 0.0 < u * v
  {
  }

  /** p / w lies in [0, 1] when p does and w is positive and at least p. */
  lemma QuotientInUnit(p: real, w: real)
    requires 0.0 < w
    ensures 0.0 <= p <= w ==> 0.0 <= p / w <= 1.0
  {
    var q := p / w;
    assert q * w == p;
    if 0.0 <= p <= w {
      if q < 0.0 {
        MulPositive(-q, w);
      } else if q > 1.0 {
        MulPositive(q - 1.0, w);
      }
    }
  }

  /** The samples are symmetric about the midpoint of the interval. */
  lemma LinspaceSymmetric(start: real, stop: real, num: nat, i: nat)
    requires i < num && num >= 2
    ensures Linspace(start, stop, num)[i] + Linspace(start, stop, num)[num - 1 - i] == start + stop
  {
    if num >= 2 {
      var step := (stop - start) / ((num - 1) as real);
      var r := Linspace(start, stop, num);
      assert r[i] == start + (i as real) * step;
      assert r[num - 1 - i] == start + ((num - 1 - i) as real) * step;
      assert r[num - 1] == start + ((num - 1) as real) * step;
      assert ((num - 1 - i) as real) * step == ((num - 1) as real) * step - (i as real) * step;
    }
  }

  function Min(a: real, b: real): real { if a <= b then a else b }
  function Max(a: real, b: real): real { if a <= b then b else a }

  /** `v.min()`: an element of v that no element is below. */
  function SeqMin(v: seq<real>): (m: real)
    requires |v| > 0
    ensures m in v
    ensures forall i :: 0 <= i < |v| ==> m <= v[i]
  {
    if |v| == 1 then v[0] else Min(v[0], SeqMin(v[1..]))
  }

  /** `v.max()`: an element of v that no element exceeds. */
  function SeqMax(v: seq<real>): (m: real)
    requires |v| > 0
    ensures m in v
    ensures forall i :: 0 <= i < |v| ==> v[i] <= m
  {
    if |v| == 1 then v[0] else Max(v[0], SeqMax(v[1..]))
  }

  /** The maximum of a linspace is the larger of its two ends. */
  lemma LinspaceMax(start: real, stop: real, num: nat)
    requires num >= 2
    ensures SeqMax(Linspace(start, stop, num)) == Max(start, stop)
  {
    var r := Linspace(start, stop, num);
    forall i | 0 <= i < num ensures r[i] <= Max(start, stop) {
      LinspaceBetween(start, stop, num, i);
    }
    assert Max(start, stop) == r[0] || Max(start, stop) == r[num - 1];
    assert SeqMax(r) <= Max(start, stop);
  }

  /** Python's `int()` on a float: truncation toward zero. */
  function Trunc(r: real): (n: int)
    ensures 0.0 <= r ==> 0 <= n && n as real <= r < n as real + 1.0
    ensures r < 0.0 ==> n <= 0 && n as real - 1.0 < r <= n as real
  {
    if r >= 0.0 then r.Floor else -((-r).Floor)
  }

  /** Python's floor division `n // d` on non-negative integers. */
  function FloorDiv(n: nat, d: nat): (q: nat)
    requires d > 0
    ensures q * d <= n < (q + 1) * d
  {
    n / d
  }

  /** Basic slicing with a positive step, `a[::step]`: the first entry,
      then every step-th one after it. Its length is the ceiling of
      |a| / step, stated without division. */
  function Downsample<T>(a: seq<T>, step: nat): (r: seq<T>)
    requires step > 0
    ensures |r| == 0 <==> |a| == 0
    ensures |r| > 0 ==> (|r| - 1) * step < |a| <= |r| * step
    ensures forall i :: 0 <= i < |r| ==> Stride(i, step) < |a| && r[i] == a[Stride(i, step)]
    decreases |a|
  {
    if |a| == 0 then []
    else if |a| <= step then [a[0]]
    else
      var rest := Downsample(a[step..], step);
      StridedCons(a, step, rest);
      [a[0]] + rest
  }

  /** The index of the i-th entry that `a[::step]` keeps. */
  function Stride(i: nat, step: nat): nat {
    i * step
  }

  /** Putting a[0] in front of the strided samples of a[step..] gives the
      strided samples of a. */
  lemma StridedCons<T>(a: seq<T>, step: nat, rest: seq<T>)
    requires 0 < step < |a|
    requires |rest| > 0 && (|rest| - 1) * step < |a| - step <= |rest| * step
    requires forall k :: 0 <= k < |rest| ==> Stride(k, step) < |a| - step && rest[k] == a[step..][Stride(k, step)]
    ensures |rest| * step < |a| <= (|rest| + 1) * step
    ensures forall i :: 0 <= i < |rest| + 1 ==>
      Stride(i, step) < |a| && ([a[0]] + rest)[i] == a[Stride(i, step)]
  {
    MulStep(|rest| - 1, step);
    MulStep(|rest|, step);
    var r := [a[0]] + rest;
    forall i | 0 <= i < |r| ensures Stride(i, step) < |a| && r[i] == a[Stride(i, step)] {
      if i > 0 {
        var k := i - 1;
        assert Stride(k, step) < |a| - step && rest[k] == a[step..][Stride(k, step)];
        MulStep(k, step);
      }
    }
  }

  lemma MulStep(k: nat, step: nat)
    ensures 0 <= k * step && step + k * step == (k + 1) * step
  {
  }

  /** `C[:, j]`: entry j of every row, top to bottom. */
  function Column<T>(g: seq<seq<T>>, j: nat): (col: seq<T>)
    requires forall r :: 0 <= r < |g| ==> j < |g[r]|
    ensures |col| == |g|
  {
    seq(|g|, r requires 0 <= r < |g| => g[r][j])
  }

  /** `f(X, Z)` over `np.meshgrid(xs, zs)`: one row per z sample, one column
      per x sample, the cell in row r and column k being f at (xs[k], zs[r]). */
  function MeshGrid(f: (real, real) -> real, xs: seq<real>, zs: seq<real>): (c: seq<seq<real>>)
    ensures |c| == |zs|
    ensures forall r :: 0 <= r < |zs| ==> |c[r]| == |xs|
    ensures forall r, k :: 0 <= r < |zs| && 0 <= k < |xs| ==> c[r][k] == f(xs[k], zs[r])
  {
    seq(|zs|, r requires 0 <= r < |zs| =>
      seq(|xs|, k requires 0 <= k < |xs| => f(xs[k], zs[r])))
  }

  /** `n // step` rounded up: the length of `a[::step]` for |a| = n. */
  function CeilDiv(n: nat, step: nat): nat
    requires step > 0
  {
    (n + step - 1) / step
  }

  /** Downsampling by step keeps exactly CeilDiv(|a|, step) entries. */
  lemma DownsampleLength<T>(a: seq<T>, step: nat)
    requires step > 0
    ensures |Downsample(a, step)| == CeilDiv(|a|, step)
  {
    CeilDivBracket(|a|, step, |Downsample(a, step)|);
  }

  /** CeilDiv(n, step) is the k with (k - 1) * step < n <= k * step
      (and 0 for n = 0). */
  lemma CeilDivBracket(n: nat, step: nat, k: nat)
    requires step > 0
    requires k == 0 <==> n == 0
    requires k > 0 ==> (k - 1) * step < n <= k * step
    ensures k == CeilDiv(n, step)
  {
    if k > 0 {
      MulStep(k - 1, step);
      MulStep(k, step);
      DivUnique(n + step - 1, step, k);
    } else {
      DivUnique(step - 1, step, 0);
    }
  }

  /** The quotient is the unique q with q * d <= m < (q + 1) * d. */
  lemma DivUnique(m: nat, d: nat, q: nat)
    requires d > 0 && q * d <= m < (q + 1) * d
    ensures m / d == q
  {
    var p := m / d;
    assert p * d <= m < (p + 1) * d;
    if p < q {
      MulMonotone(p + 1, q, d);
    } else if q < p {
      MulMonotone(q + 1, p, d);
    }
  }

  lemma MulMonotone(a: nat, b: nat, d: nat)
    requires a <= b
    ensures a * d <= b * d
  {
  }
}
