/**
 * The noise generators behind terrain generation and the noise brush:
 * the 512-entry permutation table and the hashes that index it, `grad`,
 * `fade`, `lerp`, 2D perlin and simplex noise, Voronoi's 32-bit cell hash,
 * the octave sums and the final quantisation to a byte.
 *
 * Doubles are modelled as reals, so rounding is not modelled. `std::sqrt`
 * has no counterpart here: Voronoi takes the square root as a parameter and
 * simplex uses the decimal values of its two skew constants.
 */
module Noise {
  import opened Raster

  // ---------------------------------------------------------------- tables

  /** `s` is a permutation of 0..255 (256 distinct values in range). */
  predicate IsPermutation256(s: seq<int>)
  {
    |s| == 256
    && (forall i :: 0 <= i < 256 ==> 0 <= s[i] < 256)
    && (forall i, j :: 0 <= i < j < 256 ==> s[i] != s[j])
  }

  /** The filled table `p`: a permutation of 0..255 followed by a copy of itself. */
  predicate PermTable(p: seq<int>)
  {
    |p| == 512
    && (forall i, j :: 0 <= i < j < 256 ==> p[i] != p[j])
    && (forall i :: 0 <= i < 256 ==> 0 <= p[i] < 256 && p[i + 256] == p[i])
  }

  type Table = p: seq<int> | PermTable(p) witness seq(512, i => i % 256)

  /** `initializePerlin`'s table: the shuffled 0..255 appended to itself. */
  function InitTable(shuffled: seq<int>): (p: seq<int>)
    requires IsPermutation256(shuffled)
    ensures PermTable(p)
    ensures p[..256] == shuffled && p[256..] == shuffled
  {
    shuffled + shuffled
  }

  /** Every entry of a filled table lies in 0..255, wherever it is read. */
  lemma TableEntries(p: Table, i: int)
    requires 0 <= i < 512
    ensures 0 <= p[i] < 256
    ensures p[i] == p[i % 256]
  {
    if i >= 256 {
      assert p[(i - 256) + 256] == p[i - 256];
    }
  }

  // ---------------------------------------------------------------- perlin

  /** `fade`: 6t^5 - 15t^4 + 10t^3. */
  function Fade(t: real): real
  {
    t * t * t * (t * (t * 6.0 - 15.0) + 10.0)
  }

  /** `lerp`. */
  function Lerp(t: real, a: real, b: real): real
  {
    a + t * (b - a)
  }

  /**
   * `grad`: the low four bits of the hash pick u (x or y), v (y, x or z) and
   * their signs. For hashes read from the table, `hash & 15` is `hash % 16`
   * and bits 0 and 1 are `h % 2` and `(h / 2) % 2`.
   */
  function Grad(hash: int, x: real, y: real, z: real): real
  {
    var h := hash % 16;
    var u := if h < 8 then x else y;
    var v := if h < 4 then y else if h == 12 || h == 14 then x else z;
    (if h % 2 == 0 then u else -u) + (if (h / 2) % 2 == 0 then v else -v)
  }

  /**
   * The hash indices perlin computes for the lattice corner (X, Y): A and B
   * index the table directly, AA and AB are read from it, and BA and BB
   * derive from A and B plus one (unlike Ken Perlin's reference, where they
   * derive from B).
   */
  datatype Hashes = Hashes(a: int, b: int, aa: int, ab: int, ba: int, bb: int)

  function PerlinHashes(p: Table, X: int, Y: int): (hs: Hashes)
    ensures 0 <= hs.a <= 510 && 0 <= hs.b <= 510
    ensures 0 <= hs.aa <= 255 && 0 <= hs.ab <= 255
    ensures 1 <= hs.ba <= 256 && 1 <= hs.bb <= 256
    ensures hs.ba == hs.aa + 1 && hs.bb == hs.ab + 1
  {
    TableEntries(p, X % 256);
    TableEntries(p, (X + 1) % 256);
    var a := p[X % 256] + Y % 256;
    var b := p[(X + 1) % 256] + Y % 256;
    TableEntries(p, a % 512);
    TableEntries(p, b % 512);
    Hashes(a, b, p[a % 512], p[b % 512], p[a % 512] + 1, p[b % 512] + 1)
  }

  /** 2D perlin noise at (x, y) (the z coordinate is 0). */
  function Perlin(p: Table, x: real, y: real): real
  {
    var X, Y := x.Floor, y.Floor;
    PerlinCell(p, X, Y, x - X as real, y - Y as real)
  }

  /** The value inside unit cell (X, Y) at offset (fx, fy) from its corner. */
  function PerlinCell(p: Table, X: int, Y: int, fx: real, fy: real): real
  {
    var u, v := Fade(fx), Fade(fy);
    var hs := PerlinHashes(p, X, Y);
    Lerp(v, Lerp(u, Grad(p[hs.aa], fx, fy, 0.0), Grad(p[hs.ba], fx - 1.0, fy, 0.0)),
            Lerp(u, Grad(p[hs.ab], fx, fy - 1.0, 0.0), Grad(p[hs.bb], fx - 1.0, fy - 1.0, 0.0)))
  }

  function Abs(r: real): real
  {
    if r < 0.0 then -r else r
  }

  /** In the plane z = 0 a gradient contributes at most |x| + |y|. */
  lemma GradPlanarBound(hash: int, x: real, y: real)
    ensures Abs(Grad(hash, x, y, 0.0)) <= Abs(x) + Abs(y)
  {
    var h := hash % 16;
    if h == 12 || h == 14 {
      assert Abs(Grad(hash, x, y, 0.0)) == Abs(x) + 0.0 || Abs(Grad(hash, x, y, 0.0)) == Abs(y - x)
          || Abs(Grad(hash, x, y, 0.0)) == Abs(x + y) || Abs(Grad(hash, x, y, 0.0)) == Abs(-y - x);
    }
  }

  /** `fade` maps [0, 1] into [0, 1]: 1 - fade(t) = (1 - t)^3 (6t^2 + 3t + 1). */
  lemma FadeInUnit(t: real)
    requires 0.0 <= t <= 1.0
    ensures 0.0 <= Fade(t) <= 1.0
  {
    var c := t * t * t;
    NonnegProduct(t, t);
    NonnegProduct(t * t, t);
    var q := t * (t * 6.0 - 15.0) + 10.0;
    NonnegSquare(t - 1.25);
    assert q == 6.0 * ((t - 1.25) * (t - 1.25)) + 0.625;
    NonnegProduct(c, q);
    var s := 1.0 - t;
    NonnegProduct(s, s);
    NonnegProduct(s * s, s);
    var r := 6.0 * t * t + 3.0 * t + 1.0;
    NonnegProduct(6.0 * t, t);
    NonnegProduct(s * s * s, r);
    assert 1.0 - Fade(t) == s * s * s * r;
  }

  lemma NonnegSquare(a: real)
    ensures 0.0 <= a * a
  {
    if a < 0.0 {
      assert a * a == (-a) * (-a);
      NonnegProduct(-a, -a);
    } else {
      NonnegProduct(a, a);
    }
  }

  /** Interpolating with a weight in [0, 1] stays between the bounds of both ends. */
  lemma LerpBetween(t: real, a: real, b: real, lo: real, hi: real)
    requires 0.0 <= t <= 1.0 && lo <= a <= hi && lo <= b <= hi
    ensures lo <= Lerp(t, a, b) <= hi
  {
    if a <= b {
      NonnegProduct(t, b - a);
      NonnegProduct(1.0 - t, b - a);
    } else {
      NonnegProduct(t, a - b);
      NonnegProduct(1.0 - t, a - b);
    }
  }

  /** Perlin noise stays within [-2, 2]: every corner gradient is bounded by 2 and fade weights lie in [0, 1]. */
  lemma PerlinBounded(p: Table, x: real, y: real)
    ensures -2.0 <= Perlin(p, x, y) <= 2.0
  {
    var X, Y := x.Floor, y.Floor;
    var fx, fy := x - X as real, y - Y as real;
    var u, v := Fade(fx), Fade(fy);
    var hs := PerlinHashes(p, X, Y);
    var g00 := Grad(p[hs.aa], fx, fy, 0.0);
    var g10 := Grad(p[hs.ba], fx - 1.0, fy, 0.0);
    var g01 := Grad(p[hs.ab], fx, fy - 1.0, 0.0);
    var g11 := Grad(p[hs.bb], fx - 1.0, fy - 1.0, 0.0);
    assert 0.0 <= u <= 1.0 && 0.0 <= v <= 1.0 by {
      FadeInUnit(fx);
      FadeInUnit(fy);
    }
    assert -2.0 <= g00 <= 2.0 by { GradPlanarBound(p[hs.aa], fx, fy); }
    assert -2.0 <= g10 <= 2.0 by { GradPlanarBound(p[hs.ba], fx - 1.0, fy); }
    assert -2.0 <= g01 <= 2.0 by { GradPlanarBound(p[hs.ab], fx, fy - 1.0); }
    assert -2.0 <= g11 <= 2.0 by { GradPlanarBound(p[hs.bb], fx - 1.0, fy - 1.0); }
    var lower, upper := Lerp(u, g00, g10), Lerp(u, g01, g11);
    assert -2.0 <= lower <= 2.0 by { LerpBetween(u, g00, g10, -2.0, 2.0); }
    assert -2.0 <= upper <= 2.0 by { LerpBetween(u, g01, g11, -2.0, 2.0); }
    LerpBetween(v, lower, upper, -2.0, 2.0);
  }

  // ---------------------------------------------------------------- simplex

  /** `grad3`: twelve gradient directions, of which simplex reads the first two columns. */
  const Grad3: seq<seq<int>> := [
    [1, 1, 0], [-1, 1, 0], [1, -1, 0], [-1, -1, 0],
    [1, 0, 1], [-1, 0, 1], [1, 0, -1], [-1, 0, -1],
    [0, 1, 1], [0, -1, 1], [0, 1, -1], [0, -1, -1]]

  /** Number of zero entries in a row. */
  function Zeros(row: seq<int>): nat
  {
    if |row| == 0 then 0 else (if row[0] == 0 then 1 else 0) + Zeros(row[1..])
  }

  /** `grad3` has 12 rows of three entries in {-1, 0, 1}, with exactly one zero in each row. */
  lemma Grad3Shape()
    ensures |Grad3| == 12
    ensures forall i :: 0 <= i < 12 ==> |Grad3[i]| == 3 && Zeros(Grad3[i]) == 1
    ensures forall i, k :: 0 <= i < 12 && 0 <= k < 3 ==> -1 <= Grad3[i][k] <= 1
  {
    forall i | 0 <= i < 12
      ensures Zeros(Grad3[i]) == 1
    {
      var row := Grad3[i];
      assert row[1..][1..][1..] == [];
    }
  }

  /** 0.5 (sqrt 3 - 1) and (3 - sqrt 3) / 6, to the precision of a double. */
  const F2: real := 0.36602540378443864676
  const G2: real := 0.21132486540518711775

  /** The three gradient indices `gi0..gi2` of the simplex whose origin is (i, j). */
  function SimplexGradIndices(p: Table, i: int, j: int, i1: int, j1: int): (gi: (int, int, int))
    requires (i1 == 1 && j1 == 0) || (i1 == 0 && j1 == 1)
    ensures 0 <= gi.0 < 12 && 0 <= gi.1 < 12 && 0 <= gi.2 < 12
  {
    var ii, jj := i % 256, j % 256;
    TableEntries(p, jj);
    TableEntries(p, jj + j1);
    TableEntries(p, jj + 1);
    var k0, k1, k2 := ii + p[jj], ii + i1 + p[jj + j1], ii + 1 + p[jj + 1];
    assert k0 <= 510 && k1 <= 511 && k2 <= 511;
    TableEntries(p, k0);
    TableEntries(p, k1);
    TableEntries(p, k2);
    (p[k0] % 12, p[k1] % 12, p[k2] % 12)
  }

  /** One corner's contribution: (t^2)^2 times the gradient dot product when t = 0.5 - x^2 - y^2 > 0. */
  function Corner(gi: int, x: real, y: real): real
    requires 0 <= gi < 12
  {
    var t := 0.5 - x * x - y * y;
    if t > 0.0 then (t * t) * (t * t) * (Grad3[gi][0] as real * x + Grad3[gi][1] as real * y) else 0.0
  }

  /** 2D simplex noise. */
  function Simplex(p: Table, xin: real, yin: real): real
  {
    var s := (xin + yin) * F2;
    var i, j := (xin + s).Floor, (yin + s).Floor;
    var t := (i + j) as real * G2;
    var x0, y0 := xin - (i as real - t), yin - (j as real - t);
    var i1, j1 := if x0 > y0 then 1 else 0, if x0 > y0 then 0 else 1;
    var x1, y1 := x0 - i1 as real + G2, y0 - j1 as real + G2;
    var x2, y2 := x0 - 1.0 + 2.0 * G2, y0 - 1.0 + 2.0 * G2;
    var gi := SimplexGradIndices(p, i, j, i1, j1);
    70.0 * (Corner(gi.0, x0, y0) + Corner(gi.1, x1, y1) + Corner(gi.2, x2, y2))
  }

  // ---------------------------------------------------------------- voronoi

  const TwoTo32: int := 0x1_0000_0000

  /** `static_cast<unsigned int>` of an int: the value modulo 2^32. */
  function ToU32(v: int): bv32
  {
    (v % TwoTo32) as bv32
  }

  /** The two scrambling rounds of the cell hash; the multiplications wrap at 2^32. */
  function Scramble1(s: bv32): bv32
  {
    (s ^ (s >> 13)) * 1274126177
  }

  function Scramble2(s: bv32): bv32
  {
    (s ^ (s >> 16)) * 85734257
  }

  /** `seed & 0xFFFF`. */
  function Low16(s: bv32): (n: int)
    ensures 0 <= n <= 0xFFFF
  {
    ((s & 0xFFFF) as bv16) as int
  }

  /**
   * The feature point of cell (nx, ny): the cell coordinates hashed with
   * 32-bit wrap-around (the C++ products overflow), each offset taken from
   * 16 bits of the hash, so the point lies in the cell's closed unit square.
   */
  function FeaturePoint(nx: int, ny: int): (pt: (real, real))
    ensures nx as real <= pt.0 <= nx as real + 1.0
    ensures ny as real <= pt.1 <= ny as real + 1.0
  {
    var s1 := Scramble1(ToU32(nx * 374761393 + ny * 668265263));
    var s2 := Scramble2(s1);
    (nx as real + Low16(s1) as real / 65535.0, ny as real + Low16(s2) as real / 65535.0)
  }

  /** The feature point of each cell; the generator's is `FeaturePoint`. */
  type Features = (int, int) -> (real, real)

  /** The distance from (x, y) to the feature point of the k-th (1-based) of the 3x3 cells around (cx, cy). */
  function CellDist(root: real -> real, feature: Features, x: real, y: real, cx: int, cy: int, k: int): real
  {
    var pt := feature(cx + (k - 1) % 3 - 1, cy + (k - 1) / 3 - 1);
    var dx, dy := x - pt.0, y - pt.1;
    root(dx * dx + dy * dy)
  }

  /**
   * Running minimum of the distances to the feature points of the first k
   * of the 3x3 cells around (cx, cy), offsetY outer and offsetX inner.
   */
  function MinDist(root: real -> real, feature: Features, x: real, y: real, cx: int, cy: int, k: nat): real
    requires 1 <= k <= 9
  {
    var d := CellDist(root, feature, x, y, cx, cy, k);
    if k == 1 then d
    else
      var m := MinDist(root, feature, x, y, cx, cy, k - 1);
      if d < m then d else m
  }

  /** `voronoiNoise`: the nearest feature distance, scaled from [0, 1.5] to [-1, 1] and capped at 1. */
  function Voronoi(root: real -> real, feature: Features, x: real, y: real): real
  {
    var m := MinDist(root, feature, x, y, x.Floor, y.Floor, 9);
    var d := if m / 1.5 < 1.0 then m / 1.5 else 1.0;
    d * 2.0 - 1.0
  }

  ghost predicate NonnegRoot(root: real -> real)
  {
    forall v :: 0.0 <= root(v)
  }

  lemma {:induction false} MinDistNonneg(root: real -> real, feature: Features, x: real, y: real, cx: int, cy: int, k: nat)
    requires 1 <= k <= 9 && NonnegRoot(root)
    ensures 0.0 <= MinDist(root, feature, x, y, cx, cy, k)
  {
    if k > 1 {
      MinDistNonneg(root, feature, x, y, cx, cy, k - 1);
    }
  }

  /**
   * The running minimum is no larger than any of the distances it has seen,
   * and it is one of them: the distance to the nearest feature point.
   */
  lemma {:induction false} MinDistIsMinimum(root: real -> real, feature: Features, x: real, y: real, cx: int, cy: int,
                                            k: nat, j: nat)
    requires 1 <= j <= k <= 9
    ensures MinDist(root, feature, x, y, cx, cy, k) <= CellDist(root, feature, x, y, cx, cy, j)
    ensures exists i :: 1 <= i <= k && MinDist(root, feature, x, y, cx, cy, k) == CellDist(root, feature, x, y, cx, cy, i)
  {
    if k > 1 {
      MinDistIsMinimum(root, feature, x, y, cx, cy, k - 1, if j < k then j else k - 1);
      var i :| 1 <= i <= k - 1 && MinDist(root, feature, x, y, cx, cy, k - 1) == CellDist(root, feature, x, y, cx, cy, i);
      var d := CellDist(root, feature, x, y, cx, cy, k);
      if d < MinDist(root, feature, x, y, cx, cy, k - 1) {
        assert MinDist(root, feature, x, y, cx, cy, k) == CellDist(root, feature, x, y, cx, cy, k);
      } else {
        assert MinDist(root, feature, x, y, cx, cy, k) == CellDist(root, feature, x, y, cx, cy, i);
      }
    } else {
      assert MinDist(root, feature, x, y, cx, cy, k) == CellDist(root, feature, x, y, cx, cy, 1);
    }
  }

  /** With a non-negative square root, Voronoi noise lies in [-1, 1]. */
  lemma VoronoiInRange(root: real -> real, feature: Features, x: real, y: real)
    requires NonnegRoot(root)
    ensures -1.0 <= Voronoi(root, feature, x, y) <= 1.0
  {
    MinDistNonneg(root, feature, x, y, x.Floor, y.Floor, 9);
  }

  // ---------------------------------------------------------------- octaves

  /** A noise primitive sampled at (x, y). */
  type Sampler = (real, real) -> real

  /**
   * The octave loop of every `*Fbm` function: for i in [i, octaves), add
   * f(x * freq, y * freq) * amplitude to the total and the amplitude to
   * maxVal, then scale the amplitude by `persistence` and double the
   * frequency. Returns (total, maxVal).
   */
  function OctaveLoop(f: Sampler, x: real, y: real, octaves: int, persistence: real,
                      i: int, total: real, amplitude: real, freq: real, maxVal: real): (r: (real, real))
    decreases octaves - i
  {
    if i >= octaves then (total, maxVal)
    else OctaveLoop(f, x, y, octaves, persistence, i + 1,
                    total + Sample(f, x, y, freq) * amplitude, amplitude * persistence, freq * 2.0, maxVal + amplitude)
  }

  /** The sample one octave adds: f at (x, y) scaled by the octave's frequency. */
  function Sample(f: Sampler, x: real, y: real, freq: real): real
  {
    f(x * freq, y * freq)
  }

  ghost predicate SamplesIn(f: Sampler, lo: real, hi: real)
  {
    forall a, b :: lo <= f(a, b) <= hi
  }

  /**
   * With samples in [lo, hi] and positive amplitudes, the total stays
   * between lo and hi times the accumulated amplitude.
   */
  lemma {:induction false} OctaveLoopBounds(f: Sampler, x: real, y: real, octaves: int, persistence: real,
                                            i: int, total: real, amplitude: real, freq: real, maxVal: real,
                                            lo: real, hi: real)
    requires SamplesIn(f, lo, hi) && 0.0 < amplitude && 0.0 < persistence
    requires Weighted(lo, hi, total, maxVal)
    ensures var r := OctaveLoop(f, x, y, octaves, persistence, i, total, amplitude, freq, maxVal);
            Weighted(lo, hi, r.0, r.1)
    decreases octaves - i
  {
    if i < octaves {
      assert lo <= Sample(f, x, y, freq) <= hi;
      OctaveStep(lo, hi, Sample(f, x, y, freq), amplitude, total, maxVal);
      PositiveProduct(amplitude, persistence);
      OctaveLoopBounds(f, x, y, octaves, persistence, i + 1, total + Sample(f, x, y, freq) * amplitude,
                       amplitude * persistence, freq * 2.0, maxVal + amplitude, lo, hi);
    }
  }

  /** lo * maxVal <= total <= hi * maxVal: the total is a mix of samples in [lo, hi] weighted by maxVal. */
  predicate Weighted(lo: real, hi: real, total: real, maxVal: real)
  {
    lo * maxVal <= total <= hi * maxVal
  }

  /** One octave keeps lo * maxVal <= total <= hi * maxVal. */
  lemma OctaveStep(lo: real, hi: real, s: real, amplitude: real, total: real, maxVal: real)
    requires lo <= s <= hi && 0.0 < amplitude && lo * maxVal <= total <= hi * maxVal
    ensures lo * (maxVal + amplitude) <= total + s * amplitude <= hi * (maxVal + amplitude)
  {
    NonnegProduct(s - lo, amplitude);
    NonnegProduct(hi - s, amplitude);
  }

  lemma PositiveProduct(a: real, b: real)
    requires 0.0 < a && 0.0 < b
    ensures 0.0 < a * b
  {
  }

  /** The accumulated amplitude never shrinks and is positive once an octave ran. */
  lemma {:induction false} OctaveLoopWeight(f: Sampler, x: real, y: real, octaves: int, persistence: real,
                                            i: int, total: real, amplitude: real, freq: real, maxVal: real)
    requires 0.0 < amplitude && 0.0 < persistence && 0.0 <= maxVal
    ensures var r := OctaveLoop(f, x, y, octaves, persistence, i, total, amplitude, freq, maxVal);
            maxVal <= r.1 && (i < octaves ==> 0.0 < r.1)
    decreases octaves - i
  {
    if i < octaves {
      assert 0.0 < amplitude * persistence;
      OctaveLoopWeight(f, x, y, octaves, persistence, i + 1,
                       total + Sample(f, x, y, freq) * amplitude, amplitude * persistence, freq * 2.0, maxVal + amplitude);
    }
  }


  /** `total / maxVal` of the octave loop from its start values (the spin boxes keep octaves >= 1). */
  function Fbm(f: Sampler, x: real, y: real, octaves: int, persistence: real): (n: real)
    requires 1 <= octaves && 0.0 < persistence
  {
    var r := OctaveLoop(f, x, y, octaves, persistence, 0, 0.0, 1.0, 1.0, 0.0);
    OctaveLoopWeight(f, x, y, octaves, persistence, 0, 0.0, 1.0, 1.0, 0.0);
    r.0 / r.1
  }

  /** The octave normalisation keeps the samples' range: samples in [lo, hi] give a result in [lo, hi]. */
  lemma FbmInRange(f: Sampler, x: real, y: real, octaves: int, persistence: real, lo: real, hi: real)
    requires 1 <= octaves && 0.0 < persistence && SamplesIn(f, lo, hi)
    ensures lo <= Fbm(f, x, y, octaves, persistence) <= hi
  {
    var r := OctaveLoop(f, x, y, octaves, persistence, 0, 0.0, 1.0, 1.0, 0.0);
    OctaveLoopBounds(f, x, y, octaves, persistence, 0, 0.0, 1.0, 1.0, 0.0, lo, hi);
    OctaveLoopWeight(f, x, y, octaves, persistence, 0, 0.0, 1.0, 1.0, 0.0);
    QuotientBetween(r.0, r.1, lo, hi);
  }

  /** lo * m <= t <= hi * m with m > 0 bounds the quotient t / m. */
  lemma QuotientBetween(t: real, m: real, lo: real, hi: real)
    requires 0.0 < m && lo * m <= t <= hi * m
    ensures lo <= t / m <= hi
  {
    var q := t / m;
    assert q * m == t;
    if q < lo { PositiveProduct(lo - q, m); }
    if q > hi { PositiveProduct(q - hi, m); }
  }

  /** The ridge transform of one sample: (1 - |n|)^2. */
  function Ridge(n: real): real
  {
    (1.0 - Abs(n)) * (1.0 - Abs(n))
  }

  lemma RidgeInUnit(n: real)
    requires -1.0 <= n <= 1.0
    ensures 0.0 <= Ridge(n) <= 1.0
  {
    var a := 1.0 - Abs(n);
    NonnegProduct(a, a);
    NonnegProduct(a, 1.0 - a);
  }

  /** `ridgedMultifractal`: fbm of the ridged perlin samples, mapped from [0, 1] to [-1, 1]. */
  function RidgedMultifractal(perlin: Sampler, x: real, y: real, octaves: int, persistence: real): real
    requires 1 <= octaves && 0.0 < persistence
  {
    Fbm((a, b) => Ridge(perlin(a, b)), x, y, octaves, persistence) * 2.0 - 1.0
  }

  /** `billowyFbm`: fbm of |perlin|, mapped from [0, 1] to [-1, 1]. */
  function BillowyFbm(perlin: Sampler, x: real, y: real, octaves: int, persistence: real): real
    requires 1 <= octaves && 0.0 < persistence
  {
    Fbm((a, b) => Abs(perlin(a, b)), x, y, octaves, persistence) * 2.0 - 1.0
  }

  /** `billowyNoise`: a single octave of the billowy transform. */
  function BillowyNoise(perlin: Sampler, x: real, y: real): (n: real)
    ensures SamplesIn(perlin, -1.0, 1.0) ==> -1.0 <= n <= 1.0
  {
    Abs(perlin(x, y)) * 2.0 - 1.0
  }

  /** `domainWarp`'s default strength, which generation never uses (it passes 50). */
  const DefaultWarpStrength: real := 0.5
  const GenerationWarpStrength: real := 50.0

  /** `domainWarp`: fbm at (x, y) displaced by two perlin samples scaled by the strength. */
  function DomainWarp(perlin: Sampler, x: real, y: real, octaves: int, persistence: real, warpStrength: real): real
    requires 1 <= octaves && 0.0 < persistence
  {
    var warpX := perlin(x * 0.5, y * 0.5) * warpStrength;
    var warpY := perlin(x * 0.5 + 100.0, y * 0.5 + 100.0) * warpStrength;
    Fbm(perlin, x + warpX, y + warpY, octaves, persistence)
  }

  /** The ridged and billowy transforms and domain warping keep samples in [-1, 1] within [-1, 1]. */
  lemma DerivedInRange(perlin: Sampler, x: real, y: real, octaves: int, persistence: real, warpStrength: real)
    requires 1 <= octaves && 0.0 < persistence && SamplesIn(perlin, -1.0, 1.0)
    ensures -1.0 <= RidgedMultifractal(perlin, x, y, octaves, persistence) <= 1.0
    ensures -1.0 <= BillowyFbm(perlin, x, y, octaves, persistence) <= 1.0
    ensures -1.0 <= DomainWarp(perlin, x, y, octaves, persistence, warpStrength) <= 1.0
  {
    var ridged: Sampler := (a, b) => Ridge(perlin(a, b));
    forall a, b
      ensures 0.0 <= ridged(a, b) <= 1.0
    {
      RidgeInUnit(perlin(a, b));
    }
    FbmInRange(ridged, x, y, octaves, persistence, 0.0, 1.0);
    var billowy: Sampler := (a, b) => Abs(perlin(a, b));
    FbmInRange(billowy, x, y, octaves, persistence, 0.0, 1.0);
    var warpX := perlin(x * 0.5, y * 0.5) * warpStrength;
    var warpY := perlin(x * 0.5 + 100.0, y * 0.5 + 100.0) * warpStrength;
    FbmInRange(perlin, x + warpX, y + warpY, octaves, persistence, -1.0, 1.0);
  }

  // ---------------------------------------------------------------- generation

  /** The entries of the noise-type combo box; any other text means perlin. */
  datatype Algorithm = PerlinFbm | SimplexFbm | VoronoiFbm | Ridged | Billowy | Warped

  function AlgorithmOf(text: string): (a: Algorithm)
    ensures a == PerlinFbm <==> text !in {"Simplex Noise", "Voronoi Noise", "Ridged Multifractal",
                                          "Billowy Noise", "Domain Warping"}
  {
    if text == "Simplex Noise" then SimplexFbm
    else if text == "Voronoi Noise" then VoronoiFbm
    else if text == "Ridged Multifractal" then Ridged
    else if text == "Billowy Noise" then Billowy
    else if text == "Domain Warping" then Warped
    else PerlinFbm
  }

  /** The three primitives every algorithm is built from. */
  datatype Primitives = Primitives(perlin: Sampler, simplex: Sampler, voronoi: Sampler)

  /** The primitives over the permutation table `p`, with `root` as the square root and `feature` as the cells' feature points. */
  function PrimitivesOf(p: Table, root: real -> real, feature: Features): Primitives
  {
    Primitives((a, b) => Perlin(p, a, b), (a, b) => Simplex(p, a, b), (a, b) => Voronoi(root, feature, a, b))
  }

  ghost predicate PrimitivesInRange(s: Primitives)
  {
    SamplesIn(s.perlin, -1.0, 1.0) && SamplesIn(s.simplex, -1.0, 1.0) && SamplesIn(s.voronoi, -1.0, 1.0)
  }

  /**
   * With a non-negative square root, the generator's Voronoi primitive lies
   * in [-1, 1] whatever the feature points; with Perlin and simplex noise in
   * [-1, 1] as well, `PrimitivesInRange` holds of its primitives.
   */
  lemma VoronoiPrimitiveInRange(p: Table, root: real -> real, feature: Features)
    requires NonnegRoot(root)
    ensures SamplesIn(PrimitivesOf(p, root, feature).voronoi, -1.0, 1.0)
  {
    forall a, b
      ensures -1.0 <= Voronoi(root, feature, a, b) <= 1.0
    {
      VoronoiInRange(root, feature, a, b);
    }
  }

  /** The noise value generation computes at one sample point. */
  function NoiseValue(alg: Algorithm, s: Primitives, octaves: int, persistence: real, x: real, y: real): real
    requires 1 <= octaves && 0.0 < persistence
  {
    match alg
    case PerlinFbm => Fbm(s.perlin, x, y, octaves, persistence)
    case SimplexFbm => Fbm(s.simplex, x, y, octaves, persistence)
    case VoronoiFbm => Fbm(s.voronoi, x, y, octaves, persistence)
    case Ridged => RidgedMultifractal(s.perlin, x, y, octaves, persistence)
    case Billowy => BillowyFbm(s.perlin, x, y, octaves, persistence)
    case Warped => DomainWarp(s.perlin, x, y, octaves, persistence, GenerationWarpStrength)
  }

  /**
   * `(unsigned char)((n + 1.0) * 127.5)`. C++ leaves an out-of-range
   * conversion undefined; the model truncates and keeps the low 8 bits.
   */
  function Quantize(n: real): (b: Byte)
    ensures -1.0 <= n <= 1.0 ==> b == Trunc((n + 1.0) * 127.5)
  {
    if -1.0 <= n <= 1.0 then
      QuantizeInRange(n);
      Trunc((n + 1.0) * 127.5)
    else Trunc((n + 1.0) * 127.5) % 256
  }

  lemma QuantizeInRange(n: real)
    requires -1.0 <= n <= 1.0
    ensures 0 <= Trunc((n + 1.0) * 127.5) <= 255
  {
    NonnegProduct(n + 1.0, 127.5);
    NonnegProduct(1.0 - n, 127.5);
    TruncBetween((n + 1.0) * 127.5, 0, 255);
  }

  /** Quantisation keeps the order of noise values in [-1, 1] and sends -1 to 0 and 1 to 255. */
  lemma QuantizeMonotone(m: real, n: real)
    requires -1.0 <= m <= n <= 1.0
    ensures Quantize(m) <= Quantize(n)
    ensures Quantize(-1.0) == 0 && Quantize(1.0) == 255
  {
    NonnegProduct(n - m, 127.5);
    assert Trunc((m + 1.0) * 127.5) <= Trunc((n + 1.0) * 127.5);
  }

  /**
   * If every primitive lies in [-1, 1], so does every algorithm's value, and
   * generation stores its exact truncation (n + 1) * 127.5: no wrap happens.
   */
  lemma NoiseValueInRange(alg: Algorithm, s: Primitives, octaves: int, persistence: real, x: real, y: real)
    requires 1 <= octaves && 0.0 < persistence && PrimitivesInRange(s)
    ensures var n := NoiseValue(alg, s, octaves, persistence, x, y);
            -1.0 <= n <= 1.0 && Quantize(n) == Trunc((n + 1.0) * 127.5)
  {
    match alg
    case PerlinFbm => FbmInRange(s.perlin, x, y, octaves, persistence, -1.0, 1.0);
    case SimplexFbm => FbmInRange(s.simplex, x, y, octaves, persistence, -1.0, 1.0);
    case VoronoiFbm => FbmInRange(s.voronoi, x, y, octaves, persistence, -1.0, 1.0);
    case Ridged => DerivedInRange(s.perlin, x, y, octaves, persistence, GenerationWarpStrength);
    case Billowy => DerivedInRange(s.perlin, x, y, octaves, persistence, GenerationWarpStrength);
    case Warped => DerivedInRange(s.perlin, x, y, octaves, persistence, GenerationWarpStrength);
  }

  /** `1 / (min(W, H) * frequencyScale)`. */
  function BaseFrequency(w: int, h: int, frequencyScale: real): real
    requires 0 < w && 0 < h && 0.0 < frequencyScale
  {
    assert 0.0 < (if w < h then w else h) as real * frequencyScale;
    1.0 / ((if w < h then w else h) as real * frequencyScale)
  }

  /** `(double)i * baseFrequency + frequencyOffset`, the sample coordinate of column or row i. */
  function SamplePoint(i: int, base: real, offset: real): real
  {
    i as real * base + offset
  }

  /** The byte generation stores at (x, y). */
  function GeneratedCell(alg: Algorithm, p: Table, root: real -> real, octaves: int, persistence: real,
                         base: real, offset: real, x: int, y: int): Byte
    requires 1 <= octaves && 0.0 < persistence
  {
    Quantize(NoiseValue(alg, PrimitivesOf(p, root, FeaturePoint), octaves, persistence, SamplePoint(x, base, offset), SamplePoint(y, base, offset)))
  }

  /** The byte generation stores at each cell, as a function of the cell. */
  function GeneratedCells(alg: Algorithm, p: Table, root: real -> real, octaves: int, persistence: real,
                          base: real, offset: real): (int, int) -> Byte
    requires 1 <= octaves && 0.0 < persistence
  {
    (x, y) => GeneratedCell(alg, p, root, octaves, persistence, base, offset, x, y)
  }

  /** The map generation writes: every cell holds the byte of its own sample point. */
  function GeneratedMap(alg: Algorithm, p: Table, root: real -> real, octaves: int, persistence: real,
                        base: real, offset: real, w: nat, h: nat): (g: Snapshot)
    requires 1 <= octaves && 0.0 < persistence
    ensures IsGrid(g, w, h)
  {
    Tabulate(w, h, GeneratedCells(alg, p, root, octaves, persistence, base, offset))
  }

  /**
   * Every generated sample is the quantised noise value of the chosen
   * algorithm at the cell's sample point. When the three primitives stay in
   * [-1, 1], that value lies in [-1, 1] too, so the sample is the exact
   * truncation of `(n + 1) * 127.5`: the byte conversion never wraps.
   */
  lemma GeneratedMapExact(alg: Algorithm, p: Table, root: real -> real, octaves: int, persistence: real,
                          base: real, offset: real, w: nat, h: nat, x: int, y: int)
    requires 1 <= octaves && 0.0 < persistence
    requires 0 <= x < w && 0 <= y < h
    ensures var s := PrimitivesOf(p, root, FeaturePoint);
            var n := NoiseValue(alg, s, octaves, persistence, SamplePoint(x, base, offset), SamplePoint(y, base, offset));
            var b := GeneratedMap(alg, p, root, octaves, persistence, base, offset, w, h)[y][x];
            b == Quantize(n) && (PrimitivesInRange(s) ==> -1.0 <= n <= 1.0 && b == Trunc((n + 1.0) * 127.5))
  {
    GeneratedAt(alg, p, root, octaves, persistence, base, offset, x, y);
    var s := PrimitivesOf(p, root, FeaturePoint);
    if PrimitivesInRange(s) {
      NoiseValueInRange(alg, s, octaves, persistence, SamplePoint(x, base, offset), SamplePoint(y, base, offset));
    }
  }

  /** The byte of cell (x, y) is the quantised noise value at its sample point. */
  lemma GeneratedAt(alg: Algorithm, p: Table, root: real -> real, octaves: int, persistence: real,
                    base: real, offset: real, x: int, y: int)
    requires 1 <= octaves && 0.0 < persistence
    ensures GeneratedCells(alg, p, root, octaves, persistence, base, offset)(x, y)
            == Quantize(NoiseValue(alg, PrimitivesOf(p, root, FeaturePoint), octaves, persistence, SamplePoint(x, base, offset), SamplePoint(y, base, offset)))
  {
  }

  /** The generate loop over the whole map, rows top to bottom; it overwrites every cell of `g`. */
  method GenerateMap(g: Snapshot, w: nat, h: nat, alg: Algorithm, p: Table, root: real -> real,
                     octaves: int, persistence: real, base: real, offset: real) returns (r: Snapshot)
    requires IsGrid(g, w, h) && 1 <= octaves && 0.0 < persistence
    ensures r == GeneratedMap(alg, p, root, octaves, persistence, base, offset, w, h)
  {
    var cell := GeneratedCells(alg, p, root, octaves, persistence, base, offset);
    var primitives := PrimitivesOf(p, root, FeaturePoint);
    r := g;
    var y := 0;
    while y < h
      invariant 0 <= y <= h && IsGrid(r, w, h) && WrittenUpTo(r, g, w, h, cell, 0, y)
    {
      var x := 0;
      while x < w
        invariant 0 <= x <= w && IsGrid(r, w, h) && WrittenUpTo(r, g, w, h, cell, x, y)
      {
        var sampleX := SamplePoint(x, base, offset);
        var sampleY := SamplePoint(y, base, offset);
        var noiseValue := NoiseValue(alg, primitives, octaves, persistence, sampleX, sampleY);
        GeneratedAt(alg, p, root, octaves, persistence, base, offset, x, y);
        WriteStep(r, g, w, h, cell, x, y);
        r := Put(r, x, y, Quantize(noiseValue));
        x := x + 1;
      }
      WriteRowDone(r, g, w, h, cell, y);
      y := y + 1;
    }
    WriteDone(r, g, w, h, cell);
  }
}
