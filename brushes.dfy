/**
 * The four circular brushes of the editor (raise/lower, smooth, flatten and
 * noise), as a function from the grid before the call to the grid after it.
 *
 * Every brush floors its radius to 1, does nothing when the centre is off
 * the map, and visits the box [cx - r, cx + r] x [cy - r, cy + r] clipped to
 * the map. A visited cell whose squared distance d to the centre is at most
 * r * r is blended toward a per-brush target:
 *
 *   new = clamp(int(cur + (target - cur) * (1 - d / r^2) * factor), 0, 255)
 *
 * where `int` truncates toward zero. Cells outside that disc are untouched.
 */
module Brushes {
  import opened Raster

  /** The brush a stroke applies, with the values it reads from the editor. */
  datatype Stroke =
    | RaiseLower(brushHeight: int, intensityPercent: int)  // applyBrush; slider value k in [1, 100]
    | Smooth                                                // applySmoothBrush
    | Flatten(flattenHeight: int)                           // applyFlattenBrush
    | NoiseStamp(perlin: (real, real) -> real)              // applyNoiseBrush, perlin over the current table

  /** What the editor's sliders guarantee about a stroke. */
  predicate StrokeOk(s: Stroke)
  {
    s.RaiseLower? ==> 1 <= s.intensityPercent <= 100
  }

  /** The slider radius with its floor of 1. */
  function EffectiveRadius(radius: int): (r: int)
    ensures 1 <= r
    ensures 1 <= radius ==> r == radius
  {
    if radius < 1 then 1 else radius
  }

  function DistSq(x: int, y: int, cx: int, cy: int): int
  {
    (x - cx) * (x - cx) + (y - cy) * (y - cy)
  }

  predicate InDisk(x: int, y: int, cx: int, cy: int, r: int)
  {
    DistSq(x, y, cx, cy) <= r * r
  }

  /** The blend weight of each brush: slider/100, 0.3, 0.1 and 0.15. */
  function Factor(s: Stroke): (f: real)
    requires StrokeOk(s)
    ensures 0.0 < f <= 1.0
  {
    match s
    case RaiseLower(_, k) => k as real / 100.0
    case Smooth => 0.3
    case Flatten(_) => 0.1
    case NoiseStamp(_) => 0.15
  }

  /** `static_cast<int>(cur + (target - cur) * (1 - distSq / rSq) * factor)`, before clamping. */
  function RawBlend(cur: int, target: int, distSq: int, rSq: int, factor: real): int
    requires 0 < rSq
  {
    Trunc(cur as real + (target - cur) as real * (1.0 - distSq as real / rSq as real) * factor)
  }

  /** The blended value clamped to a byte, as every brush stores it. */
  function Blend(cur: int, target: int, distSq: int, rSq: int, factor: real): Byte
    requires 0 < rSq
  {
    ClampByte(RawBlend(cur, target, distSq, rSq, factor))
  }

  /** Sample at (x, y), or 0 off the map. */
  function SampleOr0(g: Snapshot, w: int, h: int, x: int, y: int): int
    requires IsGrid(g, w, h)
  {
    if InBounds(w, h, x, y) then g[y][x] else 0
  }

  /**
   * Running (sum, count) of the in-map samples among the first k cells of
   * the 3x3 neighbourhood of (x, y), visited row by row (dy outer, dx inner).
   */
  function NeighbourSum(g: Snapshot, w: int, h: int, x: int, y: int, k: nat): (sc: (int, int))
    requires IsGrid(g, w, h) && k <= 9
    ensures 0 <= sc.1 <= k && 0 <= sc.0 <= 255 * sc.1
  {
    if k == 0 then (0, 0)
    else
      var prev := NeighbourSum(g, w, h, x, y, k - 1);
      var nx, ny := x + (k - 1) % 3 - 1, y + (k - 1) / 3 - 1;
      if InBounds(w, h, nx, ny) then (prev.0 + g[ny][nx], prev.1 + 1) else prev
  }

  /** The 3x3 neighbourhood of an in-map cell always contains the cell itself. */
  lemma {:induction false} NeighbourCountPositive(g: Snapshot, w: int, h: int, x: int, y: int, k: nat)
    requires IsGrid(g, w, h) && InBounds(w, h, x, y) && 5 <= k <= 9
    ensures 1 <= NeighbourSum(g, w, h, x, y, k).1
  {
    if k > 5 {
      NeighbourCountPositive(g, w, h, x, y, k - 1);
    } else {
      assert (5 - 1) % 3 - 1 == 0 && (5 - 1) / 3 - 1 == 0;
    }
  }

  /** Integer mean of the in-map samples of the 3x3 neighbourhood (smooth's target). */
  function NeighbourMean(g: Snapshot, w: int, h: int, x: int, y: int): (m: int)
    requires IsGrid(g, w, h) && InBounds(w, h, x, y)
    ensures 0 <= m <= 255
  {
    var sc := NeighbourSum(g, w, h, x, y, 9);
    NeighbourCountPositive(g, w, h, x, y, 9);
    MeanBound(sc.0, sc.1);
    sc.0 / sc.1
  }

  lemma MeanBound(sum: int, count: int)
    requires 1 <= count && 0 <= sum <= 255 * count
    ensures 0 <= sum / count <= 255
  {
    var q := sum / count;
    assert q * count <= sum;
    MulMono(q, count);
  }

  /** A quotient of at least 256 would make q * count exceed 255 * count. */
  lemma MulMono(q: int, count: int)
    requires 1 <= count
    ensures 256 <= q ==> 256 * count <= q * count
  {
    if 256 <= q {
      assert q * count == 256 * count + (q - 256) * count;
      assert 0 <= (q - 256) * count;
    }
  }

  /** Every in-map sample of the 3x3 neighbourhood of (x, y) lies in [lo, hi]. */
  ghost predicate NeighbourhoodWithin(g: Snapshot, w: int, h: int, x: int, y: int, lo: int, hi: int)
    requires IsGrid(g, w, h)
  {
    forall nx, ny :: InBounds(w, h, nx, ny) && x - 1 <= nx <= x + 1 && y - 1 <= ny <= y + 1 ==> lo <= g[ny][nx] <= hi
  }

  /** The running sum of k samples, each in [lo, hi], lies in [lo * count, hi * count]. */
  lemma {:induction false} NeighbourSumWithin(g: Snapshot, w: int, h: int, x: int, y: int, k: nat, lo: int, hi: int)
    requires IsGrid(g, w, h) && k <= 9 && NeighbourhoodWithin(g, w, h, x, y, lo, hi)
    ensures var sc := NeighbourSum(g, w, h, x, y, k);
            lo * sc.1 <= sc.0 <= hi * sc.1
  {
    if k > 0 {
      NeighbourSumWithin(g, w, h, x, y, k - 1, lo, hi);
      var prev := NeighbourSum(g, w, h, x, y, k - 1);
      var nx, ny := x + (k - 1) % 3 - 1, y + (k - 1) / 3 - 1;
      if InBounds(w, h, nx, ny) {
        assert lo <= g[ny][nx] <= hi;
        assert lo * (prev.1 + 1) == lo * prev.1 + lo;
        assert hi * (prev.1 + 1) == hi * prev.1 + hi;
      }
    }
  }

  /**
   * Smoothing never leaves the range of the neighbourhood: the mean lies
   * between the smallest and the largest in-map sample of the 3x3 block.
   */
  lemma NeighbourMeanBetween(g: Snapshot, w: int, h: int, x: int, y: int, lo: int, hi: int)
    requires IsGrid(g, w, h) && InBounds(w, h, x, y) && NeighbourhoodWithin(g, w, h, x, y, lo, hi)
    ensures lo <= NeighbourMean(g, w, h, x, y) <= hi
  {
    NeighbourCountPositive(g, w, h, x, y, 9);
    NeighbourSumWithin(g, w, h, x, y, 9, lo, hi);
    var sc := NeighbourSum(g, w, h, x, y, 9);
    QuotientBetween(sc.0, sc.1, lo, hi);
  }

  /** A sum of `count` values in [lo, hi], divided by `count`, lies in [lo, hi]. */
  lemma QuotientBetween(sum: int, count: int, lo: int, hi: int)
    requires 1 <= count && lo * count <= sum <= hi * count
    ensures lo <= sum / count <= hi
  {
    var q := sum / count;
    assert q * count <= sum < q * count + count;
    assert (lo - q - 1) * count < 0 by { assert (lo - q - 1) * count == lo * count - (q * count + count); }
    NegativeFactor(lo - q - 1, count);
    assert (q - hi) * count <= 0 by { assert (q - hi) * count == q * count - hi * count; }
    NonpositiveFactor(q - hi, count);
  }

  lemma NegativeFactor(a: int, c: int)
    requires 0 < c && a * c < 0
    ensures a < 0
  {
  }

  lemma NonpositiveFactor(a: int, c: int)
    requires 0 < c && a * c <= 0
    ensures a <= 0
  {
  }

  /** `static_cast<int>((n + 1.0) * 127.5)` of the perlin sample at (0.1 x, 0.1 y). */
  function NoiseHeight(perlin: (real, real) -> real, x: int, y: int): int
  {
    Trunc((perlin(x as real * 0.1, y as real * 0.1) + 1.0) * 127.5)
  }

  /** The value a cell is blended toward; smooth reads it from `g`, the grid before the call. */
  function Target(s: Stroke, g: Snapshot, w: int, h: int, x: int, y: int): int
    requires IsGrid(g, w, h) && InBounds(w, h, x, y)
  {
    match s
    case RaiseLower(bh, _) => bh
    case Smooth => NeighbourMean(g, w, h, x, y)
    case Flatten(fh) => fh
    case NoiseStamp(perlin) => NoiseHeight(perlin, x, y)
  }

  /** New value of cell (x, y) after one application of brush `s` of radius r >= 1 at an in-map centre. */
  function StrokeCell(s: Stroke, g: Snapshot, w: int, h: int, cx: int, cy: int, r: int, x: int, y: int): Byte
    requires IsGrid(g, w, h) && InBounds(w, h, x, y) && StrokeOk(s) && 1 <= r
  {
    if InDisk(x, y, cx, cy, r) then
      Blend(g[y][x], Target(s, g, w, h, x, y), DistSq(x, y, cx, cy), r * r, Factor(s))
    else g[y][x]
  }

  /** The grid after one call of brush `s` at (cx, cy) with slider radius `radius`. */
  function StrokeResult(s: Stroke, g: Snapshot, w: nat, h: nat, cx: int, cy: int, radius: int): (r: Snapshot)
    requires IsGrid(g, w, h) && StrokeOk(s)
    ensures IsGrid(r, w, h)
  {
    if !InBounds(w, h, cx, cy) then g
    else
      var rad := EffectiveRadius(radius);
      seq(h, y requires 0 <= y < h => seq(w, x requires 0 <= x < w => StrokeCell(s, g, w, h, cx, cy, rad, x, y)))
  }

  /** A disc cell lies in the box [cx - r, cx + r] x [cy - r, cy + r] the brushes loop over. */
  lemma DiskInBox(x: int, y: int, cx: int, cy: int, r: int)
    requires 0 <= r && InDisk(x, y, cx, cy, r)
    ensures cx - r <= x <= cx + r && cy - r <= y <= cy + r
  {
    var dx, dy := x - cx, y - cy;
    assert dx * dx <= r * r by { assert 0 <= dy * dy; }
    assert dy * dy <= r * r by { assert 0 <= dx * dx; }
    SquareGrows(dx, r);
    SquareGrows(-dx, r);
    SquareGrows(dy, r);
    SquareGrows(-dy, r);
  }

  lemma SquareGrows(a: int, r: int)
    ensures 0 <= r < a ==> r * r < a * a
  {
    if 0 <= r < a {
      assert r * r <= r * a < a * a;
    }
  }

  /**
   * A blend with weight in [0, 1] ends between the current value and the
   * target, so for two bytes the clamp never fires.
   */
  lemma BlendBetween(cur: int, target: int, distSq: int, rSq: int, factor: real)
    requires 0 <= distSq <= rSq && 0 < rSq && 0.0 <= factor <= 1.0
    ensures var b := RawBlend(cur, target, distSq, rSq, factor);
            (cur <= target ==> cur <= b <= target) && (target <= cur ==> target <= b <= cur)
    ensures 0 <= cur <= 255 && 0 <= target <= 255 ==>
              Blend(cur, target, distSq, rSq, factor) == RawBlend(cur, target, distSq, rSq, factor)
  {
    // the blend is one weighted step of weight a = (1 - distSq / rSq) * factor
    var t := 1.0 - distSq as real / rSq as real;
    var a := t * factor;
    var d := (target - cur) as real;
    var v := cur as real + d * a;
    assert cur as real + (target - cur) as real * (1.0 - distSq as real / rSq as real) * factor == v by {
      assert d * t * factor == d * (t * factor);
    }
    assert 0.0 <= a <= 1.0 by {
      RatioInUnit(distSq as real, rSq as real);
      ProductInUnit(t, factor);
    }
    // the step stays between cur and target, and so does its truncation
    if cur <= target {
      assert cur as real <= v <= target as real by {
        NonnegProduct(d, a);
        NonnegProduct(d, 1.0 - a);
      }
      TruncBetween(v, cur, target);
    }
    if target <= cur {
      assert target as real <= v <= cur as real by {
        NonnegProduct(-d, a);
        NonnegProduct(-d, 1.0 - a);
      }
      TruncBetween(v, target, cur);
    }
  }

  /**
   * One call of any brush whose target is a byte: every cell ends between its
   * old value and its target, and a cell that changed lies in the disc of
   * radius max(radius, 1) around an in-map centre and received exactly the
   * truncated blend, which therefore never needed the clamp.
   */
  lemma StrokeBounded(s: Stroke, g: Snapshot, w: nat, h: nat, cx: int, cy: int, radius: int, x: int, y: int)
    requires IsGrid(g, w, h) && StrokeOk(s) && InBounds(w, h, x, y)
    requires 0 <= Target(s, g, w, h, x, y) <= 255
    ensures var t := Target(s, g, w, h, x, y);
            var v := StrokeResult(s, g, w, h, cx, cy, radius)[y][x];
            (g[y][x] <= t ==> g[y][x] <= v <= t) && (t <= g[y][x] ==> t <= v <= g[y][x])
    ensures var v := StrokeResult(s, g, w, h, cx, cy, radius)[y][x];
            var rad := EffectiveRadius(radius);
            v != g[y][x] ==>
              InBounds(w, h, cx, cy) && InDisk(x, y, cx, cy, rad)
              && v == RawBlend(g[y][x], Target(s, g, w, h, x, y), DistSq(x, y, cx, cy), rad * rad, Factor(s))
  {
    if InBounds(w, h, cx, cy) {
      var rad := EffectiveRadius(radius);
      var r := StrokeResult(s, g, w, h, cx, cy, radius);
      assert r[y][x] == StrokeCell(s, g, w, h, cx, cy, rad, x, y);
      if InDisk(x, y, cx, cy, rad) {
        assert 0 <= DistSq(x, y, cx, cy) by {
          NonnegSquare(x - cx);
          NonnegSquare(y - cy);
        }
        BlendBetween(g[y][x], Target(s, g, w, h, x, y), DistSq(x, y, cx, cy), rad * rad, Factor(s));
      }
    }
  }

  lemma NonnegSquare(a: int)
    ensures 0 <= a * a
  {
    if a < 0 {
      assert a * a == (-a) * (-a);
    }
  }

  /**
   * The targets are bytes: the brush height and the flatten height come from
   * byte-ranged sliders, the neighbourhood mean of bytes is a byte, and a
   * perlin sample in [-1, 1] maps to [0, 255].
   */
  lemma TargetInRange(s: Stroke, g: Snapshot, w: nat, h: nat, x: int, y: int)
    requires IsGrid(g, w, h) && InBounds(w, h, x, y)
    requires s.RaiseLower? ==> 0 <= s.brushHeight <= 255
    requires s.Flatten? ==> 0 <= s.flattenHeight <= 255
    requires s.NoiseStamp? ==> -1.0 <= s.perlin(x as real * 0.1, y as real * 0.1) <= 1.0
    ensures 0 <= Target(s, g, w, h, x, y) <= 255
  {
    if s.NoiseStamp? {
      var n := s.perlin(x as real * 0.1, y as real * 0.1);
      NonnegProduct(n + 1.0, 127.5);
      NonnegProduct(1.0 - n, 127.5);
      TruncBetween((n + 1.0) * 127.5, 0, 255);
    }
  }

  // ---------------------------------------------------------------- the loops

  /** (i, j) is in columns minX..maxX and the row-major loops from row minY reached it before (x, y). */
  predicate Visited(i: int, j: int, minX: int, maxX: int, minY: int, x: int, y: int)
  {
    minX <= i <= maxX && minY <= j && (j < y || (j == y && i < x))
  }

  /** Part-way through a stroke: visited cells hold their stroke value, the others their value before the call. */
  predicate StrokeUpTo(s: Stroke, g: Snapshot, w: nat, h: nat, cx: int, cy: int, r: int,
                       minX: int, maxX: int, minY: int, x: int, y: int, cur: Snapshot)
    requires IsGrid(g, w, h) && IsGrid(cur, w, h) && StrokeOk(s) && 1 <= r
  {
    forall j, i :: 0 <= j < h && 0 <= i < w ==>
      cur[j][i] == if Visited(i, j, minX, maxX, minY, x, y) then StrokeCell(s, g, w, h, cx, cy, r, i, j) else g[j][i]
  }

  /**
   * The loops all four brushes run: over the box [cx - r, cx + r] x
   * [cy - r, cy + r] clipped to the map, each cell of the disc is blended
   * toward its target. The current value is read from the grid being
   * written (each cell is visited once, so it is still the old value);
   * smooth reads its neighbourhood from the copy taken before the loops.
   */
  method ApplyStroke(s: Stroke, g: Snapshot, w: nat, h: nat, cx: int, cy: int, radius: int) returns (r: Snapshot)
    requires IsGrid(g, w, h) && StrokeOk(s)
    ensures r == StrokeResult(s, g, w, h, cx, cy, radius)
  {
    var brushRadius := if radius < 1 then 1 else radius;
    var brushRadiusSq := brushRadius * brushRadius;
    if cx < 0 || cx >= w || cy < 0 || cy >= h {
      return g;
    }
    var minX := if 0 < cx - brushRadius then cx - brushRadius else 0;
    var maxX := if w - 1 < cx + brushRadius then w - 1 else cx + brushRadius;
    var minY := if 0 < cy - brushRadius then cy - brushRadius else 0;
    var maxY := if h - 1 < cy + brushRadius then h - 1 else cy + brushRadius;
    r := StrokeRows(s, g, w, h, cx, cy, brushRadius, minX, maxX, minY, maxY);
    StrokeDone(s, g, w, h, cx, cy, radius, minX, maxX, minY, maxY, r);
  }

  /** The outer loop of a stroke: rows minY..maxY, each read from the copy `tempData` of the map. */
  method StrokeRows(s: Stroke, g: Snapshot, w: nat, h: nat, cx: int, cy: int, brushRadius: int,
                    minX: int, maxX: int, minY: int, maxY: int) returns (r: Snapshot)
    requires IsGrid(g, w, h) && StrokeOk(s) && 1 <= brushRadius
    requires 0 <= minX <= maxX < w && 0 <= minY <= maxY < h
    ensures IsGrid(r, w, h) && StrokeUpTo(s, g, w, h, cx, cy, brushRadius, minX, maxX, minY, minX, maxY + 1, r)
  {
    var tempData := g;
    r := g;
    var y := minY;
    while y <= maxY
      invariant minY <= y <= maxY + 1
      invariant IsGrid(r, w, h) && StrokeUpTo(s, g, w, h, cx, cy, brushRadius, minX, maxX, minY, minX, y, r)
    {
      r := StrokeRow(s, tempData, w, h, cx, cy, brushRadius, minX, maxX, minY, y, r);
      RowDone(s, g, w, h, cx, cy, brushRadius, minX, maxX, minY, y, r);
      y := y + 1;
    }
  }

  /** The inner loop of a stroke: columns minX..maxX of row y. */
  method StrokeRow(s: Stroke, tempData: Snapshot, w: nat, h: nat, cx: int, cy: int, brushRadius: int,
                   minX: int, maxX: int, minY: int, y: int, cur: Snapshot) returns (r: Snapshot)
    requires IsGrid(tempData, w, h) && IsGrid(cur, w, h) && StrokeOk(s) && 1 <= brushRadius
    requires 0 <= minX <= maxX < w && 0 <= minY <= y < h
    requires StrokeUpTo(s, tempData, w, h, cx, cy, brushRadius, minX, maxX, minY, minX, y, cur)
    ensures IsGrid(r, w, h) && StrokeUpTo(s, tempData, w, h, cx, cy, brushRadius, minX, maxX, minY, maxX + 1, y, r)
  {
    var brushRadiusSq := brushRadius * brushRadius;
    r := cur;
    var x := minX;
    while x <= maxX
      invariant minX <= x <= maxX + 1
      invariant IsGrid(r, w, h) && StrokeUpTo(s, tempData, w, h, cx, cy, brushRadius, minX, maxX, minY, x, y, r)
    {
      StrokeStep(s, tempData, w, h, cx, cy, brushRadius, minX, maxX, minY, x, y, r);
      var distSq := (x - cx) * (x - cx) + (y - cy) * (y - cy);
      if distSq <= brushRadiusSq {
        var currentValue := r[y][x];
        var target := Target(s, tempData, w, h, x, y);
        r := Put(r, x, y, Blend(currentValue, target, distSq, brushRadiusSq, Factor(s)));
      }
      x := x + 1;
    }
  }

  /** One visit: the cell still holds its old value, and afterwards it holds its stroke value. */
  lemma StrokeStep(s: Stroke, g: Snapshot, w: nat, h: nat, cx: int, cy: int, r: int,
                   minX: int, maxX: int, minY: int, x: int, y: int, cur: Snapshot)
    requires IsGrid(g, w, h) && IsGrid(cur, w, h) && StrokeOk(s) && 1 <= r
    requires 0 <= minX <= x <= maxX < w && 0 <= minY <= y < h
    requires StrokeUpTo(s, g, w, h, cx, cy, r, minX, maxX, minY, x, y, cur)
    ensures cur[y][x] == g[y][x]
    ensures IsGrid(Put(cur, x, y, StrokeCell(s, g, w, h, cx, cy, r, x, y)), w, h)
    ensures StrokeUpTo(s, g, w, h, cx, cy, r, minX, maxX, minY, x + 1, y, Put(cur, x, y, StrokeCell(s, g, w, h, cx, cy, r, x, y)))
    ensures !InDisk(x, y, cx, cy, r) ==> StrokeUpTo(s, g, w, h, cx, cy, r, minX, maxX, minY, x + 1, y, cur)
  {
    assert !Visited(x, y, minX, maxX, minY, x, y);
  }

  /** The end of a row is the start of the next one. */
  lemma RowDone(s: Stroke, g: Snapshot, w: nat, h: nat, cx: int, cy: int, r: int,
                minX: int, maxX: int, minY: int, y: int, cur: Snapshot)
    requires IsGrid(g, w, h) && IsGrid(cur, w, h) && StrokeOk(s) && 1 <= r
    requires StrokeUpTo(s, g, w, h, cx, cy, r, minX, maxX, minY, maxX + 1, y, cur)
    ensures StrokeUpTo(s, g, w, h, cx, cy, r, minX, maxX, minY, minX, y + 1, cur)
  {
  }

  /** After the last row every cell outside the clipped box lies outside the disc, so the grid is the stroke's result. */
  lemma StrokeDone(s: Stroke, g: Snapshot, w: nat, h: nat, cx: int, cy: int, radius: int,
                   minX: int, maxX: int, minY: int, maxY: int, cur: Snapshot)
    requires IsGrid(g, w, h) && IsGrid(cur, w, h) && StrokeOk(s) && InBounds(w, h, cx, cy)
    requires var r := EffectiveRadius(radius);
             minX == (if 0 < cx - r then cx - r else 0) && maxX == (if w - 1 < cx + r then w - 1 else cx + r)
             && minY == (if 0 < cy - r then cy - r else 0) && maxY == (if h - 1 < cy + r then h - 1 else cy + r)
    requires StrokeUpTo(s, g, w, h, cx, cy, EffectiveRadius(radius), minX, maxX, minY, minX, maxY + 1, cur)
    ensures cur == StrokeResult(s, g, w, h, cx, cy, radius)
  {
    var r := EffectiveRadius(radius);
    var res := StrokeResult(s, g, w, h, cx, cy, radius);
    forall j, i | 0 <= j < h && 0 <= i < w
      ensures cur[j][i] == res[j][i]
    {
      if !Visited(i, j, minX, maxX, minY, minX, maxY + 1) && InDisk(i, j, cx, cy, r) {
        DiskInBox(i, j, cx, cy, r);
      }
    }
    forall j | 0 <= j < h
      ensures cur[j] == res[j]
    {
    }
  }
}
