/**
 * The height map's raster: `mapHeight` rows of `mapWidth` unsigned 8-bit
 * samples, indexed `[y][x]`, together with the numeric conversions the
 * editor applies when it writes a sample (C++ `static_cast<int>` of a
 * double, clamping to a byte, `std::ceil`).
 */
module Raster {

  /** One sample of the height map (`unsigned char`). */
  type Byte = v: int | 0 <= v < 256

  /** A deep copy of a height map: a sequence of rows, row `y` holding the samples `[y][x]`. */
  type Snapshot = seq<seq<Byte>>

  /** A value that may be absent: a failed parse, an unknown format, an empty file. */
  datatype Option<T> = None | Some(value: T)

  /** Bounds every map dimension must respect, and the fallback size. */
  const MinDim: int := 16
  const MaxDim: int := 4096
  const DefaultDim: int := 512

  /** Value of every sample of a freshly created map. */
  const CreateValue: Byte := 128

  /** `g` has exactly `h` rows of `w` samples. */
  predicate IsGrid(g: Snapshot, w: int, h: int)
  {
    |g| == h && forall y :: 0 <= y < |g| ==> |g[y]| == w
  }

  /** Every snapshot of an undo or redo stack has the map's size. */
  predicate AllGrids(s: seq<Snapshot>, w: int, h: int)
  {
    forall i :: 0 <= i < |s| ==> IsGrid(s[i], w, h)
  }

  /** Pushing a map of that size, popping the top or dropping the bottom keeps a stack uniform. */
  lemma AllGridsPushPop(s: seq<Snapshot>, g: Snapshot, w: int, h: int)
    requires AllGrids(s, w, h) && IsGrid(g, w, h)
    ensures AllGrids(s + [g], w, h)
    ensures |s| > 0 ==> IsGrid(s[|s| - 1], w, h) && AllGrids(s[..|s| - 1], w, h) && AllGrids(s[1..], w, h)
  {
    assert forall i :: 0 <= i < |s| ==> (s + [g])[i] == s[i];
  }

  /** The sample at (x, y), or 0 off the map (the mesh walks never leave it). */
  function At(g: Snapshot, x: int, y: int): int
  {
    if 0 <= y < |g| && 0 <= x < |g[y]| then g[y][x] else 0
  }

  /** Loop bound `n - 1` of the quad loops (no quads on an empty side). */
  function QuadSpan(n: nat): nat
  {
    if n == 0 then 0 else n - 1
  }

  predicate InBounds(w: int, h: int, x: int, y: int)
  {
    0 <= x < w && 0 <= y < h
  }

  /** A dimension pair the editor accepts (both sides in [16, 4096]). */
  predicate ValidDims(w: int, h: int)
  {
    MinDim <= w <= MaxDim && MinDim <= h <= MaxDim
  }

  /** The grid `heightMapData.assign(h, std::vector<unsigned char>(w, v))` builds. */
  function ConstGrid(w: nat, h: nat, v: Byte): (g: Snapshot)
    ensures IsGrid(g, w, h)
    ensures forall y, x :: 0 <= y < h && 0 <= x < w ==> g[y][x] == v
  {
    seq(h, _ => seq(w, _ => v))
  }

  /**
   * Map creation: a requested size outside [16, 4096] on either side is
   * replaced by 512 x 512, otherwise it is kept.
   */
  function CreateDims(w: int, h: int): (r: (int, int))
    ensures ValidDims(r.0, r.1)
    ensures r == (w, h) <==> ValidDims(w, h)
    ensures !ValidDims(w, h) ==> r == (DefaultDim, DefaultDim)
  {
    if w < MinDim || h < MinDim || w > MaxDim || h > MaxDim then (DefaultDim, DefaultDim) else (w, h)
  }

  /** `std::min(std::max(v, 0), 255)`. */
  function ClampByte(v: int): (b: Byte)
    ensures 0 <= v <= 255 ==> b == v
    ensures v < 0 ==> b == 0
    ensures 255 < v ==> b == 255
  {
    if v < 0 then 0 else if v > 255 then 255 else v
  }

  /** `static_cast<int>` of a double: truncation toward zero. */
  function Trunc(r: real): (n: int)
    ensures 0.0 <= r ==> n as real <= r < n as real + 1.0
    ensures r < 0.0 ==> n as real - 1.0 < r <= n as real
  {
    if r >= 0.0 then r.Floor else -((-r).Floor)
  }

  /** `std::ceil`. */
  function Ceil(r: real): (n: int)
    ensures r <= n as real < r + 1.0
  {
    -((-r).Floor)
  }

  /** Truncation of a value between two integers stays between them. */
  lemma TruncBetween(r: real, lo: int, hi: int)
    requires lo as real <= r <= hi as real
    ensures lo <= Trunc(r) <= hi
  {
    if r >= 0.0 {
      assert Trunc(r) == r.Floor;
    } else {
      assert Trunc(r) == -((-r).Floor);
    }
  }

  /** Real-arithmetic facts the solver does not find on its own. */
  lemma NonnegProduct(a: real, b: real)
    requires 0.0 <= a && 0.0 <= b
    ensures 0.0 <= a * b
  {
  }

  lemma RatioInUnit(a: real, b: real)
    requires 0.0 <= a <= b && 0.0 < b
    ensures 0.0 <= a / b <= 1.0
  {
    var q := a / b;
    assert q * b == a;
    if q < 0.0 { NonnegProduct(-q, b); }
    if q > 1.0 { NonnegProduct(q - 1.0, b); }
  }

  lemma ProductInUnit(t: real, f: real)
    requires 0.0 <= t <= 1.0 && 0.0 <= f <= 1.0
    ensures 0.0 <= t * f <= 1.0
  {
    NonnegProduct(t, f);
    NonnegProduct(1.0 - t, f);
  }

  /** The samples of a map stored in place, as a snapshot. */
  function Grid(a: array2<Byte>): (g: Snapshot)
    reads a
    ensures IsGrid(g, a.Length1, a.Length0)
    ensures forall y, x :: 0 <= y < a.Length0 && 0 <= x < a.Length1 ==> g[y][x] == a[y, x]
  {
    seq(a.Length0, y requires 0 <= y < a.Length0 reads a => seq(a.Length1, x requires 0 <= x < a.Length1 reads a => a[y, x]))
  }

  /** `g` with the sample at (x, y) replaced by `v`: `heightMapData[y][x] = v`. */
  function Put(g: Snapshot, x: int, y: int, v: Byte): (r: Snapshot)
    requires 0 <= y < |g| && 0 <= x < |g[y]|
    ensures |r| == |g| && forall j :: 0 <= j < |g| ==> |r[j]| == |g[j]|
    ensures forall j, i :: 0 <= j < |g| && 0 <= i < |g[j]| ==> r[j][i] == if j == y && i == x then v else g[j][i]
  {
    var row: seq<Byte> := g[y][x := v];
    g[y := row]
  }

  /** The w x h map whose sample at (x, y) is `f(x, y)`. */
  function Tabulate(w: nat, h: nat, f: (int, int) -> Byte): (g: Snapshot)
    ensures IsGrid(g, w, h)
    ensures forall y, x :: 0 <= y < h && 0 <= x < w ==> g[y][x] == f(x, y)
  {
    seq(h, y requires 0 <= y < h => seq(w, x requires 0 <= x < w => f(x, y)))
  }

  /**
   * Part-way through a row-major loop that writes `f(x, y)` into every
   * cell of `g`: rows above y and the cells left of x in row y are written,
   * the others still hold their value in `g`.
   */
  predicate WrittenUpTo(cur: Snapshot, g: Snapshot, w: nat, h: nat, f: (int, int) -> Byte, x: int, y: int)
    requires IsGrid(cur, w, h) && IsGrid(g, w, h)
  {
    forall j, i :: 0 <= j < h && 0 <= i < w ==> cur[j][i] == if j < y || (j == y && i < x) then f(i, j) else g[j][i]
  }

  /** Writing cell (x, y) moves the loop one cell on. */
  lemma WriteStep(cur: Snapshot, g: Snapshot, w: nat, h: nat, f: (int, int) -> Byte, x: int, y: int)
    requires IsGrid(cur, w, h) && IsGrid(g, w, h) && 0 <= x < w && 0 <= y < h
    requires WrittenUpTo(cur, g, w, h, f, x, y)
    ensures IsGrid(Put(cur, x, y, f(x, y)), w, h) && WrittenUpTo(Put(cur, x, y, f(x, y)), g, w, h, f, x + 1, y)
  {
  }

  /** The end of a row is the start of the next. */
  lemma WriteRowDone(cur: Snapshot, g: Snapshot, w: nat, h: nat, f: (int, int) -> Byte, y: int)
    requires IsGrid(cur, w, h) && IsGrid(g, w, h)
    requires WrittenUpTo(cur, g, w, h, f, w, y)
    ensures WrittenUpTo(cur, g, w, h, f, 0, y + 1)
  {
  }

  /** After the last row every cell is written. */
  lemma WriteDone(cur: Snapshot, g: Snapshot, w: nat, h: nat, f: (int, int) -> Byte)
    requires IsGrid(cur, w, h) && IsGrid(g, w, h)
    requires WrittenUpTo(cur, g, w, h, f, 0, h)
    ensures cur == Tabulate(w, h, f)
  {
    var t := Tabulate(w, h, f);
    forall j | 0 <= j < h
      ensures cur[j] == t[j]
    {
    }
  }
}
