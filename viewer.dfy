/**
 * The 3D preview (`OpenGLWidget`): its copy of the height map, the flat
 * vertex and index arrays it builds for the terrain and the water, the
 * painted colour map, and the camera fields the wheel and the keyboard
 * move. Floats are modelled as reals; the GPU upload, the shaders and the
 * screen-to-map ray cast are not part of this model.
 */
module Viewer {
  import opened Raster
  import opened RowMajor

  /** A `QColor`: invalid (default-constructed) or an RGBA colour with 8-bit channels. */
  datatype Color = InvalidColor | Rgba(r: Byte, g: Byte, b: Byte, a: Byte)

  /** `Qt::transparent` and `Qt::red`. */
  const Transparent: Color := Rgba(0, 0, 0, 0)
  const Red: Color := Rgba(255, 0, 0, 255)

  type ColorMap = seq<seq<Color>>

  /** `m` has exactly `h` rows of `w` colours. */
  predicate ColorGrid(m: ColorMap, w: int, h: int)
  {
    |m| == h && forall y :: 0 <= y < |m| ==> |m[y]| == w
  }

  /** `h` rows of `w` copies of `c`. */
  function ConstColors(w: nat, h: nat, c: Color): (m: ColorMap)
    ensures ColorGrid(m, w, h)
    ensures forall y, x :: 0 <= y < h && 0 <= x < w ==> m[y][x] == c
  {
    seq(h, _ => seq(w, _ => c))
  }

  // ---------------------------------------------------------------- terrain mesh

  /** `heightMapData[y][x] / 255.0f * 100.0f`: a sample as a height in [0, 100]. */
  function HeightOf(v: int): real
  {
    v as real / 255.0 * 100.0
  }

  /** The height colour bands of the unpainted terrain: water, sand, grass, rock, snow. */
  function Band(height: real): (real, real, real)
  {
    if height < 20.0 then (0.2, 0.4, 0.8)
    else if height < 40.0 then (0.76, 0.7, 0.5)
    else if height < 60.0 then (0.2, 0.6, 0.2)
    else if height < 80.0 then (0.5, 0.5, 0.5)
    else (1.0, 1.0, 1.0)
  }

  /** Band boundaries in sample terms: 51, 102, 153 and 204 are the first samples of each higher band. */
  lemma BandThresholds(v: Byte)
    ensures Band(HeightOf(v)) ==
              if v < 51 then (0.2, 0.4, 0.8)
              else if v < 102 then (0.76, 0.7, 0.5)
              else if v < 153 then (0.2, 0.6, 0.2)
              else if v < 204 then (0.5, 0.5, 0.5)
              else (1.0, 1.0, 1.0)
  {
    assert HeightOf(v) == v as real * 20.0 / 51.0;
  }

  /**
   * The colour map is used at (x, y) only when it has `h` rows, row y has
   * `w` colours and the colour there is valid.
   */
  predicate PaintedAt(m: ColorMap, w: int, h: int, x: int, y: int)
  {
    |m| > 0 && |m| == h && 0 <= y < |m| && |m[y]| > 0 && |m[y]| == w && 0 <= x < |m[y]| && m[y][x].Rgba?
  }

  /** `redF()`, `greenF()`, `blueF()`. */
  function Channels(c: Color): (real, real, real)
    requires c.Rgba?
  {
    (c.r as real / 255.0, c.g as real / 255.0, c.b as real / 255.0)
  }

  /** The colour of the vertex at (x, y): painted, else the height band. */
  function VertexColor(g: Snapshot, m: ColorMap, w: int, h: int, x: int, y: int): (real, real, real)
  {
    if PaintedAt(m, w, h, x, y) then Channels(m[y][x]) else Band(HeightOf(At(g, x, y)))
  }

  /** `static_cast<float>(i) / n`: a texture coordinate. */
  function TexCoord(i: int, n: nat): real
    requires 0 < n
  {
    i as real / n as real
  }

  /** The 8 floats of vertex (x, y): position, colour, texture coordinate. */
  function TerrainVertex(g: Snapshot, m: ColorMap, w: nat, h: nat, x: int, y: int): (r: seq<real>)
    requires 0 < w && 0 < h
    ensures |r| == 8
  {
    var c := VertexColor(g, m, w, h, x, y);
    [x as real, HeightOf(At(g, x, y)), y as real, c.0, c.1, c.2, TexCoord(x, w), TexCoord(y, h)]
  }

  function TerrainCell(g: Snapshot, m: ColorMap, w: nat, h: nat): (int, int) -> seq<real>
    requires 0 < w && 0 < h
  {
    (x, y) => TerrainVertex(g, m, w, h, x, y)
  }

  lemma TerrainCellLength(g: Snapshot, m: ColorMap, w: nat, h: nat)
    requires 0 < w && 0 < h
    ensures forall x, y :: |TerrainCell(g, m, w, h)(x, y)| == 8
  {
  }

  /** The vertex array `generateMesh` builds: one vertex per sample, row-major. */
  function TerrainVertices(g: Snapshot, m: ColorMap, w: nat, h: nat): seq<real>
  {
    if w == 0 || h == 0 then [] else Rows(w, h, TerrainCell(g, m, w, h))
  }

  /** The index of vertex (x, y) in a map of width w. */
  function VertexAt(w: int, x: int, y: int): int
  {
    y * w + x
  }

  /** Two triangles per quad: (TL, BL, TR) and (TR, BL, BR). */
  function Quad(w: nat, x: int, y: int): (r: seq<int>)
    ensures |r| == 6
  {
    var topLeft, bottomLeft := VertexAt(w, x, y), VertexAt(w, x, y + 1);
    [topLeft, bottomLeft, topLeft + 1, topLeft + 1, bottomLeft, bottomLeft + 1]
  }

  function QuadCell(w: nat): (int, int) -> seq<int>
  {
    (x, y) => Quad(w, x, y)
  }

  lemma QuadCellLength(w: nat)
    ensures forall x, y :: |QuadCell(w)(x, y)| == 6
  {
  }

  /** The index array `generateMesh` builds over the (w - 1) x (h - 1) quads. */
  function TerrainIndices(w: nat, h: nat): seq<int>
  {
    if w == 0 || h == 0 then [] else Rows(w - 1, h - 1, QuadCell(w))
  }

  /** The terrain has 8 floats per sample and 6 indices per quad. */
  lemma TerrainSizes(g: Snapshot, m: ColorMap, w: nat, h: nat)
    ensures |TerrainVertices(g, m, w, h)| == 8 * w * h
    ensures |TerrainIndices(w, h)| == 6 * QuadSpan(w) * QuadSpan(h)
  {
    if w > 0 && h > 0 {
      assert |TerrainVertices(g, m, w, h)| == 8 * w * h by {
        TerrainCellLength(g, m, w, h);
        RowsLength(w, h, TerrainCell(g, m, w, h), 8);
      }
      assert QuadSpan(w) == w - 1 && QuadSpan(h) == h - 1;
      assert |TerrainIndices(w, h)| == 6 * (w - 1) * (h - 1) by {
        QuadCellLength(w);
        RowsLength(w - 1, h - 1, QuadCell(w), 6);
      }
    }
  }

  /** The floats of vertex (x, y) sit at 8 * (y * w + x), in row-major order. */
  lemma TerrainVertexAt(g: Snapshot, m: ColorMap, w: nat, h: nat, x: nat, y: nat, j: nat)
    requires x < w && y < h && j < 8
    ensures var k := 8 * VertexAt(w, x, y) + j;
            0 <= k < |TerrainVertices(g, m, w, h)| && TerrainVertices(g, m, w, h)[k] == TerrainVertex(g, m, w, h, x, y)[j]
  {
    TerrainCellLength(g, m, w, h);
    CellAtUniform(w, h, x, y, TerrainCell(g, m, w, h), 8, j);
  }

  /** Every terrain index names a vertex: it lies in [0, w * h). */
  lemma TerrainIndicesInRange(w: nat, h: nat, e: int)
    requires e in TerrainIndices(w, h)
    ensures 0 <= e < w * h
  {
    var cell := QuadCell(w);
    var x, y := RowsMembers(w - 1, h - 1, cell, e);
    QuadCornersInRange(w, h, x, y);
  }

  lemma QuadCornersInRange(w: nat, h: nat, x: int, y: int)
    requires 0 <= x < w - 1 && 0 <= y < h - 1
    ensures 0 <= VertexAt(w, x, y) && VertexAt(w, x, y + 1) + 1 < w * h
  {
    assert VertexAt(w, x, y + 1) + 1 <= (h - 1) * w + (w - 1);
    assert (h - 1) * w + (w - 1) < w * h;
  }

  /** The quad at (x, y) is the run of six indices starting at 6 * (y * (w - 1) + x). */
  lemma TerrainQuadAt(w: nat, h: nat, x: nat, y: nat, j: nat)
    requires x < w - 1 && y < h - 1 && j < 6
    ensures var k := 6 * VertexAt(w - 1, x, y) + j;
            0 <= k < |TerrainIndices(w, h)| && TerrainIndices(w, h)[k] == Quad(w, x, y)[j]
  {
    QuadCellLength(w);
    CellAtUniform(w - 1, h - 1, x, y, QuadCell(w), 6, j);
  }

  /**
   * A fresh colour map is all `Qt::transparent`, which is a valid colour:
   * on a map painted nowhere yet every vertex takes the transparent
   * colour's channels, black, instead of its height band.
   */
  lemma TransparentCellsAreBlack(g: Snapshot, w: nat, h: nat, x: nat, y: nat)
    requires x < w && y < h
    ensures PaintedAt(ConstColors(w, h, Transparent), w, h, x, y)
    ensures VertexColor(g, ConstColors(w, h, Transparent), w, h, x, y) == (0.0, 0.0, 0.0)
  {
  }

  /** `generateMesh`'s two loops over a map with at least one sample. */
  method BuildTerrain(g: Snapshot, m: ColorMap, w: nat, h: nat) returns (vertices: seq<real>, indices: seq<int>)
    requires IsGrid(g, w, h) && 0 < w && 0 < h
    ensures vertices == TerrainVertices(g, m, w, h) && indices == TerrainIndices(w, h)
  {
    vertices := TerrainVertexPass(g, m, w, h);
    indices := TerrainIndexPass(w, h);
  }

  /** The vertex loop: 8 floats per sample, row by row. */
  method TerrainVertexPass(g: Snapshot, m: ColorMap, w: nat, h: nat) returns (vertices: seq<real>)
    requires IsGrid(g, w, h) && 0 < w && 0 < h
    ensures vertices == Rows(w, h, TerrainCell(g, m, w, h))
  {
    vertices := [];
    var y := 0;
    while y < h
      invariant 0 <= y <= h && vertices == Rows(w, y, TerrainCell(g, m, w, h))
    {
      vertices := TerrainVertexRow(g, m, w, h, y, vertices);
      y := y + 1;
    }
  }

  /** The inner vertex loop over row y. */
  method TerrainVertexRow(g: Snapshot, m: ColorMap, w: nat, h: nat, y: nat, cur: seq<real>) returns (vertices: seq<real>)
    requires IsGrid(g, w, h) && 0 < w && y < h && cur == Rows(w, y, TerrainCell(g, m, w, h))
    ensures vertices == Rows(w, y + 1, TerrainCell(g, m, w, h))
  {
    ghost var cell := TerrainCell(g, m, w, h);
    vertices := cur;
    assert vertices == Before(w, 0, y, cell) by {
      BeforeRowEnd(w, y, cell);
    }
    var x := 0;
    while x < w
      invariant 0 <= x <= w && vertices == Before(w, x, y, cell)
    {
      BeforeStep(w, x, y, cell);
      var height := HeightOf(g[y][x]);
      var c := VertexColor(g, m, w, h, x, y);
      vertices := vertices + [x as real, height, y as real];
      vertices := vertices + [c.0, c.1, c.2];
      vertices := vertices + [TexCoord(x, w), TexCoord(y, h)];
      x := x + 1;
    }
    assert Before(w, x, y, cell) == Rows(w, y + 1, cell) by {
      assert x == w;
      BeforeRowEnd(w, y, cell);
    }
  }

  /** The index loop: six indices per quad, row by row. */
  method TerrainIndexPass(w: nat, h: nat) returns (indices: seq<int>)
    requires 0 < w && 0 < h
    ensures indices == Rows(w - 1, h - 1, QuadCell(w))
  {
    indices := [];
    var y := 0;
    while y < h - 1
      invariant 0 <= y <= h - 1 && indices == Rows(w - 1, y, QuadCell(w))
    {
      indices := TerrainIndexRow(w, y, indices);
      y := y + 1;
    }
  }

  /** The inner index loop over the quads of row y. */
  method TerrainIndexRow(w: nat, y: nat, cur: seq<int>) returns (indices: seq<int>)
    requires 0 < w && cur == Rows(w - 1, y, QuadCell(w))
    ensures indices == Rows(w - 1, y + 1, QuadCell(w))
  {
    ghost var quads := QuadCell(w);
    indices := cur;
    assert indices == Before(w - 1, 0, y, quads) by {
      BeforeRowEnd(w - 1, y, quads);
    }
    var x := 0;
    while x < w - 1
      invariant 0 <= x <= w - 1 && indices == Before(w - 1, x, y, quads)
    {
      ghost var done := indices;
      var topLeft := VertexAt(w, x, y);
      var topRight := topLeft + 1;
      var bottomLeft := VertexAt(w, x, y + 1);
      var bottomRight := bottomLeft + 1;
      indices := indices + [topLeft, bottomLeft, topRight];
      indices := indices + [topRight, bottomLeft, bottomRight];
      assert indices == Before(w - 1, x + 1, y, quads) by {
        assert quads(x, y) == [topLeft, bottomLeft, topRight, topRight, bottomLeft, bottomRight];
        assert indices == done + quads(x, y);
        BeforeStep(w - 1, x, y, quads);
      }
      x := x + 1;
    }
    assert Before(w - 1, x, y, quads) == Rows(w - 1, y + 1, quads) by {
      assert x == w - 1;
      BeforeRowEnd(w - 1, y, quads);
    }
  }

  // ---------------------------------------------------------------- water mesh

  /** `waterColor`. */
  const WaterColor: (real, real, real) := (0.2, 0.4, 0.8)

  /** Some corner of quad (x, y) lies below the water level. */
  predicate Submerged(g: Snapshot, level: real, x: int, y: int)
  {
    HeightOf(At(g, x, y)) < level || HeightOf(At(g, x + 1, y)) < level
    || HeightOf(At(g, x + 1, y + 1)) < level || HeightOf(At(g, x, y + 1)) < level
  }

  /** The quads that get water, in row-major order. */
  function WaterQuadCell(g: Snapshot, level: real): (int, int) -> seq<(int, int)>
  {
    (x, y) => if Submerged(g, level, x, y) then [(x, y)] else []
  }

  function WaterQuads(g: Snapshot, level: real, w: nat, h: nat): seq<(int, int)>
  {
    Rows(QuadSpan(w), QuadSpan(h), WaterQuadCell(g, level))
  }

  /** One water vertex: the corner at the water level, in the water colour. */
  function WaterCorner(level: real, w: nat, h: nat, cx: int, cy: int): seq<real>
    requires 0 < w && 0 < h
  {
    [cx as real, level, cy as real, WaterColor.0, WaterColor.1, WaterColor.2, TexCoord(cx, w), TexCoord(cy, h)]
  }

  /** A water quad's four vertices: top-left, top-right, bottom-right, bottom-left. */
  function WaterQuadFloats(level: real, w: nat, h: nat, x: int, y: int): (r: seq<real>)
    requires 0 < w && 0 < h
    ensures |r| == 32
  {
    WaterCorner(level, w, h, x, y) + WaterCorner(level, w, h, x + 1, y)
    + WaterCorner(level, w, h, x + 1, y + 1) + WaterCorner(level, w, h, x, y + 1)
  }

  /** The vertices of the quads `qs`, four per quad, in the order of `qs`. */
  function QuadsFloats(level: real, w: nat, h: nat, qs: seq<(int, int)>): (r: seq<real>)
    requires 0 < w && 0 < h
    ensures |r| == 32 * |qs|
  {
    if qs == [] then []
    else
      var last := qs[|qs| - 1];
      QuadsFloats(level, w, h, qs[..|qs| - 1]) + WaterQuadFloats(level, w, h, last.0, last.1)
  }

  /** The water vertex array: the four corners of every water quad, in row-major order. */
  function WaterVertices(g: Snapshot, level: real, w: nat, h: nat): seq<real>
  {
    if w == 0 || h == 0 then [] else QuadsFloats(level, w, h, WaterQuads(g, level, w, h))
  }

  /** One more water quad appends its four vertices. */
  lemma QuadsFloatsSnoc(level: real, w: nat, h: nat, qs: seq<(int, int)>, x: int, y: int)
    requires 0 < w && 0 < h
    ensures QuadsFloats(level, w, h, qs + [(x, y)]) == QuadsFloats(level, w, h, qs) + WaterQuadFloats(level, w, h, x, y)
  {
    assert (qs + [(x, y)])[..|qs|] == qs;
  }

  /** The water index array for q quads: (k, k+1, k+2), (k, k+2, k+3) with k = 4 * quad. */
  function IndexRun(q: nat): seq<int>
  {
    if q == 0 then []
    else
      var k := 4 * (q - 1);
      IndexRun(q - 1) + [k, k + 1, k + 2, k, k + 2, k + 3]
  }

  /** q quads have 6 q indices, each naming one of their 4 q vertices. */
  lemma {:induction false} IndexRunFacts(q: nat)
    ensures |IndexRun(q)| == 6 * q
    ensures forall i :: 0 <= i < |IndexRun(q)| ==> 0 <= IndexRun(q)[i] < 4 * q
  {
    if q > 0 {
      IndexRunFacts(q - 1);
    }
  }

  /** Quad k's six indices sit at 6 k and name its own four vertices 4 k .. 4 k + 3. */
  lemma {:induction false} IndexRunAt(q: nat, k: nat)
    requires k < q
    ensures 6 * k + 6 <= |IndexRun(q)|
    ensures IndexRun(q)[6 * k..6 * k + 6] == [4 * k, 4 * k + 1, 4 * k + 2, 4 * k, 4 * k + 2, 4 * k + 3]
  {
    var last := 4 * (q - 1);
    var pre, quad := IndexRun(q - 1), [last, last + 1, last + 2, last, last + 2, last + 3];
    assert IndexRun(q) == pre + quad;
    assert |pre| == 6 * (q - 1) by {
      IndexRunFacts(q - 1);
    }
    if k < q - 1 {
      IndexRunAt(q - 1, k);
      assert (pre + quad)[6 * k..6 * k + 6] == pre[6 * k..6 * k + 6];
    } else {
      assert (pre + quad)[|pre|..|pre| + |quad|] == quad;
    }
  }

  /** Appending the six indices of the quad whose first vertex is k = 4 n. */
  lemma IndexRunStep(n: nat, k: int)
    requires k == 4 * n
    ensures IndexRun(n + 1) == IndexRun(n) + [k, k + 1, k + 2, k, k + 2, k + 3]
  {
  }

  /** The water index array. */
  function WaterIndices(g: Snapshot, level: real, w: nat, h: nat): seq<int>
  {
    IndexRun(|WaterQuads(g, level, w, h)|)
  }

  /**
   * For q water quads there are 32 q floats and 6 q indices, and every
   * index is below 4 q.
   */
  lemma WaterSizes(g: Snapshot, level: real, w: nat, h: nat)
    ensures var q := |WaterQuads(g, level, w, h)|;
            |WaterVertices(g, level, w, h)| == 32 * q && |WaterIndices(g, level, w, h)| == 6 * q
            && forall i :: 0 <= i < 6 * q ==> 0 <= WaterIndices(g, level, w, h)[i] < 4 * q
  {
    var q := |WaterQuads(g, level, w, h)|;
    if w == 0 || h == 0 {
      assert q == 0 by {
        WaterCellsAtMostOne(g, level);
        RowsAtMost(QuadSpan(w), QuadSpan(h), WaterQuadCell(g, level), 1);
      }
    }
    IndexRunFacts(q);
  }

  lemma WaterCellsAtMostOne(g: Snapshot, level: real)
    ensures forall x, y :: |WaterQuadCell(g, level)(x, y)| <= 1
  {
  }

  /** A quad gets water exactly when it is a quad of the map and some corner lies below the level. */
  lemma WaterQuadsExact(g: Snapshot, level: real, w: nat, h: nat, x: int, y: int)
    ensures (x, y) in WaterQuads(g, level, w, h) <==> 0 <= x < QuadSpan(w) && 0 <= y < QuadSpan(h) && Submerged(g, level, x, y)
  {
    var cell := WaterQuadCell(g, level);
    if (x, y) in WaterQuads(g, level, w, h) {
      var i, j := RowsMembers(QuadSpan(w), QuadSpan(h), cell, (x, y));
    }
    if 0 <= x < QuadSpan(w) && 0 <= y < QuadSpan(h) && Submerged(g, level, x, y) {
      CellAt(QuadSpan(w), QuadSpan(h), x, y, cell, 0);
    }
  }

  /** `generateWaterMesh`'s loop over the quads of a map with at least one sample. */
  method BuildWater(g: Snapshot, level: real, w: nat, h: nat) returns (waterVertices: seq<real>, waterIndices: seq<int>)
    requires IsGrid(g, w, h) && 0 < w && 0 < h
    ensures waterVertices == WaterVertices(g, level, w, h) && waterIndices == WaterIndices(g, level, w, h)
  {
    waterVertices, waterIndices := [], [];
    var vertexIndex := 0;
    var y := 0;
    while y < h - 1
      invariant 0 <= y <= h - 1
      invariant waterVertices == QuadsFloats(level, w, h, Rows(w - 1, y, WaterQuadCell(g, level)))
      invariant waterIndices == IndexRun(|Rows(w - 1, y, WaterQuadCell(g, level))|)
      invariant vertexIndex == 4 * |Rows(w - 1, y, WaterQuadCell(g, level))|
    {
      waterVertices, waterIndices, vertexIndex := WaterRow(g, level, w, h, y, waterVertices, waterIndices, vertexIndex);
      y := y + 1;
    }
    assert WaterQuads(g, level, w, h) == Rows(w - 1, y, WaterQuadCell(g, level)) by {
      assert y == h - 1 && QuadSpan(w) == w - 1 && QuadSpan(h) == h - 1;
    }
  }

  /** `generateWaterMesh`'s test on the four corner heights of an in-range quad. */
  method QuadUnderwater(g: Snapshot, level: real, w: nat, h: nat, x: nat, y: nat) returns (wet: bool)
    requires IsGrid(g, w, h) && x < w - 1 && y < h - 1
    ensures wet == Submerged(g, level, x, y)
  {
    var h1 := HeightOf(g[y][x]);
    var h2 := HeightOf(g[y][x + 1]);
    var h3 := HeightOf(g[y + 1][x + 1]);
    var h4 := HeightOf(g[y + 1][x]);
    wet := h1 < level || h2 < level || h3 < level || h4 < level;
  }

  /** Quad (x, y) joins the water quads exactly when it is submerged, adding its vertices and indices. */
  lemma QuadStep(g: Snapshot, level: real, w: nat, h: nat, x: nat, y: nat)
    requires 0 < w && 0 < h
    ensures var done, next := Before(w - 1, x, y, WaterQuadCell(g, level)), Before(w - 1, x + 1, y, WaterQuadCell(g, level));
            Submerged(g, level, x, y) ==>
              QuadsFloats(level, w, h, next) == QuadsFloats(level, w, h, done) + WaterQuadFloats(level, w, h, x, y)
              && |next| == |done| + 1
    ensures !Submerged(g, level, x, y) ==> Before(w - 1, x + 1, y, WaterQuadCell(g, level)) == Before(w - 1, x, y, WaterQuadCell(g, level))
  {
    var done, next := Before(w - 1, x, y, WaterQuadCell(g, level)), Before(w - 1, x + 1, y, WaterQuadCell(g, level));
    if Submerged(g, level, x, y) {
      assert next == done + [(x, y)] by {
        BeforeStep(w - 1, x, y, WaterQuadCell(g, level));
      }
      QuadsFloatsSnoc(level, w, h, done, x, y);
    } else {
      BeforeStep(w - 1, x, y, WaterQuadCell(g, level));
    }
  }

  /** The inner water loop over the quads of row y. */
  method WaterRow(g: Snapshot, level: real, w: nat, h: nat, y: nat, curVertices: seq<real>, curIndices: seq<int>, k: int)
    returns (waterVertices: seq<real>, waterIndices: seq<int>, vertexIndex: int)
    requires IsGrid(g, w, h) && 0 < w && y < h - 1
    requires curVertices == QuadsFloats(level, w, h, Rows(w - 1, y, WaterQuadCell(g, level)))
    requires curIndices == IndexRun(|Rows(w - 1, y, WaterQuadCell(g, level))|)
    requires k == 4 * |Rows(w - 1, y, WaterQuadCell(g, level))|
    ensures waterVertices == QuadsFloats(level, w, h, Rows(w - 1, y + 1, WaterQuadCell(g, level)))
    ensures waterIndices == IndexRun(|Rows(w - 1, y + 1, WaterQuadCell(g, level))|)
    ensures vertexIndex == 4 * |Rows(w - 1, y + 1, WaterQuadCell(g, level))|
  {
    ghost var quads := WaterQuadCell(g, level);
    waterVertices, waterIndices, vertexIndex := curVertices, curIndices, k;
    assert Before(w - 1, 0, y, quads) == Rows(w - 1, y, quads) by {
      BeforeRowEnd(w - 1, y, quads);
    }
    var x := 0;
    while x < w - 1
      invariant 0 <= x <= w - 1
      invariant waterVertices == QuadsFloats(level, w, h, Before(w - 1, x, y, quads))
      invariant waterIndices == IndexRun(|Before(w - 1, x, y, quads)|)
      invariant vertexIndex == 4 * |Before(w - 1, x, y, quads)|
    {
      waterVertices, waterIndices, vertexIndex := WaterQuad(g, level, w, h, x, y, waterVertices, waterIndices, vertexIndex);
      x := x + 1;
    }
    assert Before(w - 1, x, y, quads) == Rows(w - 1, y + 1, quads) by {
      assert x == w - 1;
      BeforeRowEnd(w - 1, y, quads);
    }
  }

  /** The body of the inner water loop: quad (x, y) gets its four vertices and six indices when it is submerged. */
  method WaterQuad(g: Snapshot, level: real, w: nat, h: nat, x: nat, y: nat, curVertices: seq<real>, curIndices: seq<int>, k: int)
    returns (waterVertices: seq<real>, waterIndices: seq<int>, vertexIndex: int)
    requires IsGrid(g, w, h) && x < w - 1 && y < h - 1
    requires curVertices == QuadsFloats(level, w, h, Before(w - 1, x, y, WaterQuadCell(g, level)))
    requires curIndices == IndexRun(|Before(w - 1, x, y, WaterQuadCell(g, level))|)
    requires k == 4 * |Before(w - 1, x, y, WaterQuadCell(g, level))|
    ensures waterVertices == QuadsFloats(level, w, h, Before(w - 1, x + 1, y, WaterQuadCell(g, level)))
    ensures waterIndices == IndexRun(|Before(w - 1, x + 1, y, WaterQuadCell(g, level))|)
    ensures vertexIndex == 4 * |Before(w - 1, x + 1, y, WaterQuadCell(g, level))|
  {
    ghost var done := Before(w - 1, x, y, WaterQuadCell(g, level));
    QuadStep(g, level, w, h, x, y);
    waterVertices, waterIndices, vertexIndex := curVertices, curIndices, k;
    var wet := QuadUnderwater(g, level, w, h, x, y);
    if wet {
      IndexRunStep(|done|, k);
      var quad := WaterCorner(level, w, h, x, y) + WaterCorner(level, w, h, x + 1, y)
                  + WaterCorner(level, w, h, x + 1, y + 1) + WaterCorner(level, w, h, x, y + 1);
      assert quad == WaterQuadFloats(level, w, h, x, y);
      waterVertices := waterVertices + quad;
      waterIndices := waterIndices + [k, k + 1, k + 2, k, k + 2, k + 3];
      vertexIndex := k + 4;
    }
  }

  // ---------------------------------------------------------------- colour map

  /** `r` is `m` with (x, y) set to `c`. */
  function PutColor(m: ColorMap, x: int, y: int, c: Color): (r: ColorMap)
    requires 0 <= y < |m| && 0 <= x < |m[y]|
    ensures |r| == |m| && forall j :: 0 <= j < |m| ==> |r[j]| == |m[j]|
    ensures forall j, i :: 0 <= j < |m| && 0 <= i < |m[j]| ==> r[j][i] == if j == y && i == x then c else m[j][i]
  {
    m[y := m[y][x := c]]
  }

  /** The row-by-row build of a transparent colour map. */
  method TransparentRows(w: nat, h: nat) returns (m: ColorMap)
    ensures m == ConstColors(w, h, Transparent)
  {
    m := [];
    var y := 0;
    while y < h
      invariant 0 <= y <= h && m == ConstColors(w, y, Transparent)
    {
      var row: seq<Color> := [];
      var x := 0;
      while x < w
        invariant 0 <= x <= w && row == seq(x, _ => Transparent)
      {
        row := row + [Transparent];
        x := x + 1;
      }
      m := m + [row];
      y := y + 1;
    }
  }

  /** (dx, dy) lies within Euclidean distance r of the origin. */
  predicate WithinRadius(dx: int, dy: int, r: int)
  {
    0 <= r && dx * dx + dy * dy <= r * r
  }

  /** An offset within the radius lies in the brush's square. */
  lemma WithinSquare(dx: int, dy: int, r: int)
    requires WithinRadius(dx, dy, r)
    ensures -r <= dx <= r && -r <= dy <= r
  {
    SquareBound(dx, r);
    SquareBound(dy, r);
  }

  lemma SquareBound(a: int, r: int)
    requires 0 <= r
    ensures a * a <= r * r ==> -r <= a <= r
  {
    if a > r {
      SquareGrows(a, r);
    } else if a < -r {
      SquareGrows(-a, r);
    }
  }

  lemma SquareGrows(a: int, r: int)
    requires 0 <= r < a
    ensures a * a > r * r
  {
  }

  /** The stamp has visited offset (dx, dy) once the loops reached (atX, atY). */
  predicate StampVisited(dx: int, dy: int, atX: int, atY: int)
  {
    dy < atY || (dy == atY && dx < atX)
  }

  /** The cells of `m` the stamp has set so far: in the map, within the radius and visited. */
  predicate StampUpTo(m: ColorMap, cur: ColorMap, w: int, h: int, cx: int, cz: int, r: int, c: Color, atX: int, atY: int)
    requires ColorGrid(m, w, h) && ColorGrid(cur, w, h)
  {
    forall z, x :: 0 <= z < h && 0 <= x < w ==>
      cur[z][x] == if WithinRadius(x - cx, z - cz, r) && StampVisited(x - cx, z - cz, atX, atY) then c else m[z][x]
  }

  /**
   * The stamp of `applyTextureBrush` around (cx, cz): exactly the map cells
   * within distance r of the centre take colour c, every other cell keeps
   * its colour.
   */
  method Stamp(m: ColorMap, w: nat, h: nat, cx: int, cz: int, r: int, c: Color) returns (res: ColorMap)
    requires ColorGrid(m, w, h)
    ensures ColorGrid(res, w, h)
    ensures forall z, x :: 0 <= z < h && 0 <= x < w ==>
              res[z][x] == if WithinRadius(x - cx, z - cz, r) then c else m[z][x]
  {
    res := m;
    var dy := -r;
    StampStart(m, w, h, cx, cz, r, c);
    while dy <= r
      invariant ColorGrid(res, w, h)
      invariant -r <= dy || r < 0
      invariant StampUpTo(m, res, w, h, cx, cz, r, c, -r, dy)
    {
      res := StampRow(m, w, h, cx, cz, r, c, dy, res);
      dy := dy + 1;
    }
    StampDone(m, res, w, h, cx, cz, r, c, dy);
  }

  /** Before the first row of the square no cell within the radius has been visited. */
  lemma StampStart(m: ColorMap, w: nat, h: nat, cx: int, cz: int, r: int, c: Color)
    requires ColorGrid(m, w, h)
    ensures StampUpTo(m, m, w, h, cx, cz, r, c, -r, -r)
  {
    forall z, x | 0 <= z < h && 0 <= x < w
      ensures m[z][x] == if WithinRadius(x - cx, z - cz, r) && StampVisited(x - cx, z - cz, -r, -r) then c else m[z][x]
    {
      if WithinRadius(x - cx, z - cz, r) {
        WithinSquare(x - cx, z - cz, r);
      }
    }
  }

  /** Past the last row of the square every cell within the radius has been visited. */
  lemma StampDone(m: ColorMap, cur: ColorMap, w: nat, h: nat, cx: int, cz: int, r: int, c: Color, dy: int)
    requires ColorGrid(m, w, h) && ColorGrid(cur, w, h) && r < dy
    requires StampUpTo(m, cur, w, h, cx, cz, r, c, -r, dy)
    ensures forall z, x :: 0 <= z < h && 0 <= x < w ==>
              cur[z][x] == if WithinRadius(x - cx, z - cz, r) then c else m[z][x]
  {
    forall z, x | 0 <= z < h && 0 <= x < w
      ensures cur[z][x] == if WithinRadius(x - cx, z - cz, r) then c else m[z][x]
    {
      if WithinRadius(x - cx, z - cz, r) {
        WithinSquare(x - cx, z - cz, r);
      }
    }
  }

  /** Past the end of row dy of the square, the visited cells are those of the rows up to dy. */
  lemma StampRowDone(m: ColorMap, cur: ColorMap, w: nat, h: nat, cx: int, cz: int, r: int, c: Color, dx: int, dy: int)
    requires ColorGrid(m, w, h) && ColorGrid(cur, w, h) && r < dx
    requires StampUpTo(m, cur, w, h, cx, cz, r, c, dx, dy)
    ensures StampUpTo(m, cur, w, h, cx, cz, r, c, -r, dy + 1)
  {
    forall z, x | 0 <= z < h && 0 <= x < w
      ensures cur[z][x] == if WithinRadius(x - cx, z - cz, r) && StampVisited(x - cx, z - cz, -r, dy + 1) then c else m[z][x]
    {
      if WithinRadius(x - cx, z - cz, r) {
        WithinSquare(x - cx, z - cz, r);
      }
    }
  }

  /** The inner loop of the stamp: row dy of the brush square. */
  method StampRow(m: ColorMap, w: nat, h: nat, cx: int, cz: int, r: int, c: Color, dy: int, cur: ColorMap) returns (res: ColorMap)
    requires ColorGrid(m, w, h) && ColorGrid(cur, w, h) && -r <= dy <= r
    requires StampUpTo(m, cur, w, h, cx, cz, r, c, -r, dy)
    ensures ColorGrid(res, w, h) && StampUpTo(m, res, w, h, cx, cz, r, c, -r, dy + 1)
  {
    res := cur;
    var dx := -r;
    while dx <= r
      invariant -r <= dx <= r + 1
      invariant ColorGrid(res, w, h) && StampUpTo(m, res, w, h, cx, cz, r, c, dx, dy)
    {
      var x := cx + dx;
      var z := cz + dy;
      if x >= 0 && x < w && z >= 0 && z < h {
        if WithinRadius(dx, dy, r) {
          res := PutColor(res, x, z, c);
        }
      }
      dx := dx + 1;
    }
    StampRowDone(m, res, w, h, cx, cz, r, c, dx, dy);
  }

  // ---------------------------------------------------------------- camera

  /** `zoom` after a wheel turn of `delta` eighths of a degree: one step per 120, clamped to [1, 20]. */
  function ZoomAfter(zoom: real, delta: int): (z: real)
    ensures 1.0 <= z <= 20.0
    ensures 1.0 <= zoom - delta as real / 120.0 <= 20.0 ==> z == zoom - delta as real / 120.0
    ensures zoom - delta as real / 120.0 < 1.0 ==> z == 1.0
    ensures zoom - delta as real / 120.0 > 20.0 ==> z == 20.0
  {
    var z := zoom - delta as real / 120.0;
    if z < 1.0 then 1.0 else if z > 20.0 then 20.0 else z
  }

  datatype Key = KeyUp | KeyW | KeyDown | KeyS | KeyLeft | KeyA | KeyRight | KeyD | KeyE | KeyQ | KeyR | OtherKey

  datatype Camera = Camera(x: real, y: real, z: real)

  /** The camera after a key; `None` for a key the widget passes on to its base class. */
  function CameraAfter(key: Key, cam: Camera, moveSpeed: real): Option<Camera>
  {
    match key
    case KeyUp => Some(cam.(z := cam.z + moveSpeed))
    case KeyW => Some(cam.(z := cam.z + moveSpeed))
    case KeyDown => Some(cam.(z := cam.z - moveSpeed))
    case KeyS => Some(cam.(z := cam.z - moveSpeed))
    case KeyLeft => Some(cam.(x := cam.x - moveSpeed))
    case KeyA => Some(cam.(x := cam.x - moveSpeed))
    case KeyRight => Some(cam.(x := cam.x + moveSpeed))
    case KeyD => Some(cam.(x := cam.x + moveSpeed))
    case KeyE => Some(cam.(y := cam.y + moveSpeed))
    case KeyQ => Some(cam.(y := cam.y - moveSpeed))
    case KeyR => Some(Camera(0.0, 0.0, 0.0))
    case OtherKey => None
  }

  /**
   * R resets the camera; every other handled key moves exactly one axis by
   * `moveSpeed`, and a key and its opposite cancel out.
   */
  lemma CameraKeys(key: Key, cam: Camera, moveSpeed: real)
    ensures CameraAfter(key, cam, moveSpeed).None? <==> key == OtherKey
    ensures key == KeyR ==> CameraAfter(key, cam, moveSpeed) == Some(Camera(0.0, 0.0, 0.0))
    ensures key != KeyR && key != OtherKey ==>
              var c := CameraAfter(key, cam, moveSpeed).value;
              var moved := (if c.x != cam.x then 1 else 0) + (if c.y != cam.y then 1 else 0) + (if c.z != cam.z then 1 else 0);
              (moveSpeed != 0.0 ==> moved == 1)
              && (c.x - cam.x) * (c.x - cam.x) + (c.y - cam.y) * (c.y - cam.y) + (c.z - cam.z) * (c.z - cam.z) == moveSpeed * moveSpeed
    ensures CameraAfter(KeyS, CameraAfter(KeyW, cam, moveSpeed).value, moveSpeed) == Some(cam)
    ensures CameraAfter(KeyD, CameraAfter(KeyA, cam, moveSpeed).value, moveSpeed) == Some(cam)
    ensures CameraAfter(KeyQ, CameraAfter(KeyE, cam, moveSpeed).value, moveSpeed) == Some(cam)
  {
  }

  // ---------------------------------------------------------------- the widget

  class OpenGLWidget {
    var heightMapData: Snapshot
    var mapWidth: int
    var mapHeight: int
    var vertices: seq<real>
    var indices: seq<int>
    var waterVertices: seq<real>
    var waterIndices: seq<int>
    var waterLevel: real
    var colorMap: ColorMap
    var texturePaintMode: bool
    var textureBrushSize: int
    var currentPaintColor: Color
    var zoom: real
    var cameraX: real
    var cameraY: real
    var cameraZ: real
    var moveSpeed: real

    /**
     * The copy of the map has the stored size (0 x 0 before the first
     * map), a non-empty colour map has the map's size while paint mode is
     * on, there is no colour map without a map, and the zoom is in [1, 20].
     */
    predicate Valid()
      reads this
    {
      IsGrid(heightMapData, mapWidth, mapHeight)
      && 0 <= mapWidth && (mapWidth == 0 <==> mapHeight == 0)
      && (mapWidth == 0 ==> colorMap == [])
      && (colorMap != [] ==> ColorGrid(colorMap, |colorMap[0]|, |colorMap|))
      && (texturePaintMode && colorMap != [] ==> ColorGrid(colorMap, mapWidth, mapHeight))
      && 1.0 <= zoom <= 20.0
    }

    /** The four arrays the GPU buffers are filled from. */
    function Meshes(): (seq<real>, seq<int>, seq<real>, seq<int>)
      reads this
    {
      (vertices, indices, waterVertices, waterIndices)
    }

    /** The arrays `generateMesh` and `generateWaterMesh` build from the stored map. */
    function BuiltMeshes(): (seq<real>, seq<int>, seq<real>, seq<int>)
      requires Valid()
      reads this
    {
      (TerrainVertices(heightMapData, colorMap, mapWidth, mapHeight), TerrainIndices(mapWidth, mapHeight),
       WaterVertices(heightMapData, waterLevel, mapWidth, mapHeight), WaterIndices(heightMapData, waterLevel, mapWidth, mapHeight))
    }

    function CameraOf(): Camera
      reads this
    {
      Camera(cameraX, cameraY, cameraZ)
    }

    /** The constructor and the header's initialisers. */
    constructor()
      ensures Valid() && heightMapData == [] && mapWidth == 0 && mapHeight == 0 && colorMap == []
      ensures vertices == [] && indices == [] && waterVertices == [] && waterIndices == []
      ensures zoom == 4.0 && CameraOf() == Camera(0.0, 0.0, 0.0) && moveSpeed == 5.0 && waterLevel == 50.0
      ensures !texturePaintMode && textureBrushSize == 20 && currentPaintColor == Red
    {
      heightMapData, mapWidth, mapHeight := [], 0, 0;
      vertices, indices, waterVertices, waterIndices := [], [], [], [];
      waterLevel := 50.0;
      colorMap := [];
      texturePaintMode := false;
      textureBrushSize := 20;
      currentPaintColor := Red;
      zoom := 4.0;
      cameraX, cameraY, cameraZ := 0.0, 0.0, 0.0;
      moveSpeed := 5.0;
    }

    /** `generateMesh`: the arrays are cleared, then rebuilt when there is a map. */
    method GenerateMesh()
      requires Valid()
      modifies this`vertices, this`indices
      ensures vertices == TerrainVertices(heightMapData, colorMap, mapWidth, mapHeight)
      ensures indices == TerrainIndices(mapWidth, mapHeight)
    {
      vertices, indices := [], [];
      if heightMapData == [] || mapWidth == 0 || mapHeight == 0 {
        return;
      }
      vertices, indices := BuildTerrain(heightMapData, colorMap, mapWidth, mapHeight);
    }

    /** `generateWaterMesh`. */
    method GenerateWaterMesh()
      requires Valid()
      modifies this`waterVertices, this`waterIndices
      ensures waterVertices == WaterVertices(heightMapData, waterLevel, mapWidth, mapHeight)
      ensures waterIndices == WaterIndices(heightMapData, waterLevel, mapWidth, mapHeight)
    {
      waterVertices, waterIndices := [], [];
      if mapWidth <= 0 || mapHeight <= 0 || heightMapData == [] {
        return;
      }
      waterVertices, waterIndices := BuildWater(heightMapData, waterLevel, mapWidth, mapHeight);
    }

    /** `setWaterLevel`: the water mesh is rebuilt at the new level. */
    method SetWaterLevel(level: real)
      requires Valid()
      modifies this`waterLevel, this`waterVertices, this`waterIndices
      ensures Valid() && waterLevel == level
      ensures waterVertices == WaterVertices(heightMapData, level, mapWidth, mapHeight)
      ensures waterIndices == WaterIndices(heightMapData, level, mapWidth, mapHeight)
    {
      waterLevel := level;
      GenerateWaterMesh();
    }

    /**
     * `setHeightMapData` for a rectangular map (`glReady` is whether the GL
     * context exists yet): an empty map or an empty first row changes
     * nothing; otherwise the map is copied, its size taken from it, the
     * colour map reset to transparent in paint mode, and both meshes rebuilt
     * when the context is ready.
     */
    method SetHeightMapData(data: Snapshot, glReady: bool)
      requires Valid()
      requires |data| > 0 ==> IsGrid(data, |data[0]|, |data|)
      modifies this`heightMapData, this`mapWidth, this`mapHeight, this`colorMap,
               this`vertices, this`indices, this`waterVertices, this`waterIndices
      ensures Valid()
      ensures |data| == 0 || |data[0]| == 0 ==>
                heightMapData == old(heightMapData) && mapWidth == old(mapWidth) && mapHeight == old(mapHeight)
                && colorMap == old(colorMap) && Meshes() == old(Meshes())
      ensures |data| > 0 && |data[0]| > 0 ==>
                heightMapData == data && mapHeight == |data| && mapWidth == |data[0]|
                && colorMap == (if texturePaintMode then ConstColors(mapWidth, mapHeight, Transparent) else old(colorMap))
                && Meshes() == if glReady then BuiltMeshes() else old(Meshes())
    {
      if |data| == 0 || |data[0]| == 0 {
        return;
      }
      StoreMap(data);
      if !glReady {
        return;
      }
      RebuildMeshes();
    }

    /** Both mesh generators, one after the other. */
    method RebuildMeshes()
      requires Valid()
      modifies this`vertices, this`indices, this`waterVertices, this`waterIndices
      ensures Valid() && Meshes() == BuiltMeshes()
    {
      GenerateMesh();
      GenerateWaterMesh();
    }

    /** The first half of `setHeightMapData`: keep the copy and its size. */
    method StoreMap(data: Snapshot)
      requires Valid() && |data| > 0 && IsGrid(data, |data[0]|, |data|) && |data[0]| > 0
      modifies this`heightMapData, this`mapWidth, this`mapHeight, this`colorMap
      ensures Valid()
      ensures heightMapData == data && mapHeight == |data| && mapWidth == |data[0]|
      ensures colorMap == (if texturePaintMode then ConstColors(mapWidth, mapHeight, Transparent) else old(colorMap))
    {
      heightMapData := data;
      mapHeight := |data|;
      mapWidth := |data[0]|;
      if texturePaintMode {
        colorMap := ConstColors(mapWidth, mapHeight, Transparent);
      }
    }

    /**
     * `setTexturePaintMode`: when enabling, a colour map that is not
     * `mapHeight` rows with a first row of `mapWidth` colours is rebuilt
     * transparent, provided there is a map.
     */
    method SetTexturePaintMode(enabled: bool)
      requires Valid()
      modifies this`texturePaintMode, this`colorMap
      ensures Valid() && texturePaintMode == enabled
      ensures !enabled || mapWidth <= 0 || mapHeight <= 0 ==> colorMap == old(colorMap)
      ensures enabled && 0 < mapWidth && 0 < mapHeight ==>
                ColorGrid(colorMap, mapWidth, mapHeight)
                && (ColorGrid(old(colorMap), mapWidth, mapHeight) ==> colorMap == old(colorMap))
                && (!ColorGrid(old(colorMap), mapWidth, mapHeight) ==> colorMap == ConstColors(mapWidth, mapHeight, Transparent))
    {
      texturePaintMode := enabled;
      if !enabled {
        return;
      }
      var colorMapValid := colorMap != [] && |colorMap| == mapHeight;
      if colorMapValid && colorMap[0] != [] && |colorMap[0]| == mapWidth {
        return;
      }
      if mapWidth <= 0 || mapHeight <= 0 {
        return;
      }
      if colorMap != [] {
        colorMap := [];
      }
      colorMap := TransparentRows(mapWidth, mapHeight);
    }

    /**
     * `setColorAtPosition`: off-map coordinates change nothing; an empty
     * colour map is first filled transparent; then exactly cell (x, y)
     * takes the colour.
     */
    method SetColorAtPosition(x: int, y: int, color: Color)
      requires Valid() && (colorMap == [] || ColorGrid(colorMap, mapWidth, mapHeight))
      modifies this`colorMap
      ensures Valid()
      ensures !InBounds(mapWidth, mapHeight, x, y) ==> colorMap == old(colorMap)
      ensures InBounds(mapWidth, mapHeight, x, y) ==>
                var base := if old(colorMap) == [] then ConstColors(mapWidth, mapHeight, Transparent) else old(colorMap);
                ColorGrid(colorMap, mapWidth, mapHeight)
                && forall j, i :: InBounds(mapWidth, mapHeight, i, j) ==>
                     colorMap[j][i] == if j == y && i == x then color else base[j][i]
    {
      if x < 0 || x >= mapWidth || y < 0 || y >= mapHeight {
        return;
      }
      if colorMap == [] {
        colorMap := TransparentRows(mapWidth, mapHeight);
      }
      colorMap := PutColor(colorMap, x, y, color);
    }

    /**
     * The part of `applyTextureBrush` after the ray cast, for the map cell
     * (mapX, mapZ) it hit: nothing without a colour map or a map, or off
     * the map; otherwise the cells within `textureBrushSize` of it take
     * `currentPaintColor` and the terrain mesh is rebuilt.
     */
    method ApplyTextureBrush(mapX: int, mapZ: int)
      requires Valid() && texturePaintMode
      modifies this`colorMap, this`vertices, this`indices
      ensures Valid()
      ensures colorMap == [] || heightMapData == [] || !InBounds(mapWidth, mapHeight, mapX, mapZ) ==>
                colorMap == old(colorMap) && vertices == old(vertices) && indices == old(indices)
      ensures old(colorMap) != [] && heightMapData != [] && InBounds(mapWidth, mapHeight, mapX, mapZ) ==>
                ColorGrid(colorMap, mapWidth, mapHeight)
                && (forall z, x :: InBounds(mapWidth, mapHeight, x, z) ==>
                      colorMap[z][x] == if WithinRadius(x - mapX, z - mapZ, textureBrushSize) then currentPaintColor else old(colorMap)[z][x])
                && vertices == TerrainVertices(heightMapData, colorMap, mapWidth, mapHeight)
                && indices == TerrainIndices(mapWidth, mapHeight)
    {
      if colorMap == [] || heightMapData == [] {
        return;
      }
      if mapX < 0 || mapX >= mapWidth || mapZ < 0 || mapZ >= mapHeight {
        return;
      }
      colorMap := Stamp(colorMap, mapWidth, mapHeight, mapX, mapZ, textureBrushSize, currentPaintColor);
      GenerateMesh();
    }

    /** `wheelEvent`. */
    method Wheel(delta: int)
      requires Valid()
      modifies this`zoom
      ensures Valid() && zoom == ZoomAfter(old(zoom), delta)
    {
      zoom := zoom - delta as real / 120.0;
      if zoom < 1.0 {
        zoom := 1.0;
      }
      if zoom > 20.0 {
        zoom := 20.0;
      }
    }

    /** `keyPressEvent`: `handled` is false for a key passed on to the base class. */
    method KeyPress(key: Key) returns (handled: bool)
      requires Valid()
      modifies this`cameraX, this`cameraY, this`cameraZ
      ensures Valid()
      ensures var r := CameraAfter(key, old(CameraOf()), moveSpeed);
              handled == r.Some? && CameraOf() == (if r.Some? then r.value else old(CameraOf()))
    {
      handled := true;
      match key
      case KeyUp => cameraZ := cameraZ + moveSpeed;
      case KeyW => cameraZ := cameraZ + moveSpeed;
      case KeyDown => cameraZ := cameraZ - moveSpeed;
      case KeyS => cameraZ := cameraZ - moveSpeed;
      case KeyLeft => cameraX := cameraX - moveSpeed;
      case KeyA => cameraX := cameraX - moveSpeed;
      case KeyRight => cameraX := cameraX + moveSpeed;
      case KeyD => cameraX := cameraX + moveSpeed;
      case KeyE => cameraY := cameraY + moveSpeed;
      case KeyQ => cameraY := cameraY - moveSpeed;
      case KeyR =>
        cameraX := 0.0;
        cameraY := 0.0;
        cameraZ := 0.0;
      case OtherKey => handled := false;
    }
  }
}
