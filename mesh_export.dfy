/**
 * 3D export of the height map: a cell is a vertex exactly when its value
 * exceeds 5. Wavefront OBJ numbers those vertices 1, 2, ... in row-major
 * order and writes two faces per quad whose four corners are all vertices.
 * Both STL writers instead keep a quad when any corner exceeds 5 and write
 * two facets for it; binary STL is an 80-byte header, a little-endian
 * 32-bit triangle count and one 50-byte record per facet.
 *
 * Heights are kept as the stored byte; the files write them as the float
 * byte / 255 * 100, and binary STL's float encoding is a parameter.
 */
module MeshExport {
  import opened Raster
  import opened RowMajor

  /** `HEIGHT_THRESHOLD`. */
  const Threshold: int := 5

  predicate IsVertex(g: Snapshot, x: int, y: int)
  {
    At(g, x, y) > Threshold
  }

  /** A vertex as written: x, the height byte, y. */
  datatype Point = Point(x: int, height: int, y: int)

  function PointAt(g: Snapshot, x: int, y: int): Point
  {
    Point(x, At(g, x, y), y)
  }

  // ---------------------------------------------------------------- OBJ

  datatype ObjLine =
    | V(p: Point)                 // "v x h y"
    | VT(x: int, y: int)          // "vt x/W y/H"
    | F(a: int, b: int, c: int)   // "f a/a b/b c/c"

  /** The `v` line of cell (x, y): one for a vertex, none otherwise. */
  function VertexRecord(g: Snapshot, x: int, y: int): seq<ObjLine>
  {
    if IsVertex(g, x, y) then [V(PointAt(g, x, y))] else []
  }

  /** The `vt` line of cell (x, y): exactly as many as `v` lines. */
  function TexRecord(g: Snapshot, x: int, y: int): (r: seq<ObjLine>)
    ensures |r| == |VertexRecord(g, x, y)|
  {
    if IsVertex(g, x, y) then [VT(x, y)] else []
  }

  function VertexCell(g: Snapshot): (int, int) -> seq<ObjLine>
  {
    (x, y) => VertexRecord(g, x, y)
  }

  function TexCell(g: Snapshot): (int, int) -> seq<ObjLine>
  {
    (x, y) => TexRecord(g, x, y)
  }

  function VertexCount(g: Snapshot, w: nat, h: nat): nat
  {
    |Rows(w, h, VertexCell(g))|
  }

  /** `vertexIndexMap[y][x]`: 1 + the number of vertices before (x, y) in row-major order, or -1. */
  function VertexIndex(g: Snapshot, w: nat, x: nat, y: nat): int
  {
    if IsVertex(g, x, y) then |Before(w, x, y, VertexCell(g))| + 1 else -1
  }

  function FaceCell(g: Snapshot, w: nat): (int, int) -> seq<ObjLine>
  {
    (x, y) => QuadFaces(g, w, x, y)
  }

  /** The two faces of quad (x, y) when its four corners are all vertices, none otherwise. */
  function QuadFaces(g: Snapshot, w: nat, x: int, y: int): seq<ObjLine>
  {
    if x < 0 || y < 0 then []
    else if IsVertex(g, x, y) && IsVertex(g, x + 1, y) && IsVertex(g, x, y + 1) && IsVertex(g, x + 1, y + 1) then
      var tl, tr := VertexIndex(g, w, x, y), VertexIndex(g, w, x + 1, y);
      var bl, br := VertexIndex(g, w, x, y + 1), VertexIndex(g, w, x + 1, y + 1);
      [F(tl, bl, tr), F(tr, bl, br)]
    else []
  }

  function ObjFaces(g: Snapshot, w: nat, h: nat): seq<ObjLine>
  {
    Rows(QuadSpan(w), QuadSpan(h), FaceCell(g, w))
  }

  /** The OBJ file: vertex lines, then texture lines, then faces. */
  function ObjFile(g: Snapshot, w: nat, h: nat): seq<ObjLine>
  {
    Rows(w, h, VertexCell(g)) + Rows(w, h, TexCell(g)) + ObjFaces(g, w, h)
  }

  /**
   * Vertices are numbered 1..V in row-major order: a vertex's number is in
   * range, and an earlier vertex has a smaller number.
   */
  lemma VertexIndexOrder(g: Snapshot, w: nat, h: nat, x1: nat, y1: nat, x2: nat, y2: nat)
    requires x1 < w && x2 < w && y1 < h && y2 < h
    requires IsVertex(g, x1, y1) && IsVertex(g, x2, y2)
    requires y1 < y2 || (y1 == y2 && x1 < x2)
    ensures 1 <= VertexIndex(g, w, x1, y1) < VertexIndex(g, w, x2, y2) <= VertexCount(g, w, h)
  {
    var cell := VertexCell(g);
    BeforeOrder(w, h, x1, y1, x2, y2, cell);
    assert Before(w, x1 + 1, y1, cell) == Before(w, x1, y1, cell) + cell(x1, y1);
    VertexIndexRange(g, w, h, x2, y2);
  }

  lemma VertexIndexRange(g: Snapshot, w: nat, h: nat, x: nat, y: nat)
    requires x < w && y < h && IsVertex(g, x, y)
    ensures 1 <= VertexIndex(g, w, x, y) <= VertexCount(g, w, h)
  {
    CellAt(w, h, x, y, VertexCell(g), 0);
  }

  /**
   * Vertex number k is written on line k, with texture coordinates on line
   * V + k, so every face index names the vertex of the corner it was taken from.
   */
  lemma VertexLines(g: Snapshot, w: nat, h: nat, x: nat, y: nat)
    requires x < w && y < h && IsVertex(g, x, y)
    ensures var k, obj := VertexIndex(g, w, x, y), ObjFile(g, w, h);
            1 <= k && VertexCount(g, w, h) + k <= |obj|
            && obj[k - 1] == V(Point(x, At(g, x, y), y))
            && obj[VertexCount(g, w, h) + k - 1] == VT(x, y)
  {
    var vs, ts := Rows(w, h, VertexCell(g)), Rows(w, h, TexCell(g));
    var k := VertexIndex(g, w, x, y);
    assert k - 1 < |vs| && vs[k - 1] == V(Point(x, At(g, x, y), y)) by {
      CellAt(w, h, x, y, VertexCell(g), 0);
    }
    assert k - 1 < |ts| && ts[k - 1] == VT(x, y) by {
      CellAt(w, h, x, y, TexCell(g), 0);
      TexBeforeMatches(g, w, x, y);
    }
    assert |ts| == |vs| by {
      TexMatchesVertex(g, w, h);
    }
    assert ObjFile(g, w, h) == vs + ts + ObjFaces(g, w, h);
  }

  /** The texture section has one line per vertex, in the same order. */
  lemma {:induction false} TexMatchesVertex(g: Snapshot, w: nat, h: nat)
    ensures |Rows(w, h, TexCell(g))| == |Rows(w, h, VertexCell(g))|
  {
    if h > 0 {
      TexMatchesVertex(g, w, h - 1);
      TexRowMatches(g, w, h - 1);
    }
  }

  lemma {:induction false} TexRowMatches(g: Snapshot, x: nat, y: int)
    ensures |Row(x, y, TexCell(g))| == |Row(x, y, VertexCell(g))|
  {
    if x > 0 {
      TexRowMatches(g, x - 1, y);
    }
  }

  lemma TexBeforeMatches(g: Snapshot, w: nat, x: nat, y: nat)
    ensures |Before(w, x, y, TexCell(g))| == |Before(w, x, y, VertexCell(g))|
  {
    TexMatchesVertex(g, w, y);
    TexRowMatches(g, x, y);
  }

  /** Every face refers to existing vertices: all indices lie in 1..V. */
  lemma FacesValid(g: Snapshot, w: nat, h: nat, f: ObjLine)
    requires f in ObjFaces(g, w, h)
    ensures f.F? && 1 <= f.a <= VertexCount(g, w, h) && 1 <= f.b <= VertexCount(g, w, h)
            && 1 <= f.c <= VertexCount(g, w, h)
  {
    var x, y := RowsMembers(QuadSpan(w), QuadSpan(h), FaceCell(g, w), f);
    FaceCellValid(g, w, h, x, y, f);
  }

  lemma FaceCellValid(g: Snapshot, w: nat, h: nat, x: nat, y: nat, f: ObjLine)
    requires x + 1 < w && y + 1 < h && f in FaceCell(g, w)(x, y)
    ensures f.F? && 1 <= f.a <= VertexCount(g, w, h) && 1 <= f.b <= VertexCount(g, w, h)
            && 1 <= f.c <= VertexCount(g, w, h)
  {
    var n := VertexCount(g, w, h);
    assert IsVertex(g, x, y) && IsVertex(g, x + 1, y) && IsVertex(g, x, y + 1) && IsVertex(g, x + 1, y + 1);
    var tl, tr := VertexIndex(g, w, x, y), VertexIndex(g, w, x + 1, y);
    var bl, br := VertexIndex(g, w, x, y + 1), VertexIndex(g, w, x + 1, y + 1);
    assert f == F(tl, bl, tr) || f == F(tr, bl, br);
    assert 1 <= tl <= n by { VertexIndexRange(g, w, h, x, y); }
    assert 1 <= tr <= n by { VertexIndexRange(g, w, h, x + 1, y); }
    assert 1 <= bl <= n by { VertexIndexRange(g, w, h, x, y + 1); }
    assert 1 <= br <= n by { VertexIndexRange(g, w, h, x + 1, y + 1); }
  }

  // ---------------------------------------------------------------- STL

  /** A facet's three corners; its normal is always (0, 1, 0). */
  datatype Facet = Facet(a: Point, b: Point, c: Point)

  predicate QuadKept(g: Snapshot, x: int, y: int)
  {
    IsVertex(g, x, y) || IsVertex(g, x + 1, y) || IsVertex(g, x, y + 1) || IsVertex(g, x + 1, y + 1)
  }

  /** The two facets of quad (x, y), or none when the quad is dropped. */
  function StlQuad(g: Snapshot, x: int, y: int): (r: seq<Facet>)
    ensures |r| == if QuadKept(g, x, y) then 2 else 0
  {
    if QuadKept(g, x, y) then
      [Facet(PointAt(g, x, y), PointAt(g, x, y + 1), PointAt(g, x + 1, y)),
       Facet(PointAt(g, x + 1, y), PointAt(g, x, y + 1), PointAt(g, x + 1, y + 1))]
    else []
  }

  function StlCell(g: Snapshot): (int, int) -> seq<Facet>
  {
    (x, y) => StlQuad(g, x, y)
  }

  /** The facets both STL writers emit, in order. */
  function StlFacets(g: Snapshot, w: nat, h: nat): seq<Facet>
  {
    Rows(QuadSpan(w), QuadSpan(h), StlCell(g))
  }

  /** A quad with OBJ faces also has STL facets, but not the other way round. */
  lemma ObjQuadsAreStlQuads(g: Snapshot, w: nat, x: int, y: int)
    ensures FaceCell(g, w)(x, y) != [] ==> StlCell(g)(x, y) != []
  {
  }

  /** A 2 x 2 map with a single raised corner: STL writes two facets, OBJ writes no face. */
  lemma FilterRulesDiffer()
    ensures var g: Snapshot := [[6, 0], [0, 0]];
            |StlFacets(g, 2, 2)| == 2 && ObjFaces(g, 2, 2) == []
  {
    var g: Snapshot := [[6, 0], [0, 0]];
    assert IsVertex(g, 0, 0) && !IsVertex(g, 1, 0);
    assert Row(1, 0, StlCell(g)) == StlCell(g)(0, 0);
    assert Row(1, 0, FaceCell(g, 2)) == [];
  }

  const TwoTo32: int := 0x1_0000_0000

  /**
   * The first pass of the binary writer: `numTriangles += 2` per kept quad,
   * in a `uint32_t` that wraps at 2^32.
   */
  method CountTriangles(g: Snapshot, w: nat, h: nat) returns (numTriangles: int)
    requires IsGrid(g, w, h)
    ensures numTriangles == |StlFacets(g, w, h)| % TwoTo32
  {
    var cell := StlCell(g);
    var qw, qh := QuadSpan(w), QuadSpan(h);
    numTriangles := 0;
    var y := 0;
    while y < qh
      invariant 0 <= y <= qh
      invariant numTriangles == |Rows(qw, y, cell)| % TwoTo32
    {
      var x := 0;
      assert numTriangles == |Before(qw, x, y, cell)| % TwoTo32 by {
        BeforeRowEnd(qw, y, cell);
      }
      while x < qw
        invariant 0 <= x <= qw
        invariant numTriangles == |Before(qw, x, y, cell)| % TwoTo32
      {
        numTriangles := CountQuad(g, w, h, x, y, numTriangles);
        x := x + 1;
      }
      assert numTriangles == |Rows(qw, y + 1, cell)| % TwoTo32 by {
        assert x == qw;
        BeforeRowEnd(qw, y, cell);
      }
      y := y + 1;
    }
  }

  /** The inner loop body of the counting pass: a kept quad adds its two triangles. */
  method CountQuad(g: Snapshot, w: nat, h: nat, x: nat, y: nat, n: int) returns (n': int)
    requires IsGrid(g, w, h) && x < QuadSpan(w) && y < QuadSpan(h)
    requires n == |Before(QuadSpan(w), x, y, StlCell(g))| % TwoTo32
    ensures n' == |Before(QuadSpan(w), x + 1, y, StlCell(g))| % TwoTo32
  {
    var kept := g[y][x] > Threshold || g[y][x + 1] > Threshold || g[y + 1][x] > Threshold || g[y + 1][x + 1] > Threshold;
    CountStep(g, QuadSpan(w), x, y, kept, n);
    n' := n;
    if kept {
      n' := (n + 2) % TwoTo32;
    }
  }

  /** One quad of the counting pass: the count grows by the quad's facets, modulo 2^32. */
  lemma CountStep(g: Snapshot, qw: nat, x: nat, y: nat, kept: bool, n: int)
    requires x < qw && y + 1 < |g| && x + 1 < |g[y]| && x + 1 < |g[y + 1]|
    requires kept == (g[y][x] > Threshold || g[y][x + 1] > Threshold || g[y + 1][x] > Threshold || g[y + 1][x + 1] > Threshold)
    requires n == |Before(qw, x, y, StlCell(g))| % TwoTo32
    ensures |Before(qw, x + 1, y, StlCell(g))| % TwoTo32 == if kept then (n + 2) % TwoTo32 else n
  {
    var cell := StlCell(g);
    var m := |Before(qw, x, y, cell)|;
    assert |Before(qw, x + 1, y, cell)| == m + (if kept then 2 else 0) by {
      BeforeStep(qw, x, y, cell);
      assert kept == QuadKept(g, x, y);
      assert |cell(x, y)| == |StlQuad(g, x, y)|;
    }
    if kept {
      // adding to a count kept modulo 2^32 commutes with the reduction
      var q := m / TwoTo32;
      assert m == q * TwoTo32 + m % TwoTo32;
      assert m + 2 == (m % TwoTo32 + 2) + q * TwoTo32;
    }
  }

  /** `uint32_t` in little-endian order. */
  function Le32(n: int): (b: seq<Byte>)
    requires 0 <= n < TwoTo32
    ensures |b| == 4
  {
    [n % 256, (n / 256) % 256, (n / 65536) % 256, n / 16777216]
  }

  /** Reading the four bytes back, least significant first, gives the number. */
  lemma Le32Decode(n: int)
    requires 0 <= n < TwoTo32
    ensures var b := Le32(n); b[0] as int + 256 * (b[1] as int) + 65536 * (b[2] as int) + 16777216 * (b[3] as int) == n
  {
    var q1 := n / 256;
    var q2 := q1 / 256;
    var q3 := q2 / 256;
    assert n == q1 * 256 + n % 256;
    assert q1 == q2 * 256 + q1 % 256;
    assert q2 == q3 * 256 + q2 % 256;
    assert q2 == n / 65536;
    assert q3 == n / 16777216;
  }

  const HeaderText: string := "HeightMapGen Binary STL Export (Filtered)"

  /** The 80-byte header: the 41 ASCII characters of the text, padded with zero bytes. */
  function Header(): (b: seq<Byte>)
    ensures |b| == 80 && |HeaderText| == 41
    ensures forall i :: 0 <= i < 80 ==> b[i] == if i < 41 then HeaderText[i] as int else 0
    ensures forall i :: 0 <= i < 41 ==> b[i] < 128
  {
    assert |HeaderText| == 41 && forall i :: 0 <= i < |HeaderText| ==> HeaderText[i] as int < 128;
    seq(80, i requires 0 <= i < 80 => if i < |HeaderText| then HeaderText[i] as int else 0)
  }

  /** The four bytes of a float as written (IEEE single precision, little-endian). */
  type Word = b: seq<Byte> | |b| == 4 witness [0, 0, 0, 0]

  /** The float `byte / 255 * 100` every writer uses for a height. */
  function HeightValue(v: int): real
  {
    v as real / 255.0 * 100.0
  }

  /** The twelve floats of a record: the normal (0, 1, 0), then x, height, y of each corner. */
  function FacetFloats(f: Facet): (r: seq<real>)
    ensures |r| == 12
  {
    [0.0, 1.0, 0.0,
     f.a.x as real, HeightValue(f.a.height), f.a.y as real,
     f.b.x as real, HeightValue(f.b.height), f.b.y as real,
     f.c.x as real, HeightValue(f.c.height), f.c.y as real]
  }

  /** The floats written one after the other. */
  function EncodeAll(rs: seq<real>, enc: real -> Word): seq<Byte>
  {
    if |rs| == 0 then [] else EncodeAll(rs[..|rs| - 1], enc) + enc(rs[|rs| - 1])
  }

  lemma {:induction false} EncodeAllLength(rs: seq<real>, enc: real -> Word)
    ensures |EncodeAll(rs, enc)| == 4 * |rs|
    decreases |rs|
  {
    if |rs| > 0 {
      EncodeAllLength(rs[..|rs| - 1], enc);
    }
  }

  /** One triangle record: twelve floats and a zero 16-bit attribute. */
  function FacetBytes(f: Facet, enc: real -> Word): seq<Byte>
  {
    EncodeAll(FacetFloats(f), enc) + [0, 0]
  }

  /** The concatenation of a sequence of records. */
  function Flatten<T>(ss: seq<seq<T>>): seq<T>
  {
    if |ss| == 0 then [] else Flatten(ss[..|ss| - 1]) + ss[|ss| - 1]
  }

  function Records(fs: seq<Facet>, enc: real -> Word): seq<seq<Byte>>
  {
    seq(|fs|, i requires 0 <= i < |fs| => FacetBytes(fs[i], enc))
  }

  /** The records of the facets, in order. */
  function FacetsBytes(fs: seq<Facet>, enc: real -> Word): seq<Byte>
  {
    Flatten(Records(fs, enc))
  }

  lemma {:induction false} FlattenAppend<T>(a: seq<seq<T>>, b: seq<seq<T>>)
    ensures Flatten(a + b) == Flatten(a) + Flatten(b)
    decreases |b|
  {
    if |b| == 0 {
      assert a + b == a;
    } else {
      var b0, last := b[..|b| - 1], b[|b| - 1];
      FlattenAppend(a, b0);
      assert Flatten(a + b) == Flatten(a + b0) + last by {
        assert (a + b)[..|a + b| - 1] == a + b0;
      }
      assert Flatten(b) == Flatten(b0) + last;
    }
  }

  /** Records of k elements each flatten to k elements per record. */
  lemma {:induction false} FlattenLength<T>(ss: seq<seq<T>>, k: nat)
    requires forall j :: 0 <= j < |ss| ==> |ss[j]| == k
    ensures |Flatten(ss)| == k * |ss|
    decreases |ss|
  {
    if |ss| > 0 {
      FlattenLength(ss[..|ss| - 1], k);
      assert k * |ss| == k * (|ss| - 1) + k;
    }
  }

  /** Records of k elements each: record i starts at k * i. */
  lemma {:induction false} FlattenAt<T>(ss: seq<seq<T>>, k: nat, i: nat)
    requires forall j :: 0 <= j < |ss| ==> |ss[j]| == k
    requires i < |ss|
    ensures k * i + k <= |Flatten(ss)| && Flatten(ss)[k * i..k * i + k] == ss[i]
    decreases |ss|
  {
    var init, last := ss[..|ss| - 1], ss[|ss| - 1];
    var pre := Flatten(init);
    var lo := k * i;
    assert Flatten(ss) == pre + last;
    assert |pre| == k * |init| && |last| == k by {
      FlattenLength(init, k);
    }
    if i < |init| {
      assert lo + k <= |pre| by {
        assert k * (i + 1) <= k * |init|;
      }
      FlattenAt(init, k, i);
      assert (pre + last)[lo..lo + k] == pre[lo..lo + k];
    } else {
      assert lo == |pre|;
      assert (pre + last)[|pre|..|pre| + |last|] == last;
    }
  }

  lemma FacetsBytesAppend(a: seq<Facet>, b: seq<Facet>, enc: real -> Word)
    ensures FacetsBytes(a + b, enc) == FacetsBytes(a, enc) + FacetsBytes(b, enc)
  {
    var ra, rb := Records(a, enc), Records(b, enc);
    assert Records(a + b, enc) == ra + rb by {
      forall j | 0 <= j < |a| + |b|
        ensures Records(a + b, enc)[j] == (ra + rb)[j]
      {
        if j < |a| {
          assert (a + b)[j] == a[j];
        } else {
          assert (a + b)[j] == b[j - |a|];
        }
      }
    }
    FlattenAppend(ra, rb);
  }

  /** With a 4-byte float encoding a record is 12 floats and 2 attribute bytes. */
  lemma FacetBytesLength(f: Facet, enc: real -> Word)
    ensures |FacetBytes(f, enc)| == 50
  {
    EncodeAllLength(FacetFloats(f), enc);
  }

  /** The binary STL file. */
  function BinaryStl(g: Snapshot, w: nat, h: nat, enc: real -> Word): seq<Byte>
  {
    var fs := StlFacets(g, w, h);
    Header() + Le32(|fs| % TwoTo32) + FacetsBytes(fs, enc)
  }

  /** Facet i occupies bytes [50 i, 50 i + 50) of the record section, which is 50 bytes per facet. */
  lemma FacetsLayout(fs: seq<Facet>, enc: real -> Word, i: nat)
    ensures |FacetsBytes(fs, enc)| == 50 * |fs|
    ensures i < |fs| ==> FacetsBytes(fs, enc)[50 * i..50 * i + 50] == FacetBytes(fs[i], enc)
  {
    var rs := Records(fs, enc);
    forall j | 0 <= j < |rs|
      ensures |rs[j]| == 50
    {
      FacetBytesLength(fs[j], enc);
    }
    FlattenLength(rs, 50);
    if i < |fs| {
      FlattenAt(rs, 50, i);
    }
  }

  /**
   * The binary file is the header, the triangle count (modulo 2^32) in
   * little-endian order, then facet i at byte 84 + 50 i: 84 + 50 n bytes in all.
   */
  lemma BinaryStlLayout(g: Snapshot, w: nat, h: nat, enc: real -> Word, i: nat)
    ensures var b, fs := BinaryStl(g, w, h, enc), StlFacets(g, w, h);
            |b| == 84 + 50 * |fs| && b[..80] == Header() && b[80..84] == Le32(|fs| % TwoTo32)
            && (i < |fs| ==> b[84 + 50 * i..84 + 50 * i + 50] == FacetBytes(fs[i], enc))
  {
    var fs := StlFacets(g, w, h);
    FacetsLayout(fs, enc, i);
    var b := BinaryStl(g, w, h, enc);
    var recs := FacetsBytes(fs, enc);
    assert b == (Header() + Le32(|fs| % TwoTo32)) + recs;
    if i < |fs| {
      assert b[84 + 50 * i..84 + 50 * i + 50] == recs[50 * i..50 * i + 50];
    }
  }

  /** Two facets per kept quad, and for maps of at most 4096 x 4096 the count field never wraps. */
  lemma FacetCountFits(g: Snapshot, w: nat, h: nat)
    requires w <= MaxDim && h <= MaxDim
    ensures |StlFacets(g, w, h)| <= 2 * QuadSpan(w) * QuadSpan(h) < TwoTo32
    ensures |StlFacets(g, w, h)| % TwoTo32 == |StlFacets(g, w, h)|
  {
    var cell := StlCell(g);
    RowsAtMost(QuadSpan(w), QuadSpan(h), cell, 2);
    MulAtMost(QuadSpan(w), QuadSpan(h), 4095);
  }

  lemma MulAtMost(a: nat, b: nat, m: nat)
    requires a <= m && b <= m
    ensures 2 * a * b <= 2 * m * m
  {
    assert a * b <= m * b <= m * m;
  }

  // ---------------------------------------------------------------- writers

  /** The three formats of the save dialog. */
  datatype ExportFormat = ObjFormat | StlAscii | StlBinary

  /**
   * The simple case folding `Qt::CaseInsensitive` compares by, on the
   * characters that fold to an ASCII letter: `A`..`Z`, the long s U+017F
   * (to `s`) and the Kelvin sign U+212A (to `k`). Every other character
   * folds to a non-ASCII character or to itself.
   */
  function FoldCase(c: char): char
  {
    if 'A' <= c <= 'Z' then (c as int + 32) as char
    else if c == '\U{17F}' then 's'
    else if c == '\U{212A}' then 'k'
    else c
  }

  predicate EqualNoCase(a: char, b: char)
  {
    FoldCase(a) == FoldCase(b)
  }

  predicate EndsWithNoCase(s: string, suffix: string)
  {
    |suffix| <= |s| && forall i :: 0 <= i < |suffix| ==> EqualNoCase(s[|s| - |suffix| + i], suffix[i])
  }

  predicate OccursAtNoCase(s: string, sub: string, k: nat)
  {
    k + |sub| <= |s| && forall i :: 0 <= i < |sub| ==> EqualNoCase(s[k + i], sub[i])
  }

  predicate ContainsNoCase(s: string, sub: string)
  {
    exists k: nat :: k <= |s| && OccursAtNoCase(s, sub, k)
  }

  /**
   * The format the exporter picks from the file name and the dialog's
   * selected filter: `.obj` first, then `.stl` in binary when the filter
   * names "Binary", otherwise nothing is written.
   */
  function FormatOf(fileName: string, selectedFilter: string): Option<ExportFormat>
  {
    if EndsWithNoCase(fileName, ".obj") then Some(ObjFormat)
    else if EndsWithNoCase(fileName, ".stl") then
      (if ContainsNoCase(selectedFilter, "Binary") then Some(StlBinary) else Some(StlAscii))
    else None
  }

  /**
   * No name ends in both extensions, so the order of the tests does not
   * matter: the format is OBJ exactly for `.obj` names, an STL format
   * exactly for `.stl` names, and binary exactly when the filter says so.
   */
  lemma FormatOfCases(fileName: string, selectedFilter: string)
    ensures var r := FormatOf(fileName, selectedFilter);
            (r == Some(ObjFormat) <==> EndsWithNoCase(fileName, ".obj"))
            && ((r == Some(StlAscii) || r == Some(StlBinary)) <==> EndsWithNoCase(fileName, ".stl"))
            && (r == Some(StlBinary) <==> EndsWithNoCase(fileName, ".stl") && ContainsNoCase(selectedFilter, "Binary"))
  {
    ExtensionsExclusive(fileName);
  }

  /** A name ending in `.obj` (in any case) does not end in `.stl`: the last letters differ. */
  lemma ExtensionsExclusive(s: string)
    ensures EndsWithNoCase(s, ".obj") ==> !EndsWithNoCase(s, ".stl")
  {
    if EndsWithNoCase(s, ".obj") {
      assert EqualNoCase(s[|s| - 4 + 3], ".obj"[3]);
      assert !EqualNoCase(s[|s| - 4 + 3], ".stl"[3]);
    }
  }

  /** The vertex map at the end of the first OBJ pass: `VertexIndex` at every cell before (x, y), -1 elsewhere. */
  ghost predicate MapUpTo(m: array2<int>, g: Snapshot, w: nat, h: nat, x: nat, y: nat)
    reads m
    requires m.Length0 == h && m.Length1 == w
  {
    forall j, i :: 0 <= j < h && 0 <= i < w ==>
      m[j, i] == if j < y || (j == y && i < x) then VertexIndex(g, w, i, j) else -1
  }

  /** A cell is a vertex exactly when the map holds an index for it. */
  lemma VertexIndexMarks(g: Snapshot, w: nat, x: nat, y: nat)
    ensures VertexIndex(g, w, x, y) != -1 <==> IsVertex(g, x, y)
    ensures IsVertex(g, x, y) ==> VertexIndex(g, w, x, y) >= 1
  {
  }

  /**
   * The OBJ exporter: refuses an empty map, otherwise writes the vertex
   * lines (numbering them in `vertexIndexMap`), the texture lines and the
   * faces, and reports `vertexIndex - 1` vertices.
   */
  method ExportObj(g: Snapshot, w: nat, h: nat) returns (ok: bool, out: seq<ObjLine>, exported: int)
    requires IsGrid(g, w, h)
    ensures ok <==> w > 0 && h > 0
    ensures ok ==> out == ObjFile(g, w, h) && exported == VertexCount(g, w, h)
  {
    if w == 0 || h == 0 {
      return false, [], 0;
    }
    ok := true;
    var vertexIndexMap := new int[h, w]((_, _) => -1);
    var verts, vertexIndex := VertexPass(g, w, h, vertexIndexMap);
    var texs := TexPass(g, w, h, vertexIndexMap);
    var faces := FacePass(g, w, h, vertexIndexMap);
    out := verts + texs + faces;
    exported := vertexIndex - 1;
  }

  /** First OBJ pass: a vertex line per cell above the threshold, numbered from 1 in the map. */
  method VertexPass(g: Snapshot, w: nat, h: nat, vertexIndexMap: array2<int>) returns (out: seq<ObjLine>, vertexIndex: int)
    requires IsGrid(g, w, h) && vertexIndexMap.Length0 == h && vertexIndexMap.Length1 == w
    requires MapUpTo(vertexIndexMap, g, w, h, 0, 0)
    modifies vertexIndexMap
    ensures out == Rows(w, h, VertexCell(g)) && vertexIndex == |out| + 1
    ensures MapUpTo(vertexIndexMap, g, w, h, 0, h)
  {
    var cell := VertexCell(g);
    out := [];
    vertexIndex := 1;
    var y := 0;
    while y < h
      invariant 0 <= y <= h
      invariant out == Rows(w, y, cell) && vertexIndex == |out| + 1
      invariant MapUpTo(vertexIndexMap, g, w, h, 0, y)
    {
      var x := 0;
      assert Before(w, x, y, cell) == Rows(w, y, cell) by {
        BeforeRowEnd(w, y, cell);
      }
      while x < w
        invariant 0 <= x <= w
        invariant out == Before(w, x, y, cell) && vertexIndex == |out| + 1
        invariant MapUpTo(vertexIndexMap, g, w, h, x, y)
      {
        out, vertexIndex := VertexStep(g, w, h, vertexIndexMap, x, y, out, vertexIndex);
        x := x + 1;
      }
      assert Before(w, x, y, cell) == Rows(w, y + 1, cell) by {
        assert x == w;
        BeforeRowEnd(w, y, cell);
      }
      MapRowEnd(vertexIndexMap, g, w, h, y);
      y := y + 1;
    }
  }

  /** The inner loop body of the vertex pass: cell (x, y) is written and numbered when it is a vertex. */
  method VertexStep(g: Snapshot, w: nat, h: nat, vertexIndexMap: array2<int>, x: nat, y: nat,
                    done: seq<ObjLine>, index: int) returns (out: seq<ObjLine>, vertexIndex: int)
    requires IsGrid(g, w, h) && vertexIndexMap.Length0 == h && vertexIndexMap.Length1 == w && x < w && y < h
    requires MapUpTo(vertexIndexMap, g, w, h, x, y)
    requires done == Before(w, x, y, VertexCell(g)) && index == |done| + 1
    modifies vertexIndexMap
    ensures out == Before(w, x + 1, y, VertexCell(g)) && vertexIndex == |out| + 1
    ensures MapUpTo(vertexIndexMap, g, w, h, x + 1, y)
  {
    BeforeStep(w, x, y, VertexCell(g));
    out, vertexIndex := done, index;
    if g[y][x] > Threshold {
      out := out + [V(Point(x, g[y][x], y))];
      vertexIndexMap[y, x] := vertexIndex;
      vertexIndex := vertexIndex + 1;
    }
  }

  /** A finished row: the map is filled up to the start of the next one. */
  lemma MapRowEnd(m: array2<int>, g: Snapshot, w: nat, h: nat, y: nat)
    requires m.Length0 == h && m.Length1 == w
    requires MapUpTo(m, g, w, h, w, y)
    ensures MapUpTo(m, g, w, h, 0, y + 1)
  {
  }

  /** Second OBJ pass: a texture line per numbered cell, in the same order. */
  method TexPass(g: Snapshot, w: nat, h: nat, vertexIndexMap: array2<int>) returns (out: seq<ObjLine>)
    requires IsGrid(g, w, h) && vertexIndexMap.Length0 == h && vertexIndexMap.Length1 == w
    requires MapUpTo(vertexIndexMap, g, w, h, 0, h)
    ensures out == Rows(w, h, TexCell(g))
  {
    var cell := TexCell(g);
    out := [];
    var y := 0;
    while y < h
      invariant 0 <= y <= h
      invariant out == Rows(w, y, cell)
    {
      var x := 0;
      assert Before(w, x, y, cell) == Rows(w, y, cell) by {
        BeforeRowEnd(w, y, cell);
      }
      while x < w
        invariant 0 <= x <= w
        invariant out == Before(w, x, y, cell)
      {
        out := TexStep(g, w, h, vertexIndexMap, x, y, out);
        x := x + 1;
      }
      assert Before(w, x, y, cell) == Rows(w, y + 1, cell) by {
        assert x == w;
        BeforeRowEnd(w, y, cell);
      }
      y := y + 1;
    }
  }

  /** The inner loop body of the texture pass: a numbered cell gets its `vt` line. */
  method TexStep(g: Snapshot, w: nat, h: nat, vertexIndexMap: array2<int>, x: nat, y: nat, done: seq<ObjLine>)
    returns (out: seq<ObjLine>)
    requires IsGrid(g, w, h) && vertexIndexMap.Length0 == h && vertexIndexMap.Length1 == w
    requires MapUpTo(vertexIndexMap, g, w, h, 0, h)
    requires x < w && y < h && done == Before(w, x, y, TexCell(g))
    ensures out == Before(w, x + 1, y, TexCell(g))
  {
    BeforeStep(w, x, y, TexCell(g));
    VertexIndexMarks(g, w, x, y);
    out := done;
    if vertexIndexMap[y, x] != -1 {
      out := out + [VT(x, y)];
    }
  }

  /** Third OBJ pass: two faces per quad whose four corners are numbered. */
  method FacePass(g: Snapshot, w: nat, h: nat, vertexIndexMap: array2<int>) returns (out: seq<ObjLine>)
    requires IsGrid(g, w, h) && vertexIndexMap.Length0 == h && vertexIndexMap.Length1 == w
    requires MapUpTo(vertexIndexMap, g, w, h, 0, h)
    ensures out == ObjFaces(g, w, h)
  {
    var cell := FaceCell(g, w);
    var qw, qh := QuadSpan(w), QuadSpan(h);
    out := [];
    var y := 0;
    while y < qh
      invariant 0 <= y <= qh
      invariant out == Rows(qw, y, cell)
    {
      var x := 0;
      assert Before(qw, x, y, cell) == Rows(qw, y, cell) by {
        BeforeRowEnd(qw, y, cell);
      }
      while x < qw
        invariant 0 <= x <= qw
        invariant out == Before(qw, x, y, cell)
      {
        out := FaceQuad(g, w, h, vertexIndexMap, x, y, out);
        x := x + 1;
      }
      assert Before(qw, x, y, cell) == Rows(qw, y + 1, cell) by {
        assert x == qw;
        BeforeRowEnd(qw, y, cell);
      }
      y := y + 1;
    }
  }

  /** The inner loop body of the face pass: the faces of quad (x, y) are appended. */
  method FaceQuad(g: Snapshot, w: nat, h: nat, vertexIndexMap: array2<int>, x: nat, y: nat, done: seq<ObjLine>)
    returns (out: seq<ObjLine>)
    requires IsGrid(g, w, h) && vertexIndexMap.Length0 == h && vertexIndexMap.Length1 == w
    requires MapUpTo(vertexIndexMap, g, w, h, 0, h)
    requires x < QuadSpan(w) && y < QuadSpan(h) && done == Before(QuadSpan(w), x, y, FaceCell(g, w))
    ensures out == Before(QuadSpan(w), x + 1, y, FaceCell(g, w))
  {
    var topLeft := vertexIndexMap[y, x];
    var topRight := vertexIndexMap[y, x + 1];
    var bottomLeft := vertexIndexMap[y + 1, x];
    var bottomRight := vertexIndexMap[y + 1, x + 1];
    FaceStep(g, w, x, y, topLeft, topRight, bottomLeft, bottomRight);
    BeforeStep(QuadSpan(w), x, y, FaceCell(g, w));
    out := done;
    if topLeft != -1 && topRight != -1 && bottomLeft != -1 && bottomRight != -1 {
      out := out + [F(topLeft, bottomLeft, topRight), F(topRight, bottomLeft, bottomRight)];
    }
  }

  /** The faces of one quad, read from the four corner entries of the vertex map. */
  lemma FaceStep(g: Snapshot, w: nat, x: nat, y: nat, tl: int, tr: int, bl: int, br: int)
    requires tl == VertexIndex(g, w, x, y) && tr == VertexIndex(g, w, x + 1, y)
    requires bl == VertexIndex(g, w, x, y + 1) && br == VertexIndex(g, w, x + 1, y + 1)
    ensures QuadFaces(g, w, x, y)
            == if tl != -1 && tr != -1 && bl != -1 && br != -1 then [F(tl, bl, tr), F(tr, bl, br)] else []
  {
    VertexIndexMarks(g, w, x, y);
    VertexIndexMarks(g, w, x + 1, y);
    VertexIndexMarks(g, w, x, y + 1);
    VertexIndexMarks(g, w, x + 1, y + 1);
  }

  /**
   * The ASCII STL exporter's loop: the facets it writes between
   * `solid heightmap` and `endsolid heightmap`, and its `triangleCount`.
   */
  method ExportStlAscii(g: Snapshot, w: nat, h: nat) returns (ok: bool, facets: seq<Facet>, triangleCount: int)
    requires IsGrid(g, w, h)
    ensures ok <==> w > 0 && h > 0
    ensures ok ==> facets == StlFacets(g, w, h) && triangleCount == |facets|
  {
    if w == 0 || h == 0 {
      return false, [], 0;
    }
    ok := true;
    var cell := StlCell(g);
    var qw, qh := QuadSpan(w), QuadSpan(h);
    facets, triangleCount := [], 0;
    var y := 0;
    while y < qh
      invariant 0 <= y <= qh
      invariant facets == Rows(qw, y, cell) && triangleCount == |facets|
    {
      var x := 0;
      assert Before(qw, x, y, cell) == Rows(qw, y, cell) by {
        BeforeRowEnd(qw, y, cell);
      }
      while x < qw
        invariant 0 <= x <= qw
        invariant facets == Before(qw, x, y, cell) && triangleCount == |facets|
      {
        facets, triangleCount := AsciiQuad(g, qw, x, y, facets, triangleCount);
        x := x + 1;
      }
      assert Before(qw, x, y, cell) == Rows(qw, y + 1, cell) by {
        assert x == qw;
        BeforeRowEnd(qw, y, cell);
      }
      y := y + 1;
    }
  }

  /** One step of the ASCII exporter: the facets of quad (x, y) when any corner exceeds the threshold. */
  method AsciiQuad(g: Snapshot, qw: nat, x: nat, y: nat, done: seq<Facet>, count: int)
    returns (facets: seq<Facet>, triangleCount: int)
    requires y + 1 < |g| && x + 1 < |g[y]| && x + 1 < |g[y + 1]|
    requires done == Before(qw, x, y, StlCell(g)) && count == |done|
    ensures facets == Before(qw, x + 1, y, StlCell(g)) && triangleCount == |facets|
  {
    assert Before(qw, x + 1, y, StlCell(g)) == done + StlCell(g)(x, y);
    facets, triangleCount := done, count;
    var hasSignificantHeight := g[y][x] > Threshold || g[y][x + 1] > Threshold
                                || g[y + 1][x] > Threshold || g[y + 1][x + 1] > Threshold;
    assert hasSignificantHeight == QuadKept(g, x, y);
    if hasSignificantHeight {
      facets := facets + [Facet(Point(x, g[y][x], y), Point(x, g[y + 1][x], y + 1), Point(x + 1, g[y][x + 1], y))];
      triangleCount := triangleCount + 1;
      facets := facets + [Facet(Point(x + 1, g[y][x + 1], y), Point(x, g[y + 1][x], y + 1), Point(x + 1, g[y + 1][x + 1], y + 1))];
      triangleCount := triangleCount + 1;
    }
  }

  /** The records one quad contributes to the binary file. */
  lemma BinaryStep(g: Snapshot, x: nat, y: nat, kept: bool, enc: real -> Word)
    requires y + 1 < |g| && x + 1 < |g[y]| && x + 1 < |g[y + 1]|
    requires kept == (g[y][x] > Threshold || g[y][x + 1] > Threshold || g[y + 1][x] > Threshold || g[y + 1][x + 1] > Threshold)
    ensures FacetsBytes(StlCell(g)(x, y), enc)
            == if kept then
                 FacetBytes(Facet(Point(x, g[y][x], y), Point(x, g[y + 1][x], y + 1), Point(x + 1, g[y][x + 1], y)), enc)
                 + FacetBytes(Facet(Point(x + 1, g[y][x + 1], y), Point(x, g[y + 1][x], y + 1), Point(x + 1, g[y + 1][x + 1], y + 1)), enc)
               else []
  {
    var fs := StlCell(g)(x, y);
    assert kept == QuadKept(g, x, y);
    if kept {
      assert fs == [Facet(Point(x, g[y][x], y), Point(x, g[y + 1][x], y + 1), Point(x + 1, g[y][x + 1], y)),
                    Facet(Point(x + 1, g[y][x + 1], y), Point(x, g[y + 1][x], y + 1), Point(x + 1, g[y + 1][x + 1], y + 1))];
      var rs: seq<seq<Byte>> := Records(fs, enc);
      var first: seq<seq<Byte>> := rs[..1];
      assert first[..0] == [];
      assert Flatten(first) == Flatten(first[..0]) + first[0] == rs[0];
      assert rs[..|rs| - 1] == first;
      assert Flatten(rs) == Flatten(first) + rs[1];
    } else {
      assert Records(fs, enc) == [];
    }
  }

  /**
   * The binary STL exporter: counts the triangles, writes the header and
   * the count, then one record per facet in the same order.
   */
  method ExportStlBinary(g: Snapshot, w: nat, h: nat, enc: real -> Word) returns (ok: bool, out: seq<Byte>)
    requires IsGrid(g, w, h)
    ensures ok <==> w > 0 && h > 0
    ensures ok ==> out == BinaryStl(g, w, h, enc)
  {
    if w == 0 || h == 0 {
      return false, [];
    }
    ok := true;
    var numTriangles := CountTriangles(g, w, h);
    var records := WriteFacets(g, w, h, enc);
    out := Header() + Le32(numTriangles) + records;
  }

  /** The second pass of the binary writer: the records of the kept quads' facets. */
  method WriteFacets(g: Snapshot, w: nat, h: nat, enc: real -> Word) returns (out: seq<Byte>)
    requires IsGrid(g, w, h)
    ensures out == FacetsBytes(StlFacets(g, w, h), enc)
  {
    var qw, qh := QuadSpan(w), QuadSpan(h);
    out := [];
    NoRecords(enc);
    var y := 0;
    while y < qh
      invariant 0 <= y <= qh
      invariant out == FacetsBytes(Rows(qw, y, StlCell(g)), enc)
    {
      out := WriteRow(g, w, h, y, enc, out);
      y := y + 1;
    }
  }

  /** One row of quads of the second pass. */
  method WriteRow(g: Snapshot, w: nat, h: nat, y: nat, enc: real -> Word, done: seq<Byte>) returns (out: seq<Byte>)
    requires IsGrid(g, w, h) && y < QuadSpan(h)
    requires done == FacetsBytes(Rows(QuadSpan(w), y, StlCell(g)), enc)
    ensures out == FacetsBytes(Rows(QuadSpan(w), y + 1, StlCell(g)), enc)
  {
    var cell := StlCell(g);
    var qw := QuadSpan(w);
    out := done;
    var x := 0;
    assert out == FacetsBytes(Before(qw, x, y, cell), enc) by {
      BeforeRowEnd(qw, y, cell);
    }
    while x < qw
      invariant 0 <= x <= qw
      invariant out == FacetsBytes(Before(qw, x, y, cell), enc)
    {
      out := AppendQuad(g, w, h, x, y, enc, out);
      x := x + 1;
    }
    assert Before(qw, x, y, cell) == Rows(qw, y + 1, cell) by {
      assert x == qw;
      BeforeRowEnd(qw, y, cell);
    }
  }

  lemma NoRecords(enc: real -> Word)
    ensures FacetsBytes([], enc) == []
  {
    assert Records([], enc) == [];
  }

  /** Appending a cell's records extends the records of the cells before it. */
  lemma RecordsStep(qw: nat, x: nat, y: nat, cell: (int, int) -> seq<Facet>, enc: real -> Word)
    ensures FacetsBytes(Before(qw, x + 1, y, cell), enc)
            == FacetsBytes(Before(qw, x, y, cell), enc) + FacetsBytes(cell(x, y), enc)
  {
    assert Before(qw, x + 1, y, cell) == Before(qw, x, y, cell) + cell(x, y);
    FacetsBytesAppend(Before(qw, x, y, cell), cell(x, y), enc);
  }

  /** One step of the second pass: the records written so far, followed by quad (x, y)'s. */
  method AppendQuad(g: Snapshot, w: nat, h: nat, x: nat, y: nat, enc: real -> Word, done: seq<Byte>) returns (out: seq<Byte>)
    requires IsGrid(g, w, h) && x < QuadSpan(w) && y < QuadSpan(h)
    requires done == FacetsBytes(Before(QuadSpan(w), x, y, StlCell(g)), enc)
    ensures out == FacetsBytes(Before(QuadSpan(w), x + 1, y, StlCell(g)), enc)
  {
    assert |g[y]| == w && |g[y + 1]| == w;
    var quad := WriteQuad(g, x, y, enc);
    RecordsStep(QuadSpan(w), x, y, StlCell(g), enc);
    out := done + quad;
  }

  /** The body of the second pass for quad (x, y): its two records when any corner exceeds the threshold. */
  method WriteQuad(g: Snapshot, x: nat, y: nat, enc: real -> Word) returns (out: seq<Byte>)
    requires y + 1 < |g| && x + 1 < |g[y]| && x + 1 < |g[y + 1]|
    ensures out == FacetsBytes(StlCell(g)(x, y), enc)
  {
    var hasSignificantHeight := g[y][x] > Threshold || g[y][x + 1] > Threshold
                                || g[y + 1][x] > Threshold || g[y + 1][x + 1] > Threshold;
    BinaryStep(g, x, y, hasSignificantHeight, enc);
    out := [];
    if hasSignificantHeight {
      out := out + FacetBytes(Facet(Point(x, g[y][x], y), Point(x, g[y + 1][x], y + 1), Point(x + 1, g[y][x + 1], y)), enc);
      out := out + FacetBytes(Facet(Point(x + 1, g[y][x + 1], y), Point(x, g[y + 1][x], y + 1), Point(x + 1, g[y + 1][x + 1], y + 1)), enc);
    }
  }
}
