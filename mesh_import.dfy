/**
 * 3D import: the vertices of an OBJ (`v x y z` lines) or ASCII STL
 * (`vertex x y z` lines) file become a height map. The map spans the
 * vertices' x and z ranges (one sample per unit, clamped to 16..4096 per
 * side); each vertex lands on the sample its normalised x and z select
 * and raises it to its normalised height y, scaled to 0..255, so a sample
 * ends as the highest vertex that lands on it, or 0.
 *
 * Number parsing (`QString::toFloat`) is a parameter; floats are reals.
 */
module MeshImport {
  import opened Raster
  import MeshExport

  // ---------------------------------------------------------------- lines

  /**
   * The characters `QString::trimmed` strips (`QChar::isSpace`): the ASCII
   * controls 9..13, U+0085, and the Unicode space, line and paragraph
   * separators (U+0020, U+00A0, U+1680, U+2000..U+200A, U+2028, U+2029,
   * U+202F, U+205F, U+3000).
   */
  predicate IsSpace(c: char)
  {
    var n := c as int;
    n == 0x20 || 9 <= n <= 13 || n == 0x85 || n == 0xA0 || n == 0x1680
    || 0x2000 <= n <= 0x200A || n == 0x2028 || n == 0x2029 || n == 0x202F
    || n == 0x205F || n == 0x3000
  }

  /** The line without its leading whitespace. */
  function TrimStart(s: string): (r: string)
    ensures |r| <= |s| && r == s[|s| - |r|..]
    ensures forall k :: 0 <= k < |s| - |r| ==> IsSpace(s[k])
    ensures r == [] || !IsSpace(r[0])
  {
    if |s| > 0 && IsSpace(s[0]) then TrimStart(s[1..]) else s
  }

  /** The line without its trailing whitespace. */
  function TrimEnd(s: string): (r: string)
    ensures |r| <= |s| && r == s[..|r|]
    ensures forall k :: |r| <= k < |s| ==> IsSpace(s[k])
    ensures r == [] || !IsSpace(r[|r| - 1])
  {
    if |s| > 0 && IsSpace(s[|s| - 1]) then TrimEnd(s[..|s| - 1]) else s
  }

  /** `readLine().trimmed()`. */
  function Trim(s: string): string
  {
    TrimEnd(TrimStart(s))
  }

  predicate NoSpaces(s: string)
  {
    forall k :: 0 <= k < |s| ==> !IsSpace(s[k])
  }

  /** A line with whitespace at neither end is its own trimmed form. */
  lemma TrimKeeps(s: string)
    requires s == [] || (!IsSpace(s[0]) && !IsSpace(s[|s| - 1]))
    ensures Trim(s) == s
  {
  }

  /** Trimming removes exactly the whitespace at both ends: trimming again changes nothing. */
  lemma TrimIdempotent(s: string)
    ensures Trim(Trim(s)) == Trim(s)
  {
    var t := Trim(s);
    if t != [] {
      var u := TrimStart(s);
      assert t == u[..|t|];
      assert t[0] == u[0];
    }
    TrimKeeps(t);
  }

  predicate StartsWith(s: string, prefix: string)
  {
    |prefix| <= |s| && s[..|prefix|] == prefix
  }

  /** Length of the run of non-space characters at the start of `s`. */
  function WordLength(s: string): (n: nat)
    ensures n <= |s|
    ensures forall k :: 0 <= k < n ==> s[k] != ' '
    ensures n < |s| ==> s[n] == ' '
  {
    if |s| == 0 || s[0] == ' ' then 0 else 1 + WordLength(s[1..])
  }

  /** `split(' ', Qt::SkipEmptyParts)`: the maximal runs of non-space characters, in order. */
  function Tokens(s: string): (r: seq<string>)
    ensures forall i :: 0 <= i < |r| ==> r[i] != [] && ' ' !in r[i]
    decreases |s|
  {
    if |s| == 0 then []
    else if s[0] == ' ' then Tokens(s[1..])
    else
      var n := WordLength(s);
      [s[..n]] + Tokens(s[n..])
  }

  /** Tokens joined by single spaces. */
  function Join(ts: seq<string>): string
  {
    if |ts| == 0 then [] else if |ts| == 1 then ts[0] else ts[0] + " " + Join(ts[1..])
  }

  /** Splitting a space-joined line gives the tokens back, as long as none is empty or holds a space. */
  lemma {:induction false} TokensOfJoin(ts: seq<string>)
    requires forall i :: 0 <= i < |ts| ==> ts[i] != [] && ' ' !in ts[i]
    ensures Tokens(Join(ts)) == ts
    decreases |ts|
  {
    if |ts| == 1 {
      TokensOfWord(ts[0]);
    } else if |ts| > 1 {
      TokensOfJoin(ts[1..]);
      TokensCons(ts[0], Join(ts[1..]));
      assert ts == [ts[0]] + ts[1..];
    }
  }

  /** A single word is its own only token. */
  lemma TokensOfWord(w: string)
    requires w != [] && ' ' !in w
    ensures Tokens(w) == [w]
  {
    WordOf(w, "");
    assert w + "" == w;
    assert w[|w|..] == [];
  }

  /** A word, a space and the rest: the word is the first token, the rest's tokens follow. */
  lemma TokensCons(w: string, rest: string)
    requires w != [] && ' ' !in w
    ensures Tokens(w + " " + rest) == [w] + Tokens(rest)
  {
    var tail := " " + rest;
    WordOf(w, tail);
    var s := w + tail;
    assert s == w + " " + rest;
    assert s[0] == w[0];
    assert s[|w|..] == tail;
    assert tail[1..] == rest;
  }

  /** The first token of `w + rest` is `w` when `rest` starts with a space or is empty. */
  lemma {:induction false} WordOf(w: string, rest: string)
    requires w != [] && ' ' !in w && (rest == [] || rest[0] == ' ')
    ensures WordLength(w + rest) == |w| && (w + rest)[..|w|] == w
    decreases |w|
  {
    if |w| > 1 {
      WordOf(w[1..], rest);
      assert (w + rest)[1..] == w[1..] + rest;
    } else {
      assert (w + rest)[1..] == rest;
    }
  }

  // ---------------------------------------------------------------- vertices

  datatype Vertex = Vertex(x: real, y: real, z: real)

  /** The line a vertex record starts with: `v ` in OBJ, `vertex` in STL. */
  function Keyword(isObj: bool): string
  {
    if isObj then "v " else "vertex"
  }

  /**
   * The vertex a line holds: after trimming it starts with the keyword and
   * splits into at least four tokens; tokens 1..3 are x, y, z.
   */
  function LineVertex(rawLine: string, isObj: bool, toFloat: string -> real): Option<Vertex>
  {
    var line := Trim(rawLine);
    if StartsWith(line, Keyword(isObj)) then
      var parts := Tokens(line);
      if |parts| >= 4 then Some(Vertex(toFloat(parts[1]), toFloat(parts[2]), toFloat(parts[3]))) else None
    else None
  }

  /** The vertices of a file, in line order. */
  function Vertices(lines: seq<string>, isObj: bool, toFloat: string -> real): seq<Vertex>
  {
    if |lines| == 0 then []
    else
      var init := Vertices(lines[..|lines| - 1], isObj, toFloat);
      match LineVertex(lines[|lines| - 1], isObj, toFloat)
      case Some(v) => init + [v]
      case None => init
  }

  /**
   * The vertex line the OBJ exporter writes, `v x h y` with the numbers as
   * text, reads back as the vertex (x, h, y).
   */
  lemma ObjVertexLineParses(a: string, b: string, c: string, toFloat: string -> real)
    requires a != [] && b != [] && c != [] && NoSpaces(a) && NoSpaces(b) && NoSpaces(c)
    ensures LineVertex("v " + a + " " + b + " " + c, true, toFloat) == Some(Vertex(toFloat(a), toFloat(b), toFloat(c)))
  {
    var line := "v " + a + " " + b + " " + c;
    ObjLineTokens(a, b, c);
    ObjLineTrimmed(a, b, c);
    assert line[..2] == "v ";
  }

  lemma ObjLineTokens(a: string, b: string, c: string)
    requires a != [] && b != [] && c != [] && NoSpaces(a) && NoSpaces(b) && NoSpaces(c)
    ensures Tokens("v " + a + " " + b + " " + c) == ["v", a, b, c]
  {
    var ts := ["v", a, b, c];
    JoinFour(a, b, c);
    NoSpaceChar(a);
    NoSpaceChar(b);
    NoSpaceChar(c);
    TokensOfJoin(ts);
  }

  lemma JoinFour(a: string, b: string, c: string)
    ensures Join(["v", a, b, c]) == "v " + a + " " + b + " " + c
  {
    var ts := ["v", a, b, c];
    assert ts[1..] == [a, b, c] && [a, b, c][1..] == [b, c] && [b, c][1..] == [c];
    assert Join([b, c]) == b + " " + c;
    assert Join([a, b, c]) == a + " " + (b + " " + c);
    assert Join(ts) == "v" + " " + (a + " " + (b + " " + c));
  }

  lemma ObjLineTrimmed(a: string, b: string, c: string)
    requires c != [] && NoSpaces(c)
    ensures Trim("v " + a + " " + b + " " + c) == "v " + a + " " + b + " " + c
  {
    var line := "v " + a + " " + b + " " + c;
    assert line[|line| - 1] == c[|c| - 1];
    TrimKeeps(line);
  }

  lemma NoSpaceChar(s: string)
    requires NoSpaces(s)
    ensures ' ' !in s
  {
    assert forall k :: 0 <= k < |s| ==> s[k] != ' ';
  }

  /** The parse loop: one pass over the lines, pushing x, y and z of each vertex line onto three lists. */
  method ParseVertices(lines: seq<string>, isObj: bool, toFloat: string -> real)
    returns (xs: seq<real>, ys: seq<real>, zs: seq<real>)
    ensures |xs| == |ys| == |zs| && Zip(xs, ys, zs) == Vertices(lines, isObj, toFloat)
  {
    xs, ys, zs := [], [], [];
    var n := 0;
    while n < |lines|
      invariant 0 <= n <= |lines|
      invariant |xs| == |ys| == |zs| && Zip(xs, ys, zs) == Vertices(lines[..n], isObj, toFloat)
    {
      xs, ys, zs := ParseLine(lines, n, isObj, toFloat, xs, ys, zs);
      n := n + 1;
    }
    assert lines[..|lines|] == lines;
  }

  /** One line of the parse loop: a vertex line pushes its x, y and z; any other line is skipped. */
  method ParseLine(lines: seq<string>, n: nat, isObj: bool, toFloat: string -> real,
                   xs: seq<real>, ys: seq<real>, zs: seq<real>)
    returns (xs': seq<real>, ys': seq<real>, zs': seq<real>)
    requires n < |lines| && |xs| == |ys| == |zs| && Zip(xs, ys, zs) == Vertices(lines[..n], isObj, toFloat)
    ensures |xs'| == |ys'| == |zs'| && Zip(xs', ys', zs') == Vertices(lines[..n + 1], isObj, toFloat)
  {
    var v := LineVertex(lines[n], isObj, toFloat);
    VerticesStep(lines, n, isObj, toFloat);
    xs', ys', zs' := xs, ys, zs;
    if v.Some? {
      ZipSnoc(xs, ys, zs, v.value);
      xs', ys', zs' := xs + [v.value.x], ys + [v.value.y], zs + [v.value.z];
    }
  }

  lemma VerticesStep(lines: seq<string>, n: nat, isObj: bool, toFloat: string -> real)
    requires n < |lines|
    ensures LineVertex(lines[n], isObj, toFloat).None?
            ==> Vertices(lines[..n + 1], isObj, toFloat) == Vertices(lines[..n], isObj, toFloat)
    ensures LineVertex(lines[n], isObj, toFloat).Some?
            ==> Vertices(lines[..n + 1], isObj, toFloat)
                == Vertices(lines[..n], isObj, toFloat) + [LineVertex(lines[n], isObj, toFloat).value]
  {
    assert lines[..n + 1][..n] == lines[..n];
  }

  lemma ZipSnoc(xs: seq<real>, ys: seq<real>, zs: seq<real>, v: Vertex)
    requires |xs| == |ys| == |zs|
    ensures Zip(xs + [v.x], ys + [v.y], zs + [v.z]) == Zip(xs, ys, zs) + [v]
  {
  }

  /** The three parsed lists as vertices. */
  function Zip(xs: seq<real>, ys: seq<real>, zs: seq<real>): (vs: seq<Vertex>)
    requires |xs| == |ys| == |zs|
    ensures |vs| == |xs| && forall i :: 0 <= i < |vs| ==> vs[i] == Vertex(xs[i], ys[i], zs[i])
  {
    seq(|xs|, i requires 0 <= i < |xs| => Vertex(xs[i], ys[i], zs[i]))
  }

  // ---------------------------------------------------------------- bounds

  /** `*std::min_element`. */
  function MinOf(s: seq<real>): (r: real)
    requires |s| > 0
    ensures r in s && forall i :: 0 <= i < |s| ==> r <= s[i]
  {
    if |s| == 1 then s[0]
    else
      var m := MinOf(s[..|s| - 1]);
      assert forall i :: 0 <= i < |s| - 1 ==> s[..|s| - 1][i] == s[i];
      if s[|s| - 1] < m then s[|s| - 1] else m
  }

  /** `*std::max_element`. */
  function MaxOf(s: seq<real>): (r: real)
    requires |s| > 0
    ensures r in s && forall i :: 0 <= i < |s| ==> s[i] <= r
  {
    if |s| == 1 then s[0]
    else
      var m := MaxOf(s[..|s| - 1]);
      assert forall i :: 0 <= i < |s| - 1 ==> s[..|s| - 1][i] == s[i];
      if s[|s| - 1] > m then s[|s| - 1] else m
  }

  datatype Bounds = Bounds(minX: real, maxX: real, minY: real, maxY: real, minZ: real, maxZ: real)

  function Xs(vs: seq<Vertex>): seq<real> { seq(|vs|, i requires 0 <= i < |vs| => vs[i].x) }
  function Ys(vs: seq<Vertex>): seq<real> { seq(|vs|, i requires 0 <= i < |vs| => vs[i].y) }
  function Zs(vs: seq<Vertex>): seq<real> { seq(|vs|, i requires 0 <= i < |vs| => vs[i].z) }

  /** The bounding box of a non-empty vertex list. */
  function BoundsOf(vs: seq<Vertex>): (b: Bounds)
    requires |vs| > 0
  {
    Bounds(MinOf(Xs(vs)), MaxOf(Xs(vs)), MinOf(Ys(vs)), MaxOf(Ys(vs)), MinOf(Zs(vs)), MaxOf(Zs(vs)))
  }

  /** Every vertex lies in its bounding box. */
  lemma BoundsContain(vs: seq<Vertex>)
    requires |vs| > 0
    ensures InBox(vs, BoundsOf(vs))
  {
    var b := BoundsOf(vs);
    forall i | 0 <= i < |vs|
      ensures b.minX <= vs[i].x <= b.maxX && b.minY <= vs[i].y <= b.maxY && b.minZ <= vs[i].z <= b.maxZ
    {
      assert Xs(vs)[i] == vs[i].x && Ys(vs)[i] == vs[i].y && Zs(vs)[i] == vs[i].z;
    }
  }

  /** The box is the smallest one: each of its faces touches a vertex. */
  lemma BoundsTight(vs: seq<Vertex>)
    requires |vs| > 0
    ensures var b := BoundsOf(vs);
            (exists i :: 0 <= i < |vs| && vs[i].x == b.minX) && (exists i :: 0 <= i < |vs| && vs[i].x == b.maxX)
            && (exists i :: 0 <= i < |vs| && vs[i].y == b.minY) && (exists i :: 0 <= i < |vs| && vs[i].y == b.maxY)
            && (exists i :: 0 <= i < |vs| && vs[i].z == b.minZ) && (exists i :: 0 <= i < |vs| && vs[i].z == b.maxZ)
  {
    var b := BoundsOf(vs);
    var i1 :| 0 <= i1 < |vs| && Xs(vs)[i1] == b.minX;
    var i2 :| 0 <= i2 < |vs| && Xs(vs)[i2] == b.maxX;
    var i3 :| 0 <= i3 < |vs| && Ys(vs)[i3] == b.minY;
    var i4 :| 0 <= i4 < |vs| && Ys(vs)[i4] == b.maxY;
    var i5 :| 0 <= i5 < |vs| && Zs(vs)[i5] == b.minZ;
    var i6 :| 0 <= i6 < |vs| && Zs(vs)[i6] == b.maxZ;
  }

  // ---------------------------------------------------------------- projection

  /** `static_cast<int>(std::ceil(range))` clamped to 16..4096. */
  function ImportDim(range: real): (d: int)
    ensures MinDim <= d <= MaxDim
    ensures MinDim as real <= range <= MaxDim as real - 1.0 ==> range <= d as real < range + 1.0
  {
    var n := Ceil(range);
    if n < MinDim then MinDim else if n > MaxDim then MaxDim else n
  }

  /**
   * The position of `v` in `[lo, lo + range]` as a fraction, as the source
   * computes it: a zero range (all vertices share the coordinate) divides
   * zero by zero, and the conversion of that NaN to an integer is undefined.
   */
  function RatioAsWritten(v: real, lo: real, range: real): Option<real>
  {
    if range == 0.0 then None else Some((v - lo) / range)
  }

  /** The same fraction with a zero range read as position 0. */
  function Ratio(v: real, lo: real, range: real): (r: real)
    ensures RatioAsWritten(v, lo, range).Some? ==> r == RatioAsWritten(v, lo, range).value
  {
    if range == 0.0 then 0.0 else (v - lo) / range
  }

  /** Inside the range the fraction is in [0, 1]. */
  lemma RatioInRange(v: real, lo: real, range: real)
    requires 0.0 <= range && lo <= v <= lo + range
    ensures 0.0 <= Ratio(v, lo, range) <= 1.0
  {
    if range != 0.0 {
      RatioInUnit(v - lo, range);
    }
  }

  /** A flat mesh: every vertex at height 0, so the height range is 0. */
  lemma FlatMeshHeightUndefined(vs: seq<Vertex>, i: nat)
    requires |vs| > 0 && i < |vs| && forall j :: 0 <= j < |vs| ==> vs[j].y == 0.0
    ensures var b := BoundsOf(vs); RatioAsWritten(vs[i].y, b.minY, b.maxY - b.minY) == None
  {
    BoundsContain(vs);
    BoundsTight(vs);
  }

  /** The sample index a coordinate selects: `static_cast<int>(ratio * (dim - 1))`. */
  function CellIndex(v: real, lo: real, range: real, dim: int): int
  {
    Trunc(Ratio(v, lo, range) * (dim - 1) as real)
  }

  /** The sample value of a height: `static_cast<unsigned char>(ratio * 255)`. */
  function HeightByte(y: real, lo: real, range: real): int
  {
    Trunc(Ratio(y, lo, range) * 255.0)
  }

  /** A coordinate inside the box selects a sample inside the map, and a height inside the box a byte. */
  lemma ProjectionInRange(v: real, lo: real, range: real, dim: int)
    requires 0.0 <= range && lo <= v <= lo + range && 1 <= dim
    ensures 0 <= CellIndex(v, lo, range, dim) < dim
    ensures 0 <= HeightByte(v, lo, range) <= 255
  {
    var t := Ratio(v, lo, range);
    RatioInRange(v, lo, range);
    NonnegProduct(t, (dim - 1) as real);
    NonnegProduct(1.0 - t, (dim - 1) as real);
    TruncBetween(t * (dim - 1) as real, 0, dim - 1);
    NonnegProduct(t, 255.0);
    NonnegProduct(1.0 - t, 255.0);
    TruncBetween(t * 255.0, 0, 255);
  }

  /** Where a vertex lands and the byte it carries. */
  datatype Landing = Landing(x: int, z: int, height: int)

  function Land(v: Vertex, b: Bounds, w: int, h: int): Landing
  {
    Landing(CellIndex(v.x, b.minX, b.maxX - b.minX, w), CellIndex(v.z, b.minZ, b.maxZ - b.minZ, h),
            HeightByte(v.y, b.minY, b.maxY - b.minY))
  }

  /** One step of the projection loop: an in-map sample takes the larger of its value and the vertex's byte. */
  function Splat(g: Snapshot, w: nat, h: nat, l: Landing): (r: Snapshot)
    requires IsGrid(g, w, h) && 0 <= l.height <= 255
    ensures IsGrid(r, w, h)
  {
    if 0 <= l.x < w && 0 <= l.z < h then
      g[l.z := g[l.z][l.x := if g[l.z][l.x] < l.height then l.height else g[l.z][l.x]]]
    else g
  }

  predicate InBox(vs: seq<Vertex>, b: Bounds)
  {
    forall i :: 0 <= i < |vs| ==> b.minX <= vs[i].x <= b.maxX && b.minY <= vs[i].y <= b.maxY && b.minZ <= vs[i].z <= b.maxZ
  }

  /** The map after projecting `vs` in order onto `g`. */
  function Project(g: Snapshot, w: nat, h: nat, vs: seq<Vertex>, b: Bounds): (r: Snapshot)
    requires IsGrid(g, w, h) && InBox(vs, b) && 1 <= w && 1 <= h
    ensures IsGrid(r, w, h)
  {
    if |vs| == 0 then g
    else
      var last := vs[|vs| - 1];
      ProjectionInRange(last.y, b.minY, b.maxY - b.minY, 1);
      Splat(Project(g, w, h, vs[..|vs| - 1], b), w, h, Land(last, b, w, h))
  }

  /**
   * After the projection a sample holds the highest byte of the vertices
   * that land on it, or its old value when that is higher (0 on the fresh
   * map): it is at least every such byte and its old value, and it equals
   * one of them.
   */
  /** Every vertex that lands on (x, z) carries at most `m`. */
  predicate Dominates(vs: seq<Vertex>, b: Bounds, w: int, h: int, x: int, z: int, m: int)
  {
    forall i :: 0 <= i < |vs| && Land(vs[i], b, w, h).x == x && Land(vs[i], b, w, h).z == z
      ==> Land(vs[i], b, w, h).height <= m
  }

  /** Some vertex lands on (x, z) carrying `m`. */
  predicate Attained(vs: seq<Vertex>, b: Bounds, w: int, h: int, x: int, z: int, m: int)
  {
    exists i :: 0 <= i < |vs| && Land(vs[i], b, w, h) == Landing(x, z, m)
  }

  lemma {:induction false} ProjectIsMax(g: Snapshot, w: nat, h: nat, vs: seq<Vertex>, b: Bounds, x: nat, z: nat)
    requires IsGrid(g, w, h) && InBox(vs, b) && 1 <= w && 1 <= h && x < w && z < h
    ensures var r := Project(g, w, h, vs, b);
            g[z][x] <= r[z][x] && Dominates(vs, b, w, h, x, z, r[z][x])
            && (r[z][x] == g[z][x] || Attained(vs, b, w, h, x, z, r[z][x]))
    decreases |vs|
  {
    if |vs| > 0 {
      var init := vs[..|vs| - 1];
      assert InBox(init, b);
      ProjectIsMax(g, w, h, init, b, x, z);
      var p := Project(g, w, h, init, b);
      var r := Project(g, w, h, vs, b);
      var last := vs[|vs| - 1];
      var l := Land(last, b, w, h);
      var hit := l.x == x && l.z == z;
      assert r[z][x] == (if hit && p[z][x] < l.height then l.height else p[z][x]) by {
        ProjectionInRange(last.y, b.minY, b.maxY - b.minY, 1);
        assert r == Splat(p, w, h, l);
      }
      assert Dominates(vs, b, w, h, x, z, r[z][x]) by {
        forall i | 0 <= i < |vs| && Land(vs[i], b, w, h).x == x && Land(vs[i], b, w, h).z == z
          ensures Land(vs[i], b, w, h).height <= r[z][x]
        {
          if i < |vs| - 1 {
            assert vs[i] == init[i];
          }
        }
      }
      if r[z][x] != g[z][x] && r[z][x] != p[z][x] {
        assert l == Landing(x, z, r[z][x]);
      } else if r[z][x] != g[z][x] {
        var i :| 0 <= i < |init| && Land(init[i], b, w, h) == Landing(x, z, p[z][x]);
        assert vs[i] == init[i];
      }
    }
  }

  /** Vertex order does not matter: projecting two lists with the same elements gives the same map. */
  lemma ProjectOrderFree(g: Snapshot, w: nat, h: nat, vs: seq<Vertex>, us: seq<Vertex>, b: Bounds)
    requires IsGrid(g, w, h) && InBox(vs, b) && InBox(us, b) && 1 <= w && 1 <= h
    requires multiset(vs) == multiset(us)
    ensures Project(g, w, h, vs, b) == Project(g, w, h, us, b)
  {
    var r1, r2 := Project(g, w, h, vs, b), Project(g, w, h, us, b);
    forall z | 0 <= z < h
      ensures r1[z] == r2[z]
    {
      forall x | 0 <= x < w
        ensures r1[z][x] == r2[z][x]
      {
        ProjectIsMax(g, w, h, vs, b, x, z);
        ProjectIsMax(g, w, h, us, b, x, z);
        SameLandings(vs, us, b, w, h, x, z, r1[z][x]);
        SameLandings(us, vs, b, w, h, x, z, r2[z][x]);
      }
    }
  }

  lemma SameLandings(vs: seq<Vertex>, us: seq<Vertex>, b: Bounds, w: nat, h: nat, x: nat, z: nat, v: int)
    requires multiset(vs) == multiset(us)
    ensures Attained(vs, b, w, h, x, z, v) ==> Attained(us, b, w, h, x, z, v)
    ensures Dominates(us, b, w, h, x, z, v) ==> Dominates(vs, b, w, h, x, z, v)
  {
    forall i | 0 <= i < |vs|
      ensures exists j :: 0 <= j < |us| && us[j] == vs[i]
    {
      assert vs[i] in multiset(vs);
      assert vs[i] in us;
    }
  }

  /**
   * The projection loop, on the map stored in place: every vertex raises
   * the sample it lands on to its byte when that is higher.
   */
  method ProjectVertices(a: array2<Byte>, xs: seq<real>, ys: seq<real>, zs: seq<real>, b: Bounds)
    requires |xs| == |ys| == |zs| && 1 <= a.Length0 && 1 <= a.Length1
    requires InBox(Zip(xs, ys, zs), b)
    modifies a
    ensures Grid(a) == Project(old(Grid(a)), a.Length1, a.Length0, Zip(xs, ys, zs), b)
  {
    ghost var vs := Zip(xs, ys, zs);
    ghost var g0 := Grid(a);
    var mapWidth, mapHeight := a.Length1, a.Length0;
    var i := 0;
    while i < |xs|
      invariant 0 <= i <= |xs|
      invariant InBox(vs[..i], b) && Grid(a) == Project(g0, mapWidth, mapHeight, vs[..i], b)
    {
      InBoxPrefix(vs, b, i + 1);
      ProjectVertex(a, xs, ys, zs, b, i, vs, g0);
      i := i + 1;
    }
    assert vs[..|xs|] == vs;
  }

  /** The loop body for vertex i: its landing cell and byte, then the raise. */
  method ProjectVertex(a: array2<Byte>, xs: seq<real>, ys: seq<real>, zs: seq<real>, b: Bounds, i: nat,
                       ghost vs: seq<Vertex>, ghost g0: Snapshot)
    requires |xs| == |ys| == |zs| && vs == Zip(xs, ys, zs) && 1 <= a.Length0 && 1 <= a.Length1 && i < |xs|
    requires IsGrid(g0, a.Length1, a.Length0) && InBox(vs[..i + 1], b) && InBox(vs[..i], b)
    requires Grid(a) == Project(g0, a.Length1, a.Length0, vs[..i], b)
    modifies a
    ensures Grid(a) == Project(g0, a.Length1, a.Length0, vs[..i + 1], b)
  {
    var mapWidth, mapHeight := a.Length1, a.Length0;
    var x := CellIndex(xs[i], b.minX, b.maxX - b.minX, mapWidth);
    var z := CellIndex(zs[i], b.minZ, b.maxZ - b.minZ, mapHeight);
    var heightValue := HeightByte(ys[i], b.minY, b.maxY - b.minY);
    assert vs[i] == Vertex(xs[i], ys[i], zs[i]);
    ProjectStep(g0, mapWidth, mapHeight, vs, b, i, Landing(x, z, heightValue));
    Raise(a, Landing(x, z, heightValue));
  }

  /** The loop body: `heightMapData[z][x] = std::max(heightMapData[z][x], heightValue)` when (x, z) is on the map. */
  method Raise(a: array2<Byte>, l: Landing)
    requires 0 <= l.height <= 255
    modifies a
    ensures Grid(a) == Splat(old(Grid(a)), a.Length1, a.Length0, l)
  {
    var x, z := l.x, l.z;
    if x >= 0 && x < a.Length1 && z >= 0 && z < a.Length0 {
      a[z, x] := if a[z, x] < l.height then l.height else a[z, x];
    }
    GridsEqual(Grid(a), Splat(old(Grid(a)), a.Length1, a.Length0, l), a.Length1, a.Length0);
  }

  lemma InBoxPrefix(vs: seq<Vertex>, b: Bounds, n: nat)
    requires InBox(vs, b) && n <= |vs|
    ensures InBox(vs[..n], b)
  {
  }

  /** Projecting one more vertex is one `Splat` of its landing. */
  lemma ProjectStep(g: Snapshot, w: nat, h: nat, vs: seq<Vertex>, b: Bounds, i: nat, l: Landing)
    requires IsGrid(g, w, h) && 1 <= w && 1 <= h && i < |vs| && InBox(vs[..i + 1], b)
    requires l == Land(vs[i], b, w, h)
    ensures InBox(vs[..i], b) && 0 <= l.height <= 255
    ensures Project(g, w, h, vs[..i + 1], b) == Splat(Project(g, w, h, vs[..i], b), w, h, l)
  {
    assert vs[..i + 1][..i] == vs[..i];
    ProjectionInRange(vs[i].y, b.minY, b.maxY - b.minY, 1);
  }

  /** Two grids of the same shape that agree on every sample are equal. */
  lemma GridsEqual(r: Snapshot, s: Snapshot, w: nat, h: nat)
    requires IsGrid(r, w, h) && IsGrid(s, w, h)
    requires forall z, x :: 0 <= z < h && 0 <= x < w ==> r[z][x] == s[z][x]
    ensures r == s
  {
    forall z | 0 <= z < h
      ensures r[z] == s[z]
    {
    }
  }

  // ---------------------------------------------------------------- import

  /** The parser an import uses: OBJ for `.obj`, STL for `.stl` (either case), nothing otherwise. */
  function ImportKind(fileName: string): Option<bool>
  {
    if MeshExport.EndsWithNoCase(fileName, ".obj") then Some(true)
    else if MeshExport.EndsWithNoCase(fileName, ".stl") then Some(false)
    else None
  }

  /** The size and samples of the imported map: `None` when the file holds no vertex. */
  function ImportMap(vs: seq<Vertex>): Option<(int, int, Snapshot)>
  {
    if |vs| == 0 then None
    else
      var b := BoundsOf(vs);
      var w, h := ImportDim(b.maxX - b.minX), ImportDim(b.maxZ - b.minZ);
      BoundsContain(vs);
      Some((w, h, Project(ConstGrid(w, h, 0), w, h, vs, b)))
  }

  /** The map an import of a non-empty vertex list builds, spelled out. */
  lemma ImportMapOf(vs: seq<Vertex>)
    requires |vs| > 0
    ensures var b := BoundsOf(vs);
            var w, h := ImportDim(b.maxX - b.minX), ImportDim(b.maxZ - b.minZ);
            InBox(vs, b) && ImportMap(vs) == Some((w, h, Project(ConstGrid(w, h, 0), w, h, vs, b)))
  {
    BoundsContain(vs);
  }

  /**
   * An import keeps every vertex: each lands on a sample of the map, that
   * sample is at least the vertex's height byte, and a non-zero sample is
   * the byte of some vertex landing on it.
   */
  lemma ImportKeepsVertices(vs: seq<Vertex>, i: nat, x: nat, z: nat)
    requires |vs| > 0 && i < |vs|
    ensures ImportMap(vs).Some?
    ensures var m := ImportMap(vs).value; var b := BoundsOf(vs); var l := Land(vs[i], b, m.0, m.1);
            IsGrid(m.2, m.0, m.1) && ValidDims(m.0, m.1)
            && 0 <= l.x < m.0 && 0 <= l.z < m.1 && 0 <= l.height <= 255 && l.height <= m.2[l.z][l.x]
            && (x < m.0 && z < m.1 && m.2[z][x] != 0 ==> Attained(vs, b, m.0, m.1, x, z, m.2[z][x]))
  {
    var b := BoundsOf(vs);
    var w, h := ImportDim(b.maxX - b.minX), ImportDim(b.maxZ - b.minZ);
    ImportMapOf(vs);
    var m := ImportMap(vs).value;
    assert m.0 == w && m.1 == h && m.2 == Project(ConstGrid(w, h, 0), w, h, vs, b);
    BlankProjectKeeps(vs, b, m.0, m.1, i, x, z);
  }

  /** Projecting onto an all-zero map: vertex i lands on a sample at least its byte, and a non-zero sample is attained. */
  lemma BlankProjectKeeps(vs: seq<Vertex>, b: Bounds, w: nat, h: nat, i: nat, x: nat, z: nat)
    requires InBox(vs, b) && 1 <= w && 1 <= h && i < |vs|
    ensures var g, l := Project(ConstGrid(w, h, 0), w, h, vs, b), Land(vs[i], b, w, h);
            0 <= l.x < w && 0 <= l.z < h && 0 <= l.height <= 255 && l.height <= g[l.z][l.x]
            && (x < w && z < h && g[z][x] != 0 ==> Attained(vs, b, w, h, x, z, g[z][x]))
  {
    var g0 := ConstGrid(w, h, 0);
    var l := Land(vs[i], b, w, h);
    LandingInMap(vs[i], b, w, h);
    ProjectIsMax(g0, w, h, vs, b, l.x, l.z);
    if x < w && z < h {
      ProjectIsMax(g0, w, h, vs, b, x, z);
    }
  }

  /** A vertex inside the box lands inside the map with a byte height. */
  lemma LandingInMap(v: Vertex, b: Bounds, w: int, h: int)
    requires b.minX <= v.x <= b.maxX && b.minY <= v.y <= b.maxY && b.minZ <= v.z <= b.maxZ && 1 <= w && 1 <= h
    ensures var l := Land(v, b, w, h); 0 <= l.x < w && 0 <= l.z < h && 0 <= l.height <= 255
  {
    ProjectionInRange(v.x, b.minX, b.maxX - b.minX, w);
    ProjectionInRange(v.z, b.minZ, b.maxZ - b.minZ, h);
    ProjectionInRange(v.y, b.minY, b.maxY - b.minY, 1);
  }
}
