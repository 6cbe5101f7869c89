/**
 * The editor window (`MainWindow`): the height map, its size, the undo and
 * redo stacks, the brush settings and the noise state, and the handlers that
 * change them. Each handler is proved against the function that defines
 * what it computes (the brushes, the fill, the history operations, the
 * generator, the mesh import and export).
 *
 * Widget state the handlers read at the moment of the event (the brush-size
 * and intensity sliders, the combo boxes, the spin boxes, whether the
 * cursor lies on the image label) and the outcome of dialogs and file I/O
 * arrive as parameters or as the slider fields below.
 */
module Editor {
  import opened Raster
  import Brushes
  import FloodFill
  import History
  import Noise
  import MeshImport
  import MeshExport

  /** `BrushMode`. No handler applies the last three. */
  datatype BrushMode =
    | RaiseLowerMode | SmoothMode | FlattenMode | NoiseMode | FillMode
    | LineMode | RectangleMode | CircleMode

  datatype MouseButton = LeftButton | RightButton | OtherButton

  /** The mode a press selects from the text of the brush-mode combo box. */
  function ModeOf(text: string): (m: BrushMode)
    ensures m != LineMode && m != RectangleMode && m != CircleMode
    ensures m == RaiseLowerMode <==> text !in {"Suavizar", "Aplanar", "Ruido", "Rellenar"}
  {
    if text == "Suavizar" then SmoothMode
    else if text == "Aplanar" then FlattenMode
    else if text == "Ruido" then NoiseMode
    else if text == "Rellenar" then FillMode
    else RaiseLowerMode
  }

  /** The brush height a raise/lower press sets: 240 for the left button, 20 for the right one. */
  function PressHeight(button: MouseButton, current: int): int
  {
    match button
    case LeftButton => 240
    case RightButton => 20
    case OtherButton => current
  }

  /** `std::min(std::max(v, lo), hi)`. */
  function Clamp(v: int, lo: int, hi: int): int
  {
    var m := if v < lo then lo else v;
    if hi < m then hi else m
  }

  /** `mapToDataCoordinates`: a position on the image label clamped into the map. */
  function MapToData(w: int, h: int, sx: int, sy: int): (int, int)
  {
    (Clamp(sx, 0, w - 1), Clamp(sy, 0, h - 1))
  }

  function Dist(a: int, b: int): nat
  {
    if a < b then b - a else a - b
  }

  /**
   * On a map with at least one cell the clamped position is a cell of the
   * map, an in-map position is kept as it is, and on each axis no cell of
   * the map is closer to the given position.
   */
  lemma MapToDataNearest(w: int, h: int, sx: int, sy: int, x: int, y: int)
    requires 1 <= w && 1 <= h
    ensures var d := MapToData(w, h, sx, sy); InBounds(w, h, d.0, d.1)
    ensures InBounds(w, h, sx, sy) ==> MapToData(w, h, sx, sy) == (sx, sy)
    ensures var d := MapToData(w, h, sx, sy);
            InBounds(w, h, x, y) ==> Dist(d.0, sx) <= Dist(x, sx) && Dist(d.1, sy) <= Dist(y, sy)
  {
  }

  /** The perlin sampler over a filled table, as the noise brush uses it. */
  function PerlinOf(t: Noise.Table): (real, real) -> real
  {
    (a, b) => Noise.Perlin(t, a, b)
  }

  /**
   * `offsetText.toLower() == "aleatorio" || offsetText.isEmpty()`. For the
   * letters of "aleatorio", lowering and case folding agree: only the
   * letter itself and its capital match it.
   */
  predicate IsRandomText(text: string)
  {
    |text| == 0 || (|text| == 9 && forall i :: 0 <= i < 9 ==> MeshExport.EqualNoCase(text[i], "aleatorio"[i]))
  }

  /**
   * The table and offset generation uses. Random text, or text that does
   * not parse, calls `initializePerlin`; a parsed offset is stored, but when
   * the table is still empty the follow-up `initializePerlin` replaces it
   * with the random offset.
   */
  function GenerationSeed(offsetText: string, parsed: Option<real>, p: seq<int>, shuffled: seq<int>, randomOffset: real)
    : (r: (seq<int>, real))
    requires Noise.IsPermutation256(shuffled)
    ensures (p == [] || Noise.PermTable(p)) ==> Noise.PermTable(r.0)
    ensures r.1 == parsed.value <== !IsRandomText(offsetText) && parsed.Some? && p != []
    ensures r.0 == p <== !IsRandomText(offsetText) && parsed.Some? && p != []
    ensures r == (Noise.InitTable(shuffled), randomOffset) <== IsRandomText(offsetText) || parsed.None? || p == []
  {
    if IsRandomText(offsetText) || parsed.None? || p == [] then (Noise.InitTable(shuffled), randomOffset)
    else (p, parsed.value)
  }

  /** What an export writes, per format. */
  datatype ExportOutput =
    | ObjOut(lines: seq<MeshExport.ObjLine>)
    | StlAsciiOut(facets: seq<MeshExport.Facet>)
    | StlBinaryOut(bytes: seq<Byte>)

  /** The content of an exported file in the given format. */
  function ExportContent(g: Snapshot, w: nat, h: nat, format: MeshExport.ExportFormat, enc: real -> MeshExport.Word): ExportOutput
  {
    if format.ObjFormat? then ObjOut(MeshExport.ObjFile(g, w, h))
    else if format.StlAscii? then StlAsciiOut(MeshExport.StlFacets(g, w, h))
    else StlBinaryOut(MeshExport.BinaryStl(g, w, h, enc))
  }

  /**
   * The body of the import after parsing: the bounds of the vertices, the
   * map size from their x and z ranges, and the vertices projected onto a
   * fresh all-zero `mapHeight x mapWidth` array.
   */
  method ProjectImport(xs: seq<real>, ys: seq<real>, zs: seq<real>) returns (mapWidth: int, mapHeight: int, data: Snapshot)
    requires |xs| == |ys| == |zs| && |xs| > 0
    ensures MeshImport.ImportMap(MeshImport.Zip(xs, ys, zs)) == Some((mapWidth, mapHeight, data))
    ensures ValidDims(mapWidth, mapHeight) && IsGrid(data, mapWidth, mapHeight)
  {
    ghost var vs := MeshImport.Zip(xs, ys, zs);
    assert MeshImport.Xs(vs) == xs && MeshImport.Ys(vs) == ys && MeshImport.Zs(vs) == zs;
    var minX, maxX := MeshImport.MinOf(xs), MeshImport.MaxOf(xs);
    var minZ, maxZ := MeshImport.MinOf(zs), MeshImport.MaxOf(zs);
    var minY, maxY := MeshImport.MinOf(ys), MeshImport.MaxOf(ys);
    var b := MeshImport.Bounds(minX, maxX, minY, maxY, minZ, maxZ);
    assert b == MeshImport.BoundsOf(vs);
    mapWidth := MeshImport.ImportDim(maxX - minX);
    mapHeight := MeshImport.ImportDim(maxZ - minZ);
    var a := new Byte[mapHeight, mapWidth]((_, _) => 0);
    ghost var zero := ConstGrid(mapWidth, mapHeight, 0);
    MeshImport.GridsEqual(Grid(a), zero, mapWidth, mapHeight);
    MeshImport.BoundsContain(vs);
    MeshImport.ProjectVertices(a, xs, ys, zs, b);
    data := Grid(a);
    assert data == MeshImport.Project(zero, mapWidth, mapHeight, vs, b);
    MeshImport.ImportMapOf(vs);
    ghost var m := MeshImport.ImportMap(vs);
    assert m.Some? && m.value.0 == mapWidth && m.value.1 == mapHeight;
    assert m.value.2 == data;
  }

  /** Parsing and projection together: `None` exactly when the file holds no vertex. */
  method ImportVertices(lines: seq<string>, isObj: bool, toFloat: string -> real) returns (m: Option<(int, int, Snapshot)>)
    ensures m == MeshImport.ImportMap(MeshImport.Vertices(lines, isObj, toFloat))
    ensures m.Some? ==> ValidDims(m.value.0, m.value.1) && IsGrid(m.value.2, m.value.0, m.value.1)
  {
    var xs, ys, zs := MeshImport.ParseVertices(lines, isObj, toFloat);
    if |xs| == 0 {
      return None;
    }
    var w, h, g := ProjectImport(xs, ys, zs);
    m := Some((w, h, g));
  }

  // ---------------------------------------------------------------- loading

  /** The map fields a PNG load touches: `mapWidth`, `mapHeight` and the rows. */
  datatype MapFields = MapFields(width: int, height: int, rows: Snapshot)

  /**
   * `on_pushButtonLoad_clicked` as written, for an image of iw x ih: the
   * image's size is stored before it is checked, the rows only after.
   */
  function LoadAsWritten(m: MapFields, image: Snapshot, iw: int, ih: int): MapFields
  {
    if ValidDims(iw, ih) then MapFields(iw, ih, image) else MapFields(iw, ih, m.rows)
  }

  /**
   * A rejected 5000 x 5000 image over a 16 x 16 map leaves `mapWidth` and
   * `mapHeight` at 5000 while the map keeps its 16 rows: every later loop
   * bounded by them (generation, export, a brush box clipped to
   * `mapWidth - 1`) indexes rows that do not exist.
   */
  lemma RejectedLoadMismatch()
    ensures var r := LoadAsWritten(MapFields(16, 16, ConstGrid(16, 16, CreateValue)), [], 5000, 5000);
            r.width == 5000 && r.height == 5000 && |r.rows| == 16 && !IsGrid(r.rows, r.width, r.height)
  {
  }

  /** The load with the size stored only together with the rows. */
  function LoadChecked(m: MapFields, image: Snapshot, iw: int, ih: int): MapFields
  {
    if ValidDims(iw, ih) then MapFields(iw, ih, image) else m
  }

  /** A checked load keeps the rows and the size in agreement, and a rejected image changes nothing. */
  lemma LoadCheckedKeepsShape(m: MapFields, image: Snapshot, iw: int, ih: int)
    requires IsGrid(m.rows, m.width, m.height) && IsGrid(image, iw, ih)
    ensures var r := LoadChecked(m, image, iw, ih);
            IsGrid(r.rows, r.width, r.height) && (r == m <== !ValidDims(iw, ih))
            && (r == MapFields(iw, ih, image) <== ValidDims(iw, ih))
  {
  }

  // ---------------------------------------------------------------- the window

  class MainWindow {
    var mapWidth: int
    var mapHeight: int
    var heightMapData: Snapshot
    var undoStack: seq<Snapshot>
    var redoStack: seq<Snapshot>
    /** `dynamicImageLabel != nullptr`: a map was created, loaded or imported. */
    var hasLabel: bool
    var isPainting: bool
    var brushHeight: int
    var flattenHeight: int
    var currentBrushMode: BrushMode
    var p: seq<int>
    var octaves: int
    var persistence: real
    var frequencyOffset: real
    var frequencyScale: real
    /** The values of the brush-size, brush-intensity and fill-colour sliders. */
    var brushSize: int
    var brushIntensity: int
    var fillColor: int

    /** The map and the two history stacks. */
    function State(): History.State<Snapshot>
      reads this
    {
      History.State(heightMapData, undoStack, redoStack)
    }

    function MapPart(): MapFields
      reads this
    {
      MapFields(mapWidth, mapHeight, heightMapData)
    }

    /**
     * The map has the stored size (0 x 0 before the first map, within
     * 16..4096 after), every stacked snapshot has that size too, the stacks
     * hold at most `maxUndoSteps` maps together, the table is empty or
     * filled, and the widget values lie in their ranges.
     */
    predicate Valid()
      reads this
    {
      IsGrid(heightMapData, mapWidth, mapHeight)
      && (if hasLabel then ValidDims(mapWidth, mapHeight) else mapWidth == 0 && mapHeight == 0)
      && AllGrids(undoStack, mapWidth, mapHeight) && AllGrids(redoStack, mapWidth, mapHeight)
      && History.Bounded(State())
      && (p == [] || Noise.PermTable(p))
      && 0 <= brushHeight <= 255 && 0 <= flattenHeight <= 255
      && 1 <= brushSize <= 100 && 1 <= brushIntensity <= 100 && 0 <= fillColor <= 255
      && 1 <= octaves <= 10 && 0.1 <= persistence <= 0.9 && 1.0 <= frequencyScale <= 50.0
    }

    /** The brush fields a mouse press may set and the handlers read. */
    function BrushPart(): (bool, int, int, BrushMode, int, int, int)
      reads this
    {
      (isPainting, brushHeight, flattenHeight, currentBrushMode, brushSize, brushIntensity, fillColor)
    }

    function NoisePart(): (seq<int>, int, real, real, real)
      reads this
    {
      (p, octaves, persistence, frequencyOffset, frequencyScale)
    }

    /** The constructor and the header's initialisers: no map, empty stacks and table, the default settings. */
    constructor()
      ensures Valid() && !hasLabel && mapWidth == 0 && mapHeight == 0 && heightMapData == []
      ensures undoStack == [] && redoStack == [] && p == []
      ensures !isPainting && brushHeight == 128 && flattenHeight == 128 && currentBrushMode == RaiseLowerMode
      ensures octaves == 6 && persistence == 0.55 && frequencyOffset == 0.0 && frequencyScale == 8.0
      ensures brushSize == 10 && brushIntensity == 50 && fillColor == 128
    {
      mapWidth, mapHeight := 0, 0;
      heightMapData := [];
      undoStack, redoStack := [], [];
      hasLabel := false;
      isPainting := false;
      brushHeight, flattenHeight := 128, 128;
      currentBrushMode := RaiseLowerMode;
      p := [];
      octaves, persistence, frequencyOffset, frequencyScale := 6, 0.55, 0.0, 8.0;
      brushSize, brushIntensity, fillColor := 10, 50, 128;
    }

    /** The fill-colour slider's `valueChanged` connection. */
    method SetFillColor(value: int)
      requires Valid() && 0 <= value <= 255
      modifies this`fillColor
      ensures Valid() && fillColor == value
    {
      fillColor := value;
    }

    /** The user moves the brush-size or intensity slider (both range over 1..100). */
    method SetBrushSliders(size: int, intensity: int)
      requires Valid() && 1 <= size <= 100 && 1 <= intensity <= 100
      modifies this`brushSize, this`brushIntensity
      ensures Valid() && brushSize == size && brushIntensity == intensity
    {
      brushSize, brushIntensity := size, intensity;
    }

    /**
     * `on_pushButtonCreate_clicked` with the two text fields' integer
     * values: an out-of-range size falls back to 512 x 512, the map is all
     * 128, and both stacks are emptied.
     */
    method Create(newMapWidth: int, newMapHeight: int)
      requires Valid()
      modifies this`mapWidth, this`mapHeight, this`heightMapData, this`hasLabel, this`undoStack, this`redoStack
      ensures Valid() && hasLabel
      ensures (mapWidth, mapHeight) == CreateDims(newMapWidth, newMapHeight)
      ensures heightMapData == ConstGrid(mapWidth, mapHeight, CreateValue)
      ensures undoStack == [] && redoStack == []
      ensures BrushPart() == old(BrushPart()) && NoisePart() == old(NoisePart())
    {
      var w, h := newMapWidth, newMapHeight;
      if w < 16 || h < 16 || w > 4096 || h > 4096 {
        w, h := 512, 512;
      }
      assert (w, h) == CreateDims(newMapWidth, newMapHeight) && ValidDims(w, h);
      ReplaceMap(w, h, ConstGrid(w, h, CreateValue));
    }

    /**
     * `on_pushButtonLoad_clicked` for a decoded grayscale image of iw x ih,
     * as written: the size is stored first; an image outside 16..4096
     * then leaves the old rows in place (the window is no longer valid);
     * an accepted one replaces the rows and empties both stacks.
     */
    method Load(image: Snapshot, iw: int, ih: int)
      requires Valid() && 0 <= iw && 0 <= ih && IsGrid(image, iw, ih)
      modifies this`mapWidth, this`mapHeight, this`heightMapData, this`hasLabel, this`undoStack, this`redoStack
      ensures MapPart() == LoadAsWritten(old(MapPart()), image, iw, ih)
      ensures ValidDims(iw, ih) ==> Valid() && hasLabel && undoStack == [] && redoStack == []
      ensures !ValidDims(iw, ih) ==> hasLabel == old(hasLabel) && State() == old(State())
      ensures BrushPart() == old(BrushPart()) && NoisePart() == old(NoisePart())
    {
      if iw < 16 || ih < 16 || iw > 4096 || ih > 4096 {
        // the size is stored before it is checked
        mapWidth, mapHeight := iw, ih;
        return;
      }
      ReplaceMap(iw, ih, image);
    }

    // ------------------------------------------------------------ history

    /** `saveStateToUndo`: push a copy of the map, drop the oldest beyond 50, empty redo. */
    method SaveStateToUndo()
      requires Valid()
      modifies this`undoStack, this`redoStack
      ensures Valid() && State() == History.Save(old(State()))
      ensures MapPart() == old(MapPart()) && hasLabel == old(hasLabel)
      ensures BrushPart() == old(BrushPart()) && NoisePart() == old(NoisePart())
    {
      AllGridsPushPop(undoStack, heightMapData, mapWidth, mapHeight);
      undoStack := undoStack + [heightMapData];
      if |undoStack| > History.MaxUndoSteps {
        AllGridsPushPop(undoStack, heightMapData, mapWidth, mapHeight);
        undoStack := undoStack[1..];
      }
      ClearRedoStack();
    }

    method ClearRedoStack()
      modifies this`redoStack
      ensures redoStack == []
    {
      redoStack := [];
    }

    /** `undo`: with nothing to undo only a message is shown. */
    method Undo()
      requires Valid()
      modifies this`heightMapData, this`undoStack, this`redoStack
      ensures Valid() && State() == History.Undo(old(State()))
    {
      if |undoStack| == 0 {
        return;
      }
      History.OperationsKeepBound(State(), heightMapData);
      AllGridsPushPop(undoStack, heightMapData, mapWidth, mapHeight);
      AllGridsPushPop(redoStack, heightMapData, mapWidth, mapHeight);
      redoStack, heightMapData, undoStack := redoStack + [heightMapData], undoStack[|undoStack| - 1], undoStack[..|undoStack| - 1];
    }

    /** `redo`: with nothing to redo only a message is shown. */
    method Redo()
      requires Valid()
      modifies this`heightMapData, this`undoStack, this`redoStack
      ensures Valid() && State() == History.Redo(old(State()))
    {
      if |redoStack| == 0 {
        return;
      }
      History.OperationsKeepBound(State(), heightMapData);
      AllGridsPushPop(redoStack, heightMapData, mapWidth, mapHeight);
      AllGridsPushPop(undoStack, heightMapData, mapWidth, mapHeight);
      undoStack, heightMapData, redoStack := undoStack + [heightMapData], redoStack[|redoStack| - 1], redoStack[..|redoStack| - 1];
    }

    // ------------------------------------------------------------ brushes

    /** `applyBrush`: raise/lower toward `brushHeight` with the intensity slider's weight. */
    method ApplyBrush(mapX: int, mapY: int)
      requires Valid()
      modifies this`heightMapData
      ensures Valid()
      ensures heightMapData == Brushes.StrokeResult(Brushes.RaiseLower(brushHeight, brushIntensity), old(heightMapData),
                                                    mapWidth, mapHeight, mapX, mapY, brushSize)
    {
      heightMapData := Brushes.ApplyStroke(Brushes.RaiseLower(brushHeight, brushIntensity), heightMapData,
                                           mapWidth, mapHeight, mapX, mapY, brushSize);
    }

    /** `applySmoothBrush`: toward the 3x3 mean of the copy taken at the start of this call. */
    method ApplySmoothBrush(mapX: int, mapY: int)
      requires Valid()
      modifies this`heightMapData
      ensures Valid()
      ensures heightMapData == Brushes.StrokeResult(Brushes.Smooth, old(heightMapData), mapWidth, mapHeight, mapX, mapY, brushSize)
    {
      heightMapData := Brushes.ApplyStroke(Brushes.Smooth, heightMapData, mapWidth, mapHeight, mapX, mapY, brushSize);
    }

    /** `applyFlattenBrush`: toward `flattenHeight`. */
    method ApplyFlattenBrush(mapX: int, mapY: int)
      requires Valid()
      modifies this`heightMapData
      ensures Valid()
      ensures heightMapData == Brushes.StrokeResult(Brushes.Flatten(flattenHeight), old(heightMapData),
                                                    mapWidth, mapHeight, mapX, mapY, brushSize)
    {
      heightMapData := Brushes.ApplyStroke(Brushes.Flatten(flattenHeight), heightMapData, mapWidth, mapHeight, mapX, mapY, brushSize);
    }

    /**
     * `initializePerlin` with the outcome of its randomness: `shuffled` is
     * the shuffled 0..255 and `offset` the draw from [100, 5000).
     */
    method InitializePerlin(shuffled: seq<int>, offset: real)
      requires Noise.IsPermutation256(shuffled)
      modifies this`p, this`frequencyOffset
      ensures p == Noise.InitTable(shuffled) && Noise.PermTable(p) && frequencyOffset == offset
    {
      p := shuffled;
      p := p + p;
      frequencyOffset := offset;
    }

    /**
     * `applyNoiseBrush`: toward the perlin sample at a tenth of the cell's
     * position; the table is filled first if it is empty and the centre is
     * on the map.
     */
    method ApplyNoiseBrush(mapX: int, mapY: int, shuffled: seq<int>, offset: real)
      requires Valid() && Noise.IsPermutation256(shuffled)
      modifies this`heightMapData, this`p, this`frequencyOffset
      ensures Valid()
      ensures !InBounds(mapWidth, mapHeight, mapX, mapY) ==> heightMapData == old(heightMapData) && NoisePart() == old(NoisePart())
      ensures InBounds(mapWidth, mapHeight, mapX, mapY) ==>
                Noise.PermTable(p)
                && (old(p) == [] ==> p == Noise.InitTable(shuffled) && frequencyOffset == offset)
                && (old(p) != [] ==> NoisePart() == old(NoisePart()))
                && heightMapData == Brushes.StrokeResult(Brushes.NoiseStamp(PerlinOf(p)), old(heightMapData),
                                                         mapWidth, mapHeight, mapX, mapY, brushSize)
    {
      if mapX < 0 || mapX >= mapWidth || mapY < 0 || mapY >= mapHeight {
        return;
      }
      if p == [] {
        InitializePerlin(shuffled, offset);
      }
      heightMapData := Brushes.ApplyStroke(Brushes.NoiseStamp(PerlinOf(p)), heightMapData, mapWidth, mapHeight, mapX, mapY, brushSize);
    }

    /** `applyFillBrush`. */
    method ApplyFillBrush(mapX: int, mapY: int)
      requires Valid()
      modifies this`heightMapData
      ensures Valid()
      ensures heightMapData == FloodFill.FillResult(old(heightMapData), mapWidth, mapHeight, mapX, mapY, fillColor)
    {
      heightMapData := FloodFill.Fill(heightMapData, mapWidth, mapHeight, mapX, mapY, fillColor);
    }

    /** The map after the brush of `mode` at (x, y) with the window's current settings. */
    ghost function Stamped(g: Snapshot, mode: BrushMode, x: int, y: int): Snapshot
      reads this
      requires Valid() && IsGrid(g, mapWidth, mapHeight)
      requires mode == NoiseMode && InBounds(mapWidth, mapHeight, x, y) ==> Noise.PermTable(p)
    {
      match mode
      case RaiseLowerMode => Brushes.StrokeResult(Brushes.RaiseLower(brushHeight, brushIntensity), g, mapWidth, mapHeight, x, y, brushSize)
      case SmoothMode => Brushes.StrokeResult(Brushes.Smooth, g, mapWidth, mapHeight, x, y, brushSize)
      case FlattenMode => Brushes.StrokeResult(Brushes.Flatten(flattenHeight), g, mapWidth, mapHeight, x, y, brushSize)
      case NoiseMode =>
        if InBounds(mapWidth, mapHeight, x, y) then
          Brushes.StrokeResult(Brushes.NoiseStamp(PerlinOf(p)), g, mapWidth, mapHeight, x, y, brushSize)
        else g
      case FillMode => FloodFill.FillResult(g, mapWidth, mapHeight, x, y, fillColor)
      case _ => g
    }

    /** The `switch (currentBrushMode)` of a press: the current mode's brush at (mapX, mapY). */
    method ApplyCurrentBrush(mapX: int, mapY: int, shuffled: seq<int>, offset: real)
      requires Valid() && Noise.IsPermutation256(shuffled)
      modifies this`heightMapData, this`p, this`frequencyOffset
      ensures Valid()
      ensures currentBrushMode == NoiseMode && InBounds(mapWidth, mapHeight, mapX, mapY) && old(p) == [] ==>
                p == Noise.InitTable(shuffled) && frequencyOffset == offset
      ensures !(currentBrushMode == NoiseMode && InBounds(mapWidth, mapHeight, mapX, mapY) && old(p) == []) ==>
                NoisePart() == old(NoisePart())
      ensures currentBrushMode == NoiseMode && InBounds(mapWidth, mapHeight, mapX, mapY) ==> Noise.PermTable(p)
      ensures heightMapData == Stamped(old(heightMapData), currentBrushMode, mapX, mapY)
      ensures undoStack == old(undoStack) && redoStack == old(redoStack) && BrushPart() == old(BrushPart())
      ensures mapWidth == old(mapWidth) && mapHeight == old(mapHeight) && hasLabel == old(hasLabel)
    {
      match currentBrushMode
      case RaiseLowerMode => ApplyBrush(mapX, mapY);
      case SmoothMode => ApplySmoothBrush(mapX, mapY);
      case FlattenMode => ApplyFlattenBrush(mapX, mapY);
      case NoiseMode => ApplyNoiseBrush(mapX, mapY, shuffled, offset);
      case FillMode => ApplyFillBrush(mapX, mapY);
      case _ =>
    }

    // ------------------------------------------------------------ mouse

    /**
     * The mode-dependent part of a press: the mode is read from the combo
     * box; flatten samples its height at the clamped cursor position,
     * raise/lower takes 240 or 20 from the button.
     */
    method SelectMode(modeText: string, button: MouseButton, mapX: int, mapY: int)
      requires Valid() && InBounds(mapWidth, mapHeight, mapX, mapY)
      modifies this`currentBrushMode, this`flattenHeight, this`brushHeight
      ensures Valid() && currentBrushMode == ModeOf(modeText)
      ensures brushHeight == if currentBrushMode == RaiseLowerMode then PressHeight(button, old(brushHeight)) else old(brushHeight)
      ensures flattenHeight == if currentBrushMode == FlattenMode then heightMapData[mapY][mapX] else old(flattenHeight)
      ensures State() == old(State()) && MapPart() == old(MapPart()) && hasLabel == old(hasLabel)
      ensures isPainting == old(isPainting) && NoisePart() == old(NoisePart())
    {
      if modeText == "Suavizar" {
        currentBrushMode := SmoothMode;
      } else if modeText == "Aplanar" {
        currentBrushMode := FlattenMode;
        flattenHeight := heightMapData[mapY][mapX];
      } else if modeText == "Ruido" {
        currentBrushMode := NoiseMode;
      } else if modeText == "Rellenar" {
        currentBrushMode := FillMode;
      } else {
        currentBrushMode := RaiseLowerMode;
        if button == LeftButton {
          brushHeight := 240;
        } else if button == RightButton {
          brushHeight := 20;
        }
      }
    }

    /**
     * `mousePressEvent`. With no map, or off the image label, nothing
     * happens. Otherwise the map is saved once, painting starts, the mode
     * is selected and the brush is applied once at the clamped position.
     */
    method MousePress(inside: bool, localX: int, localY: int, modeText: string, button: MouseButton,
                      shuffled: seq<int>, offset: real)
      requires Valid() && Noise.IsPermutation256(shuffled)
      modifies this`heightMapData, this`p, this`frequencyOffset, this`undoStack, this`redoStack,
               this`isPainting, this`currentBrushMode, this`brushHeight, this`flattenHeight
      ensures Valid()
      ensures mapWidth == old(mapWidth) && mapHeight == old(mapHeight) && hasLabel == old(hasLabel)
      ensures brushSize == old(brushSize) && brushIntensity == old(brushIntensity) && fillColor == old(fillColor)
      ensures octaves == old(octaves) && persistence == old(persistence) && frequencyScale == old(frequencyScale)
      ensures !hasLabel || !inside ==>
                State() == old(State()) && BrushPart() == old(BrushPart()) && NoisePart() == old(NoisePart())
      ensures hasLabel && inside ==>
                var d := MapToData(mapWidth, mapHeight, localX, localY);
                var mode := ModeOf(modeText);
                InBounds(mapWidth, mapHeight, d.0, d.1)
                && isPainting && currentBrushMode == mode
                && undoStack == History.Save(old(State())).undo && redoStack == []
                && brushHeight == (if mode == RaiseLowerMode then PressHeight(button, old(brushHeight)) else old(brushHeight))
                && flattenHeight == (if mode == FlattenMode then old(heightMapData)[d.1][d.0] else old(flattenHeight))
                && (mode == NoiseMode ==> Noise.PermTable(p))
                && (mode == NoiseMode && old(p) == [] ==> p == Noise.InitTable(shuffled) && frequencyOffset == offset)
                && (!(mode == NoiseMode && old(p) == []) ==> NoisePart() == old(NoisePart()))
                && heightMapData == Stamped(old(heightMapData), mode, d.0, d.1)
    {
      if mapWidth == 0 || mapHeight == 0 || !hasLabel {
        return;
      }
      if !inside {
        return;
      }
      SaveStateToUndo();
      isPainting := true;
      var dataPos := MapToData(mapWidth, mapHeight, localX, localY);
      SelectMode(modeText, button, dataPos.0, dataPos.1);
      ApplyCurrentBrush(dataPos.0, dataPos.1, shuffled, offset);
    }

    /**
     * `mouseMoveEvent`: while painting, the current brush again at the
     * clamped position, except that the fill does nothing on a move.
     * A move never saves, so a whole drag is one undo step.
     */
    method MouseMove(inside: bool, localX: int, localY: int, shuffled: seq<int>, offset: real)
      requires Valid() && Noise.IsPermutation256(shuffled)
      modifies this`heightMapData, this`p, this`frequencyOffset
      ensures Valid()
      ensures undoStack == old(undoStack) && redoStack == old(redoStack)
      ensures !isPainting || !hasLabel || !inside || currentBrushMode == FillMode ==>
                heightMapData == old(heightMapData) && NoisePart() == old(NoisePart())
      ensures isPainting && hasLabel && inside && currentBrushMode != FillMode ==>
                var d := MapToData(mapWidth, mapHeight, localX, localY);
                InBounds(mapWidth, mapHeight, d.0, d.1)
                && (currentBrushMode == NoiseMode ==> Noise.PermTable(p))
                && (currentBrushMode == NoiseMode && old(p) == [] ==> p == Noise.InitTable(shuffled) && frequencyOffset == offset)
                && (!(currentBrushMode == NoiseMode && old(p) == []) ==> NoisePart() == old(NoisePart()))
                && heightMapData == Stamped(old(heightMapData), currentBrushMode, d.0, d.1)
    {
      if isPainting && hasLabel {
        if !inside {
          return;
        }
        var dataPos := MapToData(mapWidth, mapHeight, localX, localY);
        if currentBrushMode != FillMode {
          ApplyCurrentBrush(dataPos.0, dataPos.1, shuffled, offset);
        }
      }
    }

    /** `mouseReleaseEvent`. */
    method MouseRelease()
      requires Valid()
      modifies this`isPainting
      ensures Valid() && !isPainting
    {
      isPainting := false;
    }

    // ------------------------------------------------------------ generation

    /** The spin-box values `on_pushButtonGenerate_clicked` stores before generating. */
    method SetGenerationParameters(spinOctaves: int, spinPersistence: real, spinScale: real)
      requires Valid() && 1 <= spinOctaves <= 10 && 0.1 <= spinPersistence <= 0.9 && 1.0 <= spinScale <= 50.0
      modifies this`octaves, this`persistence, this`frequencyScale
      ensures Valid() && octaves == spinOctaves && persistence == spinPersistence && frequencyScale == spinScale
    {
      octaves := spinOctaves;
      persistence := spinPersistence;
      frequencyScale := spinScale;
    }

    /** The offset and table choice of `on_pushButtonGenerate_clicked`. */
    method Reseed(offsetText: string, parsedOffset: Option<real>, shuffled: seq<int>, randomOffset: real)
      requires Valid() && Noise.IsPermutation256(shuffled)
      modifies this`p, this`frequencyOffset
      ensures (p, frequencyOffset) == GenerationSeed(offsetText, parsedOffset, old(p), shuffled, randomOffset)
      ensures Valid() && Noise.PermTable(p)
      ensures octaves == old(octaves) && persistence == old(persistence) && frequencyScale == old(frequencyScale)
    {
      if IsRandomText(offsetText) {
        InitializePerlin(shuffled, randomOffset);
      } else {
        if parsedOffset.Some? {
          frequencyOffset := parsedOffset.value;
        } else {
          InitializePerlin(shuffled, randomOffset);
        }
        if p == [] {
          InitializePerlin(shuffled, randomOffset);
        }
      }
    }

    /**
     * `on_pushButtonGenerate_clicked` with the spin boxes' values, the two
     * combo/line-edit texts (and the offset text's parse), the outcome of
     * `initializePerlin`'s randomness and the square root voronoi uses.
     * The map is overwritten without saving an undo step.
     */
    method Generate(noiseType: string, offsetText: string, parsedOffset: Option<real>,
                    spinOctaves: int, spinPersistence: real, spinScale: real,
                    shuffled: seq<int>, randomOffset: real, root: real -> real)
      requires Valid() && 1 <= spinOctaves <= 10 && 0.1 <= spinPersistence <= 0.9 && 1.0 <= spinScale <= 50.0
      requires Noise.IsPermutation256(shuffled)
      modifies this`heightMapData, this`p, this`frequencyOffset, this`octaves, this`persistence, this`frequencyScale
      ensures Valid() && undoStack == old(undoStack) && redoStack == old(redoStack)
      ensures mapWidth == 0 || mapHeight == 0 ==>
                heightMapData == old(heightMapData) && p == old(p) && frequencyOffset == old(frequencyOffset)
                && octaves == old(octaves) && persistence == old(persistence) && frequencyScale == old(frequencyScale)
      ensures mapWidth != 0 && mapHeight != 0 ==>
                octaves == spinOctaves && persistence == spinPersistence && frequencyScale == spinScale
                && (p, frequencyOffset) == GenerationSeed(offsetText, parsedOffset, old(p), shuffled, randomOffset)
                && Noise.PermTable(p)
                && heightMapData == Noise.GeneratedMap(Noise.AlgorithmOf(noiseType), p, root, octaves, persistence,
                                                       Noise.BaseFrequency(mapWidth, mapHeight, frequencyScale),
                                                       frequencyOffset, mapWidth, mapHeight)
    {
      if mapWidth == 0 || mapHeight == 0 {
        return;
      }
      Regenerate(noiseType, offsetText, parsedOffset, spinOctaves, spinPersistence, spinScale, shuffled, randomOffset, root);
    }

    /** The body of `on_pushButtonGenerate_clicked` once a map exists. */
    method Regenerate(noiseType: string, offsetText: string, parsedOffset: Option<real>,
                      spinOctaves: int, spinPersistence: real, spinScale: real,
                      shuffled: seq<int>, randomOffset: real, root: real -> real)
      requires Valid() && 1 <= spinOctaves <= 10 && 0.1 <= spinPersistence <= 0.9 && 1.0 <= spinScale <= 50.0
      requires Noise.IsPermutation256(shuffled) && mapWidth != 0 && mapHeight != 0
      modifies this`heightMapData, this`p, this`frequencyOffset, this`octaves, this`persistence, this`frequencyScale
      ensures Valid()
      ensures octaves == spinOctaves && persistence == spinPersistence && frequencyScale == spinScale
      ensures (p, frequencyOffset) == GenerationSeed(offsetText, parsedOffset, old(p), shuffled, randomOffset)
      ensures Noise.PermTable(p)
      ensures heightMapData == Noise.GeneratedMap(Noise.AlgorithmOf(noiseType), p, root, octaves, persistence,
                                                  Noise.BaseFrequency(mapWidth, mapHeight, frequencyScale),
                                                  frequencyOffset, mapWidth, mapHeight)
    {
      SetGenerationParameters(spinOctaves, spinPersistence, spinScale);
      Reseed(offsetText, parsedOffset, shuffled, randomOffset);
      FillWithNoise(noiseType, root);
    }

    /** The generation loop of `on_pushButtonGenerate_clicked` with the stored parameters and a filled table. */
    method FillWithNoise(noiseType: string, root: real -> real)
      requires Valid() && Noise.PermTable(p) && mapWidth != 0 && mapHeight != 0
      modifies this`heightMapData
      ensures Valid() && NoisePart() == old(NoisePart())
      ensures heightMapData == Noise.GeneratedMap(Noise.AlgorithmOf(noiseType), p, root, octaves, persistence,
                                                  Noise.BaseFrequency(mapWidth, mapHeight, frequencyScale),
                                                  frequencyOffset, mapWidth, mapHeight)
    {
      var baseFrequency := Noise.BaseFrequency(mapWidth, mapHeight, frequencyScale);
      var alg := Noise.AlgorithmOf(noiseType);
      heightMapData := Noise.GenerateMap(heightMapData, mapWidth, mapHeight, alg, p, root, octaves, persistence,
                                         baseFrequency, frequencyOffset);
    }

    // ------------------------------------------------------------ mesh files

    /** A new map of the given size: the label exists and both stacks are emptied. */
    method ReplaceMap(w: int, h: int, data: Snapshot)
      requires Valid() && ValidDims(w, h) && IsGrid(data, w, h)
      modifies this`mapWidth, this`mapHeight, this`heightMapData, this`hasLabel, this`undoStack, this`redoStack
      ensures Valid() && MapPart() == MapFields(w, h, data) && hasLabel && undoStack == [] && redoStack == []
      ensures BrushPart() == old(BrushPart()) && NoisePart() == old(NoisePart())
    {
      mapWidth, mapHeight, heightMapData := w, h, data;
      hasLabel := true;
      undoStack, redoStack := [], [];
    }

    /**
     * `on_pushButtonImport3D_clicked` with the file's lines (when it could
     * be opened) and the text-to-float conversion. An unsupported name, an
     * unreadable file or a file without vertices changes nothing;
     * otherwise the map becomes the projection of the vertices and both
     * stacks are emptied.
     */
    method ImportModel(fileName: string, readable: bool, lines: seq<string>, toFloat: string -> real)
      requires Valid()
      modifies this`mapWidth, this`mapHeight, this`heightMapData, this`hasLabel, this`undoStack, this`redoStack
      ensures Valid()
      ensures var kind := MeshImport.ImportKind(fileName);
              var m := if kind.Some? && readable then MeshImport.ImportMap(MeshImport.Vertices(lines, kind.value, toFloat)) else None;
              (m.None? ==> MapPart() == old(MapPart()) && State() == old(State()) && hasLabel == old(hasLabel))
              && (m.Some? ==> MapPart() == MapFields(m.value.0, m.value.1, m.value.2) && hasLabel && undoStack == [] && redoStack == [])
    {
      var kind := MeshImport.ImportKind(fileName);
      if kind.None? {
        return;
      }
      if !readable {
        return;
      }
      var m := ImportVertices(lines, kind.value, toFloat);
      if m.None? {
        return;
      }
      ReplaceMap(m.value.0, m.value.1, m.value.2);
    }

    /**
     * `on_pushButtonExport3D_clicked` for the chosen file name and filter
     * (an empty name is a cancelled dialog), whether the file could be
     * created (`file.open` succeeding) and a float encoder for the binary
     * records: nothing without a map, for an unknown extension or for a
     * file that cannot be created, otherwise the file's content. The
     * window does not change.
     */
    method Export3D(fileName: string, selectedFilter: string, writable: bool, enc: real -> MeshExport.Word)
      returns (out: Option<ExportOutput>)
      requires Valid()
      ensures mapWidth == 0 || mapHeight == 0 || fileName == [] || !writable ==> out == None
      ensures mapWidth != 0 && mapHeight != 0 && fileName != [] && writable ==>
                var format := MeshExport.FormatOf(fileName, selectedFilter);
                out == if format.None? then None else Some(ExportContent(heightMapData, mapWidth, mapHeight, format.value, enc))
    {
      if mapWidth == 0 || mapHeight == 0 {
        return None;
      }
      if fileName == [] {
        return None;
      }
      var format := MeshExport.FormatOf(fileName, selectedFilter);
      if format.None? {
        return None;
      }
      if !writable {
        // each writer returns before writing when `file.open` fails
        return None;
      }
      if format.value.ObjFormat? {
        var ok, lines, exported := MeshExport.ExportObj(heightMapData, mapWidth, mapHeight);
        out := Some(ObjOut(lines));
      } else if format.value.StlAscii? {
        var ok, facets, triangleCount := MeshExport.ExportStlAscii(heightMapData, mapWidth, mapHeight);
        out := Some(StlAsciiOut(facets));
      } else {
        var ok, bytes := MeshExport.ExportStlBinary(heightMapData, mapWidth, mapHeight, enc);
        out := Some(StlBinaryOut(bytes));
      }
    }
  }
}
