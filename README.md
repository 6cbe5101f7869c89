# HeightMapGen core in Dafny

HeightMapGen is a Qt desktop editor for terrain height maps. A map is a
grid of `mapWidth` x `mapHeight` bytes (0 = lowest, 255 = highest). The
editor lets the user:

- create a flat map, load one from a greyscale image, or generate one from
  procedural noise;
- sculpt it with brushes and flood-fill it, with a bounded undo/redo
  history;
- export it as a triangle mesh (OBJ, ASCII STL or binary STL) and import
  one back from OBJ/STL vertex lines;
- show it in a 3D preview with a water plane, a paintable colour layer and
  a keyboard/wheel camera.

This project models that core and proves what the program promises about
it. The modules follow the program's structure:

| module | file | models |
|---|---|---|
| `Raster` | raster.dfy | the map as rows of bytes, the creation sizes, the integer casts (truncation toward zero, ceiling, byte clamping) and writing a grid cell by cell |
| `RowMajor` | rowmajor.dfy | the row-major concatenation that every "for y, for x, append" loop of the program builds (helper lemmas only) |
| `History` | history.dfy | the undo and redo stacks: `saveStateToUndo`, `undo`, `redo` and the 50-step cap |
| `Brushes` | brushes.dfy | the raise/lower, smooth, flatten and noise brushes: one disc-shaped blended stroke |
| `FloodFill` | floodfill.dfy | the fill brush: breadth-first fill of the 4-connected region of the start value |
| `Noise` | noise.dfy | the permutation table, Perlin, simplex and Voronoi noise, fBm, the derived noises, the algorithm choice and the generation of a whole map |
| `MeshExport` | mesh_export.dfy | the OBJ, ASCII STL and binary STL writers and the choice of format |
| `MeshImport` | mesh_import.dfy | reading `v x y z` / `vertex x y z` lines and projecting the vertices onto a new map |
| `Editor` | editor.dfy | the main window (`class MainWindow`): its fields and the handlers that change them |
| `Viewer` | viewer.dfy | the 3D preview (`class OpenGLWidget`): terrain and water meshes, the colour layer, zoom and camera keys |

The window and the preview are classes whose methods update their fields
in place. Each method is specified against a function of the old state.
The properties the program relies on are proved as lemmas about those
functions: round trips, bounds, preserved invariants, and exact layouts.
Floating-point values are modelled as `real`. The places where the
program's own casts matter are written out: truncation toward zero, the
unsigned-byte conversion and the 32-bit triangle count.

Where the code and the program's design notes disagree, the model follows
the code:

- The smooth brush averages over a copy of the map taken at every call
  (mainwindow.cpp:1071). It is not one copy per stroke, so a drag smooths
  against its own earlier stamps.
- An STL export keeps a quad when ANY of its four corners is above 5
  (mainwindow.cpp:421-427 and 474-481). The OBJ writer drops every face
  that has a corner at or below 5 (mainwindow.cpp:388). The two files of
  one map can therefore hold different surfaces;
  `MeshExport.FilterRulesDiffer` exhibits a 2 x 2 map where they do.
- A typed-in numeric offset is kept only while the permutation table
  exists. The first generation (empty table) replaces it with a random
  offset (mainwindow.cpp:1248-1255).
- Loading a rejected image leaves the width and height of the rejected
  image in `mapWidth`/`mapHeight` while the map keeps its old rows
  (mainwindow.cpp:257-264). `Editor.MainWindow.Load` reproduces this;
  see "## Findings".

Other behaviour worth knowing, proved here:

- a transparent colour layer shows the terrain black
  (`Viewer.TransparentCellsAreBlack`);
- Perlin's `BA`/`BB` hashes are the `AA`/`AB` hashes plus one
  (`Noise.PerlinHashes`);
- generation does not push an undo step (`Editor.MainWindow.Generate`
  leaves both stacks unchanged).

## Model

| member | source | states |
|---|---|---|
| Raster.CreateDims | mainwindow.cpp:148-157 | the created size is always within 16..4096; it is the requested size exactly when both sides are within range, and 512 x 512 otherwise |
| Raster.ConstGrid | mainwindow.cpp:162 | a new map has the requested size and every sample holds the given value |
| Raster.ClampByte | mainwindow.cpp:742 | a value in 0..255 is kept, below 0 becomes 0, above 255 becomes 255 |
| Raster.Trunc | mainwindow.cpp:740 | `static_cast<int>` of a real: the integer toward zero, within one of the value on either sign |
| Raster.Ceil | mainwindow.cpp:617-618 | `std::ceil`: the least integer not below the value |
| History.Save | mainwindow.cpp:1182-1191 | saving keeps the current map, empties the redo stack and leaves the last 50 of the old undo stack plus the current map |
| History.Undo | mainwindow.cpp:1193-1205 | undo changes nothing exactly when the undo stack is empty; otherwise the map becomes the top of the undo stack and the old map goes onto the redo stack |
| History.Redo | mainwindow.cpp:1207-1219 | redo changes nothing exactly when the redo stack is empty; otherwise the map becomes the top of the redo stack and the old map goes onto the undo stack |
| History.Suffix | mainwindow.cpp:1184-1188 | dropping the oldest entries leaves min(n, length) entries, which are the newest ones in order |
| History.UndoThenRedo | mainwindow.cpp:1193-1219 | a redo right after an undo restores the map and both stacks exactly |
| History.RedoThenUndo | mainwindow.cpp:1193-1219 | an undo right after a redo restores the map and both stacks exactly |
| History.OperationsKeepBound | mainwindow.cpp:1184-1188 | if the undo and redo stacks together hold at most 50 maps, they still do after a save, an undo, a redo or a stroke |
| History.UndoRedoKeepTotal | mainwindow.cpp:1193-1219 | undo and redo move one map between the stacks and lose none |
| History.SuffixAppend | mainwindow.cpp:1184-1188 | trimming after every push gives the same stack as trimming once after all pushes |
| History.SessionKeepsLastSteps | mainwindow.cpp:1182-1191 | after any sequence of strokes, each saved first, the undo stack holds exactly the last 50 maps saved, the redo stack is empty and the map is the last stroke's result |
| Brushes.EffectiveRadius | mainwindow.cpp:715-716 | the radius used is at least 1 and equals the brush size whenever that is at least 1 |
| Brushes.Factor | mainwindow.cpp:726-729 | the strength factor of every brush lies in (0, 1] |
| Brushes.NeighbourSum | mainwindow.cpp:1079-1091 | the 3 x 3 neighbourhood sum counts at most the cells visited, and the sum is at most 255 per counted cell |
| Brushes.NeighbourCountPositive | mainwindow.cpp:1079-1091 | a sample inside the map always counts at least itself, so the mean never divides by zero |
| Brushes.NeighbourMean | mainwindow.cpp:1079-1091 | the smoothing target is a byte |
| Brushes.NeighbourMeanBetween | mainwindow.cpp:1079-1091 | the smoothing target lies between the smallest and the largest in-map sample of the 3 x 3 neighbourhood (between any bounds that hold for all of them) |
| Brushes.StrokeResult | mainwindow.cpp:711-748 | a stroke keeps the map's size |
| Brushes.DiskInBox | mainwindow.cpp:721-736 | every cell of the brush disc lies in the clipped square the loops visit, so no affected cell is skipped |
| Brushes.BlendBetween | mainwindow.cpp:740-742 | a blended sample lies between its old value and the target, so the clamp never changes it |
| Brushes.StrokeBounded | mainwindow.cpp:736-743 | after a stroke every sample lies between its old value and its target; a changed sample lies inside the disc around an on-map centre and equals the distance-weighted blend |
| Brushes.TargetInRange | mainwindow.cpp:1164-1168 | the target of each brush is a byte given in-range heights and noise in [-1, 1] |
| Brushes.ApplyStroke | mainwindow.cpp:711-748 | the loop over the clipped square over a copy of the map computes exactly the stroke |
| FloodFill.Neighbours | mainwindow.cpp:1513-1516 | the four cells pushed are the four orthogonal neighbours |
| FloodFill.FillResult | mainwindow.cpp:1475-1520 | a fill keeps the map's size |
| FloodFill.ReachableBasics | mainwindow.cpp:1492-1511 | the start is in its own region and every cell of the region held the start's value |
| FloodFill.ClosedContainsReachable | mainwindow.cpp:1492-1517 | the fill region is the least set that holds the start and is closed under matching neighbours |
| FloodFill.UniformFillsAll | mainwindow.cpp:1475-1520 | filling a single-valued map with a different colour recolours all of it |
| FloodFill.FillIdempotent | mainwindow.cpp:1483 | filling the same point twice with the same colour changes nothing the second time |
| FloodFill.FillChangesOnlyRegion | mainwindow.cpp:1477-1517 | a sample changes only to the fill colour, only if it held the start's original value, and only if that value differed from the colour |
| FloodFill.DoneCoversReachable | mainwindow.cpp:1492-1517 | once the queue is empty every cell of the region has been visited |
| FloodFill.Fill | mainwindow.cpp:1475-1520 | the queue-based fill computes exactly the region fill |
| Noise.InitTable | mainwindow.cpp:754-762 | the table holds a permutation of 0..255 twice over, so every index up to 511 is defined |
| Noise.TableEntries | mainwindow.cpp:754-762 | every entry is in 0..255 and entry i equals entry i mod 256 |
| Noise.PerlinHashes | mainwindow.cpp:801-807 | every corner hash stays inside the table: A and B up to 510, AA and AB up to 255, BA and BB are AA and AB plus one |
| Noise.GradPlanarBound | mainwindow.cpp:779-785 | in the plane a gradient dot product is at most the sum of the offset's magnitudes |
| Noise.FadeInUnit | mainwindow.cpp:769-772 | the fade curve maps [0, 1] into [0, 1] |
| Noise.LerpBetween | mainwindow.cpp:774-777 | interpolating between two values in a range stays in that range |
| Noise.PerlinBounded | mainwindow.cpp:787-813 | Perlin noise lies in [-2, 2] at every point |
| Noise.Grad3Shape | mainwindow.h:96-100 | the simplex gradients are 12 vectors of three components in -1..1, each with exactly one zero |
| Noise.SimplexGradIndices | mainwindow.cpp:863-867 | all three corner gradient indices are in 0..11 |
| Noise.Low16 | mainwindow.cpp:911-916 | the scrambled hash keeps 16 bits |
| Noise.FeaturePoint | mainwindow.cpp:911-916 | each cell's feature point lies inside that cell |
| Noise.MinDistIsMinimum | mainwindow.cpp:904-926 | the distance kept is at most the distance to every one of the 9 neighbouring feature points, and equals one of them: it is the distance to the nearest feature point |
| Noise.VoronoiInRange | mainwindow.cpp:896-932 | Voronoi noise lies in [-1, 1] |
| Noise.OctaveLoopBounds | mainwindow.cpp:815-831 | every octave keeps the weighted sum within the sample range times the weight so far |
| Noise.FbmInRange | mainwindow.cpp:815-831 | fBm of a noise in [lo, hi] lies in [lo, hi] for every octave count and persistence |
| Noise.RidgeInUnit | mainwindow.cpp:967-971 | a ridge value of noise in [-1, 1] lies in [0, 1] |
| Noise.BillowyNoise | mainwindow.cpp:987-992 | billowy noise of Perlin noise in [-1, 1] stays in [-1, 1] |
| Noise.DerivedInRange | mainwindow.cpp:956-1030 | ridged multifractal, billowy fBm and domain-warped noise of Perlin noise in [-1, 1] all lie in [-1, 1] |
| Noise.AlgorithmOf | mainwindow.cpp:1271-1284 | the Perlin fBm is chosen exactly when the combo-box text is none of the five other algorithm names |
| Noise.Quantize | mainwindow.cpp:1286 | a noise value in [-1, 1] becomes the byte `(n + 1) * 127.5` truncated |
| Noise.QuantizeInRange | mainwindow.cpp:1286 | that byte is in 0..255 |
| Noise.QuantizeMonotone | mainwindow.cpp:1286 | higher noise never gives a lower byte; -1 gives 0 and 1 gives 255 |
| Noise.VoronoiPrimitiveInRange | mainwindow.cpp:896-932 | the Voronoi noise the generator samples lies in [-1, 1] for any feature points, so with Perlin and simplex noise in [-1, 1] all its primitives are in range |
| Noise.NoiseValueInRange | mainwindow.cpp:1264-1287 | every algorithm gives a value in [-1, 1], quantised without clamping, when the Perlin, simplex and Voronoi noise it samples lie in [-1, 1] |
| Noise.GeneratedMap | mainwindow.cpp:1264-1289 | a generated map has the map's size |
| Noise.GeneratedMapExact | mainwindow.cpp:1264-1289 | each generated sample is the quantised noise of the chosen algorithm at that cell's sample point; when the noise primitives lie in [-1, 1], that noise value lies in [-1, 1] and the sample is exactly `(n + 1) * 127.5` truncated, with no wrap-around |
| Noise.GenerateMap | mainwindow.cpp:1264-1289 | the nested generation loop computes exactly the generated map |
| MeshExport.TexRecord | mainwindow.cpp:371-377 | a cell writes a texture line exactly when it writes a vertex line |
| MeshExport.VertexIndexOrder | mainwindow.cpp:356-368 | vertex numbers are 1-based, strictly increasing in row-major order and at most the vertex count |
| MeshExport.VertexIndexMarks | mainwindow.cpp:356-368 | a sample gets a vertex number exactly when it is above the threshold |
| MeshExport.VertexLines | mainwindow.cpp:360-377 | vertex k of the file is the point of its sample, and texture line k holds that sample's coordinates |
| MeshExport.FacesValid | mainwindow.cpp:380-398 | every face refers only to written vertices (indices in 1..vertex count) |
| MeshExport.FilterRulesDiffer | mainwindow.cpp:388 | on the map [[6, 0], [0, 0]] the STL writers emit two triangles while the OBJ writer emits no face |
| MeshExport.CountTriangles | mainwindow.cpp:471-484 | the counting pass gives the number of STL triangles modulo 2^32 |
| MeshExport.FacetCountFits | mainwindow.cpp:471-484 | for maps up to 4096 x 4096 the triangle count fits in 32 bits, so the count is exact |
| MeshExport.Le32 | mainwindow.cpp:497 | a 32-bit count is written as four bytes |
| MeshExport.Le32Decode | mainwindow.cpp:487-497 | the four count bytes read back little-endian give the count |
| MeshExport.Header | mainwindow.cpp:491-494 | the header is 80 bytes: the 41 ASCII characters of the text, then zeros |
| MeshExport.FacetFloats | mainwindow.cpp:509-527 | each facet record holds 12 floats: the normal and three vertices |
| MeshExport.FacetBytesLength | mainwindow.cpp:515-526 | each facet record is 50 bytes |
| MeshExport.BinaryStlLayout | mainwindow.cpp:486-529 | a binary STL file is 84 + 50n bytes: the header, the count, then record i at offset 84 + 50i |
| MeshExport.FormatOfCases | mainwindow.cpp:337-340 | the format is OBJ exactly for `.obj` names, STL exactly for `.stl` names, and binary STL exactly when the filter also names Binary |
| MeshExport.ExtensionsExclusive | mainwindow.cpp:337-340 | no name ends in both `.obj` and `.stl`, so the order of the tests does not matter |
| MeshExport.ExportObj | mainwindow.cpp:345-403 | the writer succeeds exactly for a non-empty map, writes vertex lines, then texture lines, then faces, and reports the vertex count |
| MeshExport.ExportStlAscii | mainwindow.cpp:405-460 | the writer succeeds exactly for a non-empty map and writes two facets for every kept quad in row-major order |
| MeshExport.ExportStlBinary | mainwindow.cpp:462-538 | the writer succeeds exactly for a non-empty map and writes the header, the count and the records |
| MeshImport.TrimStart | mainwindow.cpp:572 | trimming the front removes exactly the leading white space |
| MeshImport.TrimEnd | mainwindow.cpp:572 | trimming the back removes exactly the trailing white space |
| MeshImport.TrimIdempotent | mainwindow.cpp:572 | trimming twice is the same as trimming once |
| MeshImport.Tokens | mainwindow.cpp:574 | splitting on spaces gives non-empty words without spaces |
| MeshImport.TokensOfJoin | mainwindow.cpp:574 | splitting words joined by single spaces gives the words back |
| MeshImport.ObjVertexLineParses | mainwindow.cpp:572-579 | a `v a b c` line with three numbers reads back as the vertex of those numbers |
| MeshImport.Zip | mainwindow.cpp:569-595 | three coordinate lists combine into one vertex per index |
| MeshImport.ParseVertices | mainwindow.cpp:569-595 | the line loop collects exactly the vertices of the lines that start with the keyword and have at least four words, in file order |
| MeshImport.MinOf | mainwindow.cpp:607-612 | the minimum is one of the values and none is below it |
| MeshImport.MaxOf | mainwindow.cpp:607-612 | the maximum is one of the values and none is above it |
| MeshImport.BoundsContain | mainwindow.cpp:607-612 | every vertex lies in the bounding box |
| MeshImport.BoundsTight | mainwindow.cpp:607-612 | every face of the box touches a vertex |
| MeshImport.ImportDim | mainwindow.cpp:618-625 | the imported size is within 16..4096 and is the ceiling of the range when that range is within bounds |
| MeshImport.Ratio | mainwindow.cpp:636-641 | the fraction agrees with the program's division whenever the range is non-zero |
| MeshImport.RatioInRange | mainwindow.cpp:636-641 | a coordinate inside the box has a fraction in [0, 1] |
| MeshImport.FlatMeshHeightUndefined | mainwindow.cpp:640 | for a mesh whose vertices all lie at height 0, the program's height fraction divides zero by zero |
| MeshImport.ProjectionInRange | mainwindow.cpp:636-641 | a vertex inside the box lands on a sample of the map with a height byte in 0..255 |
| MeshImport.Splat | mainwindow.cpp:644-646 | landing a vertex keeps the map's size |
| MeshImport.Project | mainwindow.cpp:634-647 | projecting the vertices keeps the map's size |
| MeshImport.ProjectIsMax | mainwindow.cpp:644-646 | each sample is at least its old value and every height landing on it, and it equals one of those |
| MeshImport.ProjectOrderFree | mainwindow.cpp:634-647 | the order of the vertices in the file does not change the map |
| MeshImport.ProjectVertices | mainwindow.cpp:634-647 | the projection loop over the map array computes exactly the projection |
| MeshImport.ImportMapOf | mainwindow.cpp:599-647 | a non-empty vertex list gives a map sized by its box and projected onto a zero map |
| MeshImport.ImportKeepsVertices | mainwindow.cpp:599-647 | every vertex lands on the imported map under a sample at least its height byte, and every non-zero sample is the height byte of some vertex landing there |
| MeshImport.LandingInMap | mainwindow.cpp:636-641 | a vertex in its box lands inside the map with a byte height |
| Editor.ModeOf | mainwindow.cpp:1314-1333 | the mode read from the combo box is never line, rectangle or circle, and is raise/lower exactly when the text is none of the other four names |
| Editor.MapToDataNearest | mainwindow.cpp:700-709 | a cursor position maps to a sample of the map: itself when on the map, otherwise the nearest edge sample |
| Editor.GenerationSeed | mainwindow.cpp:1242-1256 | the table is always a permutation table afterwards; a parsed offset is kept only with an existing table; "random", an unparsable text or an empty table draw a new table and offset |
| Editor.ProjectImport | mainwindow.cpp:599-647 | importing parsed coordinates gives the import map, of a valid size |
| Editor.ImportVertices | mainwindow.cpp:555-647 | reading the file's lines and projecting them gives the import map of the parsed vertices |
| Editor.RejectedLoadMismatch | mainwindow.cpp:257-264 | a rejected 5000 x 5000 image over a 16 x 16 map leaves the size at 5000 x 5000 but 16 rows |
| Editor.LoadCheckedKeepsShape | mainwindow.cpp:257-264 | a load that stores the size only with the rows keeps them in agreement, and a rejected image changes nothing |
| Editor.MainWindow.constructor | mainwindow.cpp:31-99 | a new window has no map, empty stacks and table, and the default brush and generation settings |
| Editor.MainWindow.SetFillColor | mainwindow.cpp:80-92 | the fill colour takes the slider's value |
| Editor.MainWindow.SetBrushSliders | mainwindow.cpp:51-58 | the brush size and intensity take the sliders' values |
| Editor.MainWindow.Create | mainwindow.cpp:146-205 | the map takes the created size, every sample is 128, and both stacks are emptied |
| Editor.MainWindow.Load | mainwindow.cpp:241-275 | an image of valid size becomes the map and empties both stacks; otherwise only the stored size changes |
| Editor.MainWindow.SaveStateToUndo | mainwindow.cpp:1182-1191 | the map and stacks change as one history save |
| Editor.MainWindow.Undo | mainwindow.cpp:1193-1205 | the map and stacks change as one undo |
| Editor.MainWindow.Redo | mainwindow.cpp:1207-1219 | the map and stacks change as one redo |
| Editor.MainWindow.ApplyBrush | mainwindow.cpp:711-748 | the map becomes the raise/lower stroke with the current height, size and intensity |
| Editor.MainWindow.ApplySmoothBrush | mainwindow.cpp:1055-1103 | the map becomes the smoothing stroke |
| Editor.MainWindow.ApplyFlattenBrush | mainwindow.cpp:1105-1136 | the map becomes the flatten stroke toward the sampled height |
| Editor.MainWindow.InitializePerlin | mainwindow.cpp:754-767 | the table is rebuilt from the shuffled permutation and the offset is redrawn |
| Editor.MainWindow.ApplyNoiseBrush | mainwindow.cpp:1138-1176 | off the map nothing changes; on it a missing table is built first and the map becomes the noise stroke |
| Editor.MainWindow.ApplyFillBrush | mainwindow.cpp:1475-1520 | the map becomes the flood fill from the cursor with the fill colour |
| Editor.MainWindow.ApplyCurrentBrush | mainwindow.cpp:1335-1353 | the map becomes the current mode's brush at the cursor, and the stacks are untouched |
| Editor.MainWindow.SelectMode | mainwindow.cpp:1314-1333 | the mode comes from the combo box; flatten samples the cursor's height; raise/lower takes its height from the button |
| Editor.MainWindow.MousePress | mainwindow.cpp:1302-1354 | off the map or without a map nothing changes; otherwise the old map is saved, redo is emptied, painting starts, the mode is selected and the current brush is applied once; the brush sliders, fill colour and generation settings never change, and the table and offset change only when a noise press finds the table empty, which builds it |
| Editor.MainWindow.MouseMove | mainwindow.cpp:1356-1384 | a move never touches the stacks; while painting it applies the current brush again, except the fill; the table and offset change only when a noise move finds the table empty, which builds it |
| Editor.MainWindow.MouseRelease | mainwindow.cpp:1386-1389 | painting stops |
| Editor.MainWindow.SetGenerationParameters | mainwindow.cpp:1237-1240 | the octaves, persistence and scale take the spin-box values |
| Editor.MainWindow.Reseed | mainwindow.cpp:1242-1256 | the table and offset become the generation seed and the table is a permutation table |
| Editor.MainWindow.Generate | mainwindow.cpp:1230-1298 | without a map nothing changes; otherwise the map becomes the generated map of the chosen algorithm with the new seed and settings, and the stacks are untouched |
| Editor.MainWindow.FillWithNoise | mainwindow.cpp:1258-1289 | the map becomes the generated map for the current table and settings |
| Editor.MainWindow.ImportModel | mainwindow.cpp:541-698 | an unknown extension, an unreadable file or no vertices change nothing; otherwise the map becomes the import map and both stacks are emptied |
| Editor.MainWindow.Export3D | mainwindow.cpp:321-539 | without a map or a file name, with an unknown extension, or when the file cannot be created, nothing is written; otherwise the chosen format's content is written |
| Viewer.ConstColors | openglwidget.cpp:643-646 | a new colour layer has the map's size and one colour everywhere |
| Viewer.BandThresholds | openglwidget.cpp:298-308 | each height byte falls in the colour band given by the thresholds 51, 102, 153 and 204 |
| Viewer.TerrainSizes | openglwidget.cpp:255-336 | the terrain mesh has 8 floats per sample and 6 indices per quad |
| Viewer.TerrainVertexAt | openglwidget.cpp:277-318 | the floats of each sample sit at 8 times its row-major index |
| Viewer.TerrainIndicesInRange | openglwidget.cpp:321-336 | every index refers to an existing vertex |
| Viewer.TerrainQuadAt | openglwidget.cpp:321-336 | the six indices of each quad sit at 6 times its row-major index and name its two triangles |
| Viewer.TransparentCellsAreBlack | openglwidget.cpp:285-295 | a transparent colour layer counts as painted and makes the terrain black |
| Viewer.BuildTerrain | openglwidget.cpp:255-336 | the mesh loops compute exactly the terrain vertices and indices |
| Viewer.WaterQuadsExact | openglwidget.cpp:343-421 | a quad gets water exactly when it lies in the map and is below the water level |
| Viewer.WaterSizes | openglwidget.cpp:343-421 | the water mesh has 32 floats and 6 indices per submerged quad |
| Viewer.IndexRunFacts | openglwidget.cpp:409-418 | the water indices are 6 per quad and refer only to the quads' 4 vertices each |
| Viewer.BuildWater | openglwidget.cpp:343-421 | the water loops compute exactly the water vertices and indices |
| Viewer.PutColor | openglwidget.cpp:1023-1024 | painting a cell changes that cell only |
| Viewer.Stamp | openglwidget.cpp:791-815 | the colour brush paints exactly the cells within its radius and keeps the rest |
| Viewer.ZoomAfter | openglwidget.cpp:579-587 | the zoom moves by one step per 120 wheel units and is clamped to [1, 20] |
| Viewer.CameraKeys | openglwidget.cpp:589-625 | only the camera keys are handled; R resets the camera; each other key moves one axis by the step; W/S, A/D and E/Q undo each other |
| Viewer.OpenGLWidget.constructor | openglwidget.cpp:9-27 | a new preview has no map and no meshes, zoom 4, step 5, water level 50, brush size 20 and red paint |
| Viewer.OpenGLWidget.GenerateMesh | openglwidget.cpp:255-336 | the terrain buffers become the terrain mesh of the stored map and colour layer |
| Viewer.OpenGLWidget.GenerateWaterMesh | openglwidget.cpp:343-421 | the water buffers become the water mesh of the stored map and water level |
| Viewer.OpenGLWidget.SetWaterLevel | openglwidget.cpp:428-435 | the water level changes and the water mesh is rebuilt for it |
| Viewer.OpenGLWidget.SetHeightMapData | openglwidget.cpp:626-667 | empty data changes nothing; otherwise the map is stored, a paint-mode colour layer is reset transparent, and the meshes are rebuilt when the GL context is ready |
| Viewer.OpenGLWidget.RebuildMeshes | openglwidget.cpp:649-658 | both meshes are rebuilt from the stored state |
| Viewer.OpenGLWidget.StoreMap | openglwidget.cpp:630-646 | the data and its size are stored, and a paint-mode colour layer is reset transparent |
| Viewer.OpenGLWidget.SetTexturePaintMode | openglwidget.cpp:670-730 | enabling paint mode gives a colour layer of the map's size, keeping a matching one and replacing others with transparent |
| Viewer.OpenGLWidget.SetColorAtPosition | openglwidget.cpp:981-1025 | an off-map cell changes nothing; otherwise exactly that cell takes the colour, over a transparent layer if there was none |
| Viewer.OpenGLWidget.ApplyTextureBrush | openglwidget.cpp:791-815 | the cells within the brush radius of the hit cell take the paint colour and the terrain mesh is rebuilt; without a layer or off the map nothing changes |
| Viewer.OpenGLWidget.Wheel | openglwidget.cpp:579-587 | the zoom becomes the clamped wheel zoom |
| Viewer.OpenGLWidget.KeyPress | openglwidget.cpp:589-625 | a camera key moves the camera as the key table says and is reported handled; other keys change nothing |

## Left out

- Widgets, dialogs, message boxes, file dialogs and the label pixmap are not modelled. Their outcomes enter as parameters: the chosen file name, whether the file could be read or created, the spin-box and slider values, and whether the cursor is over the label (`inside`).
- The PNG codec, the greyscale conversion and saving a PNG are not modelled. A loaded image enters as its rows of bytes.
- OpenGL calls (buffers, shaders, drawing, context set-up) are not modelled. Whether the context is ready enters as a parameter (`glReady`) of `Viewer.OpenGLWidget.SetHeightMapData`.
- Floating-point rounding is not modelled: `float` and `double` are real numbers. A conversion to an integer type is written out as truncation toward zero (or as the floor, where the program calls `std::floor` first), over unbounded integers. In C++ such a conversion is undefined when the value does not fit the target type, and so is a signed `int` product that overflows; the model does not reproduce that undefined behaviour, and the lines below name where it can arise.
- Noise.Perlin, Noise.Simplex, Noise.Voronoi: the cell coordinates `(int)std::floor(x)` (mainwindow.cpp:791-792), `int i = std::floor(xin + s)` (:845-846) and `static_cast<int>(std::floor(x))` (:899-900) are undefined in C++ once the sample coordinate leaves the `int` range. A typed frequency offset such as 3e9 (mainwindow.cpp:1247-1249, added to every sample point at :1266-1267) gets there. The model takes the unbounded floor; Perlin and simplex then reduce it modulo 256 for the table, as `& 255` does, and Voronoi passes it to `Noise.FeaturePoint`.
- Noise.FeaturePoint: `neighborX * 374761393 + neighborY * 668265263` (mainwindow.cpp:911) multiplies signed `int`s, which overflows (undefined in C++) for any cell with a coordinate of magnitude 6 or more, so in every Voronoi generation with the default random offset of 100..5000. The model takes the products modulo 2^32, as a typical two's-complement build computes them; `Noise.FeaturePoint`'s guarantee, a point inside its cell, holds for every 32-bit hash.
- MeshImport.ImportDim: `static_cast<int>(std::ceil(range))` (mainwindow.cpp:618-619) is undefined in C++ for a range above 2^31 - 1, for example vertices at x = 0 and x = 3e9. The model takes the unbounded ceiling, so such a range gives 4096; a typical x86 build produces INT_MIN there, which the clamp turns into 16.
- Noise.Quantize: the `unsigned char` conversion of `(n + 1) * 127.5` (mainwindow.cpp:1286) is undefined in C++ for noise outside [-1, 1]. The model truncates and keeps the low 8 bits there; `Noise.NoiseValueInRange` and `Noise.GeneratedMapExact` show the case does not arise when the noise primitives lie in [-1, 1].
- Text-to-number conversion (`toFloat`, `QString::toDouble`) and number-to-text formatting in the writers are parameters. The binary encoding of a float is the parameter `enc`.
- Randomness is a parameter: the shuffled permutation and the random offset.
- The square root in the Voronoi distance is a parameter `root`, required only to be non-negative.
- The Voronoi functions take the feature point of each cell as a parameter; the generator passes `Noise.FeaturePoint`, the program's hash.
- The ray cast and screen-to-world conversion that turn a click in the preview into a map cell are not modelled. `Viewer.OpenGLWidget.ApplyTextureBrush` starts from the hit cell.
- Mouse rotation and panning of the preview camera are not modelled; only the wheel zoom and the keyboard camera are.
- The line, rectangle and circle modes are not modelled: the program never selects them from the combo box (`Editor.ModeOf`).
- Memory exhaustion (`std::bad_alloc` on huge maps) is not modelled.
- Noise.PerlinBounded: proves Perlin noise in [-2, 2], not the [-1, 1] that the generator's quantisation assumes. Every statement that needs [-1, 1] (`Noise.NoiseValueInRange`, `Brushes.TargetInRange`) takes it as a hypothesis on Perlin and simplex noise.
- Noise.Simplex: the simplex noise function is modelled, but its range is not proved; it enters `Noise.NoiseValueInRange` as a hypothesis.
- Viewer.OpenGLWidget.SetColorAtPosition: requires a colour layer that is empty or of the map's size. The method has no caller in the program, and it does not check this itself: on a non-empty layer of another size it would index out of bounds (openglwidget.cpp:1024).
- Viewer.OpenGLWidget.ApplyTextureBrush: requires paint mode to be on; the program's mouse handler only calls it in paint mode.
- MeshImport.ImportMap: a vertex set with a zero x, z or height range is projected with the fraction 0 (`MeshImport.Ratio`), the corrected rule of "## Findings". The program divides 0 by 0 there (mainwindow.cpp:636-641), which is undefined; a typical x86 build turns the NaN into INT_MIN and drops such x/z vertices. `Editor.MainWindow.ImportModel` and `Editor.ImportVertices` run on the corrected rule.
- Editor.MainWindow.Load: follows the code, which keeps the rejected image's size (see "## Findings"); `Editor.LoadChecked` is the consistent variant, proved by `Editor.LoadCheckedKeepsShape`, and the window keeps the code's behaviour.

## Findings

| source | as written | input that shows it | evidently intended | confidence | as-written member | corrected member |
|---|---|---|---|---|---|---|
| mainwindow.cpp:636-641 | the import divides each coordinate's offset by its range (`rangeX`, `rangeZ`, `maxY - minY`) with no check for a zero range | an OBJ file whose vertices all have y = 0 (or all share one x or one z): the division is 0/0, and converting that NaN to an integer is undefined | a zero range reads as fraction 0, so every such vertex lands in row/column 0 or at height 0 | not executed | MeshImport.FlatMeshHeightUndefined | MeshImport.RatioInRange |
| mainwindow.cpp:257-264 | loading an image stores its width and height in `mapWidth`/`mapHeight` before checking them against 16..4096, and a rejected image returns with the old rows still in place | a 5000 x 5000 image loaded over a 16 x 16 map: the size reads 5000 x 5000 while the map has 16 rows of 16, so later loops bounded by the size index rows that do not exist | the size is stored only together with the rows, so a rejected image changes nothing | not executed | Editor.RejectedLoadMismatch | Editor.LoadCheckedKeepsShape |
