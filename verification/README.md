# GRayTScenes: a Dafny model of the scene builders

GRayTScenes builds triangle scenes for the GRayT ray tracer. This project models
the deterministic, sequential logic of four of its pieces, and proves what each
piece promises.

- **Wavefront OBJ export and import** (`obj.go`).
  - `SaveObj` flattens a scene tree of triangles, complex objects and shared
    (transformed) objects, skipping objects of any other kind. It numbers each distinct corner from 1 in the order
    corners are first met, and writes every `v` line before one `f` line per
    triangle.
  - `loadObj` reads the text line by line. It skips blank lines, `#` comments
    and unknown keys, checks the arity and range of every vertex and face, stops
    at the first error, and refuses a text without faces.
  - The model covers the round trip in full: the writer's text, the line scanner,
    the field splitter, base-10 integer parsing, and the reader. Float text is a
    pair of abstract functions, one for formatting and one for parsing.
- **Zone Mortalis tile board** (`zonemortalis.go`).
  - Each square of a 6 x 6 character grid becomes a corner post, a wall, a
    turned wall or a floor panel, translated onto the tile.
  - Sixteen places hold two copies of each of eight tiles, shuffled by a
    permutation and laid out on a 4 x 4 grid, each place optionally turned
    about its centre.
- **Terrain meshing** (`terrain.go`).
  - A rectangle becomes a grid of evenly spaced points.
  - A noise height is written into each point's Y.
  - Each grid cell is split into two triangles.
- **Gothic window tracery** (`gothic.go`).
  - Pointed arches are made from two sampled arcs, the right arc reversed.
  - A wall with an arch window is made of boxes and two corner fans.
  - The empty tracery band is cut between the window outline and the outline
    moved inwards.
  - A full tracery is a main arch, two sub-arches and a rosette of foils
    around a ring.

Points are exact reals standing for the library's float32 vectors. Whatever the
geometry library computes is an input:
- circle and arc sampling, quadrilateral splitting, outline joining;
- rotation about Y;
- extrusion: a solid is recorded as `Solid(face, depth)`, and the triangles
  an extrusion builds are an input of flattening.

The model states how the code builds on these: which points go where, in what
order, and which pieces are composed. The curve geometry itself is left out. This
includes the arch apex solver, the rosette's ellipse placement, the foil radius
and the seashell sweep.

Modules, one per file:

- `Wrappers` (`wrappers.dfy`): `Option` and `Result`.
- `Geometry` (`geometry.dfy`): points, materials, triangles, faces, transforms, the scene tree.
- `Seqs` (`seqs.dfy`): reversal and the reversing loops, first-occurrence deduplication, permutations.
- `SceneTree` (`scene.dfy`): `trianglesFromObject`.
- `ObjText` (`text.dfy`): line scanning, `strings.Fields`, base-10 `int64` parsing and `%d` formatting.
- `ObjWriter` (`obj_writer.dfy`): `SaveObj`.
- `ObjReader` (`obj_reader.dfy`): `loadObj`, `readVertex`, `readFace`, `toObject`.
- `ObjRoundTrip` (`obj_roundtrip.dfy`): the writer's text read back by the reader.
- `ObjExamples` (`obj_examples.dfy`): the two texts of `TestLoadObj`.
- `ZoneMortalis` (`zonemortalis.dfy`): `newTile` and `NewZoneMortalis`.
- `Terrain` (`terrain.dfy`): `toPointGrid`, `perlinHeightMap`, `gridToTriangles`.
- `Gothic` (`gothic.dfy`):
  - `createArch`, `archWindowWall` and its two presets;
  - `emptyArchWindowTracery`, `archWindowTracery`, `rosette`.

## Model

| member | source | states |
|---|---|---|
| Seqs.ReverseByIndex | gothic.go:44-47 | filling a fresh slice with element i at index len-1-i gives exactly the reverse of the input |
| Seqs.AppendReversed | gothic.go:339-341 | walking `ip` from its last element down and appending to `op` gives `op` followed by `ip` reversed, of length len(op) + len(ip) |
| Seqs.DedupFirstOccurrenceOrder | obj.go:21-42 | the deduplicated list orders elements by where each first occurs in the input |
| Seqs.PermutePreservesMultiset | zonemortalis.go:113-117 | taking `board[perm[i]]` for a permutation keeps every element with its multiplicity |
| SceneTree.TrianglesFromAppend | obj.go:56-76 | flattening a list of objects keeps order: the triangles of `a + b` are those of `a`, then those of `b` |
| SceneTree.ComplexChildInPlace | obj.go:62-63 | a complex object's child k contributes its triangles between those of the children before and after it |
| SceneTree.TrianglesFrom | obj.go:56-76 | a list of objects flattens to as many triangles as its leaves count: one per triangle, one per triangle of each extruded solid, at any depth of nesting |
| SceneTree.NodeTriangles | obj.go:59-73 | one object flattens to as many triangles as its leaves count: a triangle gives itself, a solid its extrusion's triangles, a complex or shared object those of its children, any other kind of object none |
| SceneTree.OtherSkipped | obj.go:58-73 | an object of a kind the type switch does not name is skipped: a list flattens as if it were not there |
| SceneTree.SharedComposes | obj.go:64-72 | a shared object inside a shared object is moved by the product of the transforms, the inner acting first |
| SceneTree.SharedKeepsMaterials | obj.go:64-72 | moving a shared object's triangles keeps their number and each one's material |
| SceneTree.TriangleNodesFlatten | obj.go:60-61 | a list of triangle nodes flattens back to exactly those triangles |
| ObjWriter.SaveObj | obj.go:19-53 | the text is empty exactly when the scene flattens to no triangles, and otherwise ends with a newline |
| ObjWriter.VertexList | obj.go:21-42 | the vertex list holds no corner twice, holds exactly the scene's corners, and holds all three corners of every triangle |
| ObjWriter.FaceList | obj.go:24-43 | one face per triangle; face i names, 1-based in the vertex list, exactly triangle i's three corners |
| ObjWriter.MapOfLookup | obj.go:22-28 | a corner is in the vertex map iff it is in the vertex list, and its number (1..n) leads back to it |
| ObjWriter.Intern | obj.go:25-30 | looking a corner up adds it to the vertex list only if new, keeps the map numbering the list, and returns a number that leads back to the corner |
| ObjWriter.InternTriangle | obj.go:24-43 | interning a triangle's corners in order keeps the map numbering the list, and the face resolves to the triangle's corners |
| ObjWriter.IndexTriangles | obj.go:20-44 | the numbering loop produces exactly the first-occurrence vertex list and the resolving face list |
| ObjWriter.VertexListFirstOccurrence | obj.go:21-42 | the vertex list holds every corner exactly once, nothing else, ordered by first occurrence |
| ObjWriter.EveryVertexNumbered | obj.go:24-43 | every vertex number 1..n is used by some face, so the face numbers cover exactly 1..n |
| ObjText.Fields | obj.go:95 | every field is a non-empty run of non-space characters |
| ObjText.FieldsBlank | obj.go:95-98 | a line has no fields exactly when all its characters are white space, which is when the reader skips it |
| ObjText.ScanLines | obj.go:93-94 | the scanner gives no more lines than the text has characters, and no line holds a newline |
| ObjText.Unlines | obj.go:46-53 | joining lines each ended by a newline is empty only for no lines, and otherwise ends with a newline |
| ObjText.ParseInt | obj.go:145-148 | a parsed integer fits in 64 bits, and its text starts with a digit or a sign |
| ObjText.FormatInt | obj.go:51 | the `%d` text is one field: digits only, after a minus sign for a negative integer |
| ObjText.FieldsUnwords | obj.go:95 | splitting words joined by single spaces into fields gives the words back |
| ObjText.ScanUnlines | obj.go:93-94 | scanning newline-ended lines without newlines or trailing carriage returns gives the lines back |
| ObjText.ScanUnlinesLast | obj.go:93-94 | a last non-empty line without a newline is still scanned as a line |
| ObjText.ParseFormatInt | obj.go:145-148 | base-10 parsing of the `%d` text of any 64-bit integer gives the integer back, and the text is one field |
| ObjReader.ReadVertex | obj.go:122-139 | succeeds iff there are exactly three coordinates and each parses; otherwise reports wrong arity, or the first unreadable coordinate |
| ObjReader.ReadIndex | obj.go:145-152 | an index succeeds iff it parses as a 64-bit integer in 1..numVertices, and comes back 0-based; otherwise a parse error or an out-of-range error |
| ObjReader.ReadFace | obj.go:141-168 | succeeds iff there are exactly three indices, each in 1..numVertices; the face is 0-based; otherwise wrong arity or the first bad index's error |
| ObjReader.Step | obj.go:94-117 | blank, comment and unknown-key lines change nothing; a successful line only appends, and keeps every face within the vertices read |
| ObjReader.StepVertexLine | obj.go:103-108 | a well-formed `v` line appends its parsed vertex and nothing else |
| ObjReader.StepFaceLine | obj.go:109-114 | a well-formed `f` line over vertices already read appends its face, made 0-based |
| ObjReader.LoadLinesAppend | obj.go:93-118 | reading two texts in turn is reading them as one, an error in the first ending the reading |
| ObjReader.FirstErrorStops | obj.go:104-113 | once a line fails, nothing after it is looked at: the error is the result |
| ObjReader.SkipIgnored | obj.go:95-102 | blank, comment and unknown-key lines change nothing wherever they stand |
| ObjReader.LoadLines | obj.go:91-118 | reading keeps what was read before as a prefix, and keeps every face within the vertices read before it |
| ObjReader.SkipIgnoredAll | obj.go:95-102 | a text of only blank, comment and unknown-key lines leaves what was read unchanged |
| ObjReader.ToObject | obj.go:170-176 | fails with "object list empty" iff no face was read; otherwise a mesh of the vertices and faces read |
| ObjReader.LoadObj | obj.go:90-120 | every mesh read has at least one face, every face names only vertices the text defines, and the mesh has the caller's material; a text of only blank, comment and unknown-key lines is refused as empty |
| ObjReader.ForwardReferenceFails | obj.go:150-166 | a face naming a vertex not yet read fails, even if the vertex comes later; with good indices before it, the error names it |
| ObjReader.MeshTriangles | obj.go:175 | a mesh draws one triangle per face, each in the mesh's material |
| ObjRoundTrip.FaceListNumbers | obj.go:27-39 | every number the writer puts in an `f` line is a vertex number in 1..n, so the reader's range check accepts it |
| ObjRoundTrip.ObjLinesShape | obj.go:46-53 | the text is n `v` lines of four fields, then exactly one `f` line per triangle holding its face numbers |
| ObjRoundTrip.SaveObjLines | obj.go:46-53 | the line scanner gives back exactly the lines the writer wrote |
| ObjRoundTrip.LoadVertexLines | obj.go:103-108 | reading the writer's `v` lines appends the vertices, as their text reads back, in order |
| ObjRoundTrip.LoadFaceLines | obj.go:109-114 | reading the writer's `f` lines over enough vertices appends the faces, made 0-based |
| ObjRoundTrip.LoadObjLines | obj.go:90-118 | reading the writer's lines gives its vertices, as read back, and its faces, made 0-based |
| ObjRoundTrip.SaveLoadRoundTrip | obj.go:19-53 | saving then loading gives an error exactly when the scene has no triangles; otherwise the written vertices and the faces made 0-based |
| ObjRoundTrip.RereadExact | obj.go:48 | when the text of every coordinate of the vertices reads back as that coordinate, the vertices read are the vertices written |
| ObjRoundTrip.DrawsTriangles | obj.go:43 | faces that resolve to triangles, made 0-based, draw those triangles in order |
| ObjRoundTrip.SaveLoadTriangles | obj.go:90-176 | when the text of every coordinate the scene writes reads back exactly, loading a saved non-empty scene succeeds and draws the scene's triangles, in order, in the loader's material |
| ObjExamples.CommentOnlyFileIsEmpty | obj_test.go:17-20 | a file holding only a comment is refused for having no faces |
| ObjExamples.ExampleFileGivesOneTriangle | obj_test.go:21-34 | a comment, three indented vertices and `f 1 2 3` give exactly the one triangle over those vertices |
| ZoneMortalis.TurnedAboutKeepsPivot | zonemortalis.go:165-167 | translate to the pivot, turn, and translate back: the pivot lands where the base transform alone puts it |
| ZoneMortalis.PlaceCell | zonemortalis.go:153-174 | a square is placed iff its character is one of `x`, `-`, the bar, space, and a placed square is a shared object |
| ZoneMortalis.PlaceCellPieces | zonemortalis.go:154-173 | `x` places the corner post, space the floor panel, `-` and the bar the wall |
| ZoneMortalis.PlaceCellOrigins | zonemortalis.go:155-172 | corners and walls along x land on (50x, 1, 250-50z); floor panels 0.5 further along x and z |
| ZoneMortalis.TurnedWallKeepsCentre | zonemortalis.go:164-169 | a turned wall is turned about its square's centre (25, 0, 25), which lands where an unturned wall's centre does |
| ZoneMortalis.NewTile | zonemortalis.go:135-178 | for any design a tile is a complex object of at most 37 children: the squares' pieces, each a shared object, then the base slab last |
| ZoneMortalis.BuildRow | zonemortalis.go:152-175 | one pass of the square loop appends exactly the placed squares of row z to those of the rows above |
| ZoneMortalis.BuildTile | zonemortalis.go:150-178 | the row and square loops build exactly the tile: its placed squares in row-major order, then the base slab |
| ZoneMortalis.SquaresRowMajor | zonemortalis.go:150-176 | in a design of recognised characters every square is placed, and square (x, z) is child 6z + x |
| ZoneMortalis.TileShape | zonemortalis.go:150-178 | a fully recognised tile has 37 children: 36 placed squares in row-major order, then the base slab |
| ZoneMortalis.DesignsRecognised | zonemortalis.go:18-88 | all eight designs are 6 x 6 grids of recognised characters |
| ZoneMortalis.EveryTileHas37Children | zonemortalis.go:135-178 | every tile of the board has 37 children |
| ZoneMortalis.PairsIndex | zonemortalis.go:107-110 | the unshuffled board holds design k at places 2k and 2k + 1 |
| ZoneMortalis.PairsCount | zonemortalis.go:107-110 | each of designs 0..n-1 stands on the board exactly twice, and nothing else does |
| ZoneMortalis.BoardHoldsEachTwice | zonemortalis.go:107-110 | the board has 16 places, every place holds one of the 8 designs, and each design stands exactly twice |
| ZoneMortalis.ShuffleBoard | zonemortalis.go:113-117 | the shuffled board takes place i from place perm[i], and keeps the board's multiset |
| ZoneMortalis.ShuffledBoardHoldsEachTwice | zonemortalis.go:112-117 | after any shuffle each design is still on the board exactly twice |
| ZoneMortalis.Slots | zonemortalis.go:119-132 | place i holds the tile of the design shuffled there, as a shared object |
| ZoneMortalis.PlaceSlots | zonemortalis.go:119-131 | the z and x loops with the running counter i place exactly the slots, place i at column i mod 4 and row i div 4 |
| ZoneMortalis.NewZoneMortalis | zonemortalis.go:97-133 | the board has 16 children; child i is a shared object moved by place i's transform and turn, over a tile of 37 children |
| ZoneMortalis.BoardLayout | zonemortalis.go:97-133 | the board has 16 children; child i is design `board[perm[i]]`'s tile moved into place i; each design fills exactly two places |
| ZoneMortalis.SlotPlacement | zonemortalis.go:122-126 | an unturned place moves its tile by (300 (i mod 4), 0, 300 (i div 4)); a turned place keeps the tile's centre on that place's centre |
| Terrain.PointGrid | terrain.go:55-65 | divisionsY + 1 rows of divisionsX + 1 points; point (x, y) is p1 + x step + y rise |
| Terrain.ToPointGrid | terrain.go:58-67 | the row and point loops build exactly the point grid |
| Terrain.PointGridEvenlySpaced | terrain.go:50-62 | neighbours are one step apart along a row and one rise apart down a column |
| Terrain.NoiseCoordsAsWritten | terrain.go:24-25 | the noise coordinates as written: x over the row count, y over the row length; only x < rows and y < columns stay in [-0.5, 0.5) |
| Terrain.NoiseCoordsAsWrittenLeavesRange | terrain.go:24-25 | on a grid of 2 rows of 5 points, the last point of a row gets 1.5 as written and 0.3 when corrected |
| Terrain.NoiseCoords | terrain.go:24-25 | the corrected noise coordinates: every point of the grid maps into [-0.5, 0.5) on both axes |
| Terrain.NoiseCoordsSquare | terrain.go:19-25 | on a square grid the written and the corrected coordinates agree |
| Terrain.PerlinHeightMap | terrain.go:18-42 | the grid keeps its shape and every point's X and Z; Y becomes the height at the point's noise coordinates as written, x over the row count and y over the row length; a grid of empty rows comes back unchanged |
| Terrain.PerlinHeightMapIdempotent | terrain.go:22-41 | with the same noise field, writing heights twice gives what writing them once does |
| Terrain.PerlinHeightMapCorrected | terrain.go:18-42 | the corrected map: shape, X and Z kept; Y becomes the height at the corrected noise coordinates, x over the row length and y over the row count; a grid of empty rows comes back unchanged |
| Terrain.PerlinHeightMapCorrectedIdempotent | terrain.go:22-41 | with the same noise field, writing corrected heights twice gives what writing them once does |
| Terrain.PerlinHeightMapLeavesRange | terrain.go:19-25 | on any grid of 2 rows of 5 points, the last point of the first row gets the height at (1.5, -0.5) as written and at (0.3, -0.5) when corrected |
| Terrain.CellTriangles | terrain.go:76-82 | a cell's triangles (p1, p4, p2) and (p4, p3, p2) share the diagonal p4-p2, use exactly the cell's four corners, and carry the material |
| Terrain.GridToTriangles | terrain.go:70-86 | the row and cell loops build exactly the complex object of all rows' cell triangles |
| Terrain.RowCellsIndex | terrain.go:75-83 | within a row, cell x's two triangles sit at places 2x and 2x + 1 |
| Terrain.MeshRowsLength | terrain.go:74-84 | each row of cells gives two triangles per cell |
| Terrain.MeshCell | terrain.go:74-84 | cell (x, y)'s pair sits at places 2 (y w + x) and 2 (y w + x) + 1 of the mesh |
| Terrain.MeshLayout | terrain.go:70-86 | the mesh has 2 (ylen - 1)(xlen - 1) triangles, row length taken from the first row, cell (x, y)'s pair at 2 (y w + x), row-major |
| Gothic.CreateArch | gothic.go:25-53 | the left arc is the sampled left arc; the right arc is the sampled right arc reversed, of the same length |
| Gothic.BuildArch | gothic.go:44-52 | the reversing loop builds exactly that arch |
| Gothic.WindowOutline | gothic.go:86-94 | the window outline is pR, bpR, bpL, pL, then the left arc, then the right arc: 4 + len(left) + len(right) points |
| Gothic.ArchWindowWall | gothic.go:73-131 | the wall is a solid extruded by its depth in its material; the outer outline is the wall's rectangle; the front face has 6 + (len(left) + 1) + (len(right) + 1) triangles; one inner outline of 4 + len(left) + len(right) points |
| Gothic.WallBoxes | gothic.go:97-103 | the three boxes below and beside the window give six triangles |
| Gothic.Fan | gothic.go:108-122 | a fan over n points has n - 1 triangles, triangle i joining the apex to points i and i + 1 |
| Gothic.BuildFan | gothic.go:110-114 | the fan loop builds exactly that fan |
| Gothic.FanIsConnected | gothic.go:110-122 | consecutive fan triangles share the edge from the apex to their common point |
| Gothic.FansMeet | gothic.go:105-122 | when the left fan's last point is the right fan's first, the two fans meet at that point, each with its own apex |
| Gothic.ArchWindowWallShape | gothic.go:73-131 | the front face has 6 + (len(left) + 1) + (len(right) + 1) triangles; the left fan has apex ulhc, the right fan urhc, and they meet at the top midpoint; the inner outline is the window outline |
| Gothic.RoundedArchWindowWall | gothic.go:133-136 | the rounded wall's window arch has both arcs centred on the springing line's midpoint |
| Gothic.EquilateralArchWindowWall | gothic.go:138-141 | the equilateral wall's window arch has each arc centred on the opposite springing point |
| Gothic.PresetsIgnoreExcess | gothic.go:133-141 | the presets set excess to 0.5 and 1.0, ignore the caller's excess, and pass every other parameter through |
| Gothic.PresetCentres | gothic.go:89-90 | a rounded arch centres both arcs on the springing line's midpoint; an equilateral arch centres each arc on the opposite springing point |
| Gothic.OuterBoundaryLayout | gothic.go:166-172 | the outer boundary is the outer frame reversed: the right arc as sampled, the left arc backwards, then pL, bpL, bpR, pR |
| Gothic.EmptyArchWindowTracery | gothic.go:162-197 | the tracery is a solid in its material; its outer boundary read backwards is the window outline, its inner boundary the inner frame, and its front joins the two |
| Gothic.BuildEmptyArchWindowTracery | gothic.go:162-197 | the code's reversing loops build exactly the empty tracery |
| Gothic.InnerFrameCorners | gothic.go:174-181 | the inner outline starts with the window's corner points moved `offset` inwards, and the bottom ones also `offset` up |
| Gothic.ArchWindowTracery | gothic.go:224-285 | the tracery has exactly four children: the main arch, the left sub-arch, the right sub-arch, then the rosette |
| Gothic.SubArchesSplitWindow | gothic.go:238-282 | the sub-arches are an inner width apart about the middle, each an inner band inside the main band, lowered by the vertical offset |
| Gothic.FoilOutline | gothic.go:334-341 | a foil's outline is its outer arc, then its inner arc backwards, of length len(op) + len(ip) |
| Gothic.FoilOutlineReversed | gothic.go:339-341 | read backwards, a foil outline is the inner arc followed by the outer arc reversed |
| Gothic.Foil | gothic.go:330-353 | a foil is a solid whose one outline is its outer arc then its inner arc backwards, with no inner boundary, and whose front read backwards joins the inner arc to that outline |
| Gothic.Ring | gothic.go:299-319 | the ring's outer boundary is the outer circle; its inner boundary is the inner circle read backwards, as long as the outer circle when not empty; its front read backwards joins the two circles |
| Gothic.Rosette | gothic.go:298-356 | a rosette has numFoils + 1 children: foil k at place k, then the ring last |
| Gothic.BuildRosette | gothic.go:298-356 | the code's loops (ring reversals, one foil per pass) build exactly the rosette |

## Left out

- Floating point.
  - Coordinates are exact reals. float32 rounding, NaN and signed zero are not modelled.
  - The arch apex (`sqrt`, `atan2`), the rosette's ellipse placement and the foil radius (`sin`) are not computed.
  - The rosette's centre and radius are inputs of `Gothic.ArchWindowTracery`.
- Library code that is not part of this model.
  - These are all parameters: circle and arc sampling (`PointsPhaseRange`), `QuadrilateralToTriangles`, `JoinPoints` and `JoinPointsNonCircular`, and the Y rotation's action on points.
  - `ExtrusionFace.Extrude` is recorded as a `Solid(face, depth)` node rather than computed.
- SceneTree.NodeTriangles: the triangles of an extruded solid are the input `Extrusion`.
  - The ray tracer's other object kinds (cuboids, spheres, ...) are one `Other(kind)` node: the type switch has no default case, so their geometry is never looked at.
  - How `Extrude` builds the front, back and side triangles of a solid is library code that is not part of this model.
- ObjReader.ToObject: the vertices are not re-centred on the origin.
  - `CenterPointsOnOrigin` is library code that is not part of this model, so the mesh holds the vertices as read.
  - The same holds for `ObjRoundTrip.SaveLoadTriangles` and `ObjExamples.ExampleFileGivesOneTriangle`, which speak of the uncentred mesh, as `obj_test.go` expects.
- Float text.
  - The `%f` vertex text and `strconv.ParseFloat` are abstract functions.
  - The round trip requires the float text to be one field that reads back. `ObjRoundTrip.SaveLoadTriangles` also requires the text of each coordinate the scene writes to read back as that coordinate. Real `%f` text rounds to six decimals, so real vertices may move.
- ObjRoundTrip.SaveLoadRoundTrip: the round trip is proved only when the number of distinct vertices fits in a 64-bit integer.
  - Above that, the writer's `int64` numbering would overflow.
- I/O.
  - Opening the file, `bufio.Scanner`'s 64 KiB token limit, and the `fmt.Printf` of unexpected lines are left out.
  - An unexpected line is modelled as skipped.
- Text encoding.
  - Go strings are bytes, and `strings.Fields` decodes them as UTF-8, turning an invalid byte into U+FFFD, which is not a space.
  - The model's strings are sequences of characters, so decoding is not modelled. No result of the writer or the reader depends on it.
- Randomness and time.
  - The shuffle permutation and the quarter-turn choices of the board are inputs.
  - The Perlin noise value, with its seed, octaves, weights and power, is the input `HeightField`.
  - The code draws a fresh seed on every call (terrain.go:21), so `Terrain.PerlinHeightMapIdempotent` speaks of two writes with the same noise field.
- Terrain.PointGrid: the division counts and the step vectors are inputs.
  - Computing them from the rectangle's side lengths (`Ceil`, `Length`, `Normalize`) is float work.
- Terrain.PerlinHeightMap: it requires a grid with at least one row, and a non-empty first row unless every row is empty (`HeightMappable`).
  - On an empty grid the code panics reading `grid[0]` (terrain.go:19).
  - With an empty first row, a point in a later row gets y / 0, an infinite noise coordinate; floating point is not modelled.
  - A grid whose rows are all empty is modelled: no point is visited, and it comes back unchanged.
  - The model returns a new grid; the code writes Y into the caller's grid in place and returns that same grid (terrain.go:38, 41).
- Terrain.PerlinHeightMapCorrected: it has the same two requirements as `Terrain.PerlinHeightMap`, for the same reasons.
- Terrain.GridToTriangles: it requires at least one row, and every row at least as long as the first (`Meshable`).
  - On an empty grid the code panics reading `grid[0]` (terrain.go:72).
  - On a ragged grid the code would index past a shorter row and panic.
- Gothic.Ring: it requires the inner circle samples to be empty or as many as the outer ones (`CirclesMatch`).
  - The code fills the reversed inner circle at index len(op) - 1 - i (gothic.go:303-306), which panics exactly when neither holds.
- Gothic.Rosette: it requires `CirclesMatch`, because it builds the ring.
- Gothic.BuildRosette: it requires `CirclesMatch`, because it builds the ring.
- Gothic.ArchWindowTracery: it requires `CirclesMatch` of its rosette, because it builds the rosette (gothic.go:275).
- Gothic.Rosette: the number of foils is a `nat`.
  - The code's `make` panics on a negative count (gothic.go:326); that panic is not modelled.
- `shells.go`, `main.go`, the Voronoi code and `poisson` in `terrain.go` are not modelled. They are scene set-up, rendering and float sampling.

## Findings

| source | as written | input that shows it | evidently intended | confidence | as-written member | corrected member |
|---|---|---|---|---|---|---|
| terrain.go:24-25 | the x index is divided by `len(grid)` (the number of rows) and the y index by `len(grid[0])` (the row length) | a grid of 2 rows of 5 points: the point with x = 4 gets nx = 4/2 - 0.5 = 1.5, outside [-0.5, 0.5) | x divided by the row length and y by the number of rows, so every point maps into [-0.5, 0.5) | medium, not executed | Terrain.PerlinHeightMap | Terrain.PerlinHeightMapCorrected |

- `Terrain.PerlinHeightMap` writes heights at the coordinates as written (`Terrain.NoiseCoordsAsWritten`).
- `Terrain.PerlinHeightMapCorrected` writes them at the corrected coordinates (`Terrain.NoiseCoords`), which stay in [-0.5, 0.5) on every grid.
- `Terrain.NoiseCoordsAsWrittenLeavesRange` and `Terrain.PerlinHeightMapLeavesRange` exhibit the counterexample, on the coordinates and on the heights.
- On square grids the two rules agree (`Terrain.NoiseCoordsSquare`).
