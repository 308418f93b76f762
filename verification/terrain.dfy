/**
 * Terrain meshing: a rectangle cut into a grid of evenly spaced points,
 * heights written into the points' Y components from a noise function,
 * and the grid split into two triangles per cell.
 */
module Terrain {
  import opened Geometry
  import opened Seqs

  /** A grid of points: rows indexed by y, points in a row by x. */
  type Grid = seq<seq<Vec>>

  /** Every row has exactly `width` points. */
  predicate Rectangular(grid: Grid, width: nat) {
    forall y :: 0 <= y < |grid| ==> |grid[y]| == width
  }

  /**
   * The point grid over a rectangle with corner `p1`: `divisionsY + 1`
   * rows of `divisionsX + 1` points, point (x, y) at `p1 + x step + y rise`.
   * The division counts and step vectors are computed from the
   * rectangle's side lengths in floating point and are inputs here.
   */
  function PointGrid(p1: Vec, step: Vec, rise: Vec, divisionsX: nat, divisionsY: nat): (grid: Grid)
    ensures |grid| == divisionsY + 1 && Rectangular(grid, divisionsX + 1)
    ensures forall y, x :: 0 <= y < |grid| && 0 <= x < |grid[y]| ==>
      grid[y][x] == Add(Add(p1, Scale(step, x as real)), Scale(rise, y as real))
  {
    seq(divisionsY + 1, y =>
      seq(divisionsX + 1, x => Add(Add(p1, Scale(step, x as real)), Scale(rise, y as real))))
  }

  /** The grid-building loops: one row per y, one point per x. */
  method ToPointGrid(p1: Vec, step: Vec, rise: Vec, divisionsX: nat, divisionsY: nat) returns (grid: Grid)
    ensures grid == PointGrid(p1, step, rise, divisionsX, divisionsY)
  {
    ghost var target := PointGrid(p1, step, rise, divisionsX, divisionsY);
    grid := [];
    for y := 0 to divisionsY + 1
      invariant grid == target[..y]
    {
      var row: seq<Vec> := [];
      for x := 0 to divisionsX + 1
        invariant row == target[y][..x]
      {
        row := row + [Add(Add(p1, Scale(step, x as real)), Scale(rise, y as real))];
      }
      assert row == target[y];
      grid := grid + [row];
    }
  }

  /** Neighbouring points of the grid are one step apart along a row and one rise apart down a column. */
  lemma PointGridEvenlySpaced(p1: Vec, step: Vec, rise: Vec, divisionsX: nat, divisionsY: nat, x: nat, y: nat)
    requires x < divisionsX && y < divisionsY
    ensures var grid := PointGrid(p1, step, rise, divisionsX, divisionsY);
      && grid[y][x + 1] == Add(grid[y][x], step)
      && grid[y + 1][x] == Add(grid[y][x], rise)
  {
    GridPointSteps(p1, step, rise, x as real, y as real);
    assert (x + 1) as real == x as real + 1.0 && (y + 1) as real == y as real + 1.0;
  }

  /** One more step along x adds `step`; one more along y adds `rise`. */
  lemma GridPointSteps(p1: Vec, step: Vec, rise: Vec, x: real, y: real)
    ensures Add(Add(p1, Scale(step, x + 1.0)), Scale(rise, y)) == Add(Add(Add(p1, Scale(step, x)), Scale(rise, y)), step)
    ensures Add(Add(p1, Scale(step, x)), Scale(rise, y + 1.0)) == Add(Add(Add(p1, Scale(step, x)), Scale(rise, y)), rise)
  {
  }

  /**
   * The noise coordinates of point (x, y) of a grid with `rows` rows and
   * `columns` points per row, as the code computes them: x is divided by
   * the number of rows and y by the number of columns.
   */
  function NoiseCoordsAsWritten(x: nat, y: nat, rows: nat, columns: nat): (c: (real, real))
    requires rows > 0 && columns > 0
    ensures x < rows ==> -0.5 <= c.0 < 0.5
    ensures y < columns ==> -0.5 <= c.1 < 0.5
  {
    (x as real / rows as real - 0.5, y as real / columns as real - 0.5)
  }

  /** The noise coordinates of point (x, y): x over the row length and y over the number of rows, each shifted to centre on 0. */
  function NoiseCoords(x: nat, y: nat, rows: nat, columns: nat): (c: (real, real))
    requires rows > 0 && columns > 0
    ensures x < columns ==> -0.5 <= c.0 < 0.5
    ensures y < rows ==> -0.5 <= c.1 < 0.5
  {
    (x as real / columns as real - 0.5, y as real / rows as real - 0.5)
  }

  /** On a two-row grid of five points per row, the last point of a row gets an x coordinate of 1.5 as written. */
  lemma NoiseCoordsAsWrittenLeavesRange()
    ensures NoiseCoordsAsWritten(4, 0, 2, 5).0 == 1.5
    ensures NoiseCoords(4, 0, 2, 5).0 == 0.3
  {
  }

  /** On a square grid the two coordinate rules agree. */
  lemma NoiseCoordsSquare(x: nat, y: nat, n: nat)
    requires n > 0
    ensures NoiseCoordsAsWritten(x, y, n, n) == NoiseCoords(x, y, n, n)
  {
  }

  /** A height for each pair of noise coordinates: the weighted octave sum, normalised, raised to a power and rounded. */
  type HeightField = (real, real) -> real

  /** Where the height of each point (x, y) is read. */
  type CoordRule = (nat, nat) -> (real, real)

  /** Every point gets the height at its coordinates under `at` as its Y; nothing else changes. */
  function HeightsAt(grid: Grid, at: CoordRule, height: HeightField): (r: Grid)
    ensures |r| == |grid| && forall y :: 0 <= y < |r| ==> |r[y]| == |grid[y]|
    ensures forall y, x :: 0 <= y < |r| && 0 <= x < |r[y]| ==>
      r[y][x] == grid[y][x].(y := height(at(x, y).0, at(x, y).1))
  {
    seq(|grid|, y requires 0 <= y < |grid| =>
      seq(|grid[y]|, x requires 0 <= x < |grid[y]| =>
        grid[y][x].(y := height(at(x, y).0, at(x, y).1))))
  }

  /** Heights written twice at the same coordinates are the heights written once. */
  lemma HeightsAtTwice(grid: Grid, at: CoordRule, height: HeightField)
    ensures HeightsAt(HeightsAt(grid, at, height), at, height) == HeightsAt(grid, at, height)
  {
    var once := HeightsAt(grid, at, height);
    var twice := HeightsAt(once, at, height);
    forall y | 0 <= y < |grid|
      ensures twice[y] == once[y]
    {
      forall x | 0 <= x < |grid[y]|
        ensures twice[y][x] == once[y][x]
      {
      }
    }
  }

  /**
   * The grids the height map takes: at least one row, and a first row with
   * at least one point unless every row is empty (then no point is visited
   * and nothing is divided).
   */
  predicate HeightMappable(grid: Grid) {
    |grid| > 0 && (|grid[0]| > 0 || forall y :: 0 <= y < |grid| ==> |grid[y]| == 0)
  }

  /** The coordinate rule of the code, for a grid of `rows` rows of `columns` points. */
  function AsWrittenRule(rows: nat, columns: nat): CoordRule
    requires rows > 0 && columns > 0
  {
    (x: nat, y: nat) => NoiseCoordsAsWritten(x, y, rows, columns)
  }

  /** The corrected coordinate rule, for a grid of `rows` rows of `columns` points. */
  function CorrectedRule(rows: nat, columns: nat): CoordRule
    requires rows > 0 && columns > 0
  {
    (x: nat, y: nat) => NoiseCoords(x, y, rows, columns)
  }

  /**
   * The height map as the code computes it: every point gets the height at
   * its noise coordinates as its Y, with x measured against the grid's row
   * count and y against the first row's length; nothing else changes.
   */
  function PerlinHeightMap(grid: Grid, height: HeightField): (r: Grid)
    requires HeightMappable(grid)
    ensures |r| == |grid| && forall y :: 0 <= y < |r| ==> |r[y]| == |grid[y]|
    ensures |grid[0]| == 0 ==> r == grid
    ensures forall y, x :: 0 <= y < |r| && 0 <= x < |r[y]| ==>
      r[y][x].x == grid[y][x].x && r[y][x].z == grid[y][x].z
    ensures forall y, x :: 0 <= y < |r| && 0 <= x < |r[y]| ==>
      var c := NoiseCoordsAsWritten(x, y, |grid|, |grid[0]|);
      r[y][x].y == height(c.0, c.1)
  {
    if |grid[0]| == 0 then grid else HeightsAt(grid, AsWrittenRule(|grid|, |grid[0]|), height)
  }

  /**
   * The height map with the corrected coordinates: x measured against the
   * row length and y against the row count, so every point reads the
   * noise inside [-0.5, 0.5) on both axes.
   */
  function PerlinHeightMapCorrected(grid: Grid, height: HeightField): (r: Grid)
    requires HeightMappable(grid)
    ensures |r| == |grid| && forall y :: 0 <= y < |r| ==> |r[y]| == |grid[y]|
    ensures |grid[0]| == 0 ==> r == grid
    ensures forall y, x :: 0 <= y < |r| && 0 <= x < |r[y]| ==>
      r[y][x].x == grid[y][x].x && r[y][x].z == grid[y][x].z
    ensures forall y, x :: 0 <= y < |r| && 0 <= x < |r[y]| ==>
      var c := NoiseCoords(x, y, |grid|, |grid[0]|);
      r[y][x].y == height(c.0, c.1)
  {
    if |grid[0]| == 0 then grid else HeightsAt(grid, CorrectedRule(|grid|, |grid[0]|), height)
  }

  /** Writing heights twice gives what writing them once does: only Y is written, and from the position alone. */
  lemma PerlinHeightMapIdempotent(grid: Grid, height: HeightField)
    requires HeightMappable(grid)
    ensures PerlinHeightMap(PerlinHeightMap(grid, height), height) == PerlinHeightMap(grid, height)
  {
    if |grid[0]| > 0 {
      HeightsAtTwice(grid, AsWrittenRule(|grid|, |grid[0]|), height);
    }
  }

  /** The same holds of the corrected height map. */
  lemma PerlinHeightMapCorrectedIdempotent(grid: Grid, height: HeightField)
    requires HeightMappable(grid)
    ensures PerlinHeightMapCorrected(PerlinHeightMapCorrected(grid, height), height) == PerlinHeightMapCorrected(grid, height)
  {
    if |grid[0]| > 0 {
      HeightsAtTwice(grid, CorrectedRule(|grid|, |grid[0]|), height);
    }
  }

  /**
   * On a grid of two rows of five points, the code reads the height of
   * point (4, 0) at (1.5, -0.5), outside the noise square the other points
   * sample; the corrected map reads it at (0.3, -0.5).
   */
  lemma PerlinHeightMapLeavesRange(grid: Grid, height: HeightField)
    requires |grid| == 2 && Rectangular(grid, 5)
    ensures PerlinHeightMap(grid, height)[0][4].y == height(1.5, -0.5)
    ensures PerlinHeightMapCorrected(grid, height)[0][4].y == height(0.3, -0.5)
  {
    NoiseCoordsAsWrittenLeavesRange();
    assert NoiseCoordsAsWritten(4, 0, 2, 5) == (1.5, -0.5);
    assert NoiseCoords(4, 0, 2, 5) == (0.3, -0.5);
  }

  /**
   * Two triangles over the corners p1, p2, p3, p4 of a cell share the
   * diagonal p4-p2, walking it in opposite directions, use exactly the
   * four corners, start at p1 and pass p3, and carry the material.
   */
  predicate CellShape(t1: Triangle, t2: Triangle, p1: Vec, p2: Vec, p3: Vec, p4: Vec, mat: Material) {
    && t1.p1 == t2.p0 && t1.p2 == t2.p2
    && {t1.p0, t1.p1, t1.p2, t2.p0, t2.p1, t2.p2} == {p1, p2, p3, p4}
    && t1.p0 == p1 && t2.p1 == p3
    && t1.material == mat && t2.material == mat
  }

  /**
   * The two triangles of the cell whose top-left corner is point (x, y):
   * with corners p1 = (x, y), p2 = (x + 1, y), p3 = (x + 1, y + 1),
   * p4 = (x, y + 1), they are (p1, p4, p2) and (p4, p3, p2). They share
   * the diagonal p4-p2 and walk it in opposite directions, so both face
   * the same way; between them they use exactly the cell's four corners,
   * and both carry the material.
   */
  function CellTriangles(grid: Grid, x: nat, y: nat, mat: Material): (ts: seq<Object>)
    requires y + 1 < |grid| && x + 1 < |grid[y]| && x + 1 < |grid[y + 1]|
    ensures |ts| == 2 && ts[0].Tri? && ts[1].Tri?
    ensures CellShape(ts[0].triangle, ts[1].triangle, grid[y][x], grid[y][x + 1], grid[y + 1][x + 1], grid[y + 1][x], mat)
  {
    var p1, p2, p3, p4 := grid[y][x], grid[y][x + 1], grid[y + 1][x + 1], grid[y + 1][x];
    [Tri(Triangle(p1, p4, p2, mat)), Tri(Triangle(p4, p3, p2, mat))]
  }

  /** The number of cells along a row: one fewer than the first row's points, or none. */
  function CellsPerRow(grid: Grid): (w: nat)
    requires |grid| > 0
    ensures w + 1 == |grid[0]| || (w == 0 && |grid[0]| == 0)
  {
    if |grid[0]| == 0 then 0 else |grid[0]| - 1
  }

  /** What the meshing loops index: every row is at least as long as the first, unless no cell is read. */
  predicate Meshable(grid: Grid) {
    |grid| > 0 && (|grid[0]| <= 1 || forall y :: 0 <= y < |grid| ==> |grid[y]| >= |grid[0]|)
  }

  /** The triangles of the first `n` cells of row y, left to right. */
  function RowCells(grid: Grid, mat: Material, y: nat, n: nat): (ts: seq<Object>)
    requires Meshable(grid) && y < |grid| - 1 && n <= CellsPerRow(grid)
    ensures |ts| == 2 * n
  {
    if n == 0 then [] else RowCells(grid, mat, y, n - 1) + CellTriangles(grid, n - 1, y, mat)
  }

  /** The triangles of the first `rows` rows of cells, top to bottom. */
  function MeshRows(grid: Grid, mat: Material, rows: nat): (ts: seq<Object>)
    requires Meshable(grid) && rows <= |grid| - 1
  {
    if rows == 0 then [] else MeshRows(grid, mat, rows - 1) + RowCells(grid, mat, rows - 1, CellsPerRow(grid))
  }

  /** The meshing loops: rows outer, cells of a row inner. */
  method GridToTriangles(grid: Grid, mat: Material) returns (o: Object)
    requires Meshable(grid)
    ensures o == Complex(MeshRows(grid, mat, |grid| - 1))
  {
    var w := CellsPerRow(grid);
    var triangles: seq<Object> := [];
    for y := 0 to |grid| - 1
      invariant triangles == MeshRows(grid, mat, y)
    {
      for x := 0 to w
        invariant triangles == MeshRows(grid, mat, y) + RowCells(grid, mat, y, x)
      {
        triangles := triangles + CellTriangles(grid, x, y, mat);
      }
    }
    o := Complex(triangles);
  }

  /** Cell x of a row's triangles sits at places 2x and 2x + 1. */
  lemma {:induction false} RowCellsIndex(grid: Grid, mat: Material, y: nat, n: nat, x: nat)
    requires Meshable(grid) && y < |grid| - 1 && x < n <= CellsPerRow(grid)
    ensures RowCells(grid, mat, y, n)[2 * x..2 * x + 2] == CellTriangles(grid, x, y, mat)
  {
    if x < n - 1 {
      RowCellsIndex(grid, mat, y, n - 1, x);
      assert RowCells(grid, mat, y, n)[2 * x..2 * x + 2] == RowCells(grid, mat, y, n - 1)[2 * x..2 * x + 2];
    }
  }

  /** Each row of cells gives two triangles per cell. */
  lemma {:induction false} MeshRowsLength(grid: Grid, mat: Material, rows: nat)
    requires Meshable(grid) && rows <= |grid| - 1
    ensures |MeshRows(grid, mat, rows)| == 2 * (rows * CellsPerRow(grid))
  {
    if rows > 0 {
      MeshRowsLength(grid, mat, rows - 1);
      assert (rows - 1) * CellsPerRow(grid) + CellsPerRow(grid) == rows * CellsPerRow(grid);
    }
  }

  /** The mesh of fewer rows is the start of the mesh of more rows. */
  lemma {:induction false} MeshRowsPrefix(grid: Grid, mat: Material, a: nat, b: nat)
    requires Meshable(grid) && a <= b <= |grid| - 1
    ensures |MeshRows(grid, mat, a)| <= |MeshRows(grid, mat, b)|
    ensures MeshRows(grid, mat, a) == MeshRows(grid, mat, b)[..|MeshRows(grid, mat, a)|]
  {
    if a < b {
      MeshRowsPrefix(grid, mat, a, b - 1);
      var prev := MeshRows(grid, mat, b - 1);
      SliceLeft(prev, RowCells(grid, mat, b - 1, CellsPerRow(grid)), 0, |MeshRows(grid, mat, a)|);
    }
  }

  /** One more row of cells follows the mesh of the rows above it. */
  lemma MeshRowsNext(grid: Grid, mat: Material, y: nat)
    requires Meshable(grid) && y < |grid| - 1
    ensures MeshRows(grid, mat, y + 1) == MeshRows(grid, mat, y) + RowCells(grid, mat, y, CellsPerRow(grid))
  {
  }

  /** Within the first y + 1 rows, cell (x, y)'s pair follows the rows above it and the cells left of it. */
  lemma MeshRowsLastRow(grid: Grid, mat: Material, y: nat, x: nat)
    requires Meshable(grid) && y < |grid| - 1 && x < CellsPerRow(grid)
    ensures var i := |MeshRows(grid, mat, y)| + 2 * x;
      i + 2 <= |MeshRows(grid, mat, y + 1)|
      && MeshRows(grid, mat, y + 1)[i..i + 2] == CellTriangles(grid, x, y, mat)
  {
    var w := CellsPerRow(grid);
    MeshRowsNext(grid, mat, y);
    RowCellsIndex(grid, mat, y, w, x);
    PairAfter(MeshRows(grid, mat, y), RowCells(grid, mat, y, w), x, CellTriangles(grid, x, y, mat));
  }

  /** Cell (x, y)'s pair follows the triangles of the rows above it and of the cells left of it. */
  lemma MeshRowsIndex(grid: Grid, mat: Material, rows: nat, y: nat, x: nat)
    requires Meshable(grid) && rows <= |grid| - 1 && y < rows && x < CellsPerRow(grid)
    ensures var i := |MeshRows(grid, mat, y)| + 2 * x;
      i + 2 <= |MeshRows(grid, mat, rows)|
      && MeshRows(grid, mat, rows)[i..i + 2] == CellTriangles(grid, x, y, mat)
  {
    MeshRowsLastRow(grid, mat, y, x);
    MeshRowsKeepsRow(grid, mat, rows, y, x);
  }

  /** The places of row y's cells in the mesh of its rows hold the same in any mesh of more rows. */
  lemma MeshRowsKeepsRow(grid: Grid, mat: Material, rows: nat, y: nat, x: nat)
    requires Meshable(grid) && rows <= |grid| - 1 && y < rows && x < CellsPerRow(grid)
    ensures var i := |MeshRows(grid, mat, y)| + 2 * x;
      var upTo := MeshRows(grid, mat, y + 1);
      i + 2 <= |upTo| ==> i + 2 <= |MeshRows(grid, mat, rows)| && MeshRows(grid, mat, rows)[i..i + 2] == upTo[i..i + 2]
  {
    MeshRowsPrefix(grid, mat, y + 1, rows);
    var upTo, all := MeshRows(grid, mat, y + 1), MeshRows(grid, mat, rows);
    var i := |MeshRows(grid, mat, y)| + 2 * x;
    if i + 2 <= |upTo| {
      SliceOfPrefix(upTo, all, i, i + 2);
    }
  }

  /** Where cell (x, y)'s pair starts in a mesh of rows of w cells. */
  function CellIndex(w: nat, y: nat, x: nat): nat {
    2 * (y * w + x)
  }

  /** Cell (x, y)'s pair sits at places 2 (y w + x) and the next of the whole mesh. */
  lemma MeshCell(grid: Grid, mat: Material, y: nat, x: nat)
    requires Meshable(grid) && y < |grid| - 1 && x < CellsPerRow(grid)
    ensures var i := CellIndex(CellsPerRow(grid), y, x);
      var ts := MeshRows(grid, mat, |grid| - 1);
      i + 2 <= |ts| && ts[i..i + 2] == CellTriangles(grid, x, y, mat)
  {
    MeshRowsIndex(grid, mat, |grid| - 1, y, x);
    MeshRowsLength(grid, mat, y);
  }

  /**
   * The whole mesh: 2 (rows - 1)(points per row - 1) triangles, the pair
   * of cell (x, y) at places 2 (y w + x) and the next, row-major.
   */
  lemma MeshLayout(grid: Grid, mat: Material)
    requires Meshable(grid)
    ensures var w := CellsPerRow(grid);
      var ts := MeshRows(grid, mat, |grid| - 1);
      && |ts| == 2 * ((|grid| - 1) * w)
      && forall y, x :: 0 <= y < |grid| - 1 && 0 <= x < w ==>
           var i := CellIndex(w, y, x);
           i + 2 <= |ts| && ts[i..i + 2] == CellTriangles(grid, x, y, mat)
  {
    MeshRowsLength(grid, mat, |grid| - 1);
    forall y, x | 0 <= y < |grid| - 1 && 0 <= x < CellsPerRow(grid)
      ensures var i := CellIndex(CellsPerRow(grid), y, x);
        var ts := MeshRows(grid, mat, |grid| - 1);
        i + 2 <= |ts| && ts[i..i + 2] == CellTriangles(grid, x, y, mat)
    {
      MeshCell(grid, mat, y, x);
    }
  }
}
