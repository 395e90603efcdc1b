/** The triangle-grid renderer (`Renderer`) and the fixed two-triangle vertex
    data of the first view controller.

    `Renderer`'s initialiser builds its render pipeline and, if that succeeds,
    fills `vertexData` with a grid of 100 rows by 200 columns over the square
    [-1,1]×[-1,1], each cell as two unindexed triangles (six vertices). */
module ContentView {
  import opened Geometry

  /** Outcome of `Renderer.buildRenderPipelineWith`, which may throw. The shader
      library and pipeline compilation are not modelled beyond this. */
  datatype PipelineBuild = Built | BuildFailed

  /** Rows and columns of the grid `Renderer` builds. */
  const Rows: nat := 100
  const Cols: nat := 200

  /** Total width and height of the square the grid spans. */
  const XSpace: real := 2.0
  const YSpace: real := 2.0

  /** Colour of every grid vertex. */
  const CellColor: Vec4 := Vec4(0.5, 0.3, 0.5, 1.0)

  // The per-corner coordinate expressions of the grid loop, as written there.

  /** x of a cell's left edge. */
  function LeftX(cols: nat, col: nat): (x: real)
    requires cols > 0
    ensures x == LatticeX(cols, col)
  {
    (XSpace / cols as real) * col as real - 1.0
  }

  /** x of a cell's right edge. */
  function RightX(cols: nat, col: nat): (x: real)
    requires cols > 0
    ensures x == LatticeX(cols, col + 1)
  {
    ((XSpace / cols as real) * col as real) + (XSpace / cols as real) - 1.0
  }

  /** y of a cell's top edge. */
  function TopY(rows: nat, row: nat): (y: real)
    requires rows > 0
    ensures y == LatticeY(rows, row)
  {
    (-1.0 * (YSpace / rows as real) * row as real) + 1.0
  }

  /** y of a cell's bottom edge. */
  function BottomY(rows: nat, row: nat): (y: real)
    requires rows > 0
    ensures y == LatticeY(rows, row + 1)
  {
    (-1.0 * (((YSpace / rows as real) * row as real) + (YSpace / rows as real))) + 1.0
  }

  /** The six vertices one iteration of the grid loop appends for cell
      (`row`, `col`): the triangle top-left, bottom-left, top-right, then the
      triangle bottom-left, top-right, bottom-right, so the shared diagonal's
      two corners appear twice. */
  function Cell(rows: nat, cols: nat, row: nat, col: nat): (c: seq<Vertex>)
    requires rows > 0 && cols > 0
    ensures |c| == 6
    ensures c[0].pos == LatticePoint(rows, cols, row, col)
    ensures c[1].pos == LatticePoint(rows, cols, row + 1, col)
    ensures c[2].pos == LatticePoint(rows, cols, row, col + 1)
    ensures c[3] == c[1] && c[4] == c[2]
    ensures c[5].pos == LatticePoint(rows, cols, row + 1, col + 1)
    ensures forall k :: 0 <= k < 6 ==> c[k].color == CellColor
  {
    var v1 := Vec2(LeftX(cols, col), TopY(rows, row));
    var v2 := Vec2(LeftX(cols, col), BottomY(rows, row));
    var v3 := Vec2(RightX(cols, col), TopY(rows, row));
    var v4 := Vec2(LeftX(cols, col), BottomY(rows, row));
    var v5 := Vec2(RightX(cols, col), TopY(rows, row));
    var v6 := Vec2(RightX(cols, col), BottomY(rows, row));
    [Vertex(v1, CellColor), Vertex(v2, CellColor), Vertex(v3, CellColor),
     Vertex(v4, CellColor), Vertex(v5, CellColor), Vertex(v6, CellColor)]
  }

  /** Unfolding aid: a cell spelled out in the per-corner expressions, so that
      `AppendCell` can match its six appends against it. */
  lemma CellVertices(rows: nat, cols: nat, row: nat, col: nat)
    requires rows > 0 && cols > 0
    ensures Cell(rows, cols, row, col) ==
      [Vertex(Vec2(LeftX(cols, col), TopY(rows, row)), CellColor),
       Vertex(Vec2(LeftX(cols, col), BottomY(rows, row)), CellColor),
       Vertex(Vec2(RightX(cols, col), TopY(rows, row)), CellColor),
       Vertex(Vec2(LeftX(cols, col), BottomY(rows, row)), CellColor),
       Vertex(Vec2(RightX(cols, col), TopY(rows, row)), CellColor),
       Vertex(Vec2(RightX(cols, col), BottomY(rows, row)), CellColor)]
  {
  }

  /** Six single appends add the six vertices in order. */
  lemma AppendSix(s: seq<Vertex>, a: Vertex, b: Vertex, c: Vertex, d: Vertex, e: Vertex, f: Vertex)
    ensures s + [a] + [b] + [c] + [d] + [e] + [f] == s + [a, b, c, d, e, f]
  {
  }

  /** What the column loop of row `row` has appended after its first `n` iterations. */
  function TriangleRow(rows: nat, cols: nat, row: nat, n: nat): (r: seq<Vertex>)
    requires rows > 0 && cols > 0
    ensures |r| == 6 * n
  {
    if n == 0 then [] else TriangleRow(rows, cols, row, n - 1) + Cell(rows, cols, row, n - 1)
  }

  /** What the row loop has appended after its first `n` iterations. */
  function TriangleRows(rows: nat, cols: nat, n: nat): (r: seq<Vertex>)
    requires rows > 0 && cols > 0
    ensures |r| == 6 * cols * n
  {
    if n == 0 then [] else TriangleRows(rows, cols, n - 1) + TriangleRow(rows, cols, n - 1, cols)
  }

  /** One more row iteration appends that row's cells. */
  lemma TriangleRowsStep(rows: nat, cols: nat, n: nat)
    requires rows > 0 && cols > 0
    ensures TriangleRows(rows, cols, n + 1) == TriangleRows(rows, cols, n) + TriangleRow(rows, cols, n, cols)
  {
  }

  /** The whole grid: six vertices per cell, no deduplication. */
  function TriangleGrid(rows: nat, cols: nat): (g: seq<Vertex>)
    requires rows > 0 && cols > 0
    ensures |g| == rows * cols * 6
  {
    TriangleRows(rows, cols, rows)
  }

  /** A cell's six vertices lie below all earlier cells in the grid. */
  lemma CellIndexBound(cols: nat, n: nat, row: nat, col: nat, k: nat)
    requires row < n && col < cols && k < 6
    ensures 6 * (row * cols + col) + k < 6 * cols * n
  {
    assert row * cols + col < (row + 1) * cols;
    assert (row + 1) * cols <= n * cols;
  }

  /** Within a row, cell `col` occupies indices 6*col .. 6*col+5. */
  lemma {:induction false} TriangleRowAt(rows: nat, cols: nat, row: nat, n: nat, col: nat, k: nat)
    requires rows > 0 && cols > 0 && col < n && k < 6
    ensures TriangleRow(rows, cols, row, n)[6 * col + k] == Cell(rows, cols, row, col)[k]
  {
    if col < n - 1 {
      TriangleRowAt(rows, cols, row, n - 1, col, k);
    }
  }

  /** In the last of `n` rows, a cell's index is past the `n - 1` earlier rows. */
  lemma LastRowIndex(cols: nat, n: nat, col: nat, k: nat)
    requires n > 0
    ensures 6 * ((n - 1) * cols + col) + k == 6 * cols * (n - 1) + (6 * col + k)
  {
  }

  /** After `n` rows, cell (`row`, `col`) of an earlier row sits at 6*(row*cols+col). */
  lemma {:induction false} TriangleRowsAt(rows: nat, cols: nat, n: nat, row: nat, col: nat, k: nat)
    requires rows > 0 && cols > 0 && row < n && col < cols && k < 6
    ensures 6 * (row * cols + col) + k < |TriangleRows(rows, cols, n)|
    ensures TriangleRows(rows, cols, n)[6 * (row * cols + col) + k] == Cell(rows, cols, row, col)[k]
  {
    var idx := 6 * (row * cols + col) + k;
    CellIndexBound(cols, n, row, col, k);
    var earlier := TriangleRows(rows, cols, n - 1);
    var last := TriangleRow(rows, cols, n - 1, cols);
    assert TriangleRows(rows, cols, n) == earlier + last;
    if row < n - 1 {
      CellIndexBound(cols, n - 1, row, col, k);
      TriangleRowsAt(rows, cols, n - 1, row, col, k);
      assert idx < |earlier|;
    } else {
      LastRowIndex(cols, n, col, k);
      assert idx == |earlier| + (6 * col + k);
      TriangleRowAt(rows, cols, row, cols, col, k);
    }
  }

  /** Cell (`row`, `col`) occupies indices 6*(row*cols+col) .. 6*(row*cols+col)+5,
      row-major with the column loop inner. */
  lemma TriangleGridAt(rows: nat, cols: nat, row: nat, col: nat, k: nat)
    requires rows > 0 && cols > 0 && row < rows && col < cols && k < 6
    ensures 6 * (row * cols + col) + k < |TriangleGrid(rows, cols)|
    ensures TriangleGrid(rows, cols)[6 * (row * cols + col) + k] == Cell(rows, cols, row, col)[k]
  {
    TriangleRowsAt(rows, cols, rows, row, col, k);
  }

  /** Splits a grid index into row, column and corner: the inverse of
      6*(row*cols+col)+k. */
  lemma GridIndexSplit(rows: nat, cols: nat, i: nat) returns (row: nat, col: nat, k: nat)
    requires cols > 0 && i < rows * cols * 6
    ensures row == (i / 6) / cols && col == (i / 6) % cols && k == i % 6
    ensures row < rows && col < cols && k < 6
    ensures 6 * (row * cols + col) + k == i
  {
    var q := i / 6;
    row, col, k := q / cols, q % cols, i % 6;
    assert i == 6 * q + k;
    assert q == row * cols + col;
    assert q < rows * cols;
  }

  /** Each corner of cell (`row`, `col`) lies on its left or right edge and on
      its top or bottom edge. */
  lemma CellEdges(rows: nat, cols: nat, row: nat, col: nat, k: nat)
    requires rows > 0 && cols > 0 && k < 6
    ensures Cell(rows, cols, row, col)[k].pos.x in {LatticeX(cols, col), LatticeX(cols, col + 1)}
    ensures Cell(rows, cols, row, col)[k].pos.y in {LatticeY(rows, row), LatticeY(rows, row + 1)}
  {
    var c := Cell(rows, cols, row, col);
    if k == 0 || k == 2 || k == 4 {
      assert c[k].pos.y == LatticeY(rows, row);
    } else {
      assert c[k].pos.y == LatticeY(rows, row + 1);
    }
    if k <= 1 || k == 3 {
      assert c[k].pos.x == LatticeX(cols, col);
    } else {
      assert c[k].pos.x == LatticeX(cols, col + 1);
    }
  }

  /** All six corners of a cell inside the grid lie in the coordinate square. */
  lemma CellInSquare(rows: nat, cols: nat, row: nat, col: nat)
    requires rows > 0 && cols > 0 && row < rows && col < cols
    ensures forall k :: 0 <= k < 6 ==> InSquare(Cell(rows, cols, row, col)[k].pos)
  {
    LatticePointInSquare(rows, cols, row, col);
    LatticePointInSquare(rows, cols, row + 1, col);
    LatticePointInSquare(rows, cols, row, col + 1);
    LatticePointInSquare(rows, cols, row + 1, col + 1);
  }

  /** What the grid holds at corner `k` of cell (`row`, `col`): that corner, on
      the cell's edges, inside the square and in the grid colour. */
  lemma TriangleGridCorner(rows: nat, cols: nat, row: nat, col: nat, k: nat)
    requires rows > 0 && cols > 0 && row < rows && col < cols && k < 6
    ensures 6 * (row * cols + col) + k < |TriangleGrid(rows, cols)|
    ensures TriangleGrid(rows, cols)[6 * (row * cols + col) + k] == Cell(rows, cols, row, col)[k]
    ensures TriangleGrid(rows, cols)[6 * (row * cols + col) + k].pos.x in {LatticeX(cols, col), LatticeX(cols, col + 1)}
    ensures TriangleGrid(rows, cols)[6 * (row * cols + col) + k].pos.y in {LatticeY(rows, row), LatticeY(rows, row + 1)}
    ensures InSquare(TriangleGrid(rows, cols)[6 * (row * cols + col) + k].pos)
    ensures TriangleGrid(rows, cols)[6 * (row * cols + col) + k].color == CellColor
  {
    TriangleGridAt(rows, cols, row, col, k);
    CellEdges(rows, cols, row, col, k);
    CellInSquare(rows, cols, row, col);
  }

  /** Conversely, vertex `i` is corner `i % 6` of cell (`(i/6) / cols`, `(i/6) % cols`),
      so its x is the left or right edge of that column and its y the top or
      bottom edge of that row. */
  lemma TriangleGridCellOf(rows: nat, cols: nat, i: nat)
    requires rows > 0 && cols > 0 && i < rows * cols * 6
    ensures (i / 6) / cols < rows
    ensures TriangleGrid(rows, cols)[i] == Cell(rows, cols, (i / 6) / cols, (i / 6) % cols)[i % 6]
    ensures TriangleGrid(rows, cols)[i].pos.x in {LatticeX(cols, (i / 6) % cols), LatticeX(cols, (i / 6) % cols + 1)}
    ensures TriangleGrid(rows, cols)[i].pos.y in {LatticeY(rows, (i / 6) / cols), LatticeY(rows, (i / 6) / cols + 1)}
  {
    var row, col, k := GridIndexSplit(rows, cols, i);
    TriangleGridCorner(rows, cols, row, col, k);
  }

  /** Every grid vertex lies in the coordinate square and has the grid colour. */
  lemma TriangleGridInSquare(rows: nat, cols: nat)
    requires rows > 0 && cols > 0
    ensures forall i :: 0 <= i < |TriangleGrid(rows, cols)| ==>
      InSquare(TriangleGrid(rows, cols)[i].pos) && TriangleGrid(rows, cols)[i].color == CellColor
  {
    var g := TriangleGrid(rows, cols);
    forall i | 0 <= i < |g|
      ensures InSquare(g[i].pos) && g[i].color == CellColor
    {
      var row, col, k := GridIndexSplit(rows, cols, i);
      TriangleGridCorner(rows, cols, row, col, k);
    }
  }

  /** The grid starts with cell (0, 0), whose top-left corner is the
      square's top-left corner (-1, 1). */
  lemma FirstCell(rows: nat, cols: nat)
    requires rows > 0 && cols > 0
    ensures TriangleGrid(rows, cols)[..6] == Cell(rows, cols, 0, 0)
    ensures TriangleGrid(rows, cols)[0].pos == Vec2(-1.0, 1.0)
  {
    var g := TriangleGrid(rows, cols);
    forall k | 0 <= k < 6
      ensures g[k] == Cell(rows, cols, 0, 0)[k]
    {
      TriangleGridAt(rows, cols, 0, 0, k);
    }
    LatticeXBounds(cols, 0);
    LatticeYBounds(rows, 0);
  }

  /** The first cell of `Renderer`'s 100×200 grid, in exact arithmetic. */
  lemma FirstCellPositions()
    ensures TriangleGrid(Rows, Cols)[..6] ==
      [Vertex(Vec2(-1.0, 1.0), CellColor), Vertex(Vec2(-1.0, 0.98), CellColor),
       Vertex(Vec2(-0.99, 1.0), CellColor), Vertex(Vec2(-1.0, 0.98), CellColor),
       Vertex(Vec2(-0.99, 1.0), CellColor), Vertex(Vec2(-0.99, 0.98), CellColor)]
  {
    FirstCell(Rows, Cols);
    CellVertices(Rows, Cols, 0, 0);
  }

  /** `Renderer`: the view delegate that owns the grid's vertex data. */
  class Renderer {
    var vertexData: seq<Vertex>

    constructor Empty()
      ensures vertexData == []
    {
      vertexData := [];
    }

    /** One iteration of the initialiser's column loop: the six corners of
        cell (`row`, `col`), appended one at a time. */
    method AppendCell(rows: nat, cols: nat, row: nat, col: nat)
      requires rows > 0 && cols > 0
      modifies this
      ensures vertexData == old(vertexData) + Cell(rows, cols, row, col)
    {
      var v1 := Vec2(LeftX(cols, col), TopY(rows, row));
      var v2 := Vec2(LeftX(cols, col), BottomY(rows, row));
      var v3 := Vec2(RightX(cols, col), TopY(rows, row));
      var v4 := Vec2(LeftX(cols, col), BottomY(rows, row));
      var v5 := Vec2(RightX(cols, col), TopY(rows, row));
      var v6 := Vec2(RightX(cols, col), BottomY(rows, row));
      vertexData := vertexData + [Vertex(v1, CellColor)];
      vertexData := vertexData + [Vertex(v2, CellColor)];
      vertexData := vertexData + [Vertex(v3, CellColor)];
      vertexData := vertexData + [Vertex(v4, CellColor)];
      vertexData := vertexData + [Vertex(v5, CellColor)];
      vertexData := vertexData + [Vertex(v6, CellColor)];
      AppendSix(old(vertexData), Vertex(v1, CellColor), Vertex(v2, CellColor), Vertex(v3, CellColor),
                Vertex(v4, CellColor), Vertex(v5, CellColor), Vertex(v6, CellColor));
      CellVertices(rows, cols, row, col);
    }

    /** The initialiser's column loop for row `row`. */
    method AppendRow(rows: nat, cols: nat, row: nat)
      requires rows > 0 && cols > 0
      modifies this
      ensures vertexData == old(vertexData) + TriangleRow(rows, cols, row, cols)
    {
      for col := 0 to cols
        invariant vertexData == old(vertexData) + TriangleRow(rows, cols, row, col)
      {
        AppendCell(rows, cols, row, col);
      }
    }

    /** The initialiser's row loop, for a grid of `rows` by `cols` cells;
        each iteration runs the column loop. */
    method AppendGrid(rows: nat, cols: nat)
      requires rows > 0 && cols > 0
      modifies this
      ensures vertexData == old(vertexData) + TriangleGrid(rows, cols)
    {
      for row := 0 to rows
        invariant vertexData == old(vertexData) + TriangleRows(rows, cols, row)
      {
        AppendRow(rows, cols, row);
        TriangleRowsStep(rows, cols, row);
      }
    }

    /** `Renderer.init?`: if the pipeline build throws, the initialiser fails
        (null) before any vertex is generated; otherwise it holds the whole
        100×200 grid. */
    static method Init(pipeline: PipelineBuild) returns (r: Renderer?)
      ensures r == null <==> pipeline == BuildFailed
      ensures r != null ==> fresh(r) && r.vertexData == TriangleGrid(Rows, Cols)
      ensures r != null ==> |r.vertexData| == 120000
    {
      if pipeline == BuildFailed {
        return null;
      }
      r := new Renderer.Empty();
      r.AppendGrid(Rows, Cols);
    }
  }

  /** A position given as three floats. */
  datatype Vec3 = Vec3(x: real, y: real, z: real)

  /** The first view controller's hard-coded `vertexData`: flat x, y, z floats. */
  const FixedVertexData: seq<real> :=
    [-0.5, 0.5, 0.0,
     -0.5, -0.5, 0.0,
     0.5, -0.5, 0.0,
     0.0, 0.5, 0.0,
     0.5, 0.5, 0.0,
     0.5, -0.3, 0.0]

  /** Reads a flat float array as consecutive x, y, z triples. */
  function Triples(data: seq<real>): (t: seq<Vec3>)
    requires |data| % 3 == 0
    ensures |t| == |data| / 3
    ensures forall j :: 0 <= j < |t| ==> t[j] == Vec3(data[3 * j], data[3 * j + 1], data[3 * j + 2])
  {
    if data == [] then [] else [Vec3(data[0], data[1], data[2])] + Triples(data[3..])
  }

  /** An 18-float array reads as six triples, in order. */
  lemma TriplesOfEighteen(data: seq<real>)
    requires |data| == 18
    ensures Triples(data) ==
      [Vec3(data[0], data[1], data[2]), Vec3(data[3], data[4], data[5]),
       Vec3(data[6], data[7], data[8]), Vec3(data[9], data[10], data[11]),
       Vec3(data[12], data[13], data[14]), Vec3(data[15], data[16], data[17])]
  {
  }

  /** The fixed data is 18 floats: six positions (two triangles), all with z = 0. */
  lemma FixedVertexDataShape()
    ensures |FixedVertexData| == 18 && |FixedVertexData| % 3 == 0
    ensures Triples(FixedVertexData) ==
      [Vec3(-0.5, 0.5, 0.0), Vec3(-0.5, -0.5, 0.0), Vec3(0.5, -0.5, 0.0),
       Vec3(0.0, 0.5, 0.0), Vec3(0.5, 0.5, 0.0), Vec3(0.5, -0.3, 0.0)]
  {
    TriplesOfEighteen(FixedVertexData);
  }
}
