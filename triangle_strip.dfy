/** The point-lattice renderer (`Renderer2`).

    Its initialiser builds the render pipeline and, if that succeeds, fills
    `vertexData` with one vertex per intersection of a lattice of 200 rows by
    100 columns over the square [-1,1]×[-1,1], row by row from the top-left
    corner (-1, 1) to the bottom-right corner (1, -1). */
module TriangleStrip {
  import opened Geometry
  import ContentView

  /** Rows and columns of the lattice `Renderer2` builds. */
  const Rows: nat := 200
  const Cols: nat := 100

  /** Colour of every lattice vertex. */
  const PointColor: Vec4 := Vec4(0.0, 0.0, 0.0, 1.0)

  /** The spacing of `n` equal steps across the square's side of length 2:
      `width` (over the columns) and `height` (over the rows) in the initialiser. */
  function Spacing(n: nat): (step: real)
    requires n > 0
    ensures step > 0.0
    ensures step * n as real == 2.0
  {
    2.0 / n as real
  }

  /** The x the column loop computes for column `col`. */
  function PointX(cols: nat, col: nat): (x: real)
    requires cols > 0
    ensures x == LatticeX(cols, col)
  {
    (Spacing(cols) * col as real) - 1.0
  }

  /** The y the row loop computes for row `row`. */
  function PointY(rows: nat, row: nat): (y: real)
    requires rows > 0
    ensures y == LatticeY(rows, row)
  {
    (-1.0 * (Spacing(rows) * row as real)) + 1.0
  }

  /** What the column loop of row `row` has appended after its first `n` iterations. */
  function LatticeRow(rows: nat, cols: nat, row: nat, n: nat): (r: seq<Vertex>)
    requires rows > 0 && cols > 0
    ensures |r| == n
  {
    if n == 0 then []
    else LatticeRow(rows, cols, row, n - 1) + [Vertex(Vec2(PointX(cols, n - 1), PointY(rows, row)), PointColor)]
  }

  /** What the row loop has appended after its first `n` iterations. */
  function LatticeRows(rows: nat, cols: nat, n: nat): (r: seq<Vertex>)
    requires rows > 0 && cols > 0
    ensures |r| == n * (cols + 1)
  {
    if n == 0 then [] else LatticeRows(rows, cols, n - 1) + LatticeRow(rows, cols, n - 1, cols + 1)
  }

  /** The whole lattice: one vertex per intersection, (rows+1)×(cols+1) in all. */
  function PointLattice(rows: nat, cols: nat): (l: seq<Vertex>)
    requires rows > 0 && cols > 0
    ensures |l| == (rows + 1) * (cols + 1)
  {
    LatticeRows(rows, cols, rows + 1)
  }

  /** Within a row, the vertex at `col` is intersection (`row`, `col`). */
  lemma {:induction false} LatticeRowAt(rows: nat, cols: nat, row: nat, n: nat, col: nat)
    requires rows > 0 && cols > 0 && col < n
    ensures LatticeRow(rows, cols, row, n)[col] == Vertex(LatticePoint(rows, cols, row, col), PointColor)
  {
    if col < n - 1 {
      LatticeRowAt(rows, cols, row, n - 1, col);
    }
  }

  /** Intersection (`row`, `col`) comes after all earlier rows. */
  lemma LatticeIndexBound(cols: nat, n: nat, row: nat, col: nat)
    requires row < n && col <= cols
    ensures row * (cols + 1) + col < n * (cols + 1)
  {
    assert row * (cols + 1) + col < (row + 1) * (cols + 1);
    assert (row + 1) * (cols + 1) <= n * (cols + 1);
  }

  /** After `n` rows, intersection (`row`, `col`) of an earlier row sits at row*(cols+1)+col. */
  lemma {:induction false} LatticeRowsAt(rows: nat, cols: nat, n: nat, row: nat, col: nat)
    requires rows > 0 && cols > 0 && row < n && col <= cols
    ensures row * (cols + 1) + col < |LatticeRows(rows, cols, n)|
    ensures LatticeRows(rows, cols, n)[row * (cols + 1) + col] == Vertex(LatticePoint(rows, cols, row, col), PointColor)
  {
    LatticeIndexBound(cols, n, row, col);
    if row < n - 1 {
      LatticeIndexBound(cols, n - 1, row, col);
      LatticeRowsAt(rows, cols, n - 1, row, col);
    } else {
      assert row * (cols + 1) + col == (n - 1) * (cols + 1) + col;
      LatticeRowAt(rows, cols, row, cols + 1, col);
    }
  }

  /** Index `row*(cols+1) + col` holds intersection (`row`, `col`), in black. */
  lemma PointLatticeAt(rows: nat, cols: nat, row: nat, col: nat)
    requires rows > 0 && cols > 0 && row <= rows && col <= cols
    ensures row * (cols + 1) + col < |PointLattice(rows, cols)|
    ensures PointLattice(rows, cols)[row * (cols + 1) + col] == Vertex(LatticePoint(rows, cols, row, col), PointColor)
  {
    LatticeRowsAt(rows, cols, rows + 1, row, col);
  }

  /** Splits a lattice index into row and column: the inverse of
      row*(cols+1)+col. */
  lemma LatticeIndexSplit(rows: nat, cols: nat, i: nat) returns (row: nat, col: nat)
    requires i < (rows + 1) * (cols + 1)
    ensures row == i / (cols + 1) && col == i % (cols + 1)
    ensures row <= rows && col <= cols
    ensures row * (cols + 1) + col == i
  {
    row, col := i / (cols + 1), i % (cols + 1);
  }

  /** Conversely, vertex `i` is intersection (`i / (cols+1)`, `i % (cols+1)`). */
  lemma PointLatticeVertex(rows: nat, cols: nat, i: nat)
    requires rows > 0 && cols > 0 && i < |PointLattice(rows, cols)|
    ensures i / (cols + 1) <= rows
    ensures PointLattice(rows, cols)[i] == Vertex(LatticePoint(rows, cols, i / (cols + 1), i % (cols + 1)), PointColor)
  {
    var row, col := LatticeIndexSplit(rows, cols, i);
    PointLatticeAt(rows, cols, row, col);
  }

  /** The corners fall where Metal's coordinate plane has them: the first
      vertex is (-1, 1), the last of the first row (1, 1), the first of the
      last row (-1, -1) and the last vertex (1, -1). */
  lemma PointLatticeCorners(rows: nat, cols: nat)
    requires rows > 0 && cols > 0
    ensures PointLattice(rows, cols)[0].pos == Vec2(-1.0, 1.0)
    ensures PointLattice(rows, cols)[cols].pos == Vec2(1.0, 1.0)
    ensures PointLattice(rows, cols)[rows * (cols + 1)].pos == Vec2(-1.0, -1.0)
    ensures PointLattice(rows, cols)[|PointLattice(rows, cols)| - 1].pos == Vec2(1.0, -1.0)
  {
    PointLatticeAt(rows, cols, 0, 0);
    PointLatticeAt(rows, cols, 0, cols);
    PointLatticeAt(rows, cols, rows, 0);
    PointLatticeAt(rows, cols, rows, cols);
    assert rows * (cols + 1) + cols == (rows + 1) * (cols + 1) - 1;
    LatticeXBounds(cols, 0);
    LatticeXBounds(cols, cols);
    LatticeYBounds(rows, 0);
    LatticeYBounds(rows, rows);
  }

  /** Every lattice vertex lies in the coordinate square and is black. */
  lemma PointLatticeInSquare(rows: nat, cols: nat)
    requires rows > 0 && cols > 0
    ensures forall i :: 0 <= i < |PointLattice(rows, cols)| ==>
      InSquare(PointLattice(rows, cols)[i].pos) && PointLattice(rows, cols)[i].color == PointColor
  {
    var l := PointLattice(rows, cols);
    forall i | 0 <= i < |l|
      ensures InSquare(l[i].pos) && l[i].color == PointColor
    {
      PointLatticeVertex(rows, cols, i);
      LatticePointInSquare(rows, cols, i / (cols + 1), i % (cols + 1));
    }
  }

  /** Multiplication by a positive width preserves strict order. */
  lemma ScaledLess(a: nat, b: nat, w: nat)
    requires w > 0 && a * w < b * w
    ensures a < b
  {
    if b <= a {
      MulMono(b, a, w);
    }
  }

  /** Multiplication by a width is monotonic. */
  lemma MulMono(a: nat, b: nat, w: nat)
    requires a <= b
    ensures a * w <= b * w
  {
  }

  /** Of two indices, the later one is on the same row and a later column,
      or on a later row. */
  lemma RowMajorOrder(cols: nat, i: nat, j: nat)
    requires i < j
    ensures i / (cols + 1) <= j / (cols + 1)
    ensures i / (cols + 1) == j / (cols + 1) ==> i % (cols + 1) < j % (cols + 1)
  {
    var w := cols + 1;
    var qi, qj := i / w, j / w;
    assert i == qi * w + i % w && j == qj * w + j % w;
    assert qi * w < (qj + 1) * w;
    ScaledLess(qi, qj + 1, w);
  }

  /** All vertices of one row share its y, and x strictly increases along it. */
  lemma PointLatticeSameRow(rows: nat, cols: nat, row: nat, c1: nat, c2: nat)
    requires rows > 0 && cols > 0 && row <= rows && c1 < c2 <= cols
    ensures row * (cols + 1) + c2 < |PointLattice(rows, cols)|
    ensures PointLattice(rows, cols)[row * (cols + 1) + c1].pos.y == PointLattice(rows, cols)[row * (cols + 1) + c2].pos.y
    ensures PointLattice(rows, cols)[row * (cols + 1) + c1].pos.x < PointLattice(rows, cols)[row * (cols + 1) + c2].pos.x
  {
    PointLatticeAt(rows, cols, row, c1);
    PointLatticeAt(rows, cols, row, c2);
    LatticePointOrder(rows, cols, row, c1, row, c2);
  }

  /** y strictly decreases from one row to the next. */
  lemma PointLatticeLaterRow(rows: nat, cols: nat, r1: nat, c1: nat, r2: nat, c2: nat)
    requires rows > 0 && cols > 0 && r1 < r2 <= rows && c1 <= cols && c2 <= cols
    ensures r1 * (cols + 1) + c1 < |PointLattice(rows, cols)|
    ensures r2 * (cols + 1) + c2 < |PointLattice(rows, cols)|
    ensures PointLattice(rows, cols)[r1 * (cols + 1) + c1].pos.y > PointLattice(rows, cols)[r2 * (cols + 1) + c2].pos.y
  {
    PointLatticeAt(rows, cols, r1, c1);
    PointLatticeAt(rows, cols, r2, c2);
    LatticePointOrder(rows, cols, r1, c1, r2, c2);
  }

  /** Row-major order of the whole lattice: of two vertices, the later one lies
      on a lower row, or on the same row further right. */
  lemma PointLatticeOrdered(rows: nat, cols: nat, i: nat, j: nat)
    requires rows > 0 && cols > 0 && i < j < |PointLattice(rows, cols)|
    ensures PointLattice(rows, cols)[i].pos.y > PointLattice(rows, cols)[j].pos.y ||
            (PointLattice(rows, cols)[i].pos.y == PointLattice(rows, cols)[j].pos.y &&
             PointLattice(rows, cols)[i].pos.x < PointLattice(rows, cols)[j].pos.x)
  {
    var ri, ci := LatticeIndexSplit(rows, cols, i);
    var rj, cj := LatticeIndexSplit(rows, cols, j);
    RowMajorOrder(cols, i, j);
    if ri == rj {
      PointLatticeSameRow(rows, cols, ri, ci, cj);
    } else {
      PointLatticeLaterRow(rows, cols, ri, ci, rj, cj);
    }
  }

  /** `Renderer2`: the view delegate that owns the lattice's vertex data. */
  class Renderer2 {
    var vertexData: seq<Vertex>

    constructor Empty()
      ensures vertexData == []
    {
      vertexData := [];
    }

    /** The nested row/column loops of the initialiser, for a lattice of
        `rows` by `cols` cells. */
    method AppendLattice(rows: nat, cols: nat)
      requires rows > 0 && cols > 0
      modifies this
      ensures vertexData == old(vertexData) + PointLattice(rows, cols)
    {
      for row := 0 to rows + 1
        invariant vertexData == old(vertexData) + LatticeRows(rows, cols, row)
      {
        var y := PointY(rows, row);
        for col := 0 to cols + 1
          invariant vertexData == old(vertexData) + LatticeRows(rows, cols, row) + LatticeRow(rows, cols, row, col)
        {
          var x := PointX(cols, col);
          var pos := Vec2(x, y);
          var color := PointColor;
          var vertex := Vertex(pos, color);
          vertexData := vertexData + [vertex];
        }
      }
    }

    /** `Renderer2.init?`: if the pipeline build throws, the initialiser fails
        (null) before any vertex is generated; otherwise it holds the whole
        201×101-point lattice. */
    static method Init(pipeline: ContentView.PipelineBuild) returns (r: Renderer2?)
      ensures r == null <==> pipeline == ContentView.BuildFailed
      ensures r != null ==> fresh(r) && r.vertexData == PointLattice(Rows, Cols)
      ensures r != null ==> |r.vertexData| == 201 * 101
    {
      if pipeline == ContentView.BuildFailed {
        return null;
      }
      r := new Renderer2.Empty();
      r.AppendLattice(Rows, Cols);
    }
  }
}
