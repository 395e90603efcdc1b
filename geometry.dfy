/** The vertex record shared by the shaders and both renderers, and the regular
    lattice over Metal's normalised device coordinate square [-1,1]×[-1,1].

    Coordinates are exact reals: the `Float` components of `vector_float2` and
    `vector_float4` are read without rounding. */
module Geometry {

  /** A `vector_float2`: a position in normalised device coordinates. */
  datatype Vec2 = Vec2(x: real, y: real)

  /** A `vector_float4`: an RGBA colour. */
  datatype Vec4 = Vec4(r: real, g: real, b: real, a: real)

  /** The `Vertex` struct of the shader definitions: a position and a colour. */
  datatype Vertex = Vertex(pos: Vec2, color: Vec4)

  /** The coordinate square (-1,1) .. (1,-1) that Metal maps onto the view. */
  predicate InSquare(p: Vec2)
  {
    -1.0 <= p.x <= 1.0 && -1.0 <= p.y <= 1.0
  }

  /** The x of lattice column `col` when the square is cut into `cols` columns:
      the point `col/cols` of the way from the left edge (-1) to the right edge (1). */
  function LatticeX(cols: nat, col: nat): real
    requires cols > 0
  {
    -1.0 + 2.0 * (col as real / cols as real)
  }

  /** The y of lattice row `row` when the square is cut into `rows` rows:
      the point `row/rows` of the way down from the top edge (1) to the bottom edge (-1). */
  function LatticeY(rows: nat, row: nat): real
    requires rows > 0
  {
    1.0 - 2.0 * (row as real / rows as real)
  }

  /** The lattice intersection of row `row` and column `col`. */
  function LatticePoint(rows: nat, cols: nat, row: nat, col: nat): Vec2
    requires rows > 0 && cols > 0
  {
    Vec2(LatticeX(cols, col), LatticeY(rows, row))
  }

  /** Column 0 is the left edge, column `cols` the right edge, and every
      column in between lies inside the square. */
  lemma LatticeXBounds(cols: nat, col: nat)
    requires 0 < cols && col <= cols
    ensures -1.0 <= LatticeX(cols, col) <= 1.0
    ensures col == 0 ==> LatticeX(cols, col) == -1.0
    ensures col == cols ==> LatticeX(cols, col) == 1.0
  {
    assert col as real / cols as real <= 1.0 by {
      assert col as real <= cols as real;
    }
  }

  /** Row 0 is the top edge, row `rows` the bottom edge, and every row in
      between lies inside the square. */
  lemma LatticeYBounds(rows: nat, row: nat)
    requires 0 < rows && row <= rows
    ensures -1.0 <= LatticeY(rows, row) <= 1.0
    ensures row == 0 ==> LatticeY(rows, row) == 1.0
    ensures row == rows ==> LatticeY(rows, row) == -1.0
  {
    assert row as real / rows as real <= 1.0 by {
      assert row as real <= rows as real;
    }
  }

  /** Every intersection of the lattice lies in the coordinate square. */
  lemma LatticePointInSquare(rows: nat, cols: nat, row: nat, col: nat)
    requires 0 < rows && 0 < cols && row <= rows && col <= cols
    ensures InSquare(LatticePoint(rows, cols, row, col))
  {
    LatticeXBounds(cols, col);
    LatticeYBounds(rows, row);
  }

  /** x grows strictly from left to right. */
  lemma LatticeXIncreasing(cols: nat, c1: nat, c2: nat)
    requires 0 < cols
    ensures c1 < c2 <==> LatticeX(cols, c1) < LatticeX(cols, c2)
  {
    var w := cols as real;
    assert c1 as real / w - c2 as real / w == (c1 as real - c2 as real) / w;
  }

  /** y falls strictly from top to bottom. */
  lemma LatticeYDecreasing(rows: nat, r1: nat, r2: nat)
    requires 0 < rows
    ensures r1 < r2 <==> LatticeY(rows, r1) > LatticeY(rows, r2)
  {
    var h := rows as real;
    assert r1 as real / h - r2 as real / h == (r1 as real - r2 as real) / h;
  }

  /** Row-major order on the lattice: a later intersection on the same row
      lies to the right at the same height, one on a later row lies lower. */
  lemma LatticePointOrder(rows: nat, cols: nat, r1: nat, c1: nat, r2: nat, c2: nat)
    requires 0 < rows && 0 < cols
    requires (r1 == r2 && c1 < c2) || r1 < r2
    ensures r1 == r2 ==> LatticePoint(rows, cols, r1, c1).y == LatticePoint(rows, cols, r2, c2).y
    ensures r1 == r2 ==> LatticePoint(rows, cols, r1, c1).x < LatticePoint(rows, cols, r2, c2).x
    ensures r1 < r2 ==> LatticePoint(rows, cols, r1, c1).y > LatticePoint(rows, cols, r2, c2).y
  {
    if r1 == r2 {
      LatticeXIncreasing(cols, c1, c2);
    } else {
      LatticeYDecreasing(rows, r1, r2);
    }
  }
}
