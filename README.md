# MetalHeatMap grid geometry, in Dafny

A model of the grid-vertex generation of the MetalHeatMap demo app. This is the
one part of the app that computes something. Two renderers each fill a
`vertexData` array of `Vertex` records (a 2-component position and an RGBA
colour) once, at initialisation, to cover Metal's normalised coordinate square
[-1,1]×[-1,1]:

- `Renderer` builds a **triangle grid** of 100 rows × 200 columns. Every cell is
  emitted as two unindexed triangles: six vertices in a fixed corner order, all
  with the colour (0.5, 0.3, 0.5, 1).
- `Renderer2` builds a **point lattice** of 200 rows × 100 columns. It emits one
  vertex per intersection, (rows+1)×(cols+1) in all, in row-major order, all
  with the colour (0, 0, 0, 1).

Both initialisers first build a render pipeline. If that throws, they return
`nil` before any vertex is generated. The first view controller also holds a
hard-coded array of 18 floats describing two triangles.

Layout:

- `geometry.dfy` (module `Geometry`): the `Vertex` record, plus the reference
  lattice. `LatticeX(cols, col)` is the point `col/cols` of the way from the
  left edge -1 to the right edge 1, and `LatticeY` is the same from the top
  edge 1 down to the bottom edge -1. It also holds the bounds and monotonicity
  lemmas about them.
- `content_view.dfy` (module `ContentView`): class `Renderer`, the triangle
  grid, and the fixed two-triangle data.
- `triangle_strip.dfy` (module `TriangleStrip`): class `Renderer2` and the
  point lattice.

Each renderer is a class with a `vertexData: seq<Vertex>` field.

- The loops are methods that append to that field. Each one is proved to
  append exactly a specification function of `rows` and `cols`: `TriangleGrid`
  or `PointLattice`.
- The specification functions are recursive, row by row and cell by cell, just
  as the loops run.
- Lemmas prove facts about them: the closed-form index mapping in both
  directions, the corners, the bounds, the colour and the ordering.
- The source's coordinate expressions are proved equal to the reference
  lattice.
- The loops take general `rows, cols > 0`. `Init` instantiates them at the
  source's literal sizes.

The triangle grid's nested loops are written as three methods, one per level,
which append in the same order:

- `AppendGrid` is the row loop.
- `AppendRow` is the column loop.
- `AppendCell` is the loop body, with its six appends.

The point lattice keeps its two nested loops in one method.

Because every result is a function of `rows` and `cols`, two runs with the same
sizes produce the same sequence.

## Model

| member | source | states |
|---|---|---|
| `Geometry.LatticeXBounds` | MetalHeatMap/TriangleStrip.swift:66-82 | every column x lies in [-1,1]; column 0 is the left edge -1 and column `cols` the right edge 1 |
| `Geometry.LatticeYBounds` | MetalHeatMap/TriangleStrip.swift:66-79 | every row y lies in [-1,1]; row 0 is the top edge 1 and row `rows` the bottom edge -1 |
| `Geometry.LatticePointInSquare` | MetalHeatMap/TriangleStrip.swift:66-82 | every lattice intersection lies in the coordinate square |
| `Geometry.LatticeXIncreasing` | MetalHeatMap/TriangleStrip.swift:81-82 | x grows strictly with the column, in both directions of the if-and-only-if |
| `Geometry.LatticeYDecreasing` | MetalHeatMap/TriangleStrip.swift:77-79 | y falls strictly with the row, in both directions of the if-and-only-if |
| `Geometry.LatticePointOrder` | MetalHeatMap/TriangleStrip.swift:77-82 | a later intersection in row-major order is to the right at the same height, or lower |
| `ContentView.LeftX` | MetalHeatMap/ContentView.swift:167 | the grid loop's left-edge x expression equals lattice column `col` |
| `ContentView.RightX` | MetalHeatMap/ContentView.swift:169 | the grid loop's right-edge x expression equals lattice column `col + 1` |
| `ContentView.TopY` | MetalHeatMap/ContentView.swift:167 | the grid loop's top-edge y expression equals lattice row `row` |
| `ContentView.BottomY` | MetalHeatMap/ContentView.swift:168 | the grid loop's bottom-edge y expression equals lattice row `row + 1` |
| `ContentView.Cell` | MetalHeatMap/ContentView.swift:167-180 | one cell is six vertices: top-left, bottom-left, top-right, then bottom-left, top-right, bottom-right (v4 = v2 and v5 = v3: the diagonal is duplicated), all in the grid colour |
| `ContentView.TriangleRow` | MetalHeatMap/ContentView.swift:166-181 | `n` column iterations append 6·n vertices |
| `ContentView.TriangleRows` | MetalHeatMap/ContentView.swift:164-184 | `n` row iterations append 6·cols·n vertices |
| `ContentView.TriangleGrid` | MetalHeatMap/ContentView.swift:162-184 | the grid has rows·cols·6 vertices: six per cell, no deduplication |
| `ContentView.TriangleRowAt` | MetalHeatMap/ContentView.swift:166-180 | within a row, cell `col` occupies indices 6·col .. 6·col+5 |
| `ContentView.TriangleRowsAt` | MetalHeatMap/ContentView.swift:164-180 | after `n` rows, cell (row, col) of an earlier row sits at 6·(row·cols+col) |
| `ContentView.TriangleGridAt` | MetalHeatMap/ContentView.swift:164-180 | cell (row, col) occupies indices 6·(row·cols+col) .. +5, row-major with the column loop inner |
| `ContentView.GridIndexSplit` | MetalHeatMap/ContentView.swift:164-166 | every grid index splits back into a row below `rows`, a column and a corner |
| `ContentView.CellEdges` | MetalHeatMap/ContentView.swift:167-173 | each corner's x is its column's left or right edge, and its y is its row's top or bottom edge |
| `ContentView.CellInSquare` | MetalHeatMap/ContentView.swift:167-173 | all six corners of a cell in the grid lie in [-1,1]×[-1,1] |
| `ContentView.TriangleGridCorner` | MetalHeatMap/ContentView.swift:164-180 | grid index 6·(row·cols+col)+k holds corner k of cell (row, col), on that cell's edges, in the square and in the grid colour |
| `ContentView.TriangleGridCellOf` | MetalHeatMap/ContentView.swift:164-180 | vertex `i` is corner `i % 6` of cell ((i/6)/cols, (i/6)%cols). So every x is col·(2/cols)-1 or (col+1)·(2/cols)-1, and every y is 1-row·(2/rows) or 1-(row+1)·(2/rows) |
| `ContentView.TriangleGridInSquare` | MetalHeatMap/ContentView.swift:162-180 | every grid vertex lies in [-1,1]×[-1,1] and has colour (0.5, 0.3, 0.5, 1) |
| `ContentView.FirstCell` | MetalHeatMap/ContentView.swift:164-180 | the grid starts with cell (0, 0), whose first vertex is (-1, 1) |
| `ContentView.FirstCellPositions` | MetalHeatMap/ContentView.swift:162-180 | in the 100×200 grid the first six vertices are (-1,1), (-1,0.98), (-0.99,1), (-1,0.98), (-0.99,1), (-0.99,0.98) |
| `ContentView.Renderer.Empty` | MetalHeatMap/ContentView.swift:228 | a new renderer starts with no vertices |
| `ContentView.Renderer.AppendCell` | MetalHeatMap/ContentView.swift:167-180 | one column iteration appends exactly the cell's six vertices |
| `ContentView.Renderer.AppendRow` | MetalHeatMap/ContentView.swift:166-182 | the column loop appends exactly the row's cells, in column order |
| `ContentView.Renderer.AppendGrid` | MetalHeatMap/ContentView.swift:164-184 | the row loop appends exactly `TriangleGrid(rows, cols)` |
| `ContentView.Renderer.Init` | MetalHeatMap/ContentView.swift:151-188 | a failed pipeline build gives null; otherwise the renderer holds exactly the 100×200 grid, 120000 vertices |
| `ContentView.Triples` | MetalHeatMap/ContentView.swift:81-86 | a flat float array read three at a time gives one (x, y, z) per triple |
| `ContentView.TriplesOfEighteen` | MetalHeatMap/ContentView.swift:81-86 | 18 floats read as six triples, in order |
| `ContentView.FixedVertexDataShape` | MetalHeatMap/ContentView.swift:81-86 | the fixed data is 18 floats: six positions (two triangles), listed, each with z = 0 |
| `TriangleStrip.Spacing` | MetalHeatMap/TriangleStrip.swift:74-75 | the column spacing `width` and the row spacing `height` are positive, and `n` steps of it span the side of length 2 exactly |
| `TriangleStrip.PointX` | MetalHeatMap/TriangleStrip.swift:82 | the column loop's x expression equals lattice column `col` |
| `TriangleStrip.PointY` | MetalHeatMap/TriangleStrip.swift:79 | the row loop's y expression equals lattice row `row` |
| `TriangleStrip.LatticeRow` | MetalHeatMap/TriangleStrip.swift:81-91 | `n` column iterations append `n` vertices |
| `TriangleStrip.LatticeRows` | MetalHeatMap/TriangleStrip.swift:77-92 | `n` row iterations append n·(cols+1) vertices |
| `TriangleStrip.PointLattice` | MetalHeatMap/TriangleStrip.swift:63-92 | the lattice has (rows+1)·(cols+1) vertices |
| `TriangleStrip.LatticeRowAt` | MetalHeatMap/TriangleStrip.swift:81-90 | within a row, the vertex at `col` is intersection (row, col) in black |
| `TriangleStrip.LatticeRowsAt` | MetalHeatMap/TriangleStrip.swift:77-90 | after `n` rows, intersection (row, col) of an earlier row sits at row·(cols+1)+col |
| `TriangleStrip.PointLatticeAt` | MetalHeatMap/TriangleStrip.swift:74-90 | index row·(cols+1)+col holds the point x = (2/cols)·col-1, y = 1-(2/rows)·row, in colour (0,0,0,1) |
| `TriangleStrip.PointLatticeVertex` | MetalHeatMap/TriangleStrip.swift:77-90 | conversely, vertex `i` is intersection (i/(cols+1), i%(cols+1)), with a row at most `rows` |
| `TriangleStrip.PointLatticeCorners` | MetalHeatMap/TriangleStrip.swift:66-82 | index 0 is (-1,1), index `cols` is (1,1), index rows·(cols+1) is (-1,-1) and the last index is (1,-1) |
| `TriangleStrip.PointLatticeInSquare` | MetalHeatMap/TriangleStrip.swift:77-90 | every lattice vertex lies in [-1,1]×[-1,1] and has colour (0,0,0,1) |
| `TriangleStrip.PointLatticeOrdered` | MetalHeatMap/TriangleStrip.swift:77-90 | of two lattice vertices, the later one in `vertexData` lies on a lower row (smaller y), or on the same row (equal y) further right (larger x) |
| `TriangleStrip.PointLatticeSameRow` | MetalHeatMap/TriangleStrip.swift:77-90 | within one row, all vertices share the row's y and x strictly increases with the column |
| `TriangleStrip.PointLatticeLaterRow` | MetalHeatMap/TriangleStrip.swift:77-90 | every vertex of a later row has strictly smaller y than every vertex of an earlier row |
| `TriangleStrip.Renderer2.Empty` | MetalHeatMap/TriangleStrip.swift:136 | a new renderer starts with no vertices |
| `TriangleStrip.Renderer2.AppendLattice` | MetalHeatMap/TriangleStrip.swift:77-92 | the nested loops append exactly `PointLattice(rows, cols)` |
| `TriangleStrip.Renderer2.Init` | MetalHeatMap/TriangleStrip.swift:50-96 | a failed pipeline build gives null; otherwise the renderer holds exactly the 200×100 lattice, 201·101 vertices |

## Left out

- Floating point: positions are exact reals, not IEEE-754 `Float`. The corner values (index `cols` is (1,1), the last index is (1,-1), 0.98, -0.99) and the bounds hold in exact arithmetic. In `Float` they may be off by rounding.
- Metal and UIKit plumbing is not modelled. This covers the device, `CAMetalLayer`/`MTKView` setup, the shader library, command queues and encoders, present/commit and `CADisplayLink`. It also covers both view controllers' `viewDidLoad` and the creation of the vertex buffers from the arrays.
- The pipeline build (`Renderer.buildRenderPipelineWith`) is an input, `PipelineBuild`: it either succeeds or throws. The logging of the error is not modelled.
- The first view controller's pipeline failure only logs and carries on. It is plumbing and is not modelled. Its 18-float array is modelled as data only.
- The per-frame callbacks (`render`, `loop`, both `draw(in:)`) are not modelled. Each one submits a single draw of the whole buffer, or skips the frame when no drawable exists.
- The first controller's draw passes the float count, 18, as the vertex count, where there are six positions. That call only affects rendering and is not modelled. The data is modelled as written.
- The buffer byte sizes are not modelled. They use `MemoryLayout<Vertex>.size` in one renderer and `.stride` in the other, which depends on a SIMD layout not visible here.
- The unused copy of `buildRenderPipelineWith` in `Renderer2` is not modelled. The initialiser calls `Renderer`'s copy.
- The loop counters are Swift `Int`. At these sizes they cannot overflow, so they are modelled as unbounded naturals.
