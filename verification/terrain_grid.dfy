/**
 * The grid scan of `generateAdvancedTerrain` (src/main.cpp:221-270).
 *
 * A `width` x `height` grid is visited row by row (z outside, x inside).
 * Every point appends five entries to the vertex stream: its position
 * (xPos, height, zPos) and its texture coordinate (u, v).  Every point that
 * is the top-left corner of an interior cell also appends the six indices of
 * the cell's two triangles, (start, start+width, start+1) and
 * (start+1, start+width, start+width+1) with start = z*width + x.
 */
module TerrainGrid {
  import opened RowMajor
  import opened Octaves

  /** The largest value of a C++ `int`, the type of `start` (src/main.cpp:261). */
  const IntMax: int := 0x7FFF_FFFF

  /** Both dimensions are at least 2, so that the divisions by width - 1,
      height - 1 and max(width, height) - 1 are defined. */
  predicate ValidGrid(width: nat, height: nat)
  {
    2 <= width && 2 <= height
  }

  function Max(a: nat, b: nat): nat
  {
    if a >= b then a else b
  }

  function Min(a: nat, b: nat): nat
  {
    if a <= b then a else b
  }

  /**
   * The uniform spacing 1 / (max(width, height) - 1) (src/main.cpp:223):
   * the longer side spans exactly one unit.
   */
  function Scale(width: nat, height: nat): (r: real)
    requires ValidGrid(width, height)
    ensures 0.0 < r && (Max(width, height) - 1) as real * r == 1.0
  {
    1.0 / ((Max(width, height) - 1) as real)
  }

  function XPos(width: nat, height: nat, x: nat): real
    requires ValidGrid(width, height)
  {
    x as real * Scale(width, height) - 0.5
  }

  function ZPos(width: nat, height: nat, z: nat): real
    requires ValidGrid(width, height)
  {
    z as real * Scale(width, height) - 0.5
  }

  function TexU(width: nat, x: nat): real
    requires 2 <= width
  {
    x as real / ((width - 1) as real)
  }

  function TexV(height: nat, z: nat): real
    requires 2 <= height
  {
    z as real / ((height - 1) as real)
  }

  /** The five entries appended for grid point (x, z) (src/main.cpp:238-257). */
  function VertexBlock(width: nat, height: nat, p: NoiseParams, noise: Noise, x: nat, z: nat): (block: seq<real>)
    requires ValidGrid(width, height)
    ensures |block| == 5
  {
    var xPos := XPos(width, height, x);
    var zPos := ZPos(width, height, z);
    [xPos, OctaveSum(p, noise, xPos, zPos, p.numOctaves), zPos, TexU(width, x), TexV(height, z)]
  }

  function VertexStream(width: nat, height: nat, p: NoiseParams, noise: Noise): (nat, nat) -> seq<real>
    requires ValidGrid(width, height)
  {
    (x: nat, z: nat) => VertexBlock(width, height, p, noise, x, z)
  }

  /** The vertex stream after the whole scan. */
  function GridVertices(width: nat, height: nat, p: NoiseParams, noise: Noise): (r: seq<real>)
    requires ValidGrid(width, height)
    ensures |r| == 5 * (width * height)
  {
    VerticesUniform(width, height, p, noise);
    RowsLength(width, height, VertexStream(width, height, p, noise), 5);
    assert 5 * width * height == 5 * (width * height);
    Rows(width, height, VertexStream(width, height, p, noise))
  }

  /** The ordinal z * width + x of grid point (x, z) in the row-major scan. */
  function PointIndex(width: nat, x: nat, z: nat): nat
  {
    MulMonotone(width, 0, z);
    z * width + x
  }

  /**
   * The two triangles of the cell whose top-left corner is `start`.  Every
   * index lies between the top-left and bottom-right corners, and the second
   * triangle begins with the diagonal start+1 -- start+width that ends the
   * first one, walked the other way, so both triangles wind alike.
   */
  function CellIndices(width: nat, start: nat): (r: seq<nat>)
    ensures |r| == 6
    ensures forall k :: 0 <= k < |r| ==> start <= r[k] <= start + width + 1
    ensures r[0] == start && r[5] == start + width + 1
    ensures r[3] == r[2] && r[4] == r[1]
  {
    [start, start + width, start + 1, start + 1, start + width, start + width + 1]
  }

  /** The indices appended at grid point (x, z): a cell's six, or none on the last column or row. */
  function IndexStream(width: nat, height: nat): (nat, nat) -> seq<nat>
  {
    (x: nat, z: nat) => if x + 1 < width && z + 1 < height then CellIndices(width, PointIndex(width, x, z)) else []
  }

  /** The index stream after the whole scan. */
  function GridIndices(width: nat, height: nat): seq<nat>
  {
    Rows(width, height, IndexStream(width, height))
  }

  /** The six indices of interior cell (x, z) of a grid `width` points wide. */
  function CellStream(width: nat): (nat, nat) -> seq<nat>
  {
    (x: nat, z: nat) => CellIndices(width, PointIndex(width, x, z))
  }

  /**
   * The nested loops of src/main.cpp:234-270.  Each point appends its five
   * vertex entries, and each top-left corner of an interior cell its six
   * indices; `start` never exceeds the range of a C++ `int`.
   */
  method BuildGrid(width: nat, height: nat, p: NoiseParams, noise: Noise)
    returns (vertices: seq<real>, indices: seq<nat>)
    requires ValidGrid(width, height) && width * height <= IntMax + 1
    ensures vertices == GridVertices(width, height, p, noise)
    ensures indices == GridIndices(width, height)
  {
    ghost var vs := VertexStream(width, height, p, noise);
    ghost var cells := IndexStream(width, height);
    vertices, indices := [], [];
    var z := 0;
    while z < height
      invariant 0 <= z <= height
      invariant vertices == Rows(width, z, vs)
      invariant indices == Rows(width, z, cells)
    {
      vertices, indices := ScanRow(width, height, p, noise, z, vertices, indices);
      assert Rows(width, z + 1, vs) == Rows(width, z, vs) + Row(width, z, vs);
      assert Rows(width, z + 1, cells) == Rows(width, z, cells) + Row(width, z, cells);
      z := z + 1;
    }
  }

  /** The inner loop of src/main.cpp:235-269: one row of the grid, column by column. */
  method ScanRow(width: nat, height: nat, p: NoiseParams, noise: Noise, z: nat,
                 vertices0: seq<real>, indices0: seq<nat>)
    returns (vertices: seq<real>, indices: seq<nat>)
    requires ValidGrid(width, height) && width * height <= IntMax + 1
    ensures vertices == vertices0 + Row(width, z, VertexStream(width, height, p, noise))
    ensures indices == indices0 + Row(width, z, IndexStream(width, height))
  {
    ghost var vs := VertexStream(width, height, p, noise);
    ghost var cells := IndexStream(width, height);
    vertices, indices := vertices0, indices0;
    var x := 0;
    while x < width
      invariant 0 <= x <= width
      invariant vertices == vertices0 + Row(x, z, vs)
      invariant indices == indices0 + Row(x, z, cells)
    {
      var block := PointVertex(width, height, p, noise, x, z);
      VertexStreamAt(width, height, p, noise, x, z);
      AppendBlock(vertices0, vertices, x, z, vs, block);
      vertices := vertices + block;
      var cell := PointIndices(width, height, x, z);
      AppendBlock(indices0, indices, x, z, cells, cell);
      indices := indices + cell;
      x := x + 1;
    }
  }

  /**
   * The body of the inner loop for the vertex stream (src/main.cpp:238-257):
   * the position (xPos, height, zPos) followed by the texture coordinate.
   */
  method PointVertex(width: nat, height: nat, p: NoiseParams, noise: Noise, x: nat, z: nat)
    returns (block: seq<real>)
    requires ValidGrid(width, height)
    ensures block == VertexBlock(width, height, p, noise, x, z)
  {
    var xPos := XPos(width, height, x);
    var zPos := ZPos(width, height, z);
    var heightValue := OctaveHeight(p, noise, xPos, zPos);
    block := [xPos, heightValue, zPos];
    block := block + [TexU(width, x), TexV(height, z)];
  }

  /**
   * The body of the inner loop for the index stream (src/main.cpp:259-268):
   * the six indices of the cell at (x, z) when it is interior, none otherwise;
   * every index fits a C++ `int`.
   */
  method PointIndices(width: nat, height: nat, x: nat, z: nat) returns (cell: seq<nat>)
    requires ValidGrid(width, height) && width * height <= IntMax + 1
    ensures cell == IndexStream(width, height)(x, z)
    ensures forall i :: i in cell ==> i <= IntMax
  {
    cell := [];
    if x < width - 1 && z < height - 1 {
      CellWithinGrid(width, height, x, z);
      var start := z * width + x;
      cell := [start, start + width, start + 1, start + 1, start + width, start + width + 1];
    }
    IndexStreamAt(width, height, x, z);
  }

  lemma VertexStreamAt(width: nat, height: nat, p: NoiseParams, noise: Noise, x: nat, z: nat)
    requires ValidGrid(width, height)
    ensures VertexStream(width, height, p, noise)(x, z) == VertexBlock(width, height, p, noise, x, z)
  {
  }

  lemma IndexStreamAt(width: nat, height: nat, x: nat, z: nat)
    ensures IndexStream(width, height)(x, z)
            == if x + 1 < width && z + 1 < height then CellIndices(width, PointIndex(width, x, z)) else []
  {
  }

  /** The largest index of interior cell (x, z) is below width * height. */
  lemma CellWithinGrid(width: nat, height: nat, x: nat, z: nat)
    requires x + 1 < width && z + 1 < height
    ensures PointIndex(width, x, z) + width + 1 < width * height
  {
    MulMonotone(width, z, height - 2);
    assert width * (height - 2) == width * height - 2 * width;
  }

  /** A row of the index scan, on a row with cells below it, is the row of its cells. */
  lemma {:induction false} IndexRowAsCells(width: nat, height: nat, x: nat, z: nat)
    requires 1 <= width && z + 1 < height && x <= width
    ensures Row(x, z, IndexStream(width, height)) == Row(Min(x, width - 1), z, CellStream(width))
  {
    if x > 0 {
      IndexRowAsCells(width, height, x - 1, z);
    }
  }

  /** The last row of the scan appends no indices. */
  lemma {:induction false} IndexRowEmpty(width: nat, height: nat, x: nat, z: nat)
    requires height <= z + 1
    ensures Row(x, z, IndexStream(width, height)) == []
  {
    if x > 0 {
      IndexRowEmpty(width, height, x - 1, z);
    }
  }

  /**
   * The index scan over the width x height points equals the scan over the
   * (width - 1) x (height - 1) interior cells, each appending its six indices.
   */
  lemma {:induction false} IndexRowsAsCells(width: nat, height: nat, z: nat)
    requires 1 <= width && 1 <= height && z <= height
    ensures Rows(width, z, IndexStream(width, height)) == Rows(width - 1, Min(z, height - 1), CellStream(width))
  {
    if z > 0 {
      var indices, cells := IndexStream(width, height), CellStream(width);
      IndexRowsAsCells(width, height, z - 1);
      assert Rows(width, z, indices) == Rows(width - 1, z - 1, cells) + Row(width, z - 1, indices);
      if z < height {
        IndexRowAsCells(width, height, width, z - 1);
        assert Min(width, width - 1) == width - 1 && Min(z, height - 1) == z;
      } else {
        IndexRowEmpty(width, height, width, z - 1);
        assert Min(z, height - 1) == z - 1 && Min(z - 1, height - 1) == z - 1;
        assert Rows(width - 1, z - 1, cells) + [] == Rows(width - 1, z - 1, cells);
      }
    }
  }

  lemma CellsUniform(width: nat, height: nat)
    requires 1 <= width && 1 <= height
    ensures Uniform(width - 1, height - 1, CellStream(width), 6)
  {
    forall x: nat, z: nat | x < width - 1 && z < height - 1
      ensures |CellStream(width)(x, z)| == 6
    {
      assert CellStream(width)(x, z) == CellIndices(width, PointIndex(width, x, z));
    }
  }

  /**
   * The index stream holds 6 * (width - 1) * (height - 1) entries, that is
   * 2 * (width - 1) * (height - 1) triangles, and cell (cx, cz) contributes
   * its six indices at offset 6 * (cz * (width - 1) + cx): the cells appear
   * in row-major order with the fixed winding.
   */
  lemma GridIndicesAt(width: nat, height: nat, cx: nat, cz: nat, j: nat)
    requires cx + 1 < width && cz + 1 < height && j < 6
    ensures |GridIndices(width, height)| == 6 * (width - 1) * (height - 1)
    ensures CellOffset(width, cx, cz) + j < |GridIndices(width, height)|
    ensures GridIndices(width, height)[CellOffset(width, cx, cz) + j] == CellIndices(width, PointIndex(width, cx, cz))[j]
  {
    IndexRowsAsCells(width, height, height);
    assert GridIndices(width, height) == Rows(width - 1, height - 1, CellStream(width));
    CellScanAt(width, height, cx, cz, j);
  }

  /** GridIndicesAt for the scan over the interior cells. */
  lemma CellScanAt(width: nat, height: nat, cx: nat, cz: nat, j: nat)
    requires cx + 1 < width && cz + 1 < height && j < 6
    ensures |Rows(width - 1, height - 1, CellStream(width))| == 6 * (width - 1) * (height - 1)
    ensures CellOffset(width, cx, cz) + j < |Rows(width - 1, height - 1, CellStream(width))|
    ensures Rows(width - 1, height - 1, CellStream(width))[CellOffset(width, cx, cz) + j]
            == CellIndices(width, PointIndex(width, cx, cz))[j]
  {
    CellsUniform(width, height);
    RowsAt(width - 1, height - 1, CellStream(width), 6, cx, cz, j);
    assert CellStream(width)(cx, cz) == CellIndices(width, PointIndex(width, cx, cz));
  }

  /** The number of indices, for every grid with at least one point per side. */
  lemma GridIndicesLength(width: nat, height: nat)
    requires 1 <= width && 1 <= height
    ensures |GridIndices(width, height)| == 6 * (width - 1) * (height - 1)
  {
    IndexRowsAsCells(width, height, height);
    CellsUniform(width, height);
    RowsLength(width - 1, height - 1, CellStream(width), 6);
  }

  /** The six indices of an interior cell name grid points. */
  lemma CellBounded(width: nat, height: nat, cx: nat, cz: nat, i: nat)
    requires cx < width - 1 && cz < height - 1 && i in CellStream(width)(cx, cz)
    ensures i < width * height
  {
    assert CellStream(width)(cx, cz) == CellIndices(width, PointIndex(width, cx, cz));
    CellWithinGrid(width, height, cx, cz);
  }

  /** An entry of the cell scan names a grid point. */
  lemma CellScanBounded(width: nat, height: nat, i: nat)
    requires 1 <= width && 1 <= height
    requires i in Rows(width - 1, height - 1, CellStream(width))
    ensures i < width * height
  {
    var cx, cz := RowsMember(width - 1, height - 1, CellStream(width), i);
    CellBounded(width, height, cx, cz, i);
  }

  /** Every emitted index names a grid point: it is below width * height. */
  lemma GridIndicesBounded(width: nat, height: nat)
    requires 1 <= width && 1 <= height
    ensures forall i :: i in GridIndices(width, height) ==> i < width * height
  {
    IndexRowsAsCells(width, height, height);
    assert GridIndices(width, height) == Rows(width - 1, height - 1, CellStream(width));
    forall i | i in GridIndices(width, height)
      ensures i < width * height
    {
      CellScanBounded(width, height, i);
    }
  }

  /**
   * The largest index is emitted last: it is start + width + 1 for the last
   * cell, start = (height - 2) * width + (width - 2), which is width * height - 1.
   */
  lemma GridIndicesLast(width: nat, height: nat)
    requires ValidGrid(width, height)
    ensures |GridIndices(width, height)| > 0
    ensures GridIndices(width, height)[|GridIndices(width, height)| - 1] == width * height - 1
  {
    var cx, cz := width - 2, height - 2;
    LastCell(width, height);
    GridIndicesAt(width, height, cx, cz, 5);
  }

  /** The arithmetic of the last cell: its last index and where it sits. */
  lemma LastCell(width: nat, height: nat)
    requires ValidGrid(width, height)
    ensures 6 * ((height - 2) * (width - 1) + (width - 2)) + 5 == 6 * (width - 1) * (height - 1) - 1
    ensures (height - 2) * width + (width - 2) + width + 1 == width * height - 1
  {
    assert (height - 2) * (width - 1) == (height - 1) * (width - 1) - (width - 1);
    assert (height - 2) * width == height * width - 2 * width;
  }

  /**
   * Point (x, z) is corner j of the cell (cx, cz) whose top-left corner is
   * at most one step up and left of it.
   */
  lemma CornerOfCell(width: nat, x: nat, z: nat, cx: nat, cz: nat) returns (j: nat)
    requires cx <= x <= cx + 1 && cz <= z <= cz + 1
    ensures j < 6 && CellIndices(width, PointIndex(width, cx, cz))[j] == PointIndex(width, x, z)
  {
    if z == cz + 1 {
      assert z * width == cz * width + width;
    }
    j := if x == cx && z == cz then 0
         else if x == cx then 1
         else if z == cz then 2
         else 5;
  }

  /**
   * Every grid point is a corner of some emitted triangle: it appears at
   * position k of the index stream.
   */
  lemma GridIndicesCoverPoints(width: nat, height: nat, x: nat, z: nat) returns (k: nat)
    requires ValidGrid(width, height) && x < width && z < height
    ensures k < |GridIndices(width, height)| && GridIndices(width, height)[k] == PointIndex(width, x, z)
  {
    var cx := Min(x, width - 2);
    var cz := Min(z, height - 2);
    var j := CornerOfCell(width, x, z, cx, cz);
    k := CellIndexPosition(width, height, cx, cz, j, PointIndex(width, x, z));
  }

  /** Where index j of interior cell (cx, cz) sits in the index stream. */
  lemma CellIndexPosition(width: nat, height: nat, cx: nat, cz: nat, j: nat, e: nat) returns (k: nat)
    requires cx + 1 < width && cz + 1 < height && j < 6
    requires CellIndices(width, PointIndex(width, cx, cz))[j] == e
    ensures k < |GridIndices(width, height)| && GridIndices(width, height)[k] == e
  {
    GridIndicesAt(width, height, cx, cz, j);
    k := CellOffset(width, cx, cz) + j;
  }

  /** The offset of cell (cx, cz)'s six indices in the index stream. */
  function CellOffset(width: nat, cx: nat, cz: nat): nat
    requires 1 <= width
  {
    BlockOffset(width - 1, 6, cx, cz)
  }

  lemma TwoByTwoIndices()
    ensures GridIndices(2, 2) == [0, 2, 1, 1, 2, 3]
  {
    GridIndicesLength(2, 2);
    forall j | 0 <= j < 6
      ensures GridIndices(2, 2)[j] == [0, 2, 1, 1, 2, 3][j]
    {
      GridIndicesAt(2, 2, 0, 0, j);
    }
  }

  lemma VerticesUniform(width: nat, height: nat, p: NoiseParams, noise: Noise)
    requires ValidGrid(width, height)
    ensures Uniform(width, height, VertexStream(width, height, p, noise), 5)
  {
    forall x: nat, z: nat | x < width && z < height
      ensures |VertexStream(width, height, p, noise)(x, z)| == 5
    {
      VertexStreamAt(width, height, p, noise, x, z);
    }
  }

  /**
   * The block of point (x, z) sits at 5 * (z * width + x) in the vertex
   * stream: position, then texture coordinate.
   */
  lemma GridVerticesAt(width: nat, height: nat, p: NoiseParams, noise: Noise, x: nat, z: nat, j: nat)
    requires ValidGrid(width, height) && x < width && z < height && j < 5
    ensures 5 * PointIndex(width, x, z) + j < |GridVertices(width, height, p, noise)|
    ensures GridVertices(width, height, p, noise)[5 * PointIndex(width, x, z) + j]
            == VertexBlock(width, height, p, noise, x, z)[j]
  {
    var vs := VertexStream(width, height, p, noise);
    VerticesUniform(width, height, p, noise);
    RowsAt(width, height, vs, 5, x, z, j);
    VertexStreamAt(width, height, p, noise, x, z);
    assert GridVertices(width, height, p, noise) == Rows(width, height, vs);
  }

  /** A fraction n / m with n <= m lies in [0, 1], and is 1 when n == m. */
  lemma UnitFraction(n: nat, m: nat)
    requires n <= m && 1 <= m
    ensures 0.0 <= n as real / m as real <= 1.0
    ensures n == m ==> n as real / m as real == 1.0
  {
  }

  lemma ScaledCoordinate(width: nat, height: nat, n: nat)
    requires ValidGrid(width, height) && n < Max(width, height)
    ensures -0.5 <= n as real * Scale(width, height) - 0.5 <= 0.5
  {
    var m := Max(width, height) - 1;
    assert n as real * Scale(width, height) == n as real / m as real;
    UnitFraction(n, m);
  }

  /**
   * Positions lie in [-0.5, 0.5] and texture coordinates in [0, 1]; the
   * first point sits at (-0.5, -0.5) with texture coordinate (0, 0) and the
   * last row and column reach texture coordinate 1.
   */
  lemma VertexRanges(width: nat, height: nat, x: nat, z: nat)
    requires ValidGrid(width, height) && x < width && z < height
    ensures -0.5 <= XPos(width, height, x) <= 0.5 && -0.5 <= ZPos(width, height, z) <= 0.5
    ensures 0.0 <= TexU(width, x) <= 1.0 && 0.0 <= TexV(height, z) <= 1.0
    ensures XPos(width, height, 0) == -0.5 && ZPos(width, height, 0) == -0.5
    ensures TexU(width, 0) == 0.0 && TexV(height, 0) == 0.0
    ensures TexU(width, width - 1) == 1.0 && TexV(height, height - 1) == 1.0
  {
    ScaledCoordinate(width, height, x);
    ScaledCoordinate(width, height, z);
    UnitFraction(x, width - 1);
    UnitFraction(z, height - 1);
    UnitFraction(width - 1, width - 1);
    UnitFraction(height - 1, height - 1);
  }
}
