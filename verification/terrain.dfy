/**
 * `generateAdvancedTerrain` as a whole (src/main.cpp:221-310) and the vertex
 * buffer that `setupBuffers` builds from its output (src/main.cpp:478-495).
 *
 * The generator scans the grid (TerrainGrid), sums the face normals of the
 * triangles into a per-vertex buffer and normalizes it (Normals); the buffer
 * setup interleaves vertices and normals (VertexBuffer).  The normal buffer is
 * sized 3 * width * height here: the source sizes it from the still-empty
 * vertex stream, and reads positions three entries apart in a stream with
 * five entries per vertex.  Both readings as written are kept beside the
 * corrected ones.
 */
module Terrain {
  import opened RowMajor
  import opened Octaves
  import opened TerrainGrid
  import opened Normals
  import opened VertexBuffer

  /** The normal buffer after `normals.resize(vertices.size(), 0.0f)` (src/main.cpp:232), given the vertex stream at that point. */
  function NormalsResizedAsWritten(vertices: seq<real>): (r: seq<real>)
    ensures |r| == |vertices|
    ensures forall s :: 0 <= s < |r| ==> r[s] == 0.0
  {
    Zeros(|vertices|)
  }

  lemma IndexInside(i: nat, n: nat, k: nat)
    requires i < n && 3 <= k
    ensures k * i + 2 < k * n
  {
    MulMonotone(k, i + 1, n);
  }

  lemma WholeCells(width: nat, height: nat)
    requires 1 <= width && 1 <= height
    ensures (6 * (width - 1) * (height - 1)) % 3 == 0
  {
    assert 6 * (width - 1) * (height - 1) == 3 * (2 * (width - 1) * (height - 1));
  }

  /**
   * The grid's triangles are whole, every index names a position inside the
   * vertex stream, and the three slots of every index lie inside a buffer of
   * 3 * width * height entries.
   */
  lemma GridMeshValid(width: nat, height: nat, p: NoiseParams, noise: Noise)
    requires ValidGrid(width, height)
    ensures ValidMesh(GridVertices(width, height, p, noise), GridIndices(width, height), 3 * (width * height))
  {
    var vertices := GridVertices(width, height, p, noise);
    var indices := GridIndices(width, height);
    GridIndicesLength(width, height);
    WholeCells(width, height);
    GridIndicesBounded(width, height);
    forall k | 0 <= k < |indices|
      ensures VertexStride * indices[k] + 2 < |vertices| && 3 * indices[k] + 2 < 3 * (width * height)
    {
      assert indices[k] in indices;
      IndexInside(indices[k], width * height, 5);
      IndexInside(indices[k], width * height, 3);
    }
  }

  /** The number of triangles of the grid. */
  function TriangleCount(width: nat, height: nat): (n: nat)
    requires ValidGrid(width, height)
    ensures 3 * n == |GridIndices(width, height)|
    ensures n == 2 * (width - 1) * (height - 1)
  {
    GridIndicesLength(width, height);
    2 * (width - 1) * (height - 1)
  }

  /** The normal buffer the generator returns: three slots per grid point, summed over every triangle, then normalized. */
  function MeshNormals(width: nat, height: nat, p: NoiseParams, noise: Noise, normalize: Normalize): (r: seq<real>)
    requires ValidGrid(width, height)
    ensures |r| == 3 * (width * height)
  {
    GridMeshValid(width, height, p, noise);
    VertexNormals(GridVertices(width, height, p, noise), GridIndices(width, height), 3 * (width * height), normalize)
  }

  /**
   * `generateAdvancedTerrain` with the normal buffer sized three slots per
   * grid point and positions read at the stream's own stride.
   */
  method GenerateAdvancedTerrain(width: nat, height: nat, noise: Noise, normalize: Normalize)
    returns (vertices: seq<real>, indices: seq<nat>, normals: seq<real>)
    requires ValidGrid(width, height) && width * height <= IntMax + 1
    ensures vertices == GridVertices(width, height, SourceParams, noise)
    ensures indices == GridIndices(width, height)
    ensures normals == MeshNormals(width, height, SourceParams, noise, normalize)
  {
    vertices, indices := BuildGrid(width, height, SourceParams, noise);
    GridMeshValid(width, height, SourceParams, noise);
    DivMod3(width * height, 0);
    normals := ComputeVertexNormals(vertices, indices, 3 * (width * height), normalize);
  }

  /** Read at the stream's stride, vertex z * width + x is the position the scan emitted for (x, z). */
  lemma GridPosition(width: nat, height: nat, p: NoiseParams, noise: Noise, x: nat, z: nat)
    requires ValidGrid(width, height) && x < width && z < height
    ensures VertexStride * PointIndex(width, x, z) + 2 < |GridVertices(width, height, p, noise)|
    ensures
      var xPos := XPos(width, height, x);
      var zPos := ZPos(width, height, z);
      Position(GridVertices(width, height, p, noise), PointIndex(width, x, z))
      == Vec3(xPos, OctaveSum(p, noise, xPos, zPos, p.numOctaves), zPos)
  {
    GridVerticesAt(width, height, p, noise, x, z, 0);
    GridVerticesAt(width, height, p, noise, x, z, 1);
    GridVerticesAt(width, height, p, noise, x, z, 2);
  }

  /**
   * As written, the normal buffer is sized from the vertex stream before the
   * scan fills it, so it has no slots, while the first triangle writes to the
   * slots of its first corner.
   */
  lemma NormalsUndersizedAsWritten(width: nat, height: nat)
    requires ValidGrid(width, height)
    ensures |NormalsResizedAsWritten([])| == 0
    ensures |GridIndices(width, height)| > 0
    ensures !SlotsWithin(GridIndices(width, height), |NormalsResizedAsWritten([])|)
  {
    GridIndicesLength(width, height);
    MulMonotone(6 * (width - 1), 1, height - 1);
    assert 3 * GridIndices(width, height)[0] + 2 >= 0;
  }

  /**
   * As written, the normal pass reads vertex 1 of the 2 x 2 grid three
   * entries in, so it takes the texture coordinate of vertex 0 (u = 0) as its
   * x coordinate, while vertex 1 sits at x = 0.5.
   */
  lemma StrideMismatchAsWritten(noise: Noise)
    ensures |GridVertices(2, 2, SourceParams, noise)| == 20
    ensures PositionAsWritten(GridVertices(2, 2, SourceParams, noise), 1).x == 0.0
    ensures Position(GridVertices(2, 2, SourceParams, noise), 1).x == 0.5
  {
    GridVerticesAt(2, 2, SourceParams, noise, 0, 0, 3);
    GridVerticesAt(2, 2, SourceParams, noise, 1, 0, 0);
    assert Scale(2, 2) == 1.0;
  }

  /**
   * `generateAdvancedTerrain` followed by the interleaving loop of
   * `setupBuffers`, as `main` calls them (src/main.cpp:84, 97).
   */
  method TerrainVertexData(width: nat, height: nat, noise: Noise, normalize: Normalize)
    returns (vertexData: seq<real>, indices: seq<nat>)
    requires ValidGrid(width, height) && width * height <= IntMax + 1
    ensures |vertexData| == 8 * (width * height)
    ensures vertexData == Interleaved(GridVertices(width, height, SourceParams, noise),
                                      MeshNormals(width, height, SourceParams, noise, normalize), width * height)
    ensures indices == GridIndices(width, height)
  {
    var vertices, normals;
    vertices, indices, normals := GenerateAdvancedTerrain(width, height, noise, normalize);
    assert |vertices| / 5 == width * height;
    vertexData := Interleave(vertices, normals);
  }

  /**
   * In the interleaved buffer, grid point (x, z) occupies entries
   * 8 * (z * width + x) .. + 7: its five vertex entries, then its normal.
   */
  lemma VertexDataLayout(width: nat, height: nat, noise: Noise, normalize: Normalize, x: nat, z: nat, j: nat)
    requires ValidGrid(width, height) && x < width && z < height && j < 8
    ensures
      var data := Interleaved(GridVertices(width, height, SourceParams, noise),
                              MeshNormals(width, height, SourceParams, noise, normalize), width * height);
      8 * PointIndex(width, x, z) + j < |data|
      && data[8 * PointIndex(width, x, z) + j]
         == if j < 5 then VertexBlock(width, height, SourceParams, noise, x, z)[j]
            else Component(Triple(MeshNormals(width, height, SourceParams, noise, normalize), PointIndex(width, x, z)), j - 5)
  {
    var v := PointIndex(width, x, z);
    OrdinalInGrid(width, height, x, z);
    var vertices := GridVertices(width, height, SourceParams, noise);
    var normals := MeshNormals(width, height, SourceParams, noise, normalize);
    IndexInside(v, width * height, 3);
    InterleavedAt(vertices, normals, width * height, v, j);
    if j < 5 {
      GridVerticesAt(width, height, SourceParams, noise, x, z, j);
    }
  }

  lemma OrdinalInGrid(width: nat, height: nat, x: nat, z: nat)
    requires x < width && z < height
    ensures PointIndex(width, x, z) < width * height
  {
    MulMonotone(width, z + 1, height);
  }
}
