# Procedural terrain mesh: a Dafny model

This project models the mesh builder of the procedural terrain generator. It covers two pieces of `src/main.cpp`:

- `generateAdvancedTerrain`, which builds the terrain mesh. It scans a `width` x `height` grid row by row. For every grid point it sums four octaves of a noise field into a height. It appends five entries to the vertex stream: position `(xPos, height, zPos)` and texture coordinate `(u, v)`. When the point is the top-left corner of an interior cell, it also appends that cell's two triangles (six indices) to the index stream. Then it adds each triangle's face normal into a per-vertex normal buffer and normalizes every vertex's normal.
- The first half of `setupBuffers`. It interleaves the vertex stream (5 entries per vertex) and the normal buffer (3 per vertex) into one buffer of 8 entries per vertex.

The model keeps the source's imperative form:

- The grid scan, the octave loop, the two normal passes and the interleaving loop are methods with loops.
- The two normal passes work in place on an `array<real>`.
- Each method is proved against a specification function:
  - `TerrainGrid.GridVertices` and `TerrainGrid.GridIndices` for the grid scan;
  - `Octaves.OctaveSum` for the octave loop;
  - `Normals.Accumulated` and `Normals.NormalizedAll` for the two normal passes;
  - `VertexBuffer.Interleaved` for the interleaving loop.
- Lemmas state what those functions promise:
  - the number and order of the indices;
  - their bounds;
  - the exact winding of every cell;
  - the position of every vertex block;
  - coordinate ranges and height bounds;
  - that each triangle touches exactly the slots of its three corners;
  - that interleaving is reversible.

The modules are:

- `RowMajor` (`row_major.dfy`): the row-major scan shared by the vertex and index streams. `Rows(width, z, block)` is everything appended for the first `z` rows. The lemmas locate a point's block in the result.
- `Octaves` (`octaves.dfy`): the octave loop and the geometric bound on heights.
- `TerrainGrid` (`terrain_grid.dfy`): the nested grid loops, the vertex stream and the index stream.
- `Normals` (`normals.dfy`): normal accumulation and the normalization pass.
- `VertexBuffer` (`interleave.dfy`): the interleaving loop.
- `Terrain` (`terrain.dfy`): the whole generator, its composition with the interleaving loop, and the two source defects below.

Abstractions:

- `float` is modelled as `real`. There is no rounding and no overflow.
- `perlin.noise(x, z, numOctaves, persistence)` is the parameter `noise: (real, real) -> real`. Every call passes the same last two arguments, so they are folded into the parameter. Any internal octave summation of the noise field therefore stays inside the parameter.
- `glm::normalize` is the parameter `normalize: Vec3 -> Vec3`, because it involves a square root.
- `glm::cross` is exact arithmetic and is written out.
- Indices are `nat`. Every index is shown to fit a C++ `int`.

Dimensions are restricted to `width >= 2` and `height >= 2` (`ValidGrid`). The code has no error path for smaller grids, which behave as follows:

- When the larger dimension is 1, line 223 of src/main.cpp divides by zero and `scale` is infinite. If the grid is 1 x 1, the single point gets NaN coordinates (`0 * scale` and `0 / 0`). If the other dimension is 0 or less, no point is produced.
- Otherwise a dimension of 1 makes `u` or `v` NaN at lines 256-257 (`0 / 0`). `xPos` and `zPos` stay finite.
- A dimension of 0 or less leaves the loop at line 234 or 236 without a single round. The source then returns an empty mesh without fault.

The model excludes all of these cases. The generator also requires `width * height <= 2^31`, so that `int start` (src/main.cpp:261) cannot overflow; see "## Left out".

`PointIndex(width, x, z)` is the row-major ordinal `z * width + x`.

## Model

| member | source | states |
|---|---|---|
| `RowMajor.Row` | src/main.cpp:236-269 | No contract of its own. It is what the inner `x` loop appends for row `z`: the blocks of columns `0 .. x-1` in order. `RowMajor.RowAt` and `RowMajor.RowLength` state where each block lies and how long the row is. |
| `RowMajor.Rows` | src/main.cpp:234-269 | No contract of its own. It is what the nested loops append for rows `0 .. z-1`. `RowMajor.RowsLength`, `RowMajor.RowsSplitAt`, `RowMajor.RowsAt` and `RowMajor.RowsMember` state its length, row order, the position of every block and where each entry comes from. |
| `RowMajor.RowsLength` | src/main.cpp:234-236 | A scan of `z` rows, in which every point appends exactly `k` entries, appends `k * width * z` entries. |
| `RowMajor.RowAt` | src/main.cpp:236-269 | Within a row, entry `j` of column `c`'s block sits at offset `k * c + j`. Columns appear in increasing order. |
| `RowMajor.RowsSplitAt` | src/main.cpp:234-236 | Row `zz` follows directly after the entries of all rows above it. |
| `RowMajor.RowsAt` | src/main.cpp:234-269 | Entry `j` of the block of point `(x, zz)` sits at `k * (zz * width + x) + j`. This is row-major order with `z` outside and `x` inside. |
| `RowMajor.RowsMember` | src/main.cpp:234-269 | Every entry of a scan comes from the block of some point inside the scanned rectangle. The lemma returns that point. |
| `Octaves.Amplitude` | src/main.cpp:242-248 | No contract of its own. It is the amplitude of octave `j`, `baseAmplitude * persistence^j`. The loop invariants of `Octaves.OctaveHeight` state that the variable `amplitude` holds it after every round, and `Octaves.NextOctave` proves one multiplication by persistence advances it. |
| `Octaves.Frequency` | src/main.cpp:243-249 | No contract of its own. It is the frequency of octave `j`, `baseFrequency * lacunarity^j`. The loop invariants of `Octaves.OctaveHeight` state that the variable `frequency` holds it after every round, and `Octaves.NextOctave` proves one multiplication by lacunarity advances it. |
| `Octaves.OctaveHeight` | src/main.cpp:241-250 | The octave loop returns the sum over `j < numOctaves` of `baseAmplitude * persistence^j * noise(xPos * f_j, zPos * f_j)`, with `f_j = baseFrequency * lacunarity^j`. Its invariants state the values of `amplitude` and `frequency` after every round. |
| `Octaves.NextOctave` | src/main.cpp:248-249 | Multiplying by persistence and by lacunarity turns the amplitude and frequency of octave `j` into those of octave `j + 1`. |
| `Octaves.OctaveSumBounded` | src/main.cpp:241-250 | If noise samples lie in [-1, 1] and amplitudes are non-negative, the height after `k` octaves lies within plus or minus the sum of the first `k` amplitudes. |
| `Octaves.AmplitudeSumGeometric` | src/main.cpp:242-248 | The amplitudes form a geometric series: `S_k * (1 - r) == a * (1 - r^k)`. |
| `Octaves.AmplitudeSumClosedForm` | src/main.cpp:242-248 | For a persistence other than 1, the amplitudes sum to `a * (1 - r^n) / (1 - r)`. |
| `Octaves.OctaveSum` | src/main.cpp:241-250 | No contract of its own. It is the specification of the octave loop: `Octaves.OctaveHeight` proves the loop computes it, and `Octaves.OctaveSumBounded` and `Octaves.HeightGeometricBound` bound it. |
| `Octaves.HeightGeometricBound` | src/main.cpp:241-250 | When every noise sample lies in [-1, 1], the base amplitude is non-negative, and the persistence is non-negative and not 1, the height is bounded by `a * (1 - r^n) / (1 - r)` in absolute value. |
| `Octaves.SourceHeightBound` | src/main.cpp:225-250 | When every noise sample lies in [-1, 1], with the builder's constants (4 octaves, amplitude 0.5, persistence 0.5), every height lies in [-0.9375, 0.9375]. |
| `TerrainGrid.Scale` | src/main.cpp:223 | The spacing is positive, and `max(width, height) - 1` steps of it span exactly one unit. |
| `TerrainGrid.XPos` | src/main.cpp:238 | No contract of its own. `TerrainGrid.VertexRanges` proves it lies in [-0.5, 0.5] on the grid and is -0.5 at column 0. |
| `TerrainGrid.ZPos` | src/main.cpp:239 | No contract of its own. `TerrainGrid.VertexRanges` proves it lies in [-0.5, 0.5] on the grid and is -0.5 at row 0. |
| `TerrainGrid.TexU` | src/main.cpp:256 | No contract of its own. `TerrainGrid.VertexRanges` proves it lies in [0, 1] on the grid, is 0 at the first column and 1 at the last. |
| `TerrainGrid.TexV` | src/main.cpp:257 | No contract of its own. `TerrainGrid.VertexRanges` proves it lies in [0, 1] on the grid, is 0 at the first row and 1 at the last. |
| `TerrainGrid.CellIndices` | src/main.cpp:261-267 | A cell emits six indices, all between its top-left corner `start` and its bottom-right corner `start + width + 1`, which come first and last. The second triangle begins with the diagonal that ends the first, walked the other way, so both triangles wind alike. |
| `TerrainGrid.BuildGrid` | src/main.cpp:234-270 | The nested loops leave the vertex stream equal to `GridVertices` and the index stream equal to `GridIndices`. |
| `TerrainGrid.ScanRow` | src/main.cpp:236-269 | The inner loop appends to both streams exactly what the scan of row `z` emits. |
| `TerrainGrid.PointVertex` | src/main.cpp:238-257 | The loop body emits the block `(xPos, height, zPos, u, v)`. The height comes from the octave loop. |
| `TerrainGrid.PointIndices` | src/main.cpp:259-268 | The loop body emits the six indices of the cell when it is interior, and nothing otherwise. Every emitted index fits a C++ `int`. |
| `TerrainGrid.VertexBlock` | src/main.cpp:252-257 | Every grid point contributes exactly five entries. |
| `TerrainGrid.GridVertices` | src/main.cpp:234-257 | After the scan, the vertex stream holds `5 * width * height` entries. |
| `TerrainGrid.GridVerticesAt` | src/main.cpp:234-257 | The block of point `(x, z)` sits at `5 * (z * width + x)`: position, then texture coordinate. |
| `TerrainGrid.VertexRanges` | src/main.cpp:223-257 | The x and z coordinates lie in [-0.5, 0.5], and texture coordinates lie in [0, 1]. The height is not bounded here; see `Octaves.SourceHeightBound`. The first point is at (-0.5, -0.5) with texture coordinate (0, 0). The last column and row reach texture coordinate 1. |
| `TerrainGrid.IndexRowsAsCells` | src/main.cpp:259-268 | The index scan over all grid points equals a scan over the `(width - 1) x (height - 1)` interior cells, each emitting six indices. |
| `TerrainGrid.IndexStream` | src/main.cpp:259-268 | No contract of its own. It is the indices appended at point `(x, z)`: the cell's six when `x + 1 < width` and `z + 1 < height`, none otherwise. `TerrainGrid.PointIndices` proves the loop body's `if` emits it, and `TerrainGrid.IndexRowsAsCells` relates its scan to the interior cells. |
| `TerrainGrid.GridIndices` | src/main.cpp:234-268 | No contract of its own. It is the specification of the index stream: `TerrainGrid.BuildGrid` proves the loops produce it, and `TerrainGrid.GridIndicesLength`, `TerrainGrid.GridIndicesAt`, `TerrainGrid.GridIndicesBounded` and `TerrainGrid.GridIndicesCoverPoints` state its length, layout, bounds and coverage. |
| `TerrainGrid.GridIndicesLength` | src/main.cpp:259-268 | The index stream has exactly `6 * (width - 1) * (height - 1)` entries. |
| `TerrainGrid.GridIndicesAt` | src/main.cpp:261-267 | Cell `(cx, cz)` emits its six indices at offset `6 * (cz * (width - 1) + cx)`. Cells appear in row-major order, with winding `start, start+width, start+1, start+1, start+width, start+width+1`. |
| `TerrainGrid.CellWithinGrid` | src/main.cpp:261-267 | The largest index of an interior cell, `start + width + 1`, is below `width * height`. |
| `TerrainGrid.GridIndicesBounded` | src/main.cpp:259-268 | Every emitted index is below `width * height`. |
| `TerrainGrid.GridIndicesLast` | src/main.cpp:261-267 | The last index emitted is `width * height - 1`. It is `start + width + 1` for `start = (height - 2) * width + (width - 2)`. |
| `TerrainGrid.CornerOfCell` | src/main.cpp:261-267 | Point `(x, z)` is one of the six corners emitted for a cell at most one step up and left of it. |
| `TerrainGrid.GridIndicesCoverPoints` | src/main.cpp:259-268 | Every grid point appears in the index stream. The lemma returns its position. |
| `TerrainGrid.TwoByTwoIndices` | src/main.cpp:259-268 | For a 2 x 2 grid the index stream is exactly `[0, 2, 1, 1, 2, 3]`. |
| `Normals.Position` | src/main.cpp:279-281 | No contract of its own. It reads a vertex at stride 5; `Terrain.GridPosition` proves this yields the position the scan emitted for that grid point. |
| `Normals.PositionAsWritten` | src/main.cpp:279-281 | No contract of its own. It reads at stride 3 as written; `Terrain.StrideMismatchAsWritten` proves this misreads vertex 1 of a 2 x 2 grid. |
| `Normals.Cross` | src/main.cpp:285 | The cross product is orthogonal to both of its arguments. |
| `Normals.FaceNormal` | src/main.cpp:283-285 | No contract of its own. `Normals.FaceNormalRotates` states its property, and `Normals.AccumulateTriangle` proves the loop body computes it. |
| `Normals.TriangleNormal` | src/main.cpp:275-285 | No contract of its own. It is the face normal of triangle `t`, read from indices `3t .. 3t+2`. `Normals.AccumulateTriangle` proves the loop body's `normal` equals it, and `Normals.AccumulatedAt` sums it over incident triangles. |
| `Normals.AddAt` | src/main.cpp:287-289 | Adding a normal at one vertex keeps the buffer's length. `Normals.AddAtSlot` states that the vertex's three slots gain the components and every other slot keeps its value. |
| `Normals.FaceNormalRotates` | src/main.cpp:283-285 | The face normal depends only on the winding: rotating the three corners leaves it unchanged. |
| `Normals.AddTriangle` | src/main.cpp:287-297 | No contract of its own. `Normals.AddTriangleAt` states which slots it changes and by how much, and `Normals.AccumulateTriangle` proves the twelve `+=` compute it. |
| `Normals.AddNormalAt` | src/main.cpp:287-289 | The three `+=` add the face normal to the three slots of one corner, in place, and change nothing else. |
| `Normals.AddTriangleAt` | src/main.cpp:287-297 | Triangle `t` adds its normal's components once per corner to each corner's slots. Every other slot keeps its value. |
| `Normals.AccumulateTriangle` | src/main.cpp:275-297 | One round of the accumulation loop reads the three corners, takes `normalize(cross(v1 - v0, v2 - v0))`, and adds it at each corner. |
| `Normals.AccumulateNormals` | src/main.cpp:273-298 | The accumulation loop leaves the buffer equal to `Accumulated` over all `|indices| / 3` triangles. |
| `Normals.Accumulated` | src/main.cpp:273-298 | Accumulation never changes the buffer's length. |
| `Normals.AccumulatedAt` | src/main.cpp:273-298 | After `t` triangles, slot `3v + c` holds its initial value plus component `c` of the face normals of the triangles incident on `v`, counted once per corner. |
| `Normals.UntouchedSlot` | src/main.cpp:273-298 | The slots of a vertex that is no corner of any processed triangle keep their initial values. |
| `Normals.NormalizedAll` | src/main.cpp:301-309 | Normalization keeps the buffer's length. `Normals.NormalizedAllAt` places each normalized triple at its own vertex's slots. |
| `Normals.NormalizedAllAt` | src/main.cpp:303-308 | After normalization, slot `3v + c` holds component `c` of `normalize` applied to vertex `v`'s triple before the pass. |
| `Normals.NormalizeNormals` | src/main.cpp:301-309 | The normalization loop replaces every slot triple, in place, by its normalization. |
| `Normals.NormalizedTriple` | src/main.cpp:303-308 | After normalization, the vector of vertex `v` is `normalize` of its accumulated vector. |
| `Normals.NormalizeTwice` | src/main.cpp:301-309 | For an idempotent `normalize`, a second normalization pass changes nothing. |
| `Normals.ComputeVertexNormals` | src/main.cpp:272-309 | Starting from a zeroed buffer, both passes yield `VertexNormals`: face normals summed per vertex, then normalized. |
| `Normals.Zeros` | src/main.cpp:232 | The zero fill of the `resize`: a buffer of exactly `slots` entries, every one 0. |
| `Normals.VertexNormals` | src/main.cpp:272-309 | The final buffer has exactly `slots` entries, three per vertex. `Normals.VertexNormalAt` gives each vertex's normal. |
| `Normals.VertexNormalAt` | src/main.cpp:272-309 | Vertex `v`'s final normal is `normalize` of the sum of the face normals of its incident triangles. |
| `VertexBuffer.Interleaved` | src/main.cpp:483-495 | After `n` rounds the interleaved buffer has `8 * n` entries. |
| `VertexBuffer.Interleave` | src/main.cpp:483-495 | The loop runs one round per whole vertex of the stream. It yields `Interleaved(vertices, normals, |vertices| / 5)` when the normal buffer holds three entries per such vertex. |
| `VertexBuffer.InterleavedAt` | src/main.cpp:485-494 | Entries `8i .. 8i+4` are `vertices[5i .. 5i+4]`. Entries `8i+5 .. 8i+7` are `normals[3i .. 3i+2]`. |
| `VertexBuffer.InterleaveRoundTrip` | src/main.cpp:483-495 | Splitting the interleaved buffer again gives back both inputs' entries for the first `n` vertices. Nothing is lost or reordered. |
| `Terrain.GenerateAdvancedTerrain` | src/main.cpp:221-310 | The generator returns the grid's vertex and index streams and the per-vertex normals over a buffer of `3 * width * height` slots, with positions read at stride 5. |
| `Terrain.GridMeshValid` | src/main.cpp:259-297 | The grid's triangles are whole. Every index names a vertex inside the vertex stream. Every index's three normal slots fit a buffer of `3 * width * height` entries. |
| `Terrain.TriangleCount` | src/main.cpp:259-268 | The grid has `2 * (width - 1) * (height - 1)` triangles, which is a third of the index stream. |
| `Terrain.MeshNormals` | src/main.cpp:272-309 | The generator's normal buffer holds three slots per grid point. |
| `Terrain.GridPosition` | src/main.cpp:252-254 | Read at the stream's stride, vertex `z * width + x` is the position `(xPos, height, zPos)` that the scan emitted for `(x, z)`. |
| `Terrain.NormalsResizedAsWritten` | src/main.cpp:232 | `normals.resize(vertices.size(), 0.0f)` gives a zeroed buffer as long as the vertex stream at that moment. |
| `Terrain.NormalsUndersizedAsWritten` | src/main.cpp:232-297 | As written, the buffer is sized before the scan and so has no slots, yet the first triangle writes slots of its first corner. |
| `Terrain.StrideMismatchAsWritten` | src/main.cpp:279-281 | As written, vertex 1 of a 2 x 2 grid is read three entries in. This yields the `u` of vertex 0 (0) instead of vertex 1's `x` (0.5). |
| `Terrain.TerrainVertexData` | src/main.cpp:478-495 | Generating the terrain and interleaving gives `8 * width * height` entries, namely the grid's vertex blocks interleaved with its normals. |
| `Terrain.VertexDataLayout` | src/main.cpp:483-495 | In the final vertex buffer, grid point `(x, z)` occupies entries `8 * (z * width + x)` to `8 * (z * width + x) + 7`: its five vertex entries, then its normal. |

## Findings

| source | as written | input that shows it | evidently intended | confidence | as-written member | corrected member |
|---|---|---|---|---|---|---|
| src/main.cpp:232 | The normal buffer is resized to `vertices.size()` before the grid scan, while the vertex stream is still empty. The buffer therefore has no slots, and the `+=` of lines 287-297 write past its end. | Any valid grid, e.g. 2 x 2: triangle 0 writes slots 0-2 of an empty buffer | A zeroed buffer of `3 * width * height` slots, three per grid point | not executed | `Terrain.NormalsUndersizedAsWritten` | `Terrain.GridMeshValid` |
| src/main.cpp:279-281 | Positions are read at `3 * i`, but the vertex stream holds five entries per vertex (lines 252-257). So texture coordinates and positions of other vertices are read as positions. | 2 x 2 grid: vertex 1 is read from entries 3-5, giving x = 0 (the u of vertex 0), while it lies at x = 0.5 | Read at `5 * i` | not executed | `Terrain.StrideMismatchAsWritten` | `Terrain.GridPosition` |

The corrected definitions are the ones the rest of the model uses:

- `Normals.Position` reads at stride 5.
- `Terrain.GenerateAdvancedTerrain` sizes the buffer to `3 * width * height`.
- `Normals.PositionAsWritten` and `Terrain.NormalsResizedAsWritten` keep the reads as written.

## Left out

- Floating point: `float` is modelled as `real`, with no rounding, NaN or infinity.
- `glm::normalize` is a parameter, because it takes a square root. The unit length of the final normals is not proved. `Normals.NormalizeTwice` assumes idempotence instead of deriving it.
- `perlin.noise` is a parameter. The `PerlinNoise` implementation is not part of this model, and neither is `ArcballCamera`.
- `Normals.AccumulateTriangle`: does not model the 32-bit unsigned wrap-around of `3 * i0` (an `unsigned int` product). Indices are exact naturals. Under the generator's bound `width * height <= 2^31`, `3 * i0 + 2` can exceed `2^32` on grids above about 1.4 billion points.
- `Normals.AccumulateNormals` and `Normals.NormalizeNormals` require a whole number of triangles and a buffer length divisible by three. The source reads `indices[i + 2]` and `normals[i + 2]` unchecked. The grid always meets both requirements (`Terrain.GridMeshValid`).
- `Terrain.GenerateAdvancedTerrain`: returns fresh output buffers. The source takes `vertices`, `indices` and `normals` by reference (src/main.cpp:221); its `push_back` calls append to whatever the caller passes, and the `resize` at line 232 keeps any normals already present. The model agrees with the source only when all three arguments start empty, which is how `main` calls it (src/main.cpp:81-84). `Terrain.NormalsUndersizedAsWritten` rests on the same premise: an empty vertex stream at line 232.
- Order of the resize: the model allocates the zeroed normal buffer after the grid scan (`Normals.ComputeVertexNormals`). No statement between line 232 and the scan reads or writes `normals`, so the order does not change the result.
- `Terrain.GenerateAdvancedTerrain` and `TerrainGrid.BuildGrid` require `width * height <= 2^31`. This excludes exactly the grids on which `int start = z * width + x` (src/main.cpp:261) or one of the indices pushed at lines 262-267 would overflow a 32-bit `int`, which is undefined behaviour in C++. The model says nothing about those grids.
- Grids narrower or shorter than two points are excluded (`TerrainGrid.ValidGrid`). When the larger dimension is 1, line 223 of src/main.cpp divides by zero, and a 1 x 1 grid gets NaN coordinates. Otherwise a dimension of 1 makes `u` or `v` NaN at lines 256-257. `real` can represent neither. With a dimension of 0, or a negative `int`, the loops at lines 234-236 never run and the source returns an empty mesh. The model does not cover that empty result, and the type `nat` rules out negative dimensions.
- The prototypes at src/main.cpp:26 and 29 declare `generateAdvancedTerrain` and `setupBuffers` with one parameter fewer than their definitions (lines 221, 478) and their calls (lines 84, 97). The model follows the definitions.
- Window, context and shader setup, the render loop, input callbacks, `createShaderProgram`, `loadTexture`, the GPU-buffer half of `setupBuffers` (src/main.cpp:497-522) and `checkOpenGLError`: these are graphics-API and I/O plumbing.
