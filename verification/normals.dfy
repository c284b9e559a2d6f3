/**
 * Per-vertex normals of a triangle mesh (src/main.cpp:272-309).
 *
 * The normal buffer holds three slots per vertex.  The first pass visits the
 * index stream three entries at a time and adds each triangle's face normal,
 * normalize(cross(v1 - v0, v2 - v0)), into the slots of its three corners;
 * the second pass replaces every slot triple by its normalization.  The cross
 * product is exact arithmetic and is written out; `glm::normalize` involves a
 * square root and is a parameter.
 */
module Normals {

  datatype Vec3 = Vec3(x: real, y: real, z: real)

  /** `glm::normalize` on a three-component vector. */
  type Normalize = Vec3 -> Vec3

  function Sub(a: Vec3, b: Vec3): Vec3
  {
    Vec3(a.x - b.x, a.y - b.y, a.z - b.z)
  }

  function Dot(a: Vec3, b: Vec3): real
  {
    a.x * b.x + a.y * b.y + a.z * b.z
  }

  /** `glm::cross`: a vector orthogonal to both arguments. */
  function Cross(a: Vec3, b: Vec3): (r: Vec3)
    ensures Dot(r, a) == 0.0 && Dot(r, b) == 0.0
  {
    Vec3(a.y * b.z - a.z * b.y, a.z * b.x - a.x * b.z, a.x * b.y - a.y * b.x)
  }

  /** Component c (0 = x, 1 = y, 2 = z) of a vector. */
  function Component(v: Vec3, c: nat): real
    requires c < 3
  {
    if c == 0 then v.x else if c == 1 then v.y else v.z
  }

  /** The entries per vertex in the vertex stream: position and texture coordinate. */
  const VertexStride: nat := 5

  /** The position of vertex i in a stream of five entries per vertex. */
  function Position(vertices: seq<real>, i: nat): Vec3
    requires VertexStride * i + 2 < |vertices|
  {
    Vec3(vertices[5 * i], vertices[5 * i + 1], vertices[5 * i + 2])
  }

  /** The read of src/main.cpp:279-281, which steps through the vertex stream three entries per vertex. */
  function PositionAsWritten(vertices: seq<real>, i: nat): Vec3
    requires 3 * i + 2 < |vertices|
  {
    Vec3(vertices[3 * i], vertices[3 * i + 1], vertices[3 * i + 2])
  }

  /** Every index names a vertex whose position lies inside the vertex stream. */
  ghost predicate ReadsWithin(vertices: seq<real>, indices: seq<nat>)
  {
    forall k :: 0 <= k < |indices| ==> VertexStride * indices[k] + 2 < |vertices|
  }

  /** Every index names a vertex whose three normal slots lie inside a buffer of `slots` entries. */
  ghost predicate SlotsWithin(indices: seq<nat>, slots: nat)
  {
    forall k :: 0 <= k < |indices| ==> 3 * indices[k] + 2 < slots
  }

  /** A triangle list over the vertex stream, accumulated into `slots` normal entries. */
  ghost predicate ValidMesh(vertices: seq<real>, indices: seq<nat>, slots: nat)
  {
    |indices| % 3 == 0 && ReadsWithin(vertices, indices) && SlotsWithin(indices, slots)
  }

  /** The unit normal of the triangle (v0, v1, v2) (src/main.cpp:283-285). */
  function FaceNormal(normalize: Normalize, v0: Vec3, v1: Vec3, v2: Vec3): Vec3
  {
    normalize(Cross(Sub(v1, v0), Sub(v2, v0)))
  }

  /**
   * The face normal depends on the winding only, not on which corner comes
   * first: rotating the corners gives the same normal.
   */
  lemma FaceNormalRotates(normalize: Normalize, v0: Vec3, v1: Vec3, v2: Vec3)
    ensures FaceNormal(normalize, v1, v2, v0) == FaceNormal(normalize, v0, v1, v2)
    ensures FaceNormal(normalize, v2, v0, v1) == FaceNormal(normalize, v0, v1, v2)
  {
    EdgeCrossRotates(v0, v1, v2);
    EdgeCrossRotates(v1, v2, v0);
  }

  /** The cross product of the two edges leaving a corner is the same at every corner. */
  lemma EdgeCrossRotates(v0: Vec3, v1: Vec3, v2: Vec3)
    ensures Cross(Sub(v2, v1), Sub(v0, v1)) == Cross(Sub(v1, v0), Sub(v2, v0))
  {
    var a, b := Sub(v1, v0), Sub(v2, v0);
    assert Sub(v2, v1) == Vec3(b.x - a.x, b.y - a.y, b.z - a.z);
    assert Sub(v0, v1) == Vec3(-a.x, -a.y, -a.z);
    assert (b.y - a.y) * -a.z - (b.z - a.z) * -a.y == a.y * b.z - a.z * b.y;
    assert (b.z - a.z) * -a.x - (b.x - a.x) * -a.z == a.z * b.x - a.x * b.z;
    assert (b.x - a.x) * -a.y - (b.y - a.y) * -a.x == a.x * b.y - a.y * b.x;
  }

  /** The face normal of triangle t, the one made of indices 3t, 3t+1 and 3t+2 (src/main.cpp:275-285). */
  function TriangleNormal(vertices: seq<real>, indices: seq<nat>, normalize: Normalize, t: nat): Vec3
    requires ReadsWithin(vertices, indices) && 3 * t + 2 < |indices|
  {
    var v0 := Position(vertices, indices[3 * t]);
    var v1 := Position(vertices, indices[3 * t + 1]);
    var v2 := Position(vertices, indices[3 * t + 2]);
    FaceNormal(normalize, v0, v1, v2)
  }

  /** The buffer after adding n into the three slots of vertex i. */
  function AddAt(acc: seq<real>, i: nat, n: Vec3): (r: seq<real>)
    requires 3 * i + 2 < |acc|
    ensures |r| == |acc|
  {
    seq(|acc|, s requires 0 <= s < |acc| => acc[s] + Share(i, s / 3, Component(n, s % 3)))
  }

  /** What a corner at vertex a adds to a slot of vertex v: r when they are the same vertex, else nothing. */
  function Share(a: nat, v: nat, r: real): real
  {
    if a == v then r else 0.0
  }

  /** Adding n at vertex i adds its components to the three slots of i and leaves every other slot alone. */
  lemma AddAtSlot(acc: seq<real>, i: nat, n: Vec3, s: nat)
    requires 3 * i + 2 < |acc| && s < |acc|
    ensures AddAt(acc, i, n)[s] == acc[s] + Share(i, s / 3, Component(n, s % 3))
  {
  }

  /**
   * What triangle t adds to a slot of vertex v: r once for every corner of
   * the triangle that is v.
   */
  function TriangleShare(indices: seq<nat>, t: nat, v: nat, r: real): real
    requires 3 * t + 2 < |indices|
  {
    Share(indices[3 * t], v, r) + Share(indices[3 * t + 1], v, r) + Share(indices[3 * t + 2], v, r)
  }

  /** The buffer after the body of the accumulation loop for triangle t (src/main.cpp:287-297). */
  function AddTriangle(acc: seq<real>, vertices: seq<real>, indices: seq<nat>, normalize: Normalize, t: nat): seq<real>
    requires ReadsWithin(vertices, indices) && SlotsWithin(indices, |acc|) && 3 * t + 2 < |indices|
  {
    var n := TriangleNormal(vertices, indices, normalize, t);
    AddAt(AddAt(AddAt(acc, indices[3 * t], n), indices[3 * t + 1], n), indices[3 * t + 2], n)
  }

  /**
   * Triangle t adds its face normal once per corner to the slots of each of
   * its corners; every other slot keeps its value.
   */
  lemma AddTriangleAt(acc: seq<real>, vertices: seq<real>, indices: seq<nat>, normalize: Normalize, t: nat, s: nat)
    requires ReadsWithin(vertices, indices) && SlotsWithin(indices, |acc|) && 3 * t + 2 < |indices|
    requires s < |acc|
    ensures |AddTriangle(acc, vertices, indices, normalize, t)| == |acc|
    ensures AddTriangle(acc, vertices, indices, normalize, t)[s]
            == acc[s] + TriangleShare(indices, t, s / 3, Component(TriangleNormal(vertices, indices, normalize, t), s % 3))
  {
    var n := TriangleNormal(vertices, indices, normalize, t);
    var i0, i1, i2 := indices[3 * t], indices[3 * t + 1], indices[3 * t + 2];
    var a1 := AddAt(acc, i0, n);
    var a2 := AddAt(a1, i1, n);
    var a3 := AddAt(a2, i2, n);
    AddAtSlot(acc, i0, n, s);
    AddAtSlot(a1, i1, n, s);
    AddAtSlot(a2, i2, n, s);
  }

  /** The buffer after the first t triangles (src/main.cpp:273-298). */
  function Accumulated(acc: seq<real>, vertices: seq<real>, indices: seq<nat>, normalize: Normalize, t: nat): (r: seq<real>)
    requires ReadsWithin(vertices, indices) && SlotsWithin(indices, |acc|) && 3 * t <= |indices|
    ensures |r| == |acc|
  {
    if t == 0 then acc
    else
      var prev := Accumulated(acc, vertices, indices, normalize, t - 1);
      AddTriangle(prev, vertices, indices, normalize, t - 1)
  }

  /**
   * Component c of the sum of the face normals of the first t triangles,
   * each counted once for every one of its corners that is vertex v.
   */
  function IncidentSum(vertices: seq<real>, indices: seq<nat>, normalize: Normalize, t: nat, v: nat, c: nat): real
    requires ReadsWithin(vertices, indices) && 3 * t <= |indices| && c < 3
  {
    if t == 0 then 0.0
    else IncidentSum(vertices, indices, normalize, t - 1, v, c)
         + TriangleShare(indices, t - 1, v, Component(TriangleNormal(vertices, indices, normalize, t - 1), c))
  }

  /**
   * After t triangles, slot 3v + c holds its initial value plus component c
   * of the face normals of the triangles incident on vertex v.
   */
  lemma {:induction false} AccumulatedAt(acc: seq<real>, vertices: seq<real>, indices: seq<nat>, normalize: Normalize, t: nat, s: nat)
    requires ReadsWithin(vertices, indices) && SlotsWithin(indices, |acc|) && 3 * t <= |indices|
    requires s < |acc|
    ensures Accumulated(acc, vertices, indices, normalize, t)[s]
            == acc[s] + IncidentSum(vertices, indices, normalize, t, s / 3, s % 3)
  {
    if t > 0 {
      AccumulatedAt(acc, vertices, indices, normalize, t - 1, s);
      var prev := Accumulated(acc, vertices, indices, normalize, t - 1);
      AddTriangleAt(prev, vertices, indices, normalize, t - 1, s);
    }
  }

  lemma DivMod3(v: nat, c: nat)
    requires c < 3
    ensures (3 * v + c) / 3 == v && (3 * v + c) % 3 == c
  {
  }

  /** In a list of whole triangles, a triangle that starts inside the list ends inside it. */
  lemma WholeTriangle(t: nat, n: nat)
    requires n % 3 == 0 && 3 * t < n
    ensures 3 * t + 2 < n
  {
  }

  /** A vertex that is no corner of the first t triangles receives nothing from them. */
  lemma {:induction false} IncidentSumUntouched(vertices: seq<real>, indices: seq<nat>, normalize: Normalize, t: nat, v: nat, c: nat)
    requires ReadsWithin(vertices, indices) && 3 * t <= |indices| && c < 3
    requires forall k :: 0 <= k < 3 * t ==> indices[k] != v
    ensures IncidentSum(vertices, indices, normalize, t, v, c) == 0.0
  {
    if t > 0 {
      IncidentSumUntouched(vertices, indices, normalize, t - 1, v, c);
      assert indices[3 * (t - 1)] != v;
      assert indices[3 * (t - 1) + 1] != v;
      assert indices[3 * (t - 1) + 2] != v;
    }
  }

  /** The slots of a vertex that is no corner of the first t triangles keep their initial values. */
  lemma UntouchedSlot(acc: seq<real>, vertices: seq<real>, indices: seq<nat>, normalize: Normalize, t: nat, v: nat, c: nat)
    requires ReadsWithin(vertices, indices) && SlotsWithin(indices, |acc|) && 3 * t <= |indices|
    requires 3 * v + c < |acc| && c < 3
    requires forall k :: 0 <= k < 3 * t ==> indices[k] != v
    ensures Accumulated(acc, vertices, indices, normalize, t)[3 * v + c] == acc[3 * v + c]
  {
    AccumulatedAt(acc, vertices, indices, normalize, t, 3 * v + c);
    DivMod3(v, c);
    IncidentSumUntouched(vertices, indices, normalize, t, v, c);
  }

  /** One more round of the accumulation loop adds triangle t to the buffer. */
  lemma AccumulatedNext(acc: seq<real>, vertices: seq<real>, indices: seq<nat>, normalize: Normalize, t: nat,
                        before: seq<real>, after: seq<real>)
    requires ReadsWithin(vertices, indices) && SlotsWithin(indices, |acc|) && 3 * t + 3 <= |indices|
    requires before == Accumulated(acc, vertices, indices, normalize, t)
    requires after == AddTriangle(before, vertices, indices, normalize, t)
    ensures after == Accumulated(acc, vertices, indices, normalize, t + 1)
  {
  }

  /** The three `+=` of one corner (src/main.cpp:287-289, 291-293, 295-297). */
  method AddNormalAt(normals: array<real>, i: nat, n: Vec3)
    requires 3 * i + 2 < normals.Length
    modifies normals
    ensures normals[..] == AddAt(old(normals[..]), i, n)
  {
    normals[3 * i] := normals[3 * i] + n.x;
    normals[3 * i + 1] := normals[3 * i + 1] + n.y;
    normals[3 * i + 2] := normals[3 * i + 2] + n.z;
  }

  /** The body of the accumulation loop for triangle t, which starts at index i = 3t (src/main.cpp:275-297). */
  method AccumulateTriangle(vertices: seq<real>, indices: seq<nat>, normals: array<real>, normalize: Normalize,
                            i: nat, ghost t: nat)
    requires ValidMesh(vertices, indices, normals.Length) && i == 3 * t && i + 2 < |indices|
    modifies normals
    ensures normals[..] == AddTriangle(old(normals[..]), vertices, indices, normalize, t)
  {
    var i0, i1, i2 := indices[i], indices[i + 1], indices[i + 2];
    var v0 := Position(vertices, i0);
    var v1 := Position(vertices, i1);
    var v2 := Position(vertices, i2);
    var edge1 := Sub(v1, v0);
    var edge2 := Sub(v2, v0);
    var normal := normalize(Cross(edge1, edge2));
    assert normal == TriangleNormal(vertices, indices, normalize, t);
    AddNormalAt(normals, i0, normal);
    AddNormalAt(normals, i1, normal);
    AddNormalAt(normals, i2, normal);
  }

  /**
   * The accumulation loop of src/main.cpp:273-298, reading positions at the
   * stride of the vertex stream.
   */
  method AccumulateNormals(vertices: seq<real>, indices: seq<nat>, normals: array<real>, normalize: Normalize)
    requires ValidMesh(vertices, indices, normals.Length)
    modifies normals
    ensures normals[..] == Accumulated(old(normals[..]), vertices, indices, normalize, |indices| / 3)
  {
    ghost var initial := normals[..];
    var i := 0;
    ghost var t := 0;
    while i < |indices|
      invariant i == 3 * t && i <= |indices|
      invariant normals[..] == Accumulated(initial, vertices, indices, normalize, t)
    {
      WholeTriangle(t, |indices|);
      ghost var before := normals[..];
      AccumulateTriangle(vertices, indices, normals, normalize, i, t);
      AccumulatedNext(initial, vertices, indices, normalize, t, before, normals[..]);
      i := i + 3;
      t := t + 1;
    }
    assert i == |indices|;
    DivMod3(t, 0);
  }

  /** The vector stored in the three slots of vertex v. */
  function Triple(s: seq<real>, v: nat): Vec3
    requires 3 * v + 2 < |s|
  {
    Vec3(s[3 * v], s[3 * v + 1], s[3 * v + 2])
  }

  /** The buffer with every slot triple replaced by its normalization (src/main.cpp:301-309). */
  function NormalizedAll(s: seq<real>, normalize: Normalize): (r: seq<real>)
    requires |s| % 3 == 0
    ensures |r| == |s|
  {
    seq(|s|, j requires 0 <= j < |s| => Component(normalize(Triple(s, j / 3)), j % 3))
  }

  /** Normalization replaces the vector of every vertex by its normalization. */
  lemma NormalizedTriple(s: seq<real>, normalize: Normalize, v: nat)
    requires |s| % 3 == 0 && 3 * v + 2 < |s|
    ensures Triple(NormalizedAll(s, normalize), v) == normalize(Triple(s, v))
  {
    NormalizedAllAt(s, normalize, v, 0);
    NormalizedAllAt(s, normalize, v, 1);
    NormalizedAllAt(s, normalize, v, 2);
  }

  lemma NormalizedAllAt(s: seq<real>, normalize: Normalize, v: nat, c: nat)
    requires |s| % 3 == 0 && 3 * v + 2 < |s| && c < 3
    ensures NormalizedAll(s, normalize)[3 * v + c] == Component(normalize(Triple(s, v)), c)
  {
    DivMod3(v, c);
  }

  /** The normalization loop of src/main.cpp:301-309, in place. */
  method NormalizeNormals(normals: array<real>, normalize: Normalize)
    requires normals.Length % 3 == 0
    modifies normals
    ensures normals[..] == NormalizedAll(old(normals[..]), normalize)
  {
    ghost var initial := normals[..];
    ghost var target := NormalizedAll(initial, normalize);
    var i := 0;
    ghost var v := 0;
    while i < normals.Length
      invariant i == 3 * v && i <= normals.Length
      invariant forall j :: 0 <= j < i ==> normals[j] == target[j]
      invariant forall j :: i <= j < normals.Length ==> normals[j] == initial[j]
    {
      var normal := Vec3(normals[i], normals[i + 1], normals[i + 2]);
      assert normal == Triple(initial, v);
      normal := normalize(normal);
      NormalizedAllAt(initial, normalize, v, 0);
      NormalizedAllAt(initial, normalize, v, 1);
      NormalizedAllAt(initial, normalize, v, 2);
      normals[i] := normal.x;
      normals[i + 1] := normal.y;
      normals[i + 2] := normal.z;
      i := i + 3;
      v := v + 1;
    }
    assert normals[..] == target;
  }

  /** For an idempotent normalize, normalizing the buffer twice changes nothing more. */
  lemma NormalizeTwice(s: seq<real>, normalize: Normalize)
    requires |s| % 3 == 0
    requires forall v :: normalize(normalize(v)) == normalize(v)
    ensures NormalizedAll(NormalizedAll(s, normalize), normalize) == NormalizedAll(s, normalize)
  {
    var once := NormalizedAll(s, normalize);
    var twice := NormalizedAll(once, normalize);
    forall j | 0 <= j < |s|
      ensures twice[j] == once[j]
    {
      var v := j / 3;
      NormalizedTriple(s, normalize, v);
      NormalizedTriple(once, normalize, v);
      assert Triple(twice, v) == Triple(once, v);
    }
  }

  /** A zeroed buffer of `slots` entries. */
  function Zeros(slots: nat): (r: seq<real>)
    ensures |r| == slots
    ensures forall s :: 0 <= s < slots ==> r[s] == 0.0
  {
    seq(slots, _ => 0.0)
  }

  /** The per-vertex normals of a mesh: face normals summed from zero, then normalized. */
  function VertexNormals(vertices: seq<real>, indices: seq<nat>, slots: nat, normalize: Normalize): (r: seq<real>)
    requires ValidMesh(vertices, indices, slots) && slots % 3 == 0
    ensures |r| == slots
  {
    NormalizedAll(Accumulated(Zeros(slots), vertices, indices, normalize, |indices| / 3), normalize)
  }

  /**
   * The normal passes of src/main.cpp:232 and 272-309 on a buffer of
   * `slots` zeros: accumulate every triangle, then normalize in place.
   */
  method ComputeVertexNormals(vertices: seq<real>, indices: seq<nat>, slots: nat, normalize: Normalize)
    returns (normals: seq<real>)
    requires ValidMesh(vertices, indices, slots) && slots % 3 == 0
    ensures normals == VertexNormals(vertices, indices, slots, normalize)
  {
    var buffer := new real[slots](_ => 0.0);
    assert buffer[..] == Zeros(slots);
    AccumulateNormals(vertices, indices, buffer, normalize);
    NormalizeNormals(buffer, normalize);
    normals := buffer[..];
  }

  /**
   * Vertex v's normal is the normalization of the sum of the face normals of
   * the triangles incident on it, each counted once per corner that is v.
   */
  lemma VertexNormalAt(vertices: seq<real>, indices: seq<nat>, slots: nat, normalize: Normalize, v: nat)
    requires ValidMesh(vertices, indices, slots) && slots % 3 == 0 && 3 * v + 2 < slots
    ensures Triple(VertexNormals(vertices, indices, slots, normalize), v)
            == normalize(Vec3(IncidentSum(vertices, indices, normalize, |indices| / 3, v, 0),
                              IncidentSum(vertices, indices, normalize, |indices| / 3, v, 1),
                              IncidentSum(vertices, indices, normalize, |indices| / 3, v, 2)))
  {
    var t := |indices| / 3;
    var sums := Accumulated(Zeros(slots), vertices, indices, normalize, t);
    NormalizedTriple(sums, normalize, v);
    forall c | 0 <= c < 3
      ensures sums[3 * v + c] == IncidentSum(vertices, indices, normalize, t, v, c)
    {
      AccumulatedAt(Zeros(slots), vertices, indices, normalize, t, 3 * v + c);
      DivMod3(v, c);
    }
  }
}
