/**
 * The interleaving loop of `setupBuffers` (src/main.cpp:480-495).
 *
 * The vertex stream holds five entries per vertex (position, texture
 * coordinate) and the normal buffer three (normal).  The loop builds one
 * buffer of eight entries per vertex: the five vertex entries followed by the
 * three normal entries.  The layout does not depend on the entry type.
 */
module VertexBuffer {

  /** The buffer after the first n rounds of the loop. */
  function Interleaved<T>(vertices: seq<T>, normals: seq<T>, n: nat): (r: seq<T>)
    requires 5 * n <= |vertices| && 3 * n <= |normals|
    ensures |r| == 8 * n
  {
    if n == 0 then []
    else Interleaved(vertices, normals, n - 1) + vertices[5 * (n - 1)..5 * n] + normals[3 * (n - 1)..3 * n]
  }

  /**
   * The loop of src/main.cpp:483-495: one round per whole vertex of the
   * vertex stream, so a trailing partial vertex is dropped.  The normal
   * buffer must hold three entries for each of those vertices.
   */
  method Interleave<T>(vertices: seq<T>, normals: seq<T>) returns (vertexData: seq<T>)
    requires 3 * (|vertices| / 5) <= |normals|
    ensures vertexData == Interleaved(vertices, normals, |vertices| / 5)
  {
    vertexData := [];
    var i := 0;
    while i < |vertices| / 5
      invariant 0 <= i <= |vertices| / 5
      invariant vertexData == Interleaved(vertices, normals, i)
    {
      vertexData := vertexData + [vertices[i * 5], vertices[i * 5 + 1], vertices[i * 5 + 2]];
      vertexData := vertexData + [vertices[i * 5 + 3], vertices[i * 5 + 4]];
      vertexData := vertexData + [normals[i * 3], normals[i * 3 + 1], normals[i * 3 + 2]];
      assert vertices[5 * i..5 * (i + 1)]
             == [vertices[i * 5], vertices[i * 5 + 1], vertices[i * 5 + 2], vertices[i * 5 + 3], vertices[i * 5 + 4]];
      assert normals[3 * i..3 * (i + 1)] == [normals[i * 3], normals[i * 3 + 1], normals[i * 3 + 2]];
      i := i + 1;
    }
  }

  /**
   * Entries 8i .. 8i+4 of the interleaved buffer are entries 5i .. 5i+4 of
   * the vertex stream, and entries 8i+5 .. 8i+7 are entries 3i .. 3i+2 of
   * the normal buffer.
   */
  lemma {:induction false} InterleavedAt<T>(vertices: seq<T>, normals: seq<T>, n: nat, i: nat, j: nat)
    requires 5 * n <= |vertices| && 3 * n <= |normals|
    requires i < n && j < 8
    ensures 8 * i + j < |Interleaved(vertices, normals, n)|
    ensures Interleaved(vertices, normals, n)[8 * i + j]
            == if j < 5 then vertices[5 * i + j] else normals[3 * i + (j - 5)]
  {
    var prev := Interleaved(vertices, normals, n - 1);
    if i < n - 1 {
      InterleavedAt(vertices, normals, n - 1, i, j);
      assert Interleaved(vertices, normals, n)[8 * i + j] == prev[8 * i + j];
    } else {
      assert 8 * i == |prev|;
    }
  }

  /** The vertex entries of a buffer of eight entries per vertex, in order. */
  function VertexPart<T>(data: seq<T>): (r: seq<T>)
    ensures |r| == 5 * (|data| / 8)
  {
    if |data| < 8 then []
    else VertexPart(data[..|data| - 8]) + data[|data| - 8..|data| - 3]
  }

  /** The normal entries of a buffer of eight entries per vertex, in order. */
  function NormalPart<T>(data: seq<T>): (r: seq<T>)
    ensures |r| == 3 * (|data| / 8)
  {
    if |data| < 8 then []
    else NormalPart(data[..|data| - 8]) + data[|data| - 3..]
  }

  /**
   * Interleaving loses nothing: splitting the buffer again gives back the
   * first n vertices' entries of both inputs.
   */
  lemma {:induction false} InterleaveRoundTrip<T>(vertices: seq<T>, normals: seq<T>, n: nat)
    requires 5 * n <= |vertices| && 3 * n <= |normals|
    ensures VertexPart(Interleaved(vertices, normals, n)) == vertices[..5 * n]
    ensures NormalPart(Interleaved(vertices, normals, n)) == normals[..3 * n]
  {
    if n > 0 {
      InterleaveRoundTrip(vertices, normals, n - 1);
      var data := Interleaved(vertices, normals, n);
      var prev := Interleaved(vertices, normals, n - 1);
      assert data[..|data| - 8] == prev;
      assert data[|data| - 8..|data| - 3] == vertices[5 * (n - 1)..5 * n];
      assert data[|data| - 3..] == normals[3 * (n - 1)..3 * n];
      assert vertices[..5 * n] == vertices[..5 * (n - 1)] + vertices[5 * (n - 1)..5 * n];
      assert normals[..3 * n] == normals[..3 * (n - 1)] + normals[3 * (n - 1)..3 * n];
    }
  }
}
