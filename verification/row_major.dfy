/**
 * Row-major scans of a rectangular grid.
 *
 * The terrain builder visits its grid with two nested loops, rows `z` outside
 * and columns `x` inside, and appends a block of entries for every point it
 * visits.  `Rows(width, z, block)` is everything appended for the first `z`
 * complete rows and `Row(x, z, block)` everything appended for the first `x`
 * columns of row `z`; the lemmas locate a point's block inside the result.
 */
module RowMajor {

  /** The blocks appended for columns 0 .. x-1 of row z, in column order. */
  function Row<T>(x: nat, z: nat, block: (nat, nat) -> seq<T>): seq<T>
  {
    if x == 0 then [] else Row(x - 1, z, block) + block(x - 1, z)
  }

  /** The blocks appended for rows 0 .. z-1 of a grid `width` columns wide. */
  function Rows<T>(width: nat, z: nat, block: (nat, nat) -> seq<T>): seq<T>
  {
    if z == 0 then [] else Rows(width, z - 1, block) + Row(width, z - 1, block)
  }

  /** Every block of the `width` x `rows` rectangle has exactly k entries. */
  ghost predicate Uniform<T>(width: nat, rows: nat, block: (nat, nat) -> seq<T>, k: nat)
  {
    forall x: nat, z: nat :: x < width && z < rows ==> |block(x, z)| == k
  }

  /** Appending the block of column x to the first x columns of row z gives the first x + 1. */
  lemma AppendBlock<T>(before: seq<T>, acc: seq<T>, x: nat, z: nat, block: (nat, nat) -> seq<T>, b: seq<T>)
    requires acc == before + Row(x, z, block) && b == block(x, z)
    ensures acc + b == before + Row(x + 1, z, block)
  {
  }

  /** The offset k * (zz * width + x) of the block of point (x, zz) when every block has k entries. */
  function BlockOffset(width: nat, k: nat, x: nat, zz: nat): nat
  {
    MulMonotone(width, 0, zz);
    MulMonotone(k, 0, zz * width + x);
    k * (zz * width + x)
  }

  lemma MulMonotone(k: nat, a: nat, b: nat)
    requires a <= b
    ensures k * a <= k * b
  {
    assert k * b == k * a + k * (b - a);
  }

  lemma {:induction false} RowLength<T>(x: nat, z: nat, block: (nat, nat) -> seq<T>, k: nat)
    requires forall c: nat :: c < x ==> |block(c, z)| == k
    ensures |Row(x, z, block)| == k * x
  {
    if x > 0 {
      RowLength(x - 1, z, block, k);
      assert k * x == k * (x - 1) + k;
    }
  }

  /** Entry j of the block of column c sits at offset k*c + j of its row. */
  lemma {:induction false} RowAt<T>(x: nat, z: nat, block: (nat, nat) -> seq<T>, k: nat, c: nat, j: nat)
    requires forall c': nat :: c' < x ==> |block(c', z)| == k
    requires c < x && j < k
    ensures |Row(x, z, block)| == k * x && k * c + j < k * x
    ensures Row(x, z, block)[k * c + j] == block(c, z)[j]
  {
    RowLength(x, z, block, k);
    RowLength(x - 1, z, block, k);
    if c < x - 1 {
      RowAt(x - 1, z, block, k, c, j);
    } else {
      assert k * c == |Row(x - 1, z, block)|;
      assert k * x == k * c + k;
    }
  }

  lemma {:induction false} RowsLength<T>(width: nat, z: nat, block: (nat, nat) -> seq<T>, k: nat)
    requires Uniform(width, z, block, k)
    ensures |Rows(width, z, block)| == k * width * z
  {
    if z > 0 {
      RowsLength(width, z - 1, block, k);
      RowLength(width, z - 1, block, k);
      assert k * width * z == k * width * (z - 1) + k * width;
    }
  }

  lemma OffsetInRow(k: nat, width: nat, zz: nat, x: nat)
    ensures k * (zz * width + x) == k * width * zz + k * x
  {
  }

  lemma ConcatLeft<T>(a: seq<T>, b: seq<T>, i: nat)
    requires i < |a|
    ensures (a + b)[i] == a[i]
  {
  }

  lemma ConcatRight<T>(a: seq<T>, b: seq<T>, m: nat)
    requires m < |b|
    ensures |a| + m < |a + b| && (a + b)[|a| + m] == b[m]
  {
  }

  /** Inside a scan of z rows, row zz starts right after the scan of the rows above it. */
  lemma {:induction false} RowsSplitAt<T>(width: nat, z: nat, block: (nat, nat) -> seq<T>, zz: nat, m: nat)
    requires zz < z && m < |Row(width, zz, block)|
    ensures |Rows(width, zz, block)| + m < |Rows(width, z, block)|
    ensures Rows(width, z, block)[|Rows(width, zz, block)| + m] == Row(width, zz, block)[m]
  {
    var above := Rows(width, z - 1, block);
    assert Rows(width, z, block) == above + Row(width, z - 1, block);
    if zz == z - 1 {
      ConcatRight(above, Row(width, z - 1, block), m);
    } else {
      RowsSplitAt(width, z - 1, block, zz, m);
      ConcatLeft(above, Row(width, z - 1, block), |Rows(width, zz, block)| + m);
    }
  }

  /**
   * Entry j of the block of point (x, zz) sits at offset k*(zz*width + x) + j:
   * the point's row-major ordinal times the block size, plus j.
   */
  lemma RowsAt<T>(width: nat, z: nat, block: (nat, nat) -> seq<T>, k: nat,
                  x: nat, zz: nat, j: nat)
    requires Uniform(width, z, block, k)
    requires x < width && zz < z && j < k
    ensures |Rows(width, z, block)| == k * width * z
    ensures BlockOffset(width, k, x, zz) + j < |Rows(width, z, block)|
    ensures Rows(width, z, block)[BlockOffset(width, k, x, zz) + j] == block(x, zz)[j]
  {
    RowsLength(width, z, block, k);
    assert Uniform(width, zz, block, k);
    RowsLength(width, zz, block, k);
    RowAt(width, zz, block, k, x, j);
    RowsSplitAt(width, z, block, zz, k * x + j);
    OffsetInRow(k, width, zz, x);
  }

  /** Every entry of a scan comes from the block of a point (x, zz) of the scanned rectangle. */
  lemma {:induction false} RowsMember<T>(width: nat, z: nat, block: (nat, nat) -> seq<T>, e: T)
    returns (x: nat, zz: nat)
    requires e in Rows(width, z, block)
    ensures x < width && zz < z && e in block(x, zz)
  {
    var above := Rows(width, z - 1, block);
    assert Rows(width, z, block) == above + Row(width, z - 1, block);
    if e in above {
      x, zz := RowsMember(width, z - 1, block, e);
    } else {
      x := RowMember(width, z - 1, block, e);
      zz := z - 1;
    }
  }

  /** Every entry of a row comes from the block of one of its columns. */
  lemma {:induction false} RowMember<T>(x: nat, z: nat, block: (nat, nat) -> seq<T>, e: T)
    returns (c: nat)
    requires e in Row(x, z, block)
    ensures c < x && e in block(c, z)
  {
    var before := Row(x - 1, z, block);
    assert Row(x, z, block) == before + block(x - 1, z);
    if e in before {
      c := RowMember(x - 1, z, block, e);
    } else {
      c := x - 1;
    }
  }
}
