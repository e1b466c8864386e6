/** Sequence-of-rows helpers: the crate's `transpose_vec` (src/util.rs) and
    the flatten / `chunks_exact` reshaping the histogram stretch performs
    around it (src/stretch.rs). */
module Util {

  /** Every row has the length of the first; there is at least one row. */
  ghost predicate Rectangular<T>(rows: seq<seq<T>>)
  {
    |rows| > 0 && forall i :: 0 <= i < |rows| ==> |rows[i]| == |rows[0]|
  }

  /** No row is longer than the first: exactly the inputs on which
      `transpose_vec` neither unwraps an empty slice nor indexes past the end
      of its output. */
  ghost predicate Transposable<T>(rows: seq<seq<T>>)
  {
    |rows| > 0 && forall i :: 0 <= i < |rows| ==> |rows[i]| <= |rows[0]|
  }

  /** Reference definition: the `j`-th elements of the rows that have one,
      in row order. */
  function Column<T>(rows: seq<seq<T>>, j: nat): seq<T>
  {
    if |rows| == 0 then []
    else
      var last := rows[|rows| - 1];
      Column(rows[..|rows| - 1], j) + (if j < |last| then [last[j]] else [])
  }

  /** Column `j` of a matrix whose rows all have more than `j` elements. */
  lemma {:induction false} ColumnFull<T>(rows: seq<seq<T>>, j: nat)
    requires forall i :: 0 <= i < |rows| ==> j < |rows[i]|
    ensures |Column(rows, j)| == |rows|
    ensures forall i :: 0 <= i < |rows| ==> Column(rows, j)[i] == rows[i][j]
    decreases |rows|
  {
    if |rows| > 0 {
      ColumnFull(rows[..|rows| - 1], j);
    }
  }

  /** `transpose_vec`: one output row per element of the first input row. */
  function Transpose<T>(rows: seq<seq<T>>): seq<seq<T>>
    requires Transposable(rows)
  {
    seq(|rows[0]|, j requires 0 <= j < |rows[0]| => Column(rows, j))
  }

  /** On a rectangular matrix the transpose swaps the indices. */
  lemma TransposeRectangular<T>(rows: seq<seq<T>>)
    requires Rectangular(rows)
    ensures |Transpose(rows)| == |rows[0]|
    ensures forall j :: 0 <= j < |rows[0]| ==> |Transpose(rows)[j]| == |rows|
    ensures forall j, i :: 0 <= j < |rows[0]| && 0 <= i < |rows| ==> Transpose(rows)[j][i] == rows[i][j]
  {
    forall j | 0 <= j < |rows[0]|
      ensures |Transpose(rows)[j]| == |rows|
      ensures forall i :: 0 <= i < |rows| ==> Transpose(rows)[j][i] == rows[i][j]
    {
      ColumnFull(rows, j);
    }
  }

  /** Transposing a rectangular matrix with non-empty rows twice gives it back. */
  lemma TransposeInvolution<T>(rows: seq<seq<T>>)
    requires Rectangular(rows) && |rows[0]| > 0
    ensures Transposable(Transpose(rows))
    ensures Transpose(Transpose(rows)) == rows
  {
    var t := Transpose(rows);
    TransposeRectangular(rows);
    assert Rectangular(t);
    TransposeRectangular(t);
    var tt := Transpose(t);
    assert |tt| == |rows|;
    forall i | 0 <= i < |rows|
      ensures tt[i] == rows[i]
    {
      assert |tt[i]| == |t| == |rows[i]|;
      forall j | 0 <= j < |rows[i]|
        ensures tt[i][j] == rows[i][j]
      {
        assert tt[i][j] == t[j][i];
      }
    }
  }

  /** The example from the documentation of `transpose_vec`. */
  lemma TransposeExample()
    ensures Transpose([[1, 2, 3], [4, 5, 6], [7, 8, 9]]) == [[1, 4, 7], [2, 5, 8], [3, 6, 9]]
  {
    var m := [[1, 2, 3], [4, 5, 6], [7, 8, 9]];
    TransposeRectangular(m);
    var t := Transpose(m);
    assert t[0] == [1, 4, 7] && t[1] == [2, 5, 8] && t[2] == [3, 6, 9];
  }

  /** `transpose_vec` as written: one pass over the rows, pushing each item
      onto the output row named by its position. */
  method TransposeVec<T>(elements: seq<seq<T>>) returns (transformed: seq<seq<T>>)
    requires Transposable(elements)
    ensures transformed == Transpose(elements)
  {
    var capacity := |elements[0]|;
    transformed := seq(capacity, _ => []);
    var e := 0;
    while e < |elements|
      invariant e <= |elements|
      invariant |transformed| == capacity
      invariant forall j :: 0 <= j < capacity ==> transformed[j] == Column(elements[..e], j)
    {
      var element := elements[e];
      assert elements[..e + 1][..e] == elements[..e];
      var inner := 0;
      while inner < |element|
        invariant inner <= |element| <= capacity
        invariant |transformed| == capacity
        invariant forall j :: 0 <= j < inner ==> transformed[j] == Column(elements[..e + 1], j)
        invariant forall j :: inner <= j < capacity ==> transformed[j] == Column(elements[..e], j)
      {
        transformed := transformed[inner := transformed[inner] + [element[inner]]];
        inner := inner + 1;
      }
      e := e + 1;
    }
    assert elements[..|elements|] == elements;
  }

  /** Concatenation of the rows (`iter().flatten()`). */
  function Flatten<T>(rows: seq<seq<T>>): seq<T>
  {
    if |rows| == 0 then [] else rows[0] + Flatten(rows[1..])
  }

  lemma {:induction false} FlattenLength<T>(rows: seq<seq<T>>, w: nat)
    requires forall i :: 0 <= i < |rows| ==> |rows[i]| == w
    ensures |Flatten(rows)| == |rows| * w
    decreases |rows|
  {
    if |rows| > 0 {
      FlattenLength(rows[1..], w);
      assert |rows| * w == w + (|rows| - 1) * w;
    }
  }

  /** Flattening rows of width `w` lays row `i` out at offsets `i * w ..`. */
  lemma {:induction false} FlattenAt<T>(rows: seq<seq<T>>, w: nat, i: nat, j: nat)
    requires forall k :: 0 <= k < |rows| ==> |rows[k]| == w
    requires i < |rows| && j < w
    ensures i * w + j < |Flatten(rows)| && Flatten(rows)[i * w + j] == rows[i][j]
    decreases i
  {
    FlattenLength(rows, w);
    if i > 0 {
      FlattenAt(rows[1..], w, i - 1, j);
      assert i * w + j == w + ((i - 1) * w + j);
    }
  }

  /** Every element of a flattening comes from one of the rows. */
  lemma {:induction false} FlattenMember<T>(rows: seq<seq<T>>, e: T)
    requires e in Flatten(rows)
    ensures exists i :: 0 <= i < |rows| && e in rows[i]
    decreases |rows|
  {
    if e !in rows[0] {
      FlattenMember(rows[1..], e);
      var i :| 0 <= i < |rows[1..]| && e in rows[1..][i];
      assert e in rows[i + 1];
    }
  }

  /** `chunks_exact(n)`: consecutive pieces of length `n`; a shorter tail is
      dropped. */
  function ChunksExact<T>(s: seq<T>, n: nat): seq<seq<T>>
    requires n > 0
    decreases |s|
  {
    if |s| < n then [] else [s[..n]] + ChunksExact(s[n..], n)
  }

  /** Chunking undoes flattening when every row has the chunk length. */
  lemma {:induction false} ChunksOfFlatten<T>(rows: seq<seq<T>>, n: nat)
    requires n > 0
    requires forall i :: 0 <= i < |rows| ==> |rows[i]| == n
    ensures ChunksExact(Flatten(rows), n) == rows
    decreases |rows|
  {
    if |rows| > 0 {
      var f := Flatten(rows);
      FlattenLength(rows, n);
      assert f[..n] == rows[0];
      assert f[n..] == Flatten(rows[1..]);
      ChunksOfFlatten(rows[1..], n);
      assert rows == [rows[0]] + rows[1..];
    } else {
      assert Flatten(rows) == [];
    }
  }

  lemma {:induction false} ChunksLength<T>(s: seq<T>, n: nat, count: nat)
    requires n > 0 && |s| == n * count
    ensures |ChunksExact(s, n)| == count
    ensures forall p :: 0 <= p < count ==> |ChunksExact(s, n)[p]| == n
    decreases count
  {
    if count > 0 {
      assert n * count == n + n * (count - 1);
      ChunksLength(s[n..], n, count - 1);
    }
  }

  /** The first `height` consecutive runs of `width` elements. */
  function Rows<T>(s: seq<T>, width: nat, height: nat): seq<seq<T>>
    requires |s| >= width * height
    decreases height
  {
    if height == 0 then []
    else
      assert width * height == width + width * (height - 1);
      [s[..width]] + Rows(s[width..], width, height - 1)
  }

  /** Cutting into rows and flattening again gives the sequence back. */
  lemma {:induction false} RowsShape<T>(s: seq<T>, width: nat, height: nat)
    requires |s| == width * height
    ensures |Rows(s, width, height)| == height
    ensures forall y :: 0 <= y < height ==> |Rows(s, width, height)[y]| == width
    ensures forall y, x :: 0 <= y < height && 0 <= x < width ==> Rows(s, width, height)[y][x] in s
    ensures Flatten(Rows(s, width, height)) == s
    decreases height
  {
    if height > 0 {
      assert width * height == width + width * (height - 1);
      RowsShape(s[width..], width, height - 1);
      assert s == s[..width] + s[width..];
      var r := Rows(s, width, height);
      forall y, x | 0 <= y < height && 0 <= x < width
        ensures r[y][x] in s
      {
        if y == 0 {
          assert r[y][x] == s[x];
        } else {
          assert r[y] == Rows(s[width..], width, height - 1)[y - 1];
          assert r[y][x] in s[width..];
        }
      }
    }
  }
}
