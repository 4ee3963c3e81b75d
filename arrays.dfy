/** The NumPy array operations the core relies on, on two-dimensional arrays of floats. */
module Arrays {
  import opened Wrappers

  /** A two-dimensional NumPy array: its column count and its rows. `rows` may be empty,
      so the column count is kept explicitly, as NumPy keeps the shape. */
  datatype Mat = Mat(cols: nat, rows: seq<seq<real>>) {
    /** Every row has `cols` entries (NumPy arrays are rectangular). */
    predicate Valid() {
      forall i :: 0 <= i < |rows| ==> |rows[i]| == cols
    }
  }

  /** np.concatenate([a, b], axis=1): the rows side by side. */
  function ConcatColumns(a: Mat, b: Mat): (r: Result<Mat>)
    ensures r.Ok? <==> |a.rows| == |b.rows|
    ensures r.Ok? ==> r.value.cols == a.cols + b.cols && |r.value.rows| == |a.rows|
    ensures r.Ok? && a.Valid() && b.Valid() ==> r.value.Valid()
  {
    if |a.rows| != |b.rows| then Err(ShapeMismatch)
    else Ok(Mat(a.cols + b.cols, seq(|a.rows|, i requires 0 <= i < |a.rows| => a.rows[i] + b.rows[i])))
  }

  /** The column a Python slice bound `at` stands for in an axis of `len` entries: a negative
      bound counts from the end, and a bound outside the axis is clamped to it. */
  function SliceBound(at: int, len: nat): (k: nat)
    ensures k <= len
    ensures 0 <= at <= len ==> k == at
    ensures at > len ==> k == len
    ensures -(len as int) <= at < 0 ==> k == len + at
    ensures at < -(len as int) ==> k == 0
  {
    if at < 0 then (if at + len < 0 then 0 else at + len)
    else if at > len then len
    else at
  }

  /** m[:, :at], m[:, at:], cut at the column SliceBound(at, m.cols). */
  function SplitColumns(m: Mat, at: int): (r: (Mat, Mat))
    requires m.Valid()
    ensures r.0.Valid() && r.1.Valid()
    ensures |r.0.rows| == |m.rows| && |r.1.rows| == |m.rows|
    ensures r.0.cols == SliceBound(at, m.cols)
    ensures r.0.cols + r.1.cols == m.cols
    ensures forall i :: 0 <= i < |m.rows| ==> r.0.rows[i] + r.1.rows[i] == m.rows[i]
  {
    var k := SliceBound(at, m.cols);
    (Mat(k, seq(|m.rows|, i requires 0 <= i < |m.rows| => m.rows[i][..k])),
     Mat(m.cols - k, seq(|m.rows|, i requires 0 <= i < |m.rows| => m.rows[i][k..])))
  }

  /** Splitting a concatenation where the left part is exactly `at` columns wide gives both parts back. */
  lemma SplitOfConcat(a: Mat, b: Mat, at: int)
    requires a.Valid() && b.Valid() && |a.rows| == |b.rows| && a.cols == at
    ensures ConcatColumns(a, b).Ok?
    ensures SplitColumns(ConcatColumns(a, b).value, at) == (a, b)
  {
    var m := ConcatColumns(a, b).value;
    var (l, r) := SplitColumns(m, at);
    assert l.rows == a.rows by {
      forall i | 0 <= i < |a.rows| ensures l.rows[i] == a.rows[i] {
        assert m.rows[i] == a.rows[i] + b.rows[i];
      }
    }
    assert r.rows == b.rows by {
      forall i | 0 <= i < |a.rows| ensures r.rows[i] == b.rows[i] {
        assert m.rows[i] == a.rows[i] + b.rows[i];
      }
    }
  }

  /** Concatenating the two halves of a split gives the array back. */
  lemma ConcatOfSplit(m: Mat, at: int)
    requires m.Valid()
    ensures ConcatColumns(SplitColumns(m, at).0, SplitColumns(m, at).1) == Ok(m)
  {
    var (l, r) := SplitColumns(m, at);
    var c := ConcatColumns(l, r).value;
    forall i | 0 <= i < |m.rows| ensures c.rows[i] == m.rows[i] {
      assert l.rows[i] + r.rows[i] == m.rows[i][..l.cols] + m.rows[i][l.cols..];
    }
    assert c.rows == m.rows;
  }

  /** The rows of all arrays of `ms`, one array after another. */
  function StackRows(ms: seq<Mat>): (rows: seq<seq<real>>)
  {
    if ms == [] then [] else ms[0].rows + StackRows(ms[1..])
  }

  /** np.concatenate(ms) along axis 0. */
  function Concatenate(ms: seq<Mat>): (r: Result<Mat>)
    ensures r.Ok? <==> |ms| > 0 && forall i :: 0 <= i < |ms| ==> ms[i].cols == ms[0].cols
    ensures r.Ok? ==> r.value.cols == ms[0].cols && r.value.rows == StackRows(ms)
  {
    if |ms| == 0 then Err(NothingToConcatenate)
    else if exists i :: 0 <= i < |ms| && ms[i].cols != ms[0].cols then Err(ShapeMismatch)
    else Ok(Mat(ms[0].cols, StackRows(ms)))
  }

  /** Stacking arrays of one row each gives one row per array, in order. */
  lemma {:induction false} StackSingleRows(ms: seq<Mat>)
    requires forall i :: 0 <= i < |ms| ==> |ms[i].rows| == 1
    ensures |StackRows(ms)| == |ms|
    ensures forall i :: 0 <= i < |ms| ==> StackRows(ms)[i] == ms[i].rows[0]
  {
    if ms != [] {
      StackSingleRows(ms[1..]);
      assert ms[0].rows == [ms[0].rows[0]];
    }
  }

  /** Stacking rectangular arrays of a common width gives a rectangular array of that width. */
  lemma {:induction false} StackValid(ms: seq<Mat>, cols: nat)
    requires forall i :: 0 <= i < |ms| ==> ms[i].Valid() && ms[i].cols == cols
    ensures Mat(cols, StackRows(ms)).Valid()
  {
    if ms != [] {
      StackValid(ms[1..], cols);
      var rest := StackRows(ms[1..]);
      forall i | 0 <= i < |StackRows(ms)| ensures |StackRows(ms)[i]| == cols {
        if i >= |ms[0].rows| {
          assert StackRows(ms)[i] == rest[i - |ms[0].rows|];
        }
      }
    }
  }

  /** f applied to every entry (an elementwise NumPy ufunc). */
  function MapEntries(m: Mat, f: real -> real): (r: Mat)
    ensures r.cols == m.cols && |r.rows| == |m.rows|
    ensures m.Valid() ==> r.Valid()
  {
    Mat(m.cols, seq(|m.rows|, i requires 0 <= i < |m.rows| =>
      seq(|m.rows[i]|, j requires 0 <= j < |m.rows[i]| => f(m.rows[i][j]))))
  }

  /** Row-major ravel: the rows one after another (ndarray.flatten, np.array of equal-length lists). */
  function Flatten(rows: seq<seq<real>>): (flat: seq<real>)
  {
    if rows == [] then [] else rows[0] + Flatten(rows[1..])
  }

  lemma {:induction false} MulAtLeast(w: nat, k: nat)
    requires k >= 1
    ensures w * k >= w
  {
    if k > 1 {
      MulAtLeast(w, k - 1);
      assert w * k == w * (k - 1) + w;
    }
  }

  /** A nonzero multiple of w is at least w away from 0. */
  lemma MulOutside(w: nat, k: int)
    ensures k >= 1 ==> w * k >= w
    ensures k <= -1 ==> w * k <= -(w as int)
  {
    if k >= 1 {
      MulAtLeast(w, k);
    } else if k <= -1 {
      MulAtLeast(w, -k);
      assert w * k == -(w * -k);
    }
  }

  lemma DivModStep(n: nat, w: nat)
    requires w > 0 && n >= w
    ensures (n - w) % w == n % w && (n - w) / w == n / w - 1
  {
    var q, r := n / w, n % w;
    var q2, r2 := (n - w) / w, (n - w) % w;
    assert n == w * q + r;
    assert n - w == w * q2 + r2;
    assert w * (q2 - q + 1) == w * q2 - w * q + w;
    assert w * (q2 - q + 1) == r - r2;
    MulOutside(w, q2 - q + 1);
  }

  /** The rows of width `w` that reshape(-1, w) cuts a flat sequence into. */
  function Chunks(flat: seq<real>, w: nat): (rows: seq<seq<real>>)
    requires w > 0 && |flat| % w == 0
    ensures |rows| == |flat| / w
    ensures forall i :: 0 <= i < |rows| ==> |rows[i]| == w
    decreases |flat|
  {
    if |flat| == 0 then []
    else
      DivModStep(|flat|, w);
      [flat[..w]] + Chunks(flat[w..], w)
  }

  /** ndarray.reshape(-1, w) of a flat array. */
  function Reshape(flat: seq<real>, w: nat): (r: Result<Mat>)
    requires w > 0
    ensures r.Ok? <==> |flat| % w == 0
    ensures r.Ok? ==> r.value.Valid() && r.value.cols == w && |r.value.rows| == |flat| / w
  {
    if |flat| % w != 0 then Err(CannotReshape) else Ok(Mat(w, Chunks(flat, w)))
  }

  lemma ChunksUnfold(flat: seq<real>, w: nat)
    requires w > 0 && |flat| % w == 0 && |flat| > 0
    ensures |flat| >= w && (|flat| - w) % w == 0
    ensures Chunks(flat, w) == [flat[..w]] + Chunks(flat[w..], w)
  {
    DivModStep(|flat|, w);
  }

  /** Reshaping loses nothing: ravelling the rows gives the flat sequence back. */
  lemma {:induction false} FlattenChunks(flat: seq<real>, w: nat)
    requires w > 0 && |flat| % w == 0
    ensures Flatten(Chunks(flat, w)) == flat
    decreases |flat|
  {
    if |flat| > 0 {
      ChunksUnfold(flat, w);
      var head, rest := flat[..w], Chunks(flat[w..], w);
      FlattenChunks(flat[w..], w);
      assert ([head] + rest)[1..] == rest;
      assert Flatten([head] + rest) == head + Flatten(rest);
      assert head + flat[w..] == flat;
    }
  }

  /** Ravelling rows of width w and reshaping to width w gives the same rows. */
  lemma {:induction false} ChunksFlatten(rows: seq<seq<real>>, w: nat)
    requires w > 0 && forall i :: 0 <= i < |rows| ==> |rows[i]| == w
    ensures |Flatten(rows)| == w * |rows|
    ensures |Flatten(rows)| % w == 0
    ensures Chunks(Flatten(rows), w) == rows
    decreases |rows|
  {
    if rows != [] {
      ChunksFlatten(rows[1..], w);
      var flat := Flatten(rows);
      assert flat == rows[0] + Flatten(rows[1..]);
      assert |flat| == w * (|rows| - 1) + w;
      assert |flat| == w * |rows|;
      DivModStep(|flat|, w);
      assert flat[..w] == rows[0];
      assert flat[w..] == Flatten(rows[1..]);
      assert rows == [rows[0]] + rows[1..];
    } else {
      assert Flatten(rows) == [];
    }
  }
}
