/** Row-major integer tensors and the TensorFlow operations the TT layer uses
    on them: `tf.reshape` with one inferred size, `tf.transpose(_, [1, 0])`,
    `tf.matmul`, and `tf.add` of a bias row. Entries are integers; the
    operations only rely on ring arithmetic. */
module Tensors {
  import opened Arith
  import opened Outcomes

  /** Shape and flat row-major data of a 2-D tensor. */
  datatype Shaped = Shaped(rows: nat, cols: nat, data: seq<int>)

  /** A 2-D tensor: the data holds exactly `rows * cols` entries. */
  type Matrix = m: Shaped | |m.data| == m.rows * m.cols witness Shaped(0, 0, [])

  /** Entry `(i, j)`, stored at flat position `i * cols + j`. */
  function At(t: Matrix, i: nat, j: nat): int
    requires i < t.rows && j < t.cols
  {
    IndexBound(i, j, t.rows, t.cols);
    t.data[i * t.cols + j]
  }

  /** `tf.reshape(t, [rows, -1])`: the data is kept and the column count is
      inferred; this fails unless `rows` is positive and divides the size. */
  function ReshapeRows(t: Matrix, rows: int): (r: Result<Matrix>)
    ensures r.Ok? <==> rows > 0 && |t.data| % rows == 0
    ensures r.Ok? ==> r.value.rows == rows && r.value.data == t.data
    ensures r.Err? ==> r.error == BadReshape
  {
    if rows <= 0 || |t.data| % rows != 0 then Err(BadReshape)
    else Ok(Shaped(rows, |t.data| / rows, t.data))
  }

  /** `tf.reshape(t, [-1, cols])`: the data is kept and the row count is
      inferred; this fails unless `cols` is positive and divides the size. */
  function ReshapeCols(t: Matrix, cols: int): (r: Result<Matrix>)
    ensures r.Ok? <==> cols > 0 && |t.data| % cols == 0
    ensures r.Ok? ==> r.value.cols == cols && r.value.data == t.data
    ensures r.Err? ==> r.error == BadReshape
  {
    if cols <= 0 || |t.data| % cols != 0 then Err(BadReshape)
    else Ok(Shaped(|t.data| / cols, cols, t.data))
  }

  /** Flat data of an `a x c` tensor, transposed: the leading axis of size `a`
      becomes the last, and position `i * c + j` moves to `j * a + i`. */
  function Rotate(a: nat, c: nat, d: seq<int>): (r: seq<int>)
    requires |d| == a * c
    ensures |r| == |d|
  {
    seq(|d|, k requires 0 <= k < |d| =>
      Split(k, c, a);
      IndexBound(k % a, k / a, a, c);
      d[(k % a) * c + k / a])
  }

  lemma RotateAt(a: nat, c: nat, d: seq<int>, i: nat, j: nat)
    requires |d| == a * c
    requires i < a && j < c
    ensures j * a + i < |d| && i * c + j < |d|
    ensures Rotate(a, c, d)[j * a + i] == d[i * c + j]
  {
    IndexBound(j, i, c, a);
    IndexBound(i, j, a, c);
    DivModOf(j, i, a);
  }

  /** `tf.transpose(t, [1, 0])`: entry `(i, j)` moves to `(j, i)`. */
  function Transpose(t: Matrix): (r: Matrix)
    ensures r.rows == t.cols && r.cols == t.rows
    ensures forall i: nat, j: nat :: i < t.rows && j < t.cols ==> At(r, j, i) == At(t, i, j)
  {
    var r: Matrix := Shaped(t.cols, t.rows, Rotate(t.rows, t.cols, t.data));
    assert forall i: nat, j: nat :: i < t.rows && j < t.cols ==> At(r, j, i) == At(t, i, j) by {
      forall i: nat, j: nat | i < t.rows && j < t.cols
        ensures At(r, j, i) == At(t, i, j)
      {
        RotateAt(t.rows, t.cols, t.data, i, j);
      }
    }
    r
  }

  /** `sum k < n :: a[i, k] * b[k, j]`, the first `n` terms of entry `(i, j)` of `a * b`. */
  function Dot(a: Matrix, b: Matrix, i: nat, j: nat, n: nat): int
    requires a.cols == b.rows && i < a.rows && j < b.cols && n <= a.cols
  {
    if n == 0 then 0 else Dot(a, b, i, j, n - 1) + At(a, i, n - 1) * At(b, n - 1, j)
  }

  /** `tf.matmul(a, b)`: fails unless the inner sizes agree; entry `(i, j)` of
      the product is the dot product of row `i` of `a` with column `j` of `b`. */
  function MatMul(a: Matrix, b: Matrix): (r: Result<Matrix>)
    ensures r.Ok? <==> a.cols == b.rows
    ensures r.Err? ==> r.error == BadMatMul
    ensures r.Ok? ==> r.value.rows == a.rows && r.value.cols == b.cols
    ensures r.Ok? ==> forall i: nat, j: nat :: i < a.rows && j < b.cols ==>
      At(r.value, i, j) == Dot(a, b, i, j, a.cols)
  {
    if a.cols != b.rows then Err(BadMatMul)
    else
      var n := a.rows * b.cols;
      var p: Matrix := Shaped(a.rows, b.cols, seq(n, k requires 0 <= k < n =>
        Split(k, a.rows, b.cols);
        Dot(a, b, k / b.cols, k % b.cols, a.cols)));
      assert forall i: nat, j: nat :: i < a.rows && j < b.cols ==> At(p, i, j) == Dot(a, b, i, j, a.cols) by {
        forall i: nat, j: nat | i < a.rows && j < b.cols
          ensures At(p, i, j) == Dot(a, b, i, j, a.cols)
        {
          IndexBound(i, j, a.rows, b.cols);
          DivModOf(i, j, b.cols);
        }
      }
      Ok(p)
  }

  /** `np.eye(rows, cols)`: ones on the main diagonal, zeros elsewhere. */
  function Eye(rows: nat, cols: nat): (r: Matrix)
    ensures r.rows == rows && r.cols == cols
    ensures forall i: nat, j: nat :: i < rows && j < cols ==> At(r, i, j) == if i == j then 1 else 0
  {
    var n := rows * cols;
    var r: Matrix := Shaped(rows, cols, seq(n, k requires 0 <= k < n =>
      Split(k, rows, cols);
      if k / cols == k % cols then 1 else 0));
    assert forall i: nat, j: nat :: i < rows && j < cols ==> At(r, i, j) == if i == j then 1 else 0 by {
      forall i: nat, j: nat | i < rows && j < cols
        ensures At(r, i, j) == if i == j then 1 else 0
      {
        IndexBound(i, j, rows, cols);
        DivModOf(i, j, cols);
      }
    }
    r
  }

  /** `tf.add(t, v)` for a row vector `v`: `v` is added to every row. Fails
      unless `v` has one entry per column. */
  function AddRow(t: Matrix, v: seq<int>): (r: Result<Matrix>)
    ensures r.Ok? <==> |v| == t.cols
    ensures r.Err? ==> r.error == BadBroadcast
    ensures r.Ok? ==> r.value.rows == t.rows && r.value.cols == t.cols
    ensures r.Ok? ==> forall i: nat, j: nat :: i < t.rows && j < t.cols ==>
      At(r.value, i, j) == At(t, i, j) + v[j]
  {
    if |v| != t.cols then Err(BadBroadcast)
    else
      var n := t.rows * t.cols;
      var s: Matrix := Shaped(t.rows, t.cols, seq(n, k requires 0 <= k < n =>
        Split(k, t.rows, t.cols);
        t.data[k] + v[k % t.cols]));
      assert forall i: nat, j: nat :: i < t.rows && j < t.cols ==> At(s, i, j) == At(t, i, j) + v[j] by {
        forall i: nat, j: nat | i < t.rows && j < t.cols
          ensures At(s, i, j) == At(t, i, j) + v[j]
        {
          IndexBound(i, j, t.rows, t.cols);
          DivModOf(i, j, t.cols);
        }
      }
      Ok(s)
  }

  /** Two tensors of the same shape with the same entries are the same tensor. */
  lemma Extensional(a: Matrix, b: Matrix)
    requires a.rows == b.rows && a.cols == b.cols
    requires forall i: nat, j: nat :: i < a.rows && j < a.cols ==> At(a, i, j) == At(b, i, j)
    ensures a == b
  {
    forall k | 0 <= k < |a.data|
      ensures a.data[k] == b.data[k]
    {
      Split(k, a.rows, a.cols);
      assert At(a, k / a.cols, k % a.cols) == At(b, k / a.cols, k % a.cols);
    }
  }

  /** Transposing twice gives the tensor back. */
  lemma TransposeInvolution(t: Matrix)
    ensures Transpose(Transpose(t)) == t
  {
    Extensional(Transpose(Transpose(t)), t);
  }

  /** Multiplying by the identity on the left changes nothing. */
  lemma MatMulEyeLeft(b: Matrix)
    ensures MatMul(Eye(b.rows, b.rows), b) == Ok(b)
  {
    var e := Eye(b.rows, b.rows);
    var p := MatMul(e, b).value;
    forall i: nat, j: nat | i < b.rows && j < b.cols
      ensures At(p, i, j) == At(b, i, j)
    {
      DotEye(b, i, j, b.rows);
    }
    Extensional(p, b);
  }

  /** The first `n` terms of row `i` of the identity against column `j` of `b`
      pick out `b[i, j]` exactly when `i < n`. */
  lemma {:induction false} DotEye(b: Matrix, i: nat, j: nat, n: nat)
    requires i < b.rows && j < b.cols && n <= b.rows
    ensures Dot(Eye(b.rows, b.rows), b, i, j, n) == if i < n then At(b, i, j) else 0
  {
    if n > 0 {
      DotEye(b, i, j, n - 1);
    }
  }

  /** A product with an all-zero left factor is all zero. */
  lemma {:induction false} DotZeroLeft(a: Matrix, b: Matrix, i: nat, j: nat, n: nat)
    requires a.cols == b.rows && i < a.rows && j < b.cols && n <= a.cols
    requires forall k :: 0 <= k < |a.data| ==> a.data[k] == 0
    ensures Dot(a, b, i, j, n) == 0
  {
    if n > 0 {
      DotZeroLeft(a, b, i, j, n - 1);
      IndexBound(i, n - 1, a.rows, a.cols);
    }
  }

  /** Reshaping `rows * cols` entries to `(rows, -1)` infers `cols`. */
  lemma ReshapeRowsExact(t: Matrix, rows: nat, cols: nat)
    requires rows > 0 && |t.data| == rows * cols
    ensures ReshapeRows(t, rows) == Ok(Shaped(rows, cols, t.data))
  {
    ExactDiv(cols, rows);
  }

  /** Reshaping `rows * cols` entries to `(-1, cols)` infers `rows`. */
  lemma ReshapeColsExact(t: Matrix, rows: nat, cols: nat)
    requires cols > 0 && |t.data| == rows * cols
    ensures ReshapeCols(t, cols) == Ok(Shaped(rows, cols, t.data))
  {
    ExactDiv(rows, cols);
  }

  /** Adding an all-zero row changes nothing. */
  lemma AddRowZero(t: Matrix)
    ensures AddRow(t, seq(t.cols, _ => 0)) == Ok(t)
  {
    var r := AddRow(t, seq(t.cols, _ => 0)).value;
    Extensional(r, t);
  }

  /** Entry-wise sum of two tensors of one shape. */
  function Add(a: Matrix, b: Matrix): (r: Matrix)
    requires a.rows == b.rows && a.cols == b.cols
    ensures r.rows == a.rows && r.cols == a.cols
    ensures forall i: nat, j: nat :: i < a.rows && j < a.cols ==> At(r, i, j) == At(a, i, j) + At(b, i, j)
  {
    var r: Matrix := Shaped(a.rows, a.cols, seq(|a.data|, k requires 0 <= k < |a.data| => a.data[k] + b.data[k]));
    assert forall i: nat, j: nat :: i < a.rows && j < a.cols ==> At(r, i, j) == At(a, i, j) + At(b, i, j) by {
      forall i: nat, j: nat | i < a.rows && j < a.cols
        ensures At(r, i, j) == At(a, i, j) + At(b, i, j)
      {
        IndexBound(i, j, a.rows, a.cols);
      }
    }
    r
  }

  /** A dot product is additive in its right factor. */
  lemma {:induction false} DotAddRight(a: Matrix, b: Matrix, c: Matrix, i: nat, j: nat, n: nat)
    requires a.cols == b.rows && b.rows == c.rows && b.cols == c.cols
    requires i < a.rows && j < b.cols && n <= a.cols
    ensures Dot(a, Add(b, c), i, j, n) == Dot(a, b, i, j, n) + Dot(a, c, i, j, n)
  {
    if n > 0 {
      DotAddRight(a, b, c, i, j, n - 1);
      var x, y, z := At(a, i, n - 1), At(b, n - 1, j), At(c, n - 1, j);
      assert At(Add(b, c), n - 1, j) == y + z;
      MulAddLeft(x, y, z);
    }
  }

  /** `tf.matmul` distributes over a sum on the right. */
  lemma MatMulAddRight(a: Matrix, b: Matrix, c: Matrix)
    requires a.cols == b.rows && b.rows == c.rows && b.cols == c.cols
    ensures MatMul(a, Add(b, c)) == Ok(Add(MatMul(a, b).value, MatMul(a, c).value))
  {
    var p := MatMul(a, Add(b, c)).value;
    var q := Add(MatMul(a, b).value, MatMul(a, c).value);
    forall i: nat, j: nat | i < p.rows && j < p.cols
      ensures At(p, i, j) == At(q, i, j)
    {
      DotAddRight(a, b, c, i, j, a.cols);
    }
    Extensional(p, q);
  }

  /** Transposition commutes with a sum. */
  lemma TransposeAdd(a: Matrix, b: Matrix)
    requires a.rows == b.rows && a.cols == b.cols
    ensures Transpose(Add(a, b)) == Add(Transpose(a), Transpose(b))
  {
    Extensional(Transpose(Add(a, b)), Add(Transpose(a), Transpose(b)));
  }

  /** Every entry is zero. */
  predicate IsZero(t: Matrix)
  {
    forall k :: 0 <= k < |t.data| ==> t.data[k] == 0
  }

  /** A product with an all-zero left factor is all zero. */
  lemma MatMulZeroLeft(a: Matrix, b: Matrix)
    requires a.cols == b.rows && IsZero(a)
    ensures IsZero(MatMul(a, b).value)
  {
    var p := MatMul(a, b).value;
    forall k | 0 <= k < |p.data|
      ensures p.data[k] == 0
    {
      Split(k, p.rows, p.cols);
      DotZeroLeft(a, b, k / p.cols, k % p.cols, a.cols);
      assert p.data[k] == At(p, k / p.cols, k % p.cols);
    }
  }

  /** Transposing an all-zero tensor gives an all-zero tensor. */
  lemma TransposeZero(t: Matrix)
    requires IsZero(t)
    ensures IsZero(Transpose(t))
  {
    var a, c := t.rows, t.cols;
    var r := Rotate(a, c, t.data);
    forall k | 0 <= k < |r|
      ensures r[k] == 0
    {
      Split(k, c, a);
      IndexBound(k % a, k / a, a, c);
      assert r[k] == t.data[(k % a) * c + k / a];
    }
  }
}
