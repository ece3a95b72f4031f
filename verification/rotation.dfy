/** The axis rotation each contraction step performs.

    Viewing flat data of size `a * c` as an `a x c` tensor and transposing it
    moves the leading axis (of size `a`) to the back. Two such rotations, by
    `a1` and then by `a2`, move the two leading axes to the back in their
    original order, which is one rotation by `a1 * a2`. */
module Rotation {
  import opened Arith
  import opened Tensors

  /** A rotation by 1 moves nothing. */
  lemma RotateOne(d: seq<int>)
    ensures Rotate(1, |d|, d) == d
  {
    forall k | 0 <= k < |d|
      ensures Rotate(1, |d|, d)[k] == d[k]
    {
      RotateAt(1, |d|, d, 0, k);
    }
  }

  /** Rotating a transposed `rows x cols` tensor by its column count gives its data back. */
  lemma RotateUndoesTranspose(t: Matrix)
    ensures Rotate(t.cols, t.rows, Transpose(t).data) == t.data
  {
    TransposeInvolution(t);
  }

  /** Rotating by `a1` and then by `a2` is rotating by `a1 * a2`. */
  lemma RotateCompose(a1: nat, a2: nat, c: nat, d: seq<int>)
    requires |d| == (a1 * a2) * c
    ensures |d| == a1 * (a2 * c) && |d| == a2 * (c * a1)
    ensures Rotate(a2, c * a1, Rotate(a1, a2 * c, d)) == Rotate(a1 * a2, c, d)
  {
    var f := Rotate(a2, c * a1, Rotate(a1, a2 * c, d));
    var g := Rotate(a1 * a2, c, d);
    forall k | 0 <= k < |d|
      ensures f[k] == g[k]
    {
      Split(k, c, a1 * a2);
      var j, w := k / (a1 * a2), k % (a1 * a2);
      Split(w, a1, a2);
      var i1, i2 := w / a2, w % a2;
      assert k == j * (a1 * a2) + w;
      assert w == i1 * a2 + i2;
      assert k == (j * a1 + i1) * a2 + i2;
      Regroup(i1, i2, j, a2, c);
      TwiceEntry(a1, a2, c, d, i1, i2, j);
      RotateAt(a1 * a2, c, d, w, j);
    }
  }

  /** Two successive rotations send multi-index `(i1, i2, j)` of an
      `a1 x a2 x c` array to `(j, i1, i2)`. */
  lemma TwiceEntry(a1: nat, a2: nat, c: nat, d: seq<int>, i1: nat, i2: nat, j: nat)
    requires |d| == a1 * (a2 * c) && |d| == a2 * (c * a1)
    requires i1 < a1 && i2 < a2 && j < c
    ensures (j * a1 + i1) * a2 + i2 < |d|
    ensures i1 * (a2 * c) + (i2 * c + j) < |d|
    ensures Rotate(a2, c * a1, Rotate(a1, a2 * c, d))[(j * a1 + i1) * a2 + i2] == d[i1 * (a2 * c) + (i2 * c + j)]
  {
    var e := Rotate(a1, a2 * c, d);
    var q := j * a1 + i1;
    var p := i2 * c + j;
    IndexBound(j, i1, c, a1);
    IndexBound(i2, j, a2, c);
    RotateAt(a2, c * a1, e, i2, q);
    Regroup(i2, j, i1, c, a1);
    RotateAt(a1, a2 * c, d, i1, p);
  }
}
