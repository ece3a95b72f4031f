/** Integer facts the index arithmetic of row-major layouts relies on.

    Dafny's `/` and `%` are Euclidean; every use below has a non-negative
    dividend and a positive divisor, where they agree with numpy's and
    TensorFlow's integer division. */
module Arith {

  /** Product of a sequence of sizes, as `np.prod`; the empty product is 1. */
  function Prod(s: seq<int>): int
  {
    if |s| == 0 then 1 else s[0] * Prod(s[1..])
  }

  /** All entries are at least one: a usable list of modes or ranks. */
  predicate AllPositive(s: seq<int>)
  {
    forall i :: 0 <= i < |s| ==> s[i] > 0
  }

  lemma {:induction false} ProdPositive(s: seq<int>)
    requires AllPositive(s)
    ensures Prod(s) > 0
  {
    if |s| > 0 {
      assert AllPositive(s[1..]) by {
        forall i | 0 <= i < |s[1..]| ensures s[1..][i] > 0 {
          assert s[1..][i] == s[i + 1];
        }
      }
      ProdPositive(s[1..]);
      MulPositive(s[0], Prod(s[1..]));
    }
  }

  /** Splitting a sequence splits its product. */
  lemma {:induction false} ProdSplit(s: seq<int>, i: nat)
    requires i <= |s|
    ensures Prod(s[..i]) * Prod(s[i..]) == Prod(s)
  {
    if i > 0 {
      ProdSplit(s[1..], i - 1);
      assert s[1..][..i - 1] == s[..i][1..];
      assert s[1..][i - 1..] == s[i..];
      assert s[..i][0] == s[0];
      calc {
        Prod(s[..i]) * Prod(s[i..]);
        (s[0] * Prod(s[..i][1..])) * Prod(s[i..]);
        { MulAssoc(s[0], Prod(s[..i][1..]), Prod(s[i..])); }
        s[0] * (Prod(s[1..][..i - 1]) * Prod(s[1..][i - 1..]));
        s[0] * Prod(s[1..]);
      }
    } else {
      assert s[..0] == [] && s[0..] == s;
    }
  }

  /** Extending a prefix by one mode multiplies its product by that mode. */
  lemma ProdPrefixStep(s: seq<int>, i: nat)
    requires i < |s|
    ensures Prod(s[..i + 1]) == Prod(s[..i]) * s[i]
  {
    var p := s[..i + 1];
    ProdSplit(p, i);
    assert p[..i] == s[..i];
    assert p[i..] == [s[i]];
    assert Prod([s[i]]) == s[i] * Prod([]);
  }

  /** Dropping the first mode of a suffix divides its product by that mode. */
  lemma ProdSuffixStep(s: seq<int>, i: nat)
    requires i < |s|
    ensures Prod(s[i..]) == s[i] * Prod(s[i + 1..])
  {
    assert s[i..][0] == s[i];
    assert s[i..][1..] == s[i + 1..];
  }

  lemma MulPositive(a: int, b: int)
    requires a > 0 && b > 0
    ensures a * b > 0
  {
  }

  lemma MulAssoc(a: int, b: int, c: int)
    ensures (a * b) * c == a * (b * c)
  {
  }

  lemma MulAddLeft(x: int, y: int, z: int)
    ensures x * (y + z) == x * y + x * z
  {
  }

  lemma MulMonotone(a: int, b: int, c: int)
    requires 0 <= a <= b && 0 <= c
    ensures a * c <= b * c
  {
  }

  /** Flattening `(x, y)` and then `(_, z)` is flattening `x` against the combined trailing size. */
  lemma Regroup(x: int, y: int, z: int, b: int, c: int)
    ensures (x * b + y) * c + z == x * (b * c) + (y * c + z)
  {
    assert (x * b + y) * c == x * b * c + y * c;
  }

  /** Splitting off the leading mode of the input axes regroups the size as `(r * n) * rest`. */
  lemma RegroupLeading(r: int, n: int, tail: int, rest: int)
    ensures r * ((n * tail) * rest) == (r * n) * (tail * rest)
  {
  }

  /** Appending the output mode `m` after the step regroups the size as `r * (tail * (b * (done * m)))`. */
  lemma RegroupTrailing(r: int, tail: int, b: int, done: int, m: int)
    ensures (r * (tail * (b * done))) * m == r * (tail * (b * (done * m)))
  {
  }

  /** The flat position of entry `(i, j)` of a `rows x cols` row-major array is in range. */
  lemma IndexBound(i: int, j: int, rows: int, cols: int)
    requires 0 <= i < rows && 0 <= j < cols
    ensures 0 <= i * cols + j < rows * cols
  {
    MulMonotone(i + 1, rows, cols);
    assert i * cols + cols == (i + 1) * cols;
  }

  /** Division by `c` recovers the row and column of a row-major position. */
  lemma DivModOf(i: int, j: int, c: int)
    requires c > 0 && 0 <= j < c
    ensures (i * c + j) / c == i
    ensures (i * c + j) % c == j
  {
    var k := i * c + j;
    var q, s := k / c, k % c;
    assert k == q * c + s;
    assert 0 <= s < c;
    assert (q - i) * c == j - s;
    if q > i {
      MulMonotone(1, q - i, c);
      assert false;
    } else if q < i {
      MulMonotone(1, i - q, c);
      assert false;
    }
  }

  /** Every position of a `rows x cols` row-major array is some entry `(k / cols, k % cols)`. */
  lemma Split(k: int, rows: int, cols: int)
    requires rows >= 0 && 0 <= k < rows * cols
    ensures cols > 0
    ensures k == (k / cols) * cols + k % cols
    ensures 0 <= k / cols < rows
    ensures 0 <= k % cols < cols
  {
    if cols <= 0 {
      MulMonotone(0, rows, -cols);
      assert false;
    }
    var q := k / cols;
    if q >= rows {
      MulMonotone(rows, q, cols);
      assert false;
    }
  }

  /** The row count of a `rows x cols` array is recovered by dividing its size by `cols`. */
  lemma ExactDiv(rows: int, cols: int)
    requires rows >= 0 && cols > 0
    ensures (rows * cols) % cols == 0
    ensures (rows * cols) / cols == rows
  {
    DivModOf(rows, 0, cols);
  }
}
