/** Finite sums `f(0) + ... + f(n - 1)` and the rearrangements the
    contraction argument needs: splitting a sum over a product range into a
    double sum, swapping the order of a double sum, and pulling a factor out.

    The lemmas relate sums through pointwise facts about their terms: a double
    sum is given by a family `rows` of term functions, `rows(i)(j)` being
    term `j` of row `i`. */
module Sums {

  /** `f(0) + ... + f(n - 1)`. */
  function Sum(n: nat, f: int -> int): int
  {
    if n == 0 then 0 else Sum(n - 1, f) + f(n - 1)
  }

  /** Sums of functions that agree on the range are equal. */
  lemma {:induction false} SumExt(n: nat, f: int -> int, g: int -> int)
    requires forall k :: 0 <= k < n ==> f(k) == g(k)
    ensures Sum(n, f) == Sum(n, g)
  {
    if n > 0 {
      SumExt(n - 1, f, g);
    }
  }

  /** A sum of zeros is zero. */
  lemma {:induction false} SumZero(n: nat, f: int -> int)
    requires forall k :: 0 <= k < n ==> f(k) == 0
    ensures Sum(n, f) == 0
  {
    if n > 0 {
      SumZero(n - 1, f);
    }
  }

  /** A constant factor comes out of a sum. */
  lemma {:induction false} SumScale(n: nat, c: int, f: int -> int, g: int -> int)
    requires forall k :: 0 <= k < n ==> g(k) == c * f(k)
    ensures Sum(n, g) == c * Sum(n, f)
  {
    if n > 0 {
      SumScale(n - 1, c, f, g);
      assert c * Sum(n, f) == c * Sum(n - 1, f) + c * f(n - 1);
    }
  }

  /** Sums of two functions add up term by term. */
  lemma {:induction false} SumAdd(n: nat, f: int -> int, g: int -> int, h: int -> int)
    requires forall k :: 0 <= k < n ==> h(k) == f(k) + g(k)
    ensures Sum(n, h) == Sum(n, f) + Sum(n, g)
  {
    if n > 0 {
      SumAdd(n - 1, f, g, h);
    }
  }

  /** A sum over `m + n` terms is the sum over the first `m` and the sum over
      the next `n`. */
  lemma {:induction false} SumAppend(m: nat, n: nat, f: int -> int, g: int -> int)
    requires forall j :: 0 <= j < n ==> g(j) == f(m + j)
    ensures Sum(m + n, f) == Sum(m, f) + Sum(n, g)
  {
    if n > 0 {
      SumAppend(m, n - 1, f, g);
    }
  }

  /** A sum over `ab = a * b` terms is a double sum: term `i * b + j` is
      term `j` of block `i`. */
  lemma {:induction false} SumSplit(a: nat, b: nat, ab: nat, f: int -> int, blocks: int -> int -> int, blockSums: int -> int)
    requires ab == a * b
    requires forall i, j :: 0 <= i < a && 0 <= j < b ==> BlockAt(b, f, blocks, i, j)
    requires forall i :: 0 <= i < a ==> blockSums(i) == Sum(b, blocks(i))
    ensures Sum(ab, f) == Sum(a, blockSums)
  {
    if a > 0 {
      MulPred(a, b);
      var m: nat := (a - 1) * b;
      SumSplit(a - 1, b, m, f, blocks, blockSums);
      var last := blocks(a - 1);
      forall j | 0 <= j < b
        ensures last(j) == f(m + j)
      {
        assert BlockAt(b, f, blocks, a - 1, j);
      }
      SumAppend(m, b, f, last);
    }
  }

  /** Term `j` of block `i` is term `i * b + j` of `f`. */
  ghost predicate BlockAt(b: nat, f: int -> int, blocks: int -> int -> int, i: int, j: int)
  {
    blocks(i)(j) == f(i * b + j)
  }

  lemma MulPred(a: nat, b: nat)
    requires a > 0
    ensures a * b == (a - 1) * b + b
  {
  }

  /** The order of a double sum does not matter. */
  lemma {:induction false} SumSwap(a: nat, b: nat, rows: int -> int -> int, cols: int -> int -> int,
                                   rowSums: int -> int, colSums: int -> int)
    requires forall i, j :: 0 <= i < a && 0 <= j < b ==> rows(i)(j) == cols(j)(i)
    requires forall i :: 0 <= i < a ==> rowSums(i) == Sum(b, rows(i))
    requires forall j :: 0 <= j < b ==> colSums(j) == Sum(a, cols(j))
    ensures Sum(a, rowSums) == Sum(b, colSums)
  {
    if a > 0 {
      var shorter := j => Sum(a - 1, cols(j));
      SumSwap(a - 1, b, rows, cols, rowSums, shorter);
      var last := j => cols(j)(a - 1);
      SumAdd(b, shorter, last, colSums);
      SumExt(b, rows(a - 1), last);
    } else {
      SumZero(b, colSums);
    }
  }

  /** `mid(a)(i)` is the sum of `t(a)(i)` over the first `np` values. */
  ghost predicate MidSum(np: nat, mid: int -> int -> int, t: int -> int -> int -> int, a: int, i: int)
  {
    mid(a)(i) == Sum(np, t(a)(i))
  }

  ghost predicate MidSums(na: nat, ni: nat, np: nat, mid: int -> int -> int, t: int -> int -> int -> int)
  {
    forall a, i :: 0 <= a < na && 0 <= i < ni ==> MidSum(np, mid, t, a, i)
  }

  /** `outer(a)` is the sum of `mid(a)` over the first `ni` values. */
  ghost predicate OuterSum(ni: nat, mid: int -> int -> int, outer: int -> int, a: int)
  {
    outer(a) == Sum(ni, mid(a))
  }

  ghost predicate OuterSums(na: nat, ni: nat, mid: int -> int -> int, outer: int -> int)
  {
    forall a :: 0 <= a < na ==> OuterSum(ni, mid, outer, a)
  }

  /** Term `(a, i, p)` of `t` is term `(p, i, a)` of `tr`. */
  ghost predicate TransposedAt(t: int -> int -> int -> int, tr: int -> int -> int -> int, a: int, i: int, p: int)
  {
    tr(p)(i)(a) == t(a)(i)(p)
  }

  ghost predicate Transposed(na: nat, ni: nat, np: nat, t: int -> int -> int -> int, tr: int -> int -> int -> int)
  {
    forall a, i, p :: 0 <= a < na && 0 <= i < ni && 0 <= p < np ==> TransposedAt(t, tr, a, i, p)
  }

  /** Term `a * ni + i` of `f` is the sum of `t(a)(i)` over the first `np`
      values. */
  ghost predicate InnerSum(ni: nat, np: nat, f: int -> int, t: int -> int -> int -> int, a: int, i: int)
  {
    f(a * ni + i) == Sum(np, t(a)(i))
  }

  ghost predicate InnerSums(na: nat, ni: nat, np: nat, f: int -> int, t: int -> int -> int -> int)
  {
    forall a, i :: 0 <= a < na && 0 <= i < ni ==> InnerSum(ni, np, f, t, a, i)
  }

  /** A triple sum over `a < na`, `i < ni`, `p < np` may be taken with `a`
      outermost and `p` innermost, or with `p` outermost and `a` innermost.
      `t(a)(i)(p)` and `tr(p)(i)(a)` are the same term, and `lhsMid`, `lhs`,
      `rhsMid`, `rhs` are the partial sums of the two orders. */
  lemma TripleSwap(na: nat, ni: nat, np: nat, t: int -> int -> int -> int, tr: int -> int -> int -> int,
                   lhsMid: int -> int -> int, lhs: int -> int, rhsMid: int -> int -> int, rhs: int -> int)
    requires Transposed(na, ni, np, t, tr)
    requires MidSums(na, ni, np, lhsMid, t) && OuterSums(na, ni, lhsMid, lhs)
    requires MidSums(np, ni, na, rhsMid, tr) && OuterSums(np, ni, rhsMid, rhs)
    ensures Sum(na, lhs) == Sum(np, rhs)
  {
    // u(a)(p)(i) is term (a, i, p) with `i` innermost.
    var u: int -> int -> int -> int := a => p => i => t(a)(i)(p);
    var v: int -> int -> int := a => p => Sum(ni, u(a)(p));
    forall a | 0 <= a < na
      ensures lhs(a) == Sum(np, v(a))
    {
      forall i | 0 <= i < ni
        ensures lhsMid(a)(i) == Sum(np, t(a)(i))
      {
        assert MidSum(np, lhsMid, t, a, i);
      }
      assert OuterSum(ni, lhsMid, lhs, a);
      SumSwap(ni, np, t(a), u(a), lhsMid(a), v(a));
    }
    var w: int -> int -> int := p => a => v(a)(p);
    var wSums: int -> int := p => Sum(na, w(p));
    SumSwap(na, np, v, w, lhs, wSums);
    forall p | 0 <= p < np
      ensures wSums(p) == rhs(p)
    {
      forall a, i | 0 <= a < na && 0 <= i < ni
        ensures u(a)(p)(i) == tr(p)(i)(a)
      {
        assert TransposedAt(t, tr, a, i, p);
      }
      forall i | 0 <= i < ni
        ensures rhsMid(p)(i) == Sum(na, tr(p)(i))
      {
        assert MidSum(na, rhsMid, tr, p, i);
      }
      assert OuterSum(ni, rhsMid, rhs, p);
      SumSwap(na, ni, a => u(a)(p), tr(p), w(p), rhsMid(p));
    }
    SumExt(np, wSums, rhs);
  }

  /** A sum over `na * ni` terms in blocks of `ni`, each term `a * ni + i` an
      inner sum of `t(a)(i)` over `p < np`, equals the sum over `np * ni`
      terms in blocks of `ni`, each term `p * ni + i` an inner sum of
      `tr(p)(i)` over `a < na`, when `tr(p)(i)(a)` and `t(a)(i)(p)` agree. */
  lemma BlockSwap(na: nat, ni: nat, np: nat, nai: nat, npi: nat, f: int -> int, g: int -> int,
                  t: int -> int -> int -> int, tr: int -> int -> int -> int)
    requires nai == na * ni && npi == np * ni
    requires InnerSums(na, ni, np, f, t) && InnerSums(np, ni, na, g, tr)
    requires Transposed(na, ni, np, t, tr)
    ensures Sum(nai, f) == Sum(npi, g)
  {
    var lhsMid, lhs := Blocked(na, ni, np, nai, f, t);
    var rhsMid, rhs := Blocked(np, ni, na, npi, g, tr);
    TripleSwap(na, ni, np, t, tr, lhsMid, lhs, rhsMid, rhs);
  }

  /** A sum over `na * ni` terms whose term `a * ni + i` is an inner sum of
      `t(a)(i)` over `p < np`, as a double sum: `mid(a)(i)` is that term and
      `outer(a)` sums `mid(a)` over `i`. */
  lemma Blocked(na: nat, ni: nat, np: nat, nai: nat, f: int -> int, t: int -> int -> int -> int)
    returns (mid: int -> int -> int, outer: int -> int)
    requires nai == na * ni
    requires InnerSums(na, ni, np, f, t)
    ensures MidSums(na, ni, np, mid, t) && OuterSums(na, ni, mid, outer)
    ensures Sum(nai, f) == Sum(na, outer)
  {
    mid := a => i => f(a * ni + i);
    outer := a => Sum(ni, mid(a));
    SplitInto(na, ni, nai, f, mid, outer);
    MidOfInner(na, ni, np, f, t, mid);
  }

  /** `SumSplit` for blocks given at every index. */
  lemma SplitInto(na: nat, ni: nat, nai: nat, f: int -> int, mid: int -> int -> int, outer: int -> int)
    requires nai == na * ni
    requires forall a, i :: mid(a)(i) == f(a * ni + i)
    requires forall a :: outer(a) == Sum(ni, mid(a))
    ensures OuterSums(na, ni, mid, outer)
    ensures Sum(nai, f) == Sum(na, outer)
  {
    SumSplit(na, ni, nai, f, mid, outer);
  }

  /** Blocks that are the terms of `f` are its inner sums. */
  lemma MidOfInner(na: nat, ni: nat, np: nat, f: int -> int, t: int -> int -> int -> int, mid: int -> int -> int)
    requires InnerSums(na, ni, np, f, t)
    requires forall a, i :: mid(a)(i) == f(a * ni + i)
    ensures MidSums(na, ni, np, mid, t)
  {
    forall a, i | 0 <= a < na && 0 <= i < ni
      ensures MidSum(np, mid, t, a, i)
    {
      assert InnerSum(ni, np, f, t, a, i);
    }
  }
}
