/** The dense matrix a TT layer stands for, and the fact that the contraction
    loop of the forward pass multiplies its input by that matrix.

    With input index `I = (i_0, ..., i_{L-1})` over the input modes and output
    index `J = (j_0, ..., j_{L-1})` over the output modes, both row-major, the
    TT matrix entry `W[I, J]` is the matrix product of the core slices
    `G_k[j_k, :, :, i_k]` (an `r_k x r_{k+1}` matrix each, read from the 2-D
    core matrix at row `j_k * r_{k+1} + beta` and column `alpha * n_k + i_k`),
    which is `1 x 1` because `r_0 = r_L = 1`. The layer's output row `b` is
    `sum_I x[b, I] * W[I, J]` plus the bias. */
module TtDense {
  import opened Arith
  import opened Outcomes
  import opened Tensors
  import opened Sums
  import opened TtCores
  import opened TtForward

  /** Entry `(i, j)` of `t`, and 0 outside its bounds. */
  function Get(t: Matrix, i: int, j: int): int
  {
    if 0 <= i < t.rows && 0 <= j < t.cols then At(t, i, j) else 0
  }

  /** Both parts of a list of positive sizes split at `i` have a positive product. */
  lemma SlicesPositive(s: seq<int>, i: nat)
    requires AllPositive(s) && i <= |s|
    ensures Prod(s[..i]) > 0 && Prod(s[i..]) > 0
  {
    assert AllPositive(s[..i]) by {
      forall j | 0 <= j < i ensures s[..i][j] > 0 {
        assert s[..i][j] == s[j];
      }
    }
    assert AllPositive(s[i..]) by {
      forall j | 0 <= j < |s| - i ensures s[i..][j] > 0 {
        assert s[i..][j] == s[i + j];
      }
    }
    ProdPositive(s[..i]);
    ProdPositive(s[i..]);
  }

  /** `n_0 * ... * n_{i-1}`: the input positions the first `i` cores consume. */
  function Consumed(cfg: Config, i: nat): nat
    requires cfg.WellFormed() && i <= cfg.Dim()
  {
    SlicesPositive(cfg.inpModes, i);
    Prod(cfg.inpModes[..i])
  }

  /** `n_i * ... * n_{L-1}`: the input positions still to be consumed. */
  function Remaining(cfg: Config, i: nat): nat
    requires cfg.WellFormed() && i <= cfg.Dim()
  {
    SlicesPositive(cfg.inpModes, i);
    Prod(cfg.inpModes[i..])
  }

  /** `m_0 * ... * m_{i-1}`: the output positions the first `i` cores produce. */
  function Produced(cfg: Config, i: nat): nat
    requires cfg.WellFormed() && i <= cfg.Dim()
  {
    SlicesPositive(cfg.outModes, i);
    Prod(cfg.outModes[..i])
  }

  /** Entry `[jj, beta, a, ii]` of core `k`: output mode index `jj`, next rank
      `beta`, previous rank `a`, input mode index `ii`. */
  function Slice(cfg: Config, cores: seq<Matrix>, k: nat, jj: int, beta: int, a: int, ii: int): int
    requires cfg.WellFormed() && |cores| == cfg.Dim() && k < cfg.Dim()
  {
    Get(cores[k], jj * cfg.ranks[k + 1] + beta, a * cfg.inpModes[k] + ii)
  }

  /** Entry `(0, beta)` of the product of the slices of the first `i` cores
      for input index `p` over `n_0, ..., n_{i-1}` and output index `q` over
      `m_0, ..., m_{i-1}`: the last mode of each index is its least
      significant digit and belongs to core `i - 1`. */
  function Chain(cfg: Config, cores: seq<Matrix>, i: nat, p: int, q: int, beta: int): int
    requires cfg.WellFormed() && |cores| == cfg.Dim() && i <= cfg.Dim()
    decreases i
  {
    if i == 0 then 1
    else Sum(cfg.ranks[i - 1], a => Slice(cfg, cores, i - 1, q % cfg.outModes[i - 1], beta, a, p % cfg.inpModes[i - 1])
                                   * Chain(cfg, cores, i - 1, p / cfg.inpModes[i - 1], q / cfg.outModes[i - 1], a))
  }

  /** `W[I, J]`: the TT matrix the cores represent. */
  function TtMatrixEntry(cfg: Config, cores: seq<Matrix>, I: int, J: int): int
    requires cfg.WellFormed() && |cores| == cfg.Dim()
  {
    Chain(cfg, cores, cfg.Dim(), I, J, 0)
  }

  /** What the running tensor holds before step `i` at rank `alpha`, remaining
      input index `s`, batch row `b` and output index `q`: row `b` of the input
      contracted with the first `i` cores over the consumed input modes. */
  function Partial(cfg: Config, cores: seq<Matrix>, x: Matrix, i: nat, alpha: int, s: int, b: int, q: int): int
    requires cfg.WellFormed() && |cores| == cfg.Dim() && i <= cfg.Dim()
  {
    Sum(Consumed(cfg, i), p => Get(x, b, p * Remaining(cfg, i) + s) * Chain(cfg, cores, i, p, q, alpha))
  }

  /** Flat position of `(alpha, s, b, q)` in the running tensor, whose axes are
      rank, remaining input modes, batch and produced output modes. */
  function Cell(alpha: int, s: int, b: int, q: int, remaining: int, batch: int, produced: int): int
  {
    ((alpha * remaining + s) * batch + b) * produced + q
  }

  /** The recursion of `Chain`, stated through any term function that agrees
      with its summand. */
  lemma ChainStep(cfg: Config, cores: seq<Matrix>, i: nat, p: int, q: int, beta: int, f: int -> int)
    requires cfg.WellFormed() && |cores| == cfg.Dim() && 0 < i <= cfg.Dim()
    requires forall a :: 0 <= a < cfg.ranks[i - 1] ==>
      f(a) == Slice(cfg, cores, i - 1, q % cfg.outModes[i - 1], beta, a, p % cfg.inpModes[i - 1])
              * Chain(cfg, cores, i - 1, p / cfg.inpModes[i - 1], q / cfg.outModes[i - 1], a)
    ensures Chain(cfg, cores, i, p, q, beta) == Sum(cfg.ranks[i - 1], f)
  {
    SumExt(cfg.ranks[i - 1], a => Slice(cfg, cores, i - 1, q % cfg.outModes[i - 1], beta, a, p % cfg.inpModes[i - 1])
                                  * Chain(cfg, cores, i - 1, p / cfg.inpModes[i - 1], q / cfg.outModes[i - 1], a), f);
  }

  /** The definition of `Partial`, stated through any term function that
      agrees with its summand. */
  lemma PartialIs(cfg: Config, cores: seq<Matrix>, x: Matrix, i: nat, alpha: int, s: int, b: int, q: int, f: int -> int)
    requires cfg.WellFormed() && |cores| == cfg.Dim() && i <= cfg.Dim()
    requires forall p :: 0 <= p < Consumed(cfg, i) ==> PartialTerm(cfg, cores, x, i, alpha, s, b, q, f, p)
    ensures Partial(cfg, cores, x, i, alpha, s, b, q) == Sum(Consumed(cfg, i), f)
  {
    var d := p => Get(x, b, p * Remaining(cfg, i) + s) * Chain(cfg, cores, i, p, q, alpha);
    forall p | 0 <= p < Consumed(cfg, i)
      ensures d(p) == f(p)
    {
      assert PartialTerm(cfg, cores, x, i, alpha, s, b, q, f, p);
    }
    SumExt(Consumed(cfg, i), d, f);
  }

  /** Term `p` of `f` is the summand of `Partial` at consumed index `p`. */
  ghost predicate PartialTerm(cfg: Config, cores: seq<Matrix>, x: Matrix, i: nat, alpha: int, s: int, b: int, q: int,
                              f: int -> int, p: int)
    requires cfg.WellFormed() && |cores| == cfg.Dim() && i <= cfg.Dim()
  {
    f(p) == Get(x, b, p * Remaining(cfg, i) + s) * Chain(cfg, cores, i, p, q, alpha)
  }

  /** `Dot` is the sum of the products of a row of `a` and a column of `b`. */
  lemma {:induction false} DotAsSum(a: Matrix, b: Matrix, i: nat, j: nat, n: nat, f: int -> int)
    requires a.cols == b.rows && i < a.rows && j < b.cols && n <= a.cols
    requires forall c :: 0 <= c < n ==> f(c) == At(a, i, c) * At(b, c, j)
    ensures Dot(a, b, i, j, n) == Sum(n, f)
  {
    if n > 0 {
      DotAsSum(a, b, i, j, n - 1, f);
    }
  }

  /** Every in-range multi-index has a flat position inside the tensor. */
  lemma CellBound(alpha: int, s: int, b: int, q: int, r: int, remaining: int, batch: int, produced: int)
    requires 0 <= alpha < r && 0 <= s < remaining && 0 <= b < batch && 0 <= q < produced
    ensures 0 <= Cell(alpha, s, b, q, remaining, batch, produced) < r * (remaining * (batch * produced))
  {
    IndexBound(alpha, s, r, remaining);
    IndexBound(alpha * remaining + s, b, r * remaining, batch);
    IndexBound((alpha * remaining + s) * batch + b, q, (r * remaining) * batch, produced);
    MulAssoc(r, remaining, batch);
    MulAssoc(r, remaining * batch, produced);
    MulAssoc(remaining, batch, produced);
  }

  /** The column of the running tensor viewed as `(r * n) x rest` that holds
      remaining input `s`, batch row `b` and output index `q` lies inside `rest`. */
  lemma ColumnBound(s: int, b: int, q: int, tail: int, batch: int, done: int)
    requires 0 <= s < tail && 0 <= b < batch && 0 <= q < done
    ensures 0 <= (s * batch + b) * done + q < tail * (batch * done)
  {
    IndexBound(s, b, tail, batch);
    IndexBound(s * batch + b, q, tail * batch, done);
    MulAssoc(tail, batch, done);
  }

  /** Row `a * n + ii`, column `(s * batch + b) * done + q` of the running
      tensor viewed as `(r * n) x rest` is cell `(a, ii * tail + s, b, q)`. */
  lemma CellOfRow(a: int, ii: int, s: int, b: int, q: int, n: int, tail: int, batch: int, done: int)
    ensures (a * n + ii) * (tail * (batch * done)) + ((s * batch + b) * done + q)
         == Cell(a, ii * tail + s, b, q, n * tail, batch, done)
  {
    var lead := a * n + ii;
    assert lead * tail + s == a * (n * tail) + (ii * tail + s) by {
      MulAssoc(a, n, tail);
    }
    calc {
      lead * (tail * (batch * done)) + ((s * batch + b) * done + q);
      { MulAssoc(lead, tail, batch * done); MulAssoc(lead * tail, batch, done); }
      ((lead * tail) * batch) * done + (s * batch) * done + b * done + q;
      (((lead * tail) * batch + s * batch) + b) * done + q;
      ((lead * tail + s) * batch + b) * done + q;
    }
  }

  /** Entry `(beta * rest + u, jj)` after a step, `u` the column of `(s, b, q)`,
      is cell `(beta, s, b, q * m + jj)` of the next layout. */
  lemma CellOfStep(beta: int, s: int, b: int, q: int, jj: int, tail: int, batch: int, done: int, m: int)
    ensures (beta * (tail * (batch * done)) + ((s * batch + b) * done + q)) * m + jj
         == Cell(beta, s, b, q * m + jj, tail, batch, done * m)
  {
    var lead := (beta * tail + s) * batch + b;
    calc {
      beta * (tail * (batch * done)) + ((s * batch + b) * done + q);
      { MulAssoc(beta, tail, batch * done); MulAssoc(beta * tail, batch, done); }
      ((beta * tail) * batch) * done + (s * batch) * done + b * done + q;
      lead * done + q;
    }
    calc {
      (lead * done + q) * m + jj;
      (lead * done) * m + (q * m + jj);
      { MulAssoc(lead, done, m); }
      lead * (done * m) + (q * m + jj);
    }
  }

  /** Entry `p * n + ii` of the consumed input index, followed by remaining
      index `s`, is input column `p * (n * tail) + (ii * tail + s)`. */
  lemma InputColumn(p: int, ii: int, s: int, n: int, tail: int)
    ensures (p * n + ii) * tail + s == p * (n * tail) + (ii * tail + s)
  {
    MulAssoc(p, n, tail);
  }

  /** Before the first step the transposed input holds `x[b, s]` at cell
      `(0, s, b, 0)`, which is what contracting with no cores gives. */
  lemma RunDenseBase(cfg: Config, cores: seq<Matrix>, x: Matrix, s: nat, b: nat)
    requires cfg.WellFormed() && |cores| == cfg.Dim()
    requires x.cols == Prod(cfg.inpModes)
    requires s < Remaining(cfg, 0) && b < x.rows
    ensures Remaining(cfg, 0) == x.cols && Produced(cfg, 0) == 1 && Consumed(cfg, 0) == 1
    ensures Cell(0, s, b, 0, Remaining(cfg, 0), x.rows, Produced(cfg, 0)) < |Transpose(x).data|
    ensures Transpose(x).data[Cell(0, s, b, 0, Remaining(cfg, 0), x.rows, Produced(cfg, 0))]
         == Partial(cfg, cores, x, 0, 0, s, b, 0)
  {
    assert cfg.inpModes[0..] == cfg.inpModes;
    assert cfg.inpModes[..0] == [] && cfg.outModes[..0] == [];
    RotateAt(x.rows, x.cols, x.data, b, s);
    PartialIs(cfg, cores, x, 0, 0, s, b, 0, p => Get(x, b, p * x.cols + s));
  }

  /** Cell `(beta, s, b, q * m + jj)` after a step on a running tensor of
      `(r * n) * (tail * (batch * done))` entries is row `jj * rNext + beta` of
      the core contracted with column `(s * batch + b) * done + q` of the
      running tensor viewed as `(r * n) x (tail * (batch * done))`. */
  lemma StepCell(t: Matrix, core: Matrix, r: nat, n: nat, m: nat, rNext: nat, tail: nat, batch: nat, done: nat,
                 beta: nat, s: nat, b: nat, q: nat, jj: nat)
    requires r > 0 && n > 0 && m > 0
    requires |t.data| == (r * n) * (tail * (batch * done))
    requires core.rows == m * rNext && core.cols == r * n
    requires beta < rNext && s < tail && b < batch && q < done && jj < m
    ensures Step(t, core, r * n, m).Ok?
    ensures 0 <= (s * batch + b) * done + q < tail * (batch * done)
    ensures jj * rNext + beta < m * rNext
    ensures 0 <= Cell(beta, s, b, q * m + jj, tail, batch, done * m) < |Step(t, core, r * n, m).value.data|
    ensures Step(t, core, r * n, m).value.data[Cell(beta, s, b, q * m + jj, tail, batch, done * m)]
         == Dot(core, Shaped(r * n, tail * (batch * done), t.data), jj * rNext + beta, (s * batch + b) * done + q, r * n)
  {
    var rest := tail * (batch * done);
    var col := (s * batch + b) * done + q;
    MulPositive(r, n);
    StepCellIndex(rNext, tail, batch, done, m, beta, s, b, q, jj);
    StepEntry(t, core, r * n, m, rNext, rest, beta, col, jj);
  }

  /** The index algebra of `StepCell`: cell `(beta, s, b, q * m + jj)` of the
      next layout is row `beta * rest + col`, column `jj` of the step's
      `(rNext * rest) x m` result, `col` being the column of `(s, b, q)`. */
  lemma StepCellIndex(rNext: nat, tail: nat, batch: nat, done: nat, m: nat, beta: nat, s: nat, b: nat, q: nat, jj: nat)
    requires beta < rNext && s < tail && b < batch && q < done && jj < m
    ensures 0 <= (s * batch + b) * done + q < tail * (batch * done)
    ensures beta * (tail * (batch * done)) + ((s * batch + b) * done + q) < rNext * (tail * (batch * done))
    ensures Cell(beta, s, b, q * m + jj, tail, batch, done * m)
         == (beta * (tail * (batch * done)) + ((s * batch + b) * done + q)) * m + jj
    ensures 0 <= Cell(beta, s, b, q * m + jj, tail, batch, done * m) < (rNext * (tail * (batch * done))) * m
  {
    var rest := tail * (batch * done);
    var col := (s * batch + b) * done + q;
    ColumnBound(s, b, q, tail, batch, done);
    IndexBound(beta, col, rNext, rest);
    IndexBound(beta * rest + col, jj, rNext * rest, m);
    CellOfStep(beta, s, b, q, jj, tail, batch, done, m);
  }

  lemma NatProduct(a: nat, b: nat)
    ensures a * b >= 0
  {
  }

  lemma MulSwap(x: int, y: int, z: int)
    ensures x * (y * z) == y * (x * z)
  {
  }

  /** Term `a * n + ii` of the step's product is `C(a)(ii)` times the sum of
      `P(a)(ii)` over the earlier input modes. */
  ghost predicate LeftTerm(n: nat, before: nat, f: int -> int, c: int -> int -> int,
                           partTerms: int -> int -> int -> int, a: int, ii: int)
  {
    f(a * n + ii) == c(a)(ii) * Sum(before, partTerms(a)(ii))
  }

  ghost predicate LeftTerms(r: nat, n: nat, before: nat, f: int -> int, c: int -> int -> int,
                            partTerms: int -> int -> int -> int)
  {
    forall a, ii :: 0 <= a < r && 0 <= ii < n ==> LeftTerm(n, before, f, c, partTerms, a, ii)
  }

  /** `P(a)(ii)(p)` is `X(p)(ii) * Ch(p)(a)`. */
  ghost predicate PartTerm(partTerms: int -> int -> int -> int, xs: int -> int -> int, ch: int -> int -> int,
                           a: int, ii: int, p: int)
  {
    partTerms(a)(ii)(p) == xs(p)(ii) * ch(p)(a)
  }

  ghost predicate PartTerms(r: nat, n: nat, before: nat, partTerms: int -> int -> int -> int,
                            xs: int -> int -> int, ch: int -> int -> int)
  {
    forall a, ii, p :: 0 <= a < r && 0 <= ii < n && 0 <= p < before ==> PartTerm(partTerms, xs, ch, a, ii, p)
  }

  /** Term `p * n + ii` of the next partial contraction is `X(p)(ii)` times
      the sum of `G(p)(ii)` over the ranks. */
  ghost predicate RightTerm(r: nat, n: nat, g: int -> int, xs: int -> int -> int, nextTerms: int -> int -> int -> int,
                            p: int, ii: int)
  {
    g(p * n + ii) == xs(p)(ii) * Sum(r, nextTerms(p)(ii))
  }

  ghost predicate RightTerms(r: nat, n: nat, before: nat, g: int -> int, xs: int -> int -> int,
                             nextTerms: int -> int -> int -> int)
  {
    forall p, ii :: 0 <= p < before && 0 <= ii < n ==> RightTerm(r, n, g, xs, nextTerms, p, ii)
  }

  /** `G(p)(ii)(a)` is `C(a)(ii) * Ch(p)(a)`. */
  ghost predicate NextTerm(nextTerms: int -> int -> int -> int, c: int -> int -> int, ch: int -> int -> int,
                           p: int, ii: int, a: int)
  {
    nextTerms(p)(ii)(a) == c(a)(ii) * ch(p)(a)
  }

  ghost predicate NextTerms(r: nat, n: nat, before: nat, nextTerms: int -> int -> int -> int,
                            c: int -> int -> int, ch: int -> int -> int)
  {
    forall p, ii, a :: 0 <= p < before && 0 <= ii < n && 0 <= a < r ==> NextTerm(nextTerms, c, ch, p, ii, a)
  }

  /** Each block of the step's product is the inner sum of the triple sum
      with the earlier input modes innermost. */
  lemma LeftInner(r: nat, n: nat, before: nat, f: int -> int, c: int -> int -> int, xs: int -> int -> int,
                  ch: int -> int -> int, partTerms: int -> int -> int -> int, tt: int -> int -> int -> int)
    requires LeftTerms(r, n, before, f, c, partTerms) && PartTerms(r, n, before, partTerms, xs, ch)
    requires forall a, ii, p :: tt(a)(ii)(p) == c(a)(ii) * (xs(p)(ii) * ch(p)(a))
    ensures InnerSums(r, n, before, f, tt)
  {
    forall a, ii | 0 <= a < r && 0 <= ii < n
      ensures InnerSum(n, before, f, tt, a, ii)
    {
      assert LeftTerm(n, before, f, c, partTerms, a, ii);
      forall p | 0 <= p < before
        ensures tt(a)(ii)(p) == c(a)(ii) * partTerms(a)(ii)(p)
      {
        assert PartTerm(partTerms, xs, ch, a, ii, p);
      }
      SumScale(before, c(a)(ii), partTerms(a)(ii), tt(a)(ii));
    }
  }

  /** Each block of the next partial contraction is the inner sum of the
      triple sum with the ranks innermost. */
  lemma RightInner(r: nat, n: nat, before: nat, g: int -> int, c: int -> int -> int, xs: int -> int -> int,
                   ch: int -> int -> int, nextTerms: int -> int -> int -> int, tr: int -> int -> int -> int)
    requires RightTerms(r, n, before, g, xs, nextTerms) && NextTerms(r, n, before, nextTerms, c, ch)
    requires forall p, ii, a :: tr(p)(ii)(a) == xs(p)(ii) * (c(a)(ii) * ch(p)(a))
    ensures InnerSums(before, n, r, g, tr)
  {
    forall p, ii | 0 <= p < before && 0 <= ii < n
      ensures InnerSum(n, r, g, tr, p, ii)
    {
      assert RightTerm(r, n, g, xs, nextTerms, p, ii);
      forall a | 0 <= a < r
        ensures tr(p)(ii)(a) == xs(p)(ii) * nextTerms(p)(ii)(a)
      {
        assert NextTerm(nextTerms, c, ch, p, ii, a);
      }
      SumScale(r, xs(p)(ii), nextTerms(p)(ii), tr(p)(ii));
    }
  }

  /** The sum rearrangement behind one step. The step's product sums
      `C(a)(ii) * P(a)(ii)` over the previous rank `a < r` and input mode
      `ii < n`, where `P(a)(ii)` sums `X(p)(ii) * Ch(p)(a)` over the earlier
      input modes `p < before`; the next partial contraction sums
      `X(p)(ii) * G(p)(ii)` over `p` and `ii`, where `G(p)(ii)` sums
      `C(a)(ii) * Ch(p)(a)` over `a`. Both are the same triple sum. */
  lemma ContractionSums(r: nat, n: nat, before: nat, rn: nat, bn: nat, f: int -> int, g: int -> int,
                        c: int -> int -> int, xs: int -> int -> int, ch: int -> int -> int,
                        partTerms: int -> int -> int -> int, nextTerms: int -> int -> int -> int)
    requires rn == r * n && bn == before * n
    requires LeftTerms(r, n, before, f, c, partTerms) && PartTerms(r, n, before, partTerms, xs, ch)
    requires RightTerms(r, n, before, g, xs, nextTerms) && NextTerms(r, n, before, nextTerms, c, ch)
    ensures Sum(rn, f) == Sum(bn, g)
  {
    var tt: int -> int -> int -> int := a => ii => p => c(a)(ii) * (xs(p)(ii) * ch(p)(a));
    var tr: int -> int -> int -> int := p => ii => a => xs(p)(ii) * (c(a)(ii) * ch(p)(a));
    LeftInner(r, n, before, f, c, xs, ch, partTerms, tt);
    RightInner(r, n, before, g, c, xs, ch, nextTerms, tr);
    forall a, ii, p | 0 <= a < r && 0 <= ii < n && 0 <= p < before
      ensures TransposedAt(tt, tr, a, ii, p)
    {
      MulSwap(xs(p)(ii), c(a)(ii), ch(p)(a));
    }
    BlockSwap(r, n, before, rn, bn, f, g, tt, tr);
  }

  /** Every cell before step `k` holds its partial contraction. */
  ghost predicate HoldsPartials(cfg: Config, cores: seq<Matrix>, x: Matrix, k: nat, t: Matrix)
    requires cfg.WellFormed() && |cores| == cfg.Dim() && k <= cfg.Dim()
  {
    forall alpha, s0, b0, q0 ::
      0 <= alpha < cfg.ranks[k] && 0 <= s0 < Remaining(cfg, k) && 0 <= b0 < x.rows && 0 <= q0 < Produced(cfg, k) ==>
        HoldsPartial(cfg, cores, x, k, t, alpha, s0, b0, q0)
  }

  /** Cell `(alpha, s0, b0, q0)` before step `k` holds its partial contraction. */
  ghost predicate HoldsPartial(cfg: Config, cores: seq<Matrix>, x: Matrix, k: nat, t: Matrix, alpha: int, s0: int, b0: int, q0: int)
    requires cfg.WellFormed() && |cores| == cfg.Dim() && k <= cfg.Dim()
  {
    && 0 <= Cell(alpha, s0, b0, q0, Remaining(cfg, k), x.rows, Produced(cfg, k)) < |t.data|
    && t.data[Cell(alpha, s0, b0, q0, Remaining(cfg, k), x.rows, Produced(cfg, k))]
       == Partial(cfg, cores, x, k, alpha, s0, b0, q0)
  }

  /** How the sizes of the layout change over one step. */
  lemma StepSizes(cfg: Config, k: nat, batch: nat)
    requires cfg.WellFormed() && k < cfg.Dim()
    ensures Remaining(cfg, k) == cfg.inpModes[k] * Remaining(cfg, k + 1)
    ensures Produced(cfg, k + 1) == Produced(cfg, k) * cfg.outModes[k]
    ensures Consumed(cfg, k + 1) == Consumed(cfg, k) * cfg.inpModes[k]
    ensures RunSize(cfg, batch, k)
         == (cfg.ranks[k] * cfg.inpModes[k]) * (Remaining(cfg, k + 1) * (batch * Produced(cfg, k)))
  {
    ProdSuffixStep(cfg.inpModes, k);
    ProdPrefixStep(cfg.outModes, k);
    ProdPrefixStep(cfg.inpModes, k);
    RegroupLeading(cfg.ranks[k], cfg.inpModes[k], Remaining(cfg, k + 1), batch * Produced(cfg, k));
  }

  /** Row `a * n + ii` of the running tensor viewed as `(r * n) x rest`, at the
      column of `(s, b, q)`, is the partial contraction at rank `a` and
      remaining input `ii * tail + s`. */
  lemma LeftEntry(cfg: Config, cores: seq<Matrix>, x: Matrix, k: nat, t: Matrix, tail: nat, done: nat,
                  a: nat, ii: nat, s: nat, b: nat, q: nat)
    requires cfg.WellFormed() && |cores| == cfg.Dim() && k < cfg.Dim()
    requires HoldsPartials(cfg, cores, x, k, t)
    requires Remaining(cfg, k) == cfg.inpModes[k] * tail && Produced(cfg, k) == done
    requires |t.data| == (cfg.ranks[k] * cfg.inpModes[k]) * (tail * (x.rows * done))
    requires a < cfg.ranks[k] && ii < cfg.inpModes[k] && s < tail && b < x.rows && q < done
    ensures ii * tail + s < Remaining(cfg, k)
    ensures Get(Shaped(cfg.ranks[k] * cfg.inpModes[k], tail * (x.rows * done), t.data),
                a * cfg.inpModes[k] + ii, (s * x.rows + b) * done + q)
         == Partial(cfg, cores, x, k, a, ii * tail + s, b, q)
  {
    var r, n, batch := cfg.ranks[k], cfg.inpModes[k], x.rows;
    IndexBound(a, ii, r, n);
    IndexBound(ii, s, n, tail);
    ColumnBound(s, b, q, tail, batch, done);
    CellOfRow(a, ii, s, b, q, n, tail, batch, done);
    assert HoldsPartial(cfg, cores, x, k, t, a, ii * tail + s, b, q);
  }

  /** Term `a * n + ii` of the step's product is the core slice
      `[jj, beta, a, ii]` times the partial contraction at rank `a` and
      remaining input `ii * tail + s`. */
  ghost predicate StepTerm(cfg: Config, cores: seq<Matrix>, x: Matrix, k: nat, tail: nat,
                           jj: nat, beta: nat, s: nat, b: nat, q: nat, f: int -> int, a: int, ii: int)
    requires cfg.WellFormed() && |cores| == cfg.Dim() && k < cfg.Dim()
  {
    f(a * cfg.inpModes[k] + ii) == Slice(cfg, cores, k, jj, beta, a, ii) * Partial(cfg, cores, x, k, a, ii * tail + s, b, q)
  }

  ghost predicate StepTerms(cfg: Config, cores: seq<Matrix>, x: Matrix, k: nat, tail: nat,
                            jj: nat, beta: nat, s: nat, b: nat, q: nat, f: int -> int)
    requires cfg.WellFormed() && |cores| == cfg.Dim() && k < cfg.Dim()
  {
    forall a, ii :: 0 <= a < cfg.ranks[k] && 0 <= ii < cfg.inpModes[k] ==> StepTerm(cfg, cores, x, k, tail, jj, beta, s, b, q, f, a, ii)
  }

  /** The terms of the step's product, in blocks of the input mode. */
  lemma LeftBlocks(cfg: Config, cores: seq<Matrix>, x: Matrix, k: nat, t: Matrix, rn: nat, rest: nat, tail: nat, done: nat,
                   beta: nat, s: nat, b: nat, q: nat, jj: nat, f: int -> int)
    requires cfg.WellFormed() && |cores| == cfg.Dim() && k < cfg.Dim()
    requires HoldsPartials(cfg, cores, x, k, t)
    requires Remaining(cfg, k) == cfg.inpModes[k] * tail && Produced(cfg, k) == done
    requires rn == cfg.ranks[k] * cfg.inpModes[k] && rest == tail * (x.rows * done) && |t.data| == rn * rest
    requires s < tail && b < x.rows && q < done
    requires forall i :: f(i) == Get(cores[k], jj * cfg.ranks[k + 1] + beta, i)
                                 * Get(Shaped(rn, rest, t.data), i, (s * x.rows + b) * done + q)
    ensures StepTerms(cfg, cores, x, k, tail, jj, beta, s, b, q, f)
  {
    forall a, ii | 0 <= a < cfg.ranks[k] && 0 <= ii < cfg.inpModes[k]
      ensures StepTerm(cfg, cores, x, k, tail, jj, beta, s, b, q, f, a, ii)
    {
      LeftEntry(cfg, cores, x, k, t, tail, done, a, ii, s, b, q);
    }
  }

  /** The step's product as a sum over its `r * n` terms, each of them a core
      slice times a partial contraction. */
  lemma StepProducts(cfg: Config, cores: seq<Matrix>, x: Matrix, k: nat, t: Matrix, rn: nat, rest: nat, tail: nat, done: nat,
                     beta: nat, s: nat, b: nat, q: nat, jj: nat) returns (f: int -> int)
    requires cfg.WellFormed() && CoresFit(cfg, cores) && k < cfg.Dim()
    requires HoldsPartials(cfg, cores, x, k, t)
    requires Remaining(cfg, k) == cfg.inpModes[k] * tail && Produced(cfg, k) == done
    requires rn == cfg.ranks[k] * cfg.inpModes[k] && rest == tail * (x.rows * done) && |t.data| == rn * rest
    requires beta < cfg.ranks[k + 1] && s < tail && b < x.rows && q < done && jj < cfg.outModes[k]
    ensures jj * cfg.ranks[k + 1] + beta < cores[k].rows && (s * x.rows + b) * done + q < rest
    ensures Dot(cores[k], Shaped(rn, rest, t.data), jj * cfg.ranks[k + 1] + beta, (s * x.rows + b) * done + q, rn)
         == Sum(rn, f)
    ensures StepTerms(cfg, cores, x, k, tail, jj, beta, s, b, q, f)
  {
    var row, col := jj * cfg.ranks[k + 1] + beta, (s * x.rows + b) * done + q;
    var a2 := Shaped(rn, rest, t.data);
    IndexBound(jj, beta, cfg.outModes[k], cfg.ranks[k + 1]);
    ColumnBound(s, b, q, tail, x.rows, done);
    f := i => Get(cores[k], row, i) * Get(a2, i, col);
    DotAsSum(cores[k], a2, row, col, rn, f);
    LeftBlocks(cfg, cores, x, k, t, rn, rest, tail, done, beta, s, b, q, jj, f);
  }

  /** `C(a)(ii)` is the core slice `[jj, beta, a, ii]`. */
  ghost predicate SliceAt(cfg: Config, cores: seq<Matrix>, k: nat, jj: nat, beta: nat, c: int -> int -> int, a: int, ii: int)
    requires cfg.WellFormed() && |cores| == cfg.Dim() && k < cfg.Dim()
  {
    c(a)(ii) == Slice(cfg, cores, k, jj, beta, a, ii)
  }

  ghost predicate SliceTerms(cfg: Config, cores: seq<Matrix>, k: nat, jj: nat, beta: nat, c: int -> int -> int)
    requires cfg.WellFormed() && |cores| == cfg.Dim() && k < cfg.Dim()
  {
    forall a, ii :: SliceAt(cfg, cores, k, jj, beta, c, a, ii)
  }

  /** `X(p)(ii)` is the input entry at consumed index `p`, input mode index
      `ii` and remaining index `s`. */
  ghost predicate InputAt(cfg: Config, x: Matrix, k: nat, tail: nat, s: nat, b: nat, xs: int -> int -> int, p: int, ii: int)
    requires cfg.WellFormed() && k <= cfg.Dim()
  {
    xs(p)(ii) == Get(x, b, p * Remaining(cfg, k) + (ii * tail + s))
  }

  ghost predicate InputTerms(cfg: Config, x: Matrix, k: nat, tail: nat, s: nat, b: nat, xs: int -> int -> int)
    requires cfg.WellFormed() && k <= cfg.Dim()
  {
    forall p, ii :: InputAt(cfg, x, k, tail, s, b, xs, p, ii)
  }

  /** `Ch(p)(a)` is the chain of the first `k` cores at input `p`, output `q`
      and rank `a`. */
  ghost predicate ChainAt(cfg: Config, cores: seq<Matrix>, k: nat, q: nat, ch: int -> int -> int, p: int, a: int)
    requires cfg.WellFormed() && |cores| == cfg.Dim() && k <= cfg.Dim()
  {
    ch(p)(a) == Chain(cfg, cores, k, p, q, a)
  }

  ghost predicate ChainTerms(cfg: Config, cores: seq<Matrix>, k: nat, q: nat, ch: int -> int -> int)
    requires cfg.WellFormed() && |cores| == cfg.Dim() && k <= cfg.Dim()
  {
    forall p, a :: ChainAt(cfg, cores, k, q, ch, p, a)
  }

  /** The term families of the step's triple sum. */
  lemma TripleTerms(cfg: Config, cores: seq<Matrix>, x: Matrix, k: nat, tail: nat, s: nat, b: nat, q: nat, jj: nat, beta: nat)
    returns (c: int -> int -> int, xs: int -> int -> int, ch: int -> int -> int,
             partTerms: int -> int -> int -> int, nextTerms: int -> int -> int -> int)
    requires cfg.WellFormed() && |cores| == cfg.Dim() && k < cfg.Dim()
    ensures SliceTerms(cfg, cores, k, jj, beta, c) && InputTerms(cfg, x, k, tail, s, b, xs) && ChainTerms(cfg, cores, k, q, ch)
    ensures PartTerms(cfg.ranks[k], cfg.inpModes[k], Consumed(cfg, k), partTerms, xs, ch)
    ensures NextTerms(cfg.ranks[k], cfg.inpModes[k], Consumed(cfg, k), nextTerms, c, ch)
  {
    c := a => ii => Slice(cfg, cores, k, jj, beta, a, ii);
    xs := p => ii => Get(x, b, p * Remaining(cfg, k) + (ii * tail + s));
    ch := p => a => Chain(cfg, cores, k, p, q, a);
    partTerms := a => ii => p => xs(p)(ii) * ch(p)(a);
    nextTerms := p => ii => a => c(a)(ii) * ch(p)(a);
  }

  /** One term of the step's product, rewritten as a core slice times a sum
      over the consumed input positions. */
  lemma LeftSum(cfg: Config, cores: seq<Matrix>, x: Matrix, k: nat, tail: nat, s: nat, b: nat, q: nat, jj: nat, beta: nat,
                f: int -> int, c: int -> int -> int, xs: int -> int -> int, ch: int -> int -> int,
                partTerms: int -> int -> int -> int, a: nat, ii: nat)
    requires cfg.WellFormed() && |cores| == cfg.Dim() && k < cfg.Dim()
    requires StepTerms(cfg, cores, x, k, tail, jj, beta, s, b, q, f)
    requires SliceTerms(cfg, cores, k, jj, beta, c) && InputTerms(cfg, x, k, tail, s, b, xs) && ChainTerms(cfg, cores, k, q, ch)
    requires PartTerms(cfg.ranks[k], cfg.inpModes[k], Consumed(cfg, k), partTerms, xs, ch)
    requires a < cfg.ranks[k] && ii < cfg.inpModes[k]
    ensures LeftTerm(cfg.inpModes[k], Consumed(cfg, k), f, c, partTerms, a, ii)
  {
    assert StepTerm(cfg, cores, x, k, tail, jj, beta, s, b, q, f, a, ii);
    assert SliceAt(cfg, cores, k, jj, beta, c, a, ii);
    var sIn := ii * tail + s;
    forall p | 0 <= p < Consumed(cfg, k)
      ensures PartialTerm(cfg, cores, x, k, a, sIn, b, q, partTerms(a)(ii), p)
    {
      assert PartTerm(partTerms, xs, ch, a, ii, p);
      assert InputAt(cfg, x, k, tail, s, b, xs, p, ii);
      assert ChainAt(cfg, cores, k, q, ch, p, a);
    }
    PartialIs(cfg, cores, x, k, a, sIn, b, q, partTerms(a)(ii));
  }

  /** The step's product terms, rewritten as a core slice times a sum over the
      consumed input positions. */
  lemma LeftSums(cfg: Config, cores: seq<Matrix>, x: Matrix, k: nat, tail: nat, s: nat, b: nat, q: nat, jj: nat, beta: nat,
                 f: int -> int, c: int -> int -> int, xs: int -> int -> int, ch: int -> int -> int,
                 partTerms: int -> int -> int -> int)
    requires cfg.WellFormed() && |cores| == cfg.Dim() && k < cfg.Dim()
    requires StepTerms(cfg, cores, x, k, tail, jj, beta, s, b, q, f)
    requires SliceTerms(cfg, cores, k, jj, beta, c) && InputTerms(cfg, x, k, tail, s, b, xs) && ChainTerms(cfg, cores, k, q, ch)
    requires PartTerms(cfg.ranks[k], cfg.inpModes[k], Consumed(cfg, k), partTerms, xs, ch)
    ensures LeftTerms(cfg.ranks[k], cfg.inpModes[k], Consumed(cfg, k), f, c, partTerms)
  {
    forall a, ii | 0 <= a < cfg.ranks[k] && 0 <= ii < cfg.inpModes[k]
      ensures LeftTerm(cfg.inpModes[k], Consumed(cfg, k), f, c, partTerms, a, ii)
    {
      LeftSum(cfg, cores, x, k, tail, s, b, q, jj, beta, f, c, xs, ch, partTerms, a, ii);
    }
  }

  /** Term `p` of the next partial contraction. */
  ghost predicate NextInputAt(cfg: Config, cores: seq<Matrix>, x: Matrix, k: nat, s: nat, b: nat, q: nat, jj: nat, beta: nat,
                              g: int -> int, p: int)
    requires cfg.WellFormed() && |cores| == cfg.Dim() && k < cfg.Dim()
  {
    g(p) == Get(x, b, p * Remaining(cfg, k + 1) + s) * Chain(cfg, cores, k + 1, p, q * cfg.outModes[k] + jj, beta)
  }

  ghost predicate NextInput(cfg: Config, cores: seq<Matrix>, x: Matrix, k: nat, s: nat, b: nat, q: nat, jj: nat, beta: nat,
                            g: int -> int)
    requires cfg.WellFormed() && |cores| == cfg.Dim() && k < cfg.Dim()
  {
    forall p :: NextInputAt(cfg, cores, x, k, s, b, q, jj, beta, g, p)
  }

  /** The terms of the next partial contraction. */
  lemma NextPartial(cfg: Config, cores: seq<Matrix>, x: Matrix, k: nat, s: nat, b: nat, q: nat, jj: nat, beta: nat)
    returns (g: int -> int)
    requires cfg.WellFormed() && |cores| == cfg.Dim() && k < cfg.Dim()
    ensures NextInput(cfg, cores, x, k, s, b, q, jj, beta, g)
    ensures Partial(cfg, cores, x, k + 1, beta, s, b, q * cfg.outModes[k] + jj) == Sum(Consumed(cfg, k + 1), g)
  {
    g := p => Get(x, b, p * Remaining(cfg, k + 1) + s) * Chain(cfg, cores, k + 1, p, q * cfg.outModes[k] + jj, beta);
    PartialIs(cfg, cores, x, k + 1, beta, s, b, q * cfg.outModes[k] + jj, g);
  }

  /** The next chain at input `p * n + ii` and output `q * m + jj` is the
      previous chain at `p` and `q` contracted with core `k`'s slice
      `[jj, beta, :, ii]`. */
  lemma RightEntry(cfg: Config, cores: seq<Matrix>, k: nat, p: nat, ii: nat, q: nat, jj: nat, beta: nat, h: int -> int)
    requires cfg.WellFormed() && |cores| == cfg.Dim() && k < cfg.Dim()
    requires ii < cfg.inpModes[k] && jj < cfg.outModes[k]
    requires forall a :: 0 <= a < cfg.ranks[k] ==> h(a) == Slice(cfg, cores, k, jj, beta, a, ii) * Chain(cfg, cores, k, p, q, a)
    ensures Chain(cfg, cores, k + 1, p * cfg.inpModes[k] + ii, q * cfg.outModes[k] + jj, beta) == Sum(cfg.ranks[k], h)
  {
    DivModOf(p, ii, cfg.inpModes[k]);
    DivModOf(q, jj, cfg.outModes[k]);
    ChainStep(cfg, cores, k + 1, p * cfg.inpModes[k] + ii, q * cfg.outModes[k] + jj, beta, h);
  }

  /** One term of the next partial contraction, in blocks of the input mode:
      term `p * n + ii` is an input entry times a sum over the previous rank. */
  lemma RightBlock(cfg: Config, cores: seq<Matrix>, x: Matrix, k: nat, tail: nat, s: nat, b: nat, q: nat, jj: nat, beta: nat,
                   g: int -> int, c: int -> int -> int, xs: int -> int -> int, ch: int -> int -> int,
                   nextTerms: int -> int -> int -> int, p: nat, ii: nat)
    requires cfg.WellFormed() && |cores| == cfg.Dim() && k < cfg.Dim() && jj < cfg.outModes[k]
    requires Remaining(cfg, k) == cfg.inpModes[k] * tail && tail == Remaining(cfg, k + 1)
    requires NextInput(cfg, cores, x, k, s, b, q, jj, beta, g)
    requires SliceTerms(cfg, cores, k, jj, beta, c) && InputTerms(cfg, x, k, tail, s, b, xs) && ChainTerms(cfg, cores, k, q, ch)
    requires NextTerms(cfg.ranks[k], cfg.inpModes[k], Consumed(cfg, k), nextTerms, c, ch)
    requires p < Consumed(cfg, k) && ii < cfg.inpModes[k]
    ensures RightTerm(cfg.ranks[k], cfg.inpModes[k], g, xs, nextTerms, p, ii)
  {
    var pi := p * cfg.inpModes[k] + ii;
    var col := pi * tail + s;
    InputColumn(p, ii, s, cfg.inpModes[k], tail);
    assert col == p * Remaining(cfg, k) + (ii * tail + s);
    var entry := Get(x, b, col);
    var chain := Chain(cfg, cores, k + 1, pi, q * cfg.outModes[k] + jj, beta);
    assert NextInputAt(cfg, cores, x, k, s, b, q, jj, beta, g, pi);
    assert g(pi) == entry * chain;
    assert InputAt(cfg, x, k, tail, s, b, xs, p, ii);
    assert xs(p)(ii) == entry;
    RankTerms(cfg, cores, k, q, jj, beta, c, ch, nextTerms, p, ii);
    RightEntry(cfg, cores, k, p, ii, q, jj, beta, nextTerms(p)(ii));
    assert chain == Sum(cfg.ranks[k], nextTerms(p)(ii));
  }

  /** The terms over the previous rank in block `(p, ii)` are core slices
      times chains of the first `k` cores. */
  lemma RankTerms(cfg: Config, cores: seq<Matrix>, k: nat, q: nat, jj: nat, beta: nat,
                  c: int -> int -> int, ch: int -> int -> int, nextTerms: int -> int -> int -> int, p: nat, ii: nat)
    requires cfg.WellFormed() && |cores| == cfg.Dim() && k < cfg.Dim()
    requires SliceTerms(cfg, cores, k, jj, beta, c) && ChainTerms(cfg, cores, k, q, ch)
    requires NextTerms(cfg.ranks[k], cfg.inpModes[k], Consumed(cfg, k), nextTerms, c, ch)
    requires p < Consumed(cfg, k) && ii < cfg.inpModes[k]
    ensures forall a :: 0 <= a < cfg.ranks[k] ==>
      nextTerms(p)(ii)(a) == Slice(cfg, cores, k, jj, beta, a, ii) * Chain(cfg, cores, k, p, q, a)
  {
    forall a | 0 <= a < cfg.ranks[k]
      ensures nextTerms(p)(ii)(a) == Slice(cfg, cores, k, jj, beta, a, ii) * Chain(cfg, cores, k, p, q, a)
    {
      assert NextTerm(nextTerms, c, ch, p, ii, a);
      assert SliceAt(cfg, cores, k, jj, beta, c, a, ii);
      assert ChainAt(cfg, cores, k, q, ch, p, a);
    }
  }

  /** The terms of the next partial contraction, in blocks of the input mode. */
  lemma RightSums(cfg: Config, cores: seq<Matrix>, x: Matrix, k: nat, tail: nat, s: nat, b: nat, q: nat, jj: nat, beta: nat,
                  g: int -> int, c: int -> int -> int, xs: int -> int -> int, ch: int -> int -> int,
                  nextTerms: int -> int -> int -> int)
    requires cfg.WellFormed() && |cores| == cfg.Dim() && k < cfg.Dim() && jj < cfg.outModes[k]
    requires Remaining(cfg, k) == cfg.inpModes[k] * tail && tail == Remaining(cfg, k + 1)
    requires NextInput(cfg, cores, x, k, s, b, q, jj, beta, g)
    requires SliceTerms(cfg, cores, k, jj, beta, c) && InputTerms(cfg, x, k, tail, s, b, xs) && ChainTerms(cfg, cores, k, q, ch)
    requires NextTerms(cfg.ranks[k], cfg.inpModes[k], Consumed(cfg, k), nextTerms, c, ch)
    ensures RightTerms(cfg.ranks[k], cfg.inpModes[k], Consumed(cfg, k), g, xs, nextTerms)
  {
    forall p, ii | 0 <= p < Consumed(cfg, k) && 0 <= ii < cfg.inpModes[k]
      ensures RightTerm(cfg.ranks[k], cfg.inpModes[k], g, xs, nextTerms, p, ii)
    {
      RightBlock(cfg, cores, x, k, tail, s, b, q, jj, beta, g, c, xs, ch, nextTerms, p, ii);
    }
  }

  /** The sum the step's matrix product computes, once each of its terms is
      known to be a core slice times a partial contraction, is the next
      partial contraction: the triple sum over the previous rank, the input
      mode and the earlier input modes is taken in the other order. */
  lemma StepSum(cfg: Config, cores: seq<Matrix>, x: Matrix, k: nat, rn: nat, beta: nat, s: nat, b: nat, q: nat, jj: nat,
                f: int -> int)
    requires cfg.WellFormed() && |cores| == cfg.Dim() && k < cfg.Dim()
    requires jj < cfg.outModes[k] && rn == cfg.ranks[k] * cfg.inpModes[k]
    requires StepTerms(cfg, cores, x, k, Remaining(cfg, k + 1), jj, beta, s, b, q, f)
    ensures Sum(rn, f) == Partial(cfg, cores, x, k + 1, beta, s, b, q * cfg.outModes[k] + jj)
  {
    var tail := Remaining(cfg, k + 1);
    StepSizes(cfg, k, 0);
    NatProduct(Consumed(cfg, k), cfg.inpModes[k]);
    var bn: nat := Consumed(cfg, k) * cfg.inpModes[k];
    var g := NextPartial(cfg, cores, x, k, s, b, q, jj, beta);
    var c, xs, ch, partTerms, nextTerms := TripleTerms(cfg, cores, x, k, tail, s, b, q, jj, beta);
    LeftSums(cfg, cores, x, k, tail, s, b, q, jj, beta, f, c, xs, ch, partTerms);
    RightSums(cfg, cores, x, k, tail, s, b, q, jj, beta, g, c, xs, ch, nextTerms);
    ContractionSums(cfg.ranks[k], cfg.inpModes[k], Consumed(cfg, k), rn, bn, f, g, c, xs, ch, partTerms, nextTerms);
  }

  /** One step of the loop keeps the invariant: if every cell before step `k`
      holds its partial contraction, so does cell `(beta, s, b, q * m + jj)`
      after it. */
  lemma RunDenseStep(cfg: Config, cores: seq<Matrix>, x: Matrix, k: nat, t: Matrix,
                     beta: nat, s: nat, b: nat, q: nat, jj: nat)
    requires cfg.WellFormed() && CoresFit(cfg, cores) && k < cfg.Dim()
    requires |t.data| == RunSize(cfg, x.rows, k)
    requires HoldsPartials(cfg, cores, x, k, t)
    requires beta < cfg.ranks[k + 1] && s < Remaining(cfg, k + 1) && b < x.rows
    requires q < Produced(cfg, k) && jj < cfg.outModes[k]
    ensures StepAt(cfg, cores, k, t).Ok?
    ensures Cell(beta, s, b, q * cfg.outModes[k] + jj, Remaining(cfg, k + 1), x.rows, Produced(cfg, k + 1))
            < |StepAt(cfg, cores, k, t).value.data|
    ensures StepAt(cfg, cores, k, t).value.data[Cell(beta, s, b, q * cfg.outModes[k] + jj, Remaining(cfg, k + 1), x.rows, Produced(cfg, k + 1))]
         == Partial(cfg, cores, x, k + 1, beta, s, b, q * cfg.outModes[k] + jj)
  {
    var r, n, m, rNext := cfg.ranks[k], cfg.inpModes[k], cfg.outModes[k], cfg.ranks[k + 1];
    var tail, batch, done := Remaining(cfg, k + 1), x.rows, Produced(cfg, k);
    StepSizes(cfg, k, batch);
    NatProduct(r, n);
    NatProduct(batch, done);
    NatProduct(tail, batch * done);
    var rn: nat, rest: nat := r * n, tail * (batch * done);
    var core := cores[k];
    assert StepAt(cfg, cores, k, t) == Step(t, core, rn, m);
    StepCell(t, core, r, n, m, rNext, tail, batch, done, beta, s, b, q, jj);
    StepDot(cfg, cores, x, k, t, rn, rest, tail, done, beta, s, b, q, jj);
  }

  /** The product of core `k`'s row `jj * r_{k+1} + beta` with the running
      tensor's column of `(s, b, q)` is the next partial contraction at rank
      `beta`, remaining input `s` and output `q * m + jj`. */
  lemma StepDot(cfg: Config, cores: seq<Matrix>, x: Matrix, k: nat, t: Matrix, rn: nat, rest: nat, tail: nat, done: nat,
                beta: nat, s: nat, b: nat, q: nat, jj: nat)
    requires cfg.WellFormed() && CoresFit(cfg, cores) && k < cfg.Dim()
    requires HoldsPartials(cfg, cores, x, k, t)
    requires tail == Remaining(cfg, k + 1) && done == Produced(cfg, k)
    requires rn == cfg.ranks[k] * cfg.inpModes[k] && rest == tail * (x.rows * done) && |t.data| == rn * rest
    requires beta < cfg.ranks[k + 1] && s < tail && b < x.rows && q < done && jj < cfg.outModes[k]
    ensures jj * cfg.ranks[k + 1] + beta < cores[k].rows && (s * x.rows + b) * done + q < rest
    ensures Dot(cores[k], Shaped(rn, rest, t.data), jj * cfg.ranks[k + 1] + beta, (s * x.rows + b) * done + q, rn)
         == Partial(cfg, cores, x, k + 1, beta, s, b, q * cfg.outModes[k] + jj)
  {
    StepSizes(cfg, k, x.rows);
    var f := StepProducts(cfg, cores, x, k, t, rn, rest, tail, done, beta, s, b, q, jj);
    StepSum(cfg, cores, x, k, rn, beta, s, b, q, jj, f);
  }


  /** Layout and value invariant of the contraction loop: before step `i`,
      cell `(alpha, s, b, q)` of the running tensor holds row `b` of the input
      contracted with the first `i` cores, summed over the consumed input
      modes, at rank `alpha`, remaining input index `s` and output index `q`. */
  lemma {:induction false} RunDense(cfg: Config, cores: seq<Matrix>, x: Matrix, i: nat, alpha: nat, s: nat, b: nat, q: nat)
    requires cfg.WellFormed() && cfg.ranks[0] == 1 && CoresFit(cfg, cores)
    requires x.cols == Prod(cfg.inpModes)
    requires i <= cfg.Dim()
    requires alpha < cfg.ranks[i] && s < Remaining(cfg, i) && b < x.rows && q < Produced(cfg, i)
    ensures Run(cfg, cores, Transpose(x), i).Ok?
    ensures Cell(alpha, s, b, q, Remaining(cfg, i), x.rows, Produced(cfg, i)) < |Run(cfg, cores, Transpose(x), i).value.data|
    ensures Run(cfg, cores, Transpose(x), i).value.data[Cell(alpha, s, b, q, Remaining(cfg, i), x.rows, Produced(cfg, i))]
         == Partial(cfg, cores, x, i, alpha, s, b, q)
  {
    var t0 := Transpose(x);
    assert |t0.data| == Prod(cfg.inpModes) * x.rows;
    RunLayout(cfg, cores, t0, x.rows, i);
    if i == 0 {
      RunDenseBase(cfg, cores, x, s, b);
    } else {
      var k := i - 1;
      RunLayout(cfg, cores, t0, x.rows, k);
      var t := Run(cfg, cores, t0, k).value;
      forall alpha0, s0, b0, q0 |
        0 <= alpha0 < cfg.ranks[k] && 0 <= s0 < Remaining(cfg, k) && 0 <= b0 < x.rows && 0 <= q0 < Produced(cfg, k)
        ensures HoldsPartial(cfg, cores, x, k, t, alpha0, s0, b0, q0)
      {
        CellBound(alpha0, s0, b0, q0, cfg.ranks[k], Remaining(cfg, k), x.rows, Produced(cfg, k));
        RunDense(cfg, cores, x, k, alpha0, s0, b0, q0);
      }
      assert HoldsPartials(cfg, cores, x, k, t);
      var m := cfg.outModes[k];
      ProdPrefixStep(cfg.outModes, k);
      Split(q, Produced(cfg, k), m);
      RunDenseStep(cfg, cores, x, k, t, alpha, s, b, q / m, q % m);
    }
  }

  /** The layer computes a dense matrix product: with `r_0 = r_L = 1` and an
      input of `prod(inp_modes)` columns, entry `(b, J)` of the forward pass is
      `sum_I x[b, I] * W[I, J]` for the TT matrix `W` of the cores, plus
      `bias[J]` when the layer has a bias. */
  lemma ForwardIsDense(cfg: Config, cores: seq<Matrix>, bias: Option<seq<int>>, x: Matrix, b: nat, J: nat)
    requires cfg.WellFormed() && CoresFit(cfg, cores)
    requires cfg.ranks[0] == 1 && cfg.ranks[cfg.Dim()] == 1
    requires x.cols == Prod(cfg.inpModes)
    requires bias.Some? ==> |bias.value| == Prod(cfg.outModes)
    requires b < x.rows && J < Prod(cfg.outModes)
    ensures Prod(cfg.inpModes) > 0
    ensures Forward(cfg, cores, bias, x).Ok?
    ensures Forward(cfg, cores, bias, x).value.rows == x.rows
    ensures Forward(cfg, cores, bias, x).value.cols == Prod(cfg.outModes)
    ensures At(Forward(cfg, cores, bias, x).value, b, J)
         == Sum(Prod(cfg.inpModes), I => Get(x, b, I) * TtMatrixEntry(cfg, cores, I, J))
            + (if bias.Some? then bias.value[J] else 0)
  {
    var L := cfg.Dim();
    ProdPositive(cfg.inpModes);
    ProdPositive(cfg.outModes);
    OutputShape(cfg, cores, bias, x);
    OutputShape(cfg, cores, None, x);
    ForwardBias(cfg, cores, bias, x);
    ReshapeColsExact(x, x.rows, x.cols);
    assert cfg.inpModes[..L] == cfg.inpModes && cfg.inpModes[L..] == [];
    assert cfg.outModes[..L] == cfg.outModes;
    assert Remaining(cfg, L) == 1 && Produced(cfg, L) == Prod(cfg.outModes) && Consumed(cfg, L) == Prod(cfg.inpModes);
    RunDense(cfg, cores, x, L, 0, 0, b, J);
    var t := Run(cfg, cores, Transpose(x), L).value;
    var M := Prod(cfg.outModes);
    assert Cell(0, 0, b, J, 1, x.rows, M) == b * M + J;
    RunLayout(cfg, cores, Transpose(x), x.rows, L);
    assert |t.data| == x.rows * M;
    ReshapeColsExact(t, x.rows, M);
    assert Forward(cfg, cores, None, x) == Ok(Shaped(x.rows, M, t.data));
    PartialIs(cfg, cores, x, L, 0, 0, b, J, I => Get(x, b, I) * TtMatrixEntry(cfg, cores, I, J));
  }
}
