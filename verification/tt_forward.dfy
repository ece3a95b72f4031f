/** The forward pass of the TT layer (`tt_dev`, from the first reshape of the
    input to the bias add). It never builds the dense
    `prod(inp_modes) x prod(out_modes)` matrix: it multiplies the running
    tensor by one core per mode, rotating each freshly produced output mode to
    the last axis.

    Before step `i` the running tensor holds, in flat row-major order, the
    axes `(r_i, n_i, ..., n_{L-1}, b, m_0, ..., m_{i-1})`, where `n`, `m`
    and `r` are the input modes, output modes and ranks and `b` is the batch
    index. */
module TtForward {
  import opened Arith
  import opened Outcomes
  import opened Tensors
  import opened Rotation
  import opened TtCores

  /** The core values fit the configuration: one matrix per mode, core `i`
      being `(out_modes[i] * mat_ranks[i + 1]) x (mat_ranks[i] * inp_modes[i])`,
      the shape the construction gives it. */
  predicate CoresFit(cfg: Config, cores: seq<Matrix>)
    requires cfg.WellFormed()
  {
    && |cores| == cfg.Dim()
    && forall i :: 0 <= i < |cores| ==>
         cores[i].rows == cfg.outModes[i] * cfg.ranks[i + 1] && cores[i].cols == cfg.ranks[i] * cfg.inpModes[i]
  }

  /** One iteration of the contraction loop: reshape the running tensor to
      `(rankMode, -1)` with `rankMode = r_i * n_i`, multiply by the core on the
      left, reshape to `(outMode, -1)` and transpose. */
  function Step(t: Matrix, core: Matrix, rankMode: int, outMode: int): Result<Matrix>
  {
    var a :- ReshapeRows(t, rankMode);
    var p :- MatMul(core, a);
    var q :- ReshapeRows(p, outMode);
    Ok(Transpose(q))
  }

  /** Iteration `i` of the loop on the layer's lists; a list too short for
      index `i` is an `IndexError`. */
  function StepAt(cfg: Config, cores: seq<Matrix>, i: nat, t: Matrix): Result<Matrix>
  {
    if i >= |cfg.inpModes| || i >= |cfg.ranks| || i >= |cfg.outModes| || i >= |cores| then Err(IndexOutOfRange)
    else Step(t, cores[i], cfg.ranks[i] * cfg.inpModes[i], cfg.outModes[i])
  }

  /** The running tensor after the first `n` iterations of the loop. */
  function Run(cfg: Config, cores: seq<Matrix>, t0: Matrix, n: nat): Result<Matrix>
  {
    if n == 0 then Ok(t0)
    else
      var t :- Run(cfg, cores, t0, n - 1);
      StepAt(cfg, cores, n - 1, t)
  }

  /** The whole forward pass: flatten the input to `(-1, prod(inp_modes))`,
      transpose it, run the `dim` contraction steps, reshape to
      `(-1, prod(out_modes))`, and add the bias row when the layer has a bias.
      With no modes both products are 1 (`np.prod` of an empty integer array)
      and the layer only flattens its input to one column. */
  function Forward(cfg: Config, cores: seq<Matrix>, bias: Option<seq<int>>, x: Matrix): Result<Matrix>
  {
    var flat :- ReshapeCols(x, Prod(cfg.inpModes));
    var t :- Run(cfg, cores, Transpose(flat), cfg.Dim());
    var out :- ReshapeCols(t, Prod(cfg.outModes));
    match bias
    case None => Ok(out)
    case Some(v) => AddRow(out, v)
  }

  /** The tensors a step goes through: the running tensor viewed as
      `k x rest`, its product with the core, and that product viewed as
      `m x (rNext * rest)`, which the step transposes. */
  lemma StepStages(t: Matrix, core: Matrix, k: nat, m: nat, rNext: nat, rest: nat)
      returns (a: Matrix, p: Matrix, q: Matrix)
    requires k > 0 && m > 0
    requires |t.data| == k * rest
    requires core.rows == m * rNext && core.cols == k
    ensures a == Shaped(k, rest, t.data)
    ensures MatMul(core, a) == Ok(p) && p.rows == m * rNext && p.cols == rest
    ensures q == Shaped(m, rNext * rest, p.data)
    ensures Step(t, core, k, m) == Ok(Transpose(q))
  {
    a := Shaped(k, rest, t.data);
    ReshapeRowsExact(t, k, rest);
    p := MatMul(core, a).value;
    MulAssoc(m, rNext, rest);
    q := Shaped(m, rNext * rest, p.data);
    ReshapeRowsExact(p, m, rNext * rest);
  }

  /** One step on a running tensor of `k * rest` entries, `k = r_i * n_i`, and
      a core of shape `(m * rNext, k)` succeeds and gives an `(rNext * rest) x m`
      tensor: the new rank leads, the output mode is last. */
  lemma StepShape(t: Matrix, core: Matrix, k: nat, m: nat, rNext: nat, rest: nat)
    requires k > 0 && m > 0
    requires |t.data| == k * rest
    requires core.rows == m * rNext && core.cols == k
    ensures Step(t, core, k, m).Ok?
    ensures Step(t, core, k, m).value.rows == rNext * rest
    ensures Step(t, core, k, m).value.cols == m
  {
    var a, p, q := StepStages(t, core, k, m, rNext, rest);
  }

  /** Entry `(r * rest + u, mo)` after a step, that is rank `r`, remaining
      axes `u` and output mode `mo`, is row `(mo, r)` of the core contracted
      with column `u` of the running tensor viewed as `k x rest`: the step
      multiplies by the core and rotates the output mode to the last axis. */
  lemma StepEntry(t: Matrix, core: Matrix, k: nat, m: nat, rNext: nat, rest: nat, r: nat, u: nat, mo: nat)
    requires k > 0 && m > 0
    requires |t.data| == k * rest
    requires core.rows == m * rNext && core.cols == k
    requires r < rNext && u < rest && mo < m
    ensures Step(t, core, k, m).Ok?
    ensures Step(t, core, k, m).value.rows == rNext * rest && Step(t, core, k, m).value.cols == m
    ensures r * rest + u < rNext * rest && mo * rNext + r < m * rNext
    ensures At(Step(t, core, k, m).value, r * rest + u, mo) == Dot(core, Shaped(k, rest, t.data), mo * rNext + r, u, k)
  {
    var a, p, q := StepStages(t, core, k, m, rNext, rest);
    IndexBound(mo, r, m, rNext);
    IndexBound(r, u, rNext, rest);
    assert At(q, mo, r * rest + u) == At(p, mo * rNext + r, u) by {
      Regroup(mo, r, u, rNext, rest);
    }
  }

  /** The number of entries of the running tensor before step `i` for a batch
      of `batch` rows: `r_i * (n_i * ... * n_{L-1}) * batch * (m_0 * ... * m_{i-1})`. */
  function RunSize(cfg: Config, batch: nat, i: nat): int
    requires cfg.WellFormed() && i <= cfg.Dim()
  {
    cfg.ranks[i] * (Prod(cfg.inpModes[i..]) * (batch * Prod(cfg.outModes[..i])))
  }

  /** Layout invariant of the loop: starting from the transposed input of
      `prod(inp_modes) * batch` entries with `mat_ranks[0] = 1`, every step
      succeeds (so every `-1` reshape divides exactly), the running tensor
      before step `i` has `RunSize(cfg, batch, i)` entries, and after a step
      its last axis is the output mode just produced. */
  lemma {:induction false} RunLayout(cfg: Config, cores: seq<Matrix>, t0: Matrix, batch: nat, i: nat)
    requires cfg.WellFormed() && cfg.ranks[0] == 1 && CoresFit(cfg, cores)
    requires |t0.data| == Prod(cfg.inpModes) * batch
    requires i <= cfg.Dim()
    ensures Run(cfg, cores, t0, i).Ok?
    ensures |Run(cfg, cores, t0, i).value.data| == RunSize(cfg, batch, i)
    ensures i > 0 ==> Run(cfg, cores, t0, i).value.cols == cfg.outModes[i - 1]
  {
    if i == 0 {
      assert cfg.inpModes[0..] == cfg.inpModes;
      assert cfg.outModes[..0] == [];
    } else {
      var j := i - 1;
      RunLayout(cfg, cores, t0, batch, j);
      var t := Run(cfg, cores, t0, j).value;
      LayoutStep(cfg, cores, t, batch, j);
      assert Run(cfg, cores, t0, i) == StepAt(cfg, cores, j, t);
    }
  }

  /** One step of the layout invariant: from `RunSize(cfg, batch, j)` entries,
      step `j` succeeds with `RunSize(cfg, batch, j + 1)` entries whose last
      axis is `out_modes[j]`. */
  lemma LayoutStep(cfg: Config, cores: seq<Matrix>, t: Matrix, batch: nat, j: nat)
    requires cfg.WellFormed() && CoresFit(cfg, cores) && j < cfg.Dim()
    requires |t.data| == RunSize(cfg, batch, j)
    ensures StepAt(cfg, cores, j, t).Ok?
    ensures |StepAt(cfg, cores, j, t).value.data| == RunSize(cfg, batch, j + 1)
    ensures StepAt(cfg, cores, j, t).value.cols == cfg.outModes[j]
  {
    var i := j + 1;
    var r, n, m, rNext := cfg.ranks[j], cfg.inpModes[j], cfg.outModes[j], cfg.ranks[i];
    var tail, done := Prod(cfg.inpModes[i..]), Prod(cfg.outModes[..j]);
    var rest := tail * (batch * done);
    ProdSuffixStep(cfg.inpModes, j);
    RegroupLeading(r, n, tail, batch * done);
    assert |t.data| == (r * n) * rest;
    MulPositive(r, n);
    StepShape(t, cores[j], r * n, m, rNext, rest);
    assert StepAt(cfg, cores, j, t) == Step(t, cores[j], r * n, m);
    ProdPrefixStep(cfg.outModes, j);
    RegroupTrailing(rNext, tail, batch, done, m);
  }

  /** The forward pass (without bias) of a well-formed layer whose first rank
      is 1 succeeds exactly when the input size is a multiple of
      `prod(inp_modes)`; the result then has
      `mat_ranks[dim] * batch` rows of `prod(out_modes)` entries, where
      `batch = |x| / prod(inp_modes)`. */
  lemma ForwardShape(cfg: Config, cores: seq<Matrix>, x: Matrix)
    requires cfg.WellFormed() && cfg.ranks[0] == 1 && CoresFit(cfg, cores)
    ensures Prod(cfg.inpModes) > 0
    ensures Forward(cfg, cores, None, x).Ok? <==> |x.data| % Prod(cfg.inpModes) == 0
    ensures Forward(cfg, cores, None, x).Ok? ==>
      && Forward(cfg, cores, None, x).value.rows == cfg.ranks[cfg.Dim()] * (|x.data| / Prod(cfg.inpModes))
      && Forward(cfg, cores, None, x).value.cols == Prod(cfg.outModes)
  {
    var dim := cfg.Dim();
    var nIn, nOut := Prod(cfg.inpModes), Prod(cfg.outModes);
    ProdPositive(cfg.inpModes);
    ProdPositive(cfg.outModes);
    if |x.data| % nIn == 0 {
      var batch := |x.data| / nIn;
      var flat: Matrix := Shaped(batch, nIn, x.data);
      ReshapeColsExact(x, batch, nIn);
      var t0 := Transpose(flat);
      RunLayout(cfg, cores, t0, batch, dim);
      var t := Run(cfg, cores, t0, dim).value;
      assert cfg.inpModes[dim..] == [];
      assert cfg.outModes[..dim] == cfg.outModes;
      var rows := cfg.ranks[dim] * batch;
      assert RunSize(cfg, batch, dim) == cfg.ranks[dim] * (batch * nOut);
      MulAssoc(cfg.ranks[dim], batch, nOut);
      assert |t.data| == rows * nOut;
      ReshapeColsExact(t, rows, nOut);
    }
  }

  /** The promise of the docstring: with `mat_ranks[0] = mat_ranks[dim] = 1`,
      an input of shape `[batch, prod(inp_modes)]` gives an output of shape
      `[batch, prod(out_modes)]`, with or without a bias of that length. */
  lemma OutputShape(cfg: Config, cores: seq<Matrix>, bias: Option<seq<int>>, x: Matrix)
    requires cfg.WellFormed() && CoresFit(cfg, cores)
    requires cfg.ranks[0] == 1 && cfg.ranks[cfg.Dim()] == 1
    requires x.cols == Prod(cfg.inpModes)
    requires bias.Some? ==> |bias.value| == Prod(cfg.outModes)
    ensures Forward(cfg, cores, bias, x).Ok?
    ensures Forward(cfg, cores, bias, x).value.rows == x.rows
    ensures Forward(cfg, cores, bias, x).value.cols == Prod(cfg.outModes)
  {
    ProdPositive(cfg.inpModes);
    ExactDiv(x.rows, x.cols);
    ForwardShape(cfg, cores, x);
    ForwardBias(cfg, cores, bias, x);
  }

  /** End to end: a well-formed layer with `mat_ranks[0] = mat_ranks[dim] = 1`
      builds, and when its cores and bias hold values of the shapes it
      registered, an input of shape `[batch, prod(inp_modes)]` gives an output
      of shape `[batch, prod(out_modes)]`. */
  lemma BuiltLayerRuns<I, R, B, Q>(cfg: Config, init: PerCore<I>, reg: PerCore<R>, biasInit: Option<B>, biasReg: Q,
                                   cores: seq<Matrix>, bias: Option<seq<int>>, x: Matrix)
    requires cfg.WellFormed()
    requires cfg.ranks[0] == 1 && cfg.ranks[cfg.Dim()] == 1
    requires init.PerCoreList? ==> |init.values| >= cfg.Dim()
    requires reg.PerCoreList? ==> |reg.values| >= cfg.Dim()
    requires |cores| == cfg.Dim()
    requires BuildLayer(cfg, init, reg, biasInit, biasReg).Ok? ==>
      var spec := BuildLayer(cfg, init, reg, biasInit, biasReg).value;
      && (forall i :: 0 <= i < cfg.Dim() ==> cores[i].rows == spec.cores[i].Rows() && cores[i].cols == spec.cores[i].Cols())
      && (bias.Some? <==> spec.bias.Some?)
      && (bias.Some? ==> |bias.value| == spec.bias.value.length)
    requires x.cols == Prod(cfg.inpModes)
    ensures BuildLayer(cfg, init, reg, biasInit, biasReg).Ok?
    ensures Forward(cfg, cores, bias, x).Ok?
    ensures Forward(cfg, cores, bias, x).value.rows == x.rows
    ensures Forward(cfg, cores, bias, x).value.cols == Prod(cfg.outModes)
  {
    WellFormedBuilds(cfg, init, reg);
    BuildLayerSpec(cfg, init, reg, biasInit, biasReg);
    assert CoresFit(cfg, cores);
    OutputShape(cfg, cores, bias, x);
  }

  /** The bias is added only when the layer has one, and adding it changes
      nothing but the entries: every row gets the bias vector added, a bias of
      the wrong length fails with BadBroadcast, and without a bias each entry
      is that of the reshaped contraction itself. */
  lemma ForwardBias(cfg: Config, cores: seq<Matrix>, bias: Option<seq<int>>, x: Matrix)
    ensures Forward(cfg, cores, None, x).Err? ==> Forward(cfg, cores, bias, x) == Forward(cfg, cores, None, x)
    ensures Forward(cfg, cores, None, x).Ok? && bias.Some? ==>
      (Forward(cfg, cores, bias, x).Ok? <==> |bias.value| == Prod(cfg.outModes))
    ensures Forward(cfg, cores, None, x).Ok? && bias.Some? && Forward(cfg, cores, bias, x).Err? ==>
      Forward(cfg, cores, bias, x).error == BadBroadcast
    ensures Forward(cfg, cores, None, x).Ok? && Forward(cfg, cores, bias, x).Ok? ==>
      var plain, biased := Forward(cfg, cores, None, x).value, Forward(cfg, cores, bias, x).value;
      && biased.rows == plain.rows && biased.cols == plain.cols
      && forall i: nat, j: nat :: i < plain.rows && j < plain.cols ==>
           At(biased, i, j) == At(plain, i, j) + (if bias.Some? then bias.value[j] else 0)
  {
  }

  /** A step is additive in the running tensor: on two tensors of one shape
      it succeeds on both or on neither, and on their sum it gives the sum. */
  lemma StepAdd(t: Matrix, u: Matrix, core: Matrix, k: int, m: int)
    requires t.rows == u.rows && t.cols == u.cols
    ensures Step(t, core, k, m).Ok? <==> Step(u, core, k, m).Ok?
    ensures Step(Add(t, u), core, k, m).Ok? <==> Step(t, core, k, m).Ok?
    ensures Step(t, core, k, m).Ok? ==>
      && Step(t, core, k, m).value.rows == Step(u, core, k, m).value.rows
      && Step(t, core, k, m).value.cols == Step(u, core, k, m).value.cols
      && Step(Add(t, u), core, k, m).value == Add(Step(t, core, k, m).value, Step(u, core, k, m).value)
  {
    if ReshapeRows(t, k).Ok? {
      var a, b := ReshapeRows(t, k).value, ReshapeRows(u, k).value;
      assert ReshapeRows(Add(t, u), k) == Ok(Add(a, b));
      if MatMul(core, a).Ok? {
        MatMulAddRight(core, a, b);
        var p, q := MatMul(core, a).value, MatMul(core, b).value;
        if ReshapeRows(p, m).Ok? {
          var c, d := ReshapeRows(p, m).value, ReshapeRows(q, m).value;
          assert ReshapeRows(Add(p, q), m) == Ok(Add(c, d));
          TransposeAdd(c, d);
        }
      }
    }
  }

  /** The loop is additive in its starting tensor. */
  lemma {:induction false} RunAdd(cfg: Config, cores: seq<Matrix>, t: Matrix, u: Matrix, n: nat)
    requires t.rows == u.rows && t.cols == u.cols
    ensures Run(cfg, cores, t, n).Ok? <==> Run(cfg, cores, u, n).Ok?
    ensures Run(cfg, cores, Add(t, u), n).Ok? <==> Run(cfg, cores, t, n).Ok?
    ensures Run(cfg, cores, t, n).Ok? ==>
      && Run(cfg, cores, t, n).value.rows == Run(cfg, cores, u, n).value.rows
      && Run(cfg, cores, t, n).value.cols == Run(cfg, cores, u, n).value.cols
      && Run(cfg, cores, Add(t, u), n).value == Add(Run(cfg, cores, t, n).value, Run(cfg, cores, u, n).value)
  {
    if n > 0 {
      RunAdd(cfg, cores, t, u, n - 1);
      if Run(cfg, cores, t, n - 1).Ok? {
        var a, b := Run(cfg, cores, t, n - 1).value, Run(cfg, cores, u, n - 1).value;
        var i := n - 1;
        if !(i >= |cfg.inpModes| || i >= |cfg.ranks| || i >= |cfg.outModes| || i >= |cores|) {
          StepAdd(a, b, cores[i], cfg.ranks[i] * cfg.inpModes[i], cfg.outModes[i]);
        }
      }
    }
  }

  /** Without a bias the layer is linear: on two inputs of one shape it
      succeeds on both or on neither, and the output for their sum is the sum
      of the outputs. */
  lemma ForwardAdd(cfg: Config, cores: seq<Matrix>, x: Matrix, y: Matrix)
    requires x.rows == y.rows && x.cols == y.cols
    ensures Forward(cfg, cores, None, x).Ok? <==> Forward(cfg, cores, None, y).Ok?
    ensures Forward(cfg, cores, None, Add(x, y)).Ok? <==> Forward(cfg, cores, None, x).Ok?
    ensures Forward(cfg, cores, None, x).Ok? ==>
      && Forward(cfg, cores, None, x).value.rows == Forward(cfg, cores, None, y).value.rows
      && Forward(cfg, cores, None, x).value.cols == Forward(cfg, cores, None, y).value.cols
      && Forward(cfg, cores, None, Add(x, y)).value
         == Add(Forward(cfg, cores, None, x).value, Forward(cfg, cores, None, y).value)
  {
    var nIn := Prod(cfg.inpModes);
    if ReshapeCols(x, nIn).Ok? {
      var fx, fy := ReshapeCols(x, nIn).value, ReshapeCols(y, nIn).value;
      assert ReshapeCols(Add(x, y), nIn) == Ok(Add(fx, fy));
      TransposeAdd(fx, fy);
      var t0, u0 := Transpose(fx), Transpose(fy);
      RunAdd(cfg, cores, t0, u0, cfg.Dim());
      if Run(cfg, cores, t0, cfg.Dim()).Ok? {
        var a, b := Run(cfg, cores, t0, cfg.Dim()).value, Run(cfg, cores, u0, cfg.Dim()).value;
        if ReshapeCols(a, Prod(cfg.outModes)).Ok? {
          var c, d := ReshapeCols(a, Prod(cfg.outModes)).value, ReshapeCols(b, Prod(cfg.outModes)).value;
          assert ReshapeCols(Add(a, b), Prod(cfg.outModes)) == Ok(Add(c, d));
        }
      }
    }
  }

  /** All ranks 1 and the output modes equal to the input modes. */
  function IdentityConfig(modes: seq<int>): (cfg: Config)
    ensures AllPositive(modes) ==> cfg.WellFormed()
  {
    Config(modes, modes, seq(|modes| + 1, _ => 1))
  }

  /** The noise-free rank-1 initial cores of `IdentityConfig(modes)`. */
  function IdentityCores(modes: seq<int>): (cores: seq<Matrix>)
    requires AllPositive(modes)
    ensures |cores| == |modes|
  {
    seq(|modes|, i requires 0 <= i < |modes| => CoreMatrix(NoiseFreeCore(modes[i], 1, 1, modes[i])))
  }

  /** With an identity core, a step is a pure rotation: the `n x c` running
      tensor is transposed and nothing else happens. */
  lemma StepWithIdentity(t: Matrix, n: nat, c: nat)
    requires n > 0 && |t.data| == n * c
    ensures Step(t, Eye(n, n), n, n) == Ok(Shaped(c, n, Rotate(n, c, t.data)))
  {
    var a: Matrix := Shaped(n, c, t.data);
    ReshapeRowsExact(t, n, c);
    MatMulEyeLeft(a);
    ReshapeRowsExact(a, n, c);
  }

  /** One identity step on a tensor already rotated by `done` rotates it
      further by `n`, which is one rotation by `done * n`. */
  lemma IdentityStepComposes(t: Matrix, d: seq<int>, done: nat, n: nat, rest: nat)
    requires n > 0 && |d| == (done * n) * rest
    requires |t.data| == |d| && t.data == Rotate(done, n * rest, d)
    ensures Step(t, Eye(n, n), n, n).Ok?
    ensures Step(t, Eye(n, n), n, n).value.data == Rotate(done * n, rest, d)
  {
    RotateCompose(done, n, rest, d);
    StepWithIdentity(t, n, rest * done);
  }

  /** Step `j` of the identity layer multiplies by an identity matrix and
      reshapes by the mode `n_j`. */
  lemma IdentityCoreAt(modes: seq<int>, j: nat)
    requires AllPositive(modes) && j < |modes|
    ensures IdentityCores(modes)[j] == Eye(modes[j], modes[j])
    ensures IdentityConfig(modes).ranks[j] * IdentityConfig(modes).inpModes[j] == modes[j]
    ensures IdentityConfig(modes).outModes[j] == modes[j]
  {
    NoiseFreeRankOneIsIdentity(modes[j]);
  }

  /** Before step `i` of the identity layer the running tensor is the
      transposed input rotated by `n_0 * ... * n_{i-1}`: the step rotations
      accumulate. */
  lemma {:induction false} RunIdentity(modes: seq<int>, t0: Matrix, batch: nat, i: nat)
    requires AllPositive(modes) && i <= |modes|
    requires |t0.data| == Prod(modes) * batch
    ensures Prod(modes[..i]) > 0 && Prod(modes[i..]) > 0
    ensures |t0.data| == Prod(modes[..i]) * (Prod(modes[i..]) * batch)
    ensures Run(IdentityConfig(modes), IdentityCores(modes), t0, i).Ok?
    ensures Run(IdentityConfig(modes), IdentityCores(modes), t0, i).value.data
         == Rotate(Prod(modes[..i]), Prod(modes[i..]) * batch, t0.data)
  {
    SplitAt(modes, batch, i);
    if i == 0 {
      assert modes[..0] == [];
      RotateOne(t0.data);
    } else {
      var j := i - 1;
      RunIdentity(modes, t0, batch, j);
      var t := Run(IdentityConfig(modes), IdentityCores(modes), t0, j).value;
      SplitAt(modes, batch, j);
      ModeStep(modes, batch, j);
      IdentityCoreAt(modes, j);
      IdentityStepComposes(t, t0.data, Prod(modes[..j]), modes[j], Prod(modes[i..]) * batch);
    }
  }

  /** The element count split at mode `i`. */
  lemma SplitAt(modes: seq<int>, batch: nat, i: nat)
    requires AllPositive(modes) && i <= |modes|
    ensures Prod(modes[..i]) > 0 && Prod(modes[i..]) > 0
    ensures Prod(modes) * batch == Prod(modes[..i]) * (Prod(modes[i..]) * batch)
  {
    ProdSplit(modes, i);
    ProdPositive(modes[..i]);
    ProdPositive(modes[i..]);
    MulAssoc(Prod(modes[..i]), Prod(modes[i..]), batch);
  }

  /** Moving mode `j` from the pending to the done factor. */
  lemma ModeStep(modes: seq<int>, batch: nat, j: nat)
    requires j < |modes|
    ensures Prod(modes[..j]) * modes[j] == Prod(modes[..j + 1])
    ensures modes[j] * (Prod(modes[j + 1..]) * batch) == Prod(modes[j..]) * batch
  {
    ProdSuffixStep(modes, j);
    ProdPrefixStep(modes, j);
    MulAssoc(modes[j], Prod(modes[j + 1..]), batch);
  }

  /** Identity round trip: with all ranks 1, output modes equal to input
      modes and every core the noise-free rank-1 initial core (an identity
      matrix), the step rotations compose to the identity permutation and the
      forward pass returns its input unchanged, with no bias or with the
      default all-zero bias. */
  lemma IdentityRoundTrip(modes: seq<int>, x: Matrix)
    requires AllPositive(modes)
    requires x.cols == Prod(modes)
    ensures Forward(IdentityConfig(modes), IdentityCores(modes), None, x) == Ok(x)
    ensures Forward(IdentityConfig(modes), IdentityCores(modes), Some(seq(Prod(modes), _ => 0)), x) == Ok(x)
  {
    var cfg, cores := IdentityConfig(modes), IdentityCores(modes);
    var nIn := Prod(modes);
    ProdPositive(modes);
    ReshapeColsExact(x, x.rows, nIn);
    assert Shaped(x.rows, nIn, x.data) == x;
    var t0 := Transpose(x);
    RunIdentity(modes, t0, x.rows, |modes|);
    assert modes[..|modes|] == modes;
    assert modes[|modes|..] == [];
    RotateUndoesTranspose(x);
    var t := Run(cfg, cores, t0, |modes|).value;
    assert t.data == x.data;
    ReshapeColsExact(t, x.rows, nIn);
    assert Forward(cfg, cores, None, x) == Ok(x);
    AddRowZero(x);
  }

  /** A step with an all-zero core gives an all-zero tensor. */
  lemma StepZeroCore(t: Matrix, core: Matrix, k: int, m: int)
    requires IsZero(core) && Step(t, core, k, m).Ok?
    ensures IsZero(Step(t, core, k, m).value)
  {
    var a := ReshapeRows(t, k).value;
    MatMulZeroLeft(core, a);
    var q := ReshapeRows(MatMul(core, a).value, m).value;
    TransposeZero(q);
  }

  /** After at least one step with all-zero cores the running tensor is all zero. */
  lemma {:induction false} RunZeroCores(cfg: Config, cores: seq<Matrix>, t0: Matrix, n: nat)
    requires forall i :: 0 <= i < |cores| ==> IsZero(cores[i])
    requires n > 0 && Run(cfg, cores, t0, n).Ok?
    ensures IsZero(Run(cfg, cores, t0, n).value)
  {
    var t := Run(cfg, cores, t0, n - 1).value;
    var i := n - 1;
    if n > 1 {
      RunZeroCores(cfg, cores, t0, n - 1);
    }
    assert i < |cores|;
    StepZeroCore(t, cores[i], cfg.ranks[i] * cfg.inpModes[i], cfg.outModes[i]);
  }

  /** With every core all zero and at least one mode, the output without a
      bias is all zero, and with a bias `c` every row of the output is `c`:
      the only thing the layer adds besides the contraction is the bias. */
  lemma ForwardZeroCores(cfg: Config, cores: seq<Matrix>, bias: Option<seq<int>>, x: Matrix)
    requires cfg.Dim() > 0
    requires forall i :: 0 <= i < |cores| ==> IsZero(cores[i])
    ensures Forward(cfg, cores, None, x).Ok? ==> IsZero(Forward(cfg, cores, None, x).value)
    ensures Forward(cfg, cores, bias, x).Ok? && bias.Some? ==>
      forall i: nat, j: nat :: i < Forward(cfg, cores, bias, x).value.rows && j < Forward(cfg, cores, bias, x).value.cols ==>
        At(Forward(cfg, cores, bias, x).value, i, j) == bias.value[j]
  {
    ForwardBias(cfg, cores, bias, x);
    if Forward(cfg, cores, None, x).Ok? {
      var flat := ReshapeCols(x, Prod(cfg.inpModes)).value;
      RunZeroCores(cfg, cores, Transpose(flat), cfg.Dim());
      var out := Forward(cfg, cores, None, x).value;
      forall i: nat, j: nat | i < out.rows && j < out.cols
        ensures At(out, i, j) == 0
      {
        IndexBound(i, j, out.rows, out.cols);
      }
    }
  }
}
