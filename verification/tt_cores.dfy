/** Construction of the TT layer's parameters (`tt_dev`, before the forward
    contraction): which initializer and regularizer each core gets, the name
    and shape of every core, the layout of a core's 4-D buffer as the 2-D
    matrix the contraction multiplies with, and the optional bias.

    The initial values themselves (Gaussian noise scaled by `sigma` and by
    `1 / sqrt(r_{i+1} * r_i)`) are floating-point and random and are not
    modelled; only their shape, layout and noise-free identity pattern are. */
module TtCores {
  import opened Arith
  import opened Outcomes
  import opened Tensors
  import Decimal

  /** The mode and rank lists of a layer: `inp_modes`, `out_modes`, `mat_ranks`. */
  datatype Config = Config(inpModes: seq<int>, outModes: seq<int>, ranks: seq<int>) {

    /** `dim = inp_modes.size`: the number of cores. */
    function Dim(): nat {
      |inpModes|
    }

    /** A TT matrix in the usual sense: one output mode per input mode, one
        more rank than modes, every size positive. The source checks none of
        this itself. */
    predicate WellFormed() {
      && |outModes| == Dim()
      && |ranks| == Dim() + 1
      && AllPositive(inpModes)
      && AllPositive(outModes)
      && AllPositive(ranks)
    }
  }

  /** An argument given either as one value for every core or as a Python
      list holding one value per core (`cores_initializer`, `cores_regularizer`). */
  datatype PerCore<T> = Shared(value: T) | PerCoreList(values: seq<T>)

  /** The value core `i` gets: element `i` of a list, or the single value.
      A list too short for index `i` raises `IndexError`. */
  function Select<T>(p: PerCore<T>, i: nat): (r: Result<T>)
    ensures r.Err? <==> p.PerCoreList? && i >= |p.values|
    ensures r.Err? ==> r.error == IndexOutOfRange
    ensures r.Ok? && p.PerCoreList? ==> r.value == p.values[i]
    ensures p.Shared? ==> r == Ok(p.value)
  {
    match p
    case Shared(v) => Ok(v)
    case PerCoreList(vs) => if i < |vs| then Ok(vs[i]) else Err(IndexOutOfRange)
  }

  /** A single value behaves exactly like a list repeating it once per core. */
  lemma SharedIsRepeatedList<T>(v: T, dim: nat, i: nat)
    requires i < dim
    ensures Select(Shared(v), i) == Select(PerCoreList(seq(dim, _ => v)), i)
  {
  }

  /** `'mat_core_%d' % (i + 1)`: the variable name of core `i`. */
  function CoreName(i: nat): string
  {
    "mat_core_" + Decimal.NatToString(i + 1)
  }

  /** The variable name of the bias. */
  const BiasName: string := "biases"

  /** No two cores share a variable name, and no core is named like the bias,
      so the layer never asks its variable factory for one name twice. */
  lemma NamesDistinct(i: nat, j: nat)
    ensures CoreName(i) == CoreName(j) ==> i == j
    ensures CoreName(i) != BiasName
  {
    var p := "mat_core_";
    if CoreName(i) == CoreName(j) {
      assert Decimal.NatToString(i + 1) == CoreName(i)[|p|..];
      assert Decimal.NatToString(j + 1) == CoreName(j)[|p|..];
      Decimal.NatToStringInjective(i + 1, j + 1);
    }
    assert CoreName(i)[0] == 'm' && BiasName[0] == 'b';
  }

  /** What the layer registers for core `i`: its name, the 4-D shape
      `(out_modes[i], mat_ranks[i + 1], mat_ranks[i], inp_modes[i])` of its
      initial buffer, and its regularizer. */
  datatype CoreSpec<R> = CoreSpec(
    name: string,
    outMode: nat,
    rankNext: nat,
    rankPrev: nat,
    inMode: nat,
    regularizer: R)
  {
    /** Rows of the 2-D matrix the contraction uses: `out_modes[i] * mat_ranks[i + 1]`. */
    function Rows(): nat {
      outMode * rankNext
    }

    /** Columns of the 2-D matrix: `mat_ranks[i] * inp_modes[i]`. */
    function Cols(): nat {
      rankPrev * inMode
    }
  }

  /** What the layer registers for the bias when it has one. */
  datatype BiasSpec<B, Q> = BiasSpec(name: string, length: int, initializer: B, regularizer: Q)

  /** Everything the layer asks its variable factory for. */
  datatype LayerSpec<R, B, Q> = LayerSpec(cores: seq<CoreSpec<R>>, bias: Option<BiasSpec<B, Q>>)

  /** True when every per-core value list is long enough and every size the
      construction reads is present and usable; exactly the configurations the
      construction loop gets through. */
  predicate Buildable<I, R>(cfg: Config, init: PerCore<I>, reg: PerCore<R>)
  {
    cfg.Dim() > 0 ==>
      && (init.PerCoreList? ==> |init.values| >= cfg.Dim())
      && (reg.PerCoreList? ==> |reg.values| >= cfg.Dim())
      && Prod(cfg.inpModes) * Prod(cfg.outModes) >= 0
      && |cfg.outModes| >= cfg.Dim()
      && |cfg.ranks| >= cfg.Dim() + 1
      && (forall i :: 0 <= i < cfg.Dim() ==> cfg.inpModes[i] >= 0 && cfg.outModes[i] >= 0)
      && (forall i :: 0 <= i <= cfg.Dim() ==> cfg.ranks[i] >= 0)
  }

  /** One iteration of the construction loop. Picks the initializer (which is
      then never used: the core's initial value is always the buffer built
      here) and the regularizer, fails like `math.sqrt` on a negative
      `inp_size * out_size`, reads the four sizes (`IndexError` when a list is
      short) and allocates the buffer (numpy refuses negative sizes). */
  function BuildCore<I, R>(cfg: Config, init: PerCore<I>, reg: PerCore<R>, i: nat): (r: Result<CoreSpec<R>>)
    requires i < cfg.Dim()
    ensures r.Ok? ==> i < |cfg.outModes| && i + 1 < |cfg.ranks| && Select(reg, i).Ok?
    ensures r.Ok? ==> r.value.name == CoreName(i)
    ensures r.Ok? ==> r.value.outMode == cfg.outModes[i] && r.value.rankNext == cfg.ranks[i + 1]
    ensures r.Ok? ==> r.value.rankPrev == cfg.ranks[i] && r.value.inMode == cfg.inpModes[i]
    ensures r.Ok? ==> r.value.Rows() == cfg.outModes[i] * cfg.ranks[i + 1]
    ensures r.Ok? ==> r.value.Cols() == cfg.ranks[i] * cfg.inpModes[i]
    ensures r.Ok? ==> r.value.regularizer == Select(reg, i).value
  {
    var _ :- Select(init, i);
    var creg :- Select(reg, i);
    :- Need(Prod(cfg.inpModes) * Prod(cfg.outModes) >= 0, InvalidDimension);
    :- Need(i < |cfg.outModes| && i + 1 < |cfg.ranks|, IndexOutOfRange);
    :- Need(cfg.outModes[i] >= 0 && cfg.ranks[i + 1] >= 0 && cfg.ranks[i] >= 0 && cfg.inpModes[i] >= 0,
            InvalidDimension);
    Ok(CoreSpec(CoreName(i), cfg.outModes[i], cfg.ranks[i + 1], cfg.ranks[i], cfg.inpModes[i], creg))
  }

  /** The first `n` iterations of the construction loop: the cores built so
      far, or the failure of the first iteration that failed. */
  function BuildCores<I, R>(cfg: Config, init: PerCore<I>, reg: PerCore<R>, n: nat): (r: Result<seq<CoreSpec<R>>>)
    requires n <= cfg.Dim()
    ensures r.Ok? <==> forall k :: 0 <= k < n ==> BuildCore(cfg, init, reg, k).Ok?
    ensures r.Ok? ==> |r.value| == n
    ensures r.Ok? ==> forall k :: 0 <= k < n ==> r.value[k] == BuildCore(cfg, init, reg, k).value
  {
    if n == 0 then Ok([])
    else
      var built :- BuildCores(cfg, init, reg, n - 1);
      var core :- BuildCore(cfg, init, reg, n - 1);
      Ok(built + [core])
  }

  /** The construction part of `tt_dev`: one core per mode, then the bias
      vector of length `prod(out_modes)` when a bias initializer is given. */
  function BuildLayer<I, R, B, Q>(cfg: Config, init: PerCore<I>, reg: PerCore<R>, biasInit: Option<B>, biasReg: Q)
    : (r: Result<LayerSpec<R, B, Q>>)
    ensures r.Ok? ==> |r.value.cores| == cfg.Dim()
    ensures r.Ok? ==> (r.value.bias.Some? <==> biasInit.Some?)
    ensures r.Ok? && biasInit.Some? ==>
      r.value.bias == Some(BiasSpec(BiasName, Prod(cfg.outModes), biasInit.value, biasReg))
  {
    var cores :- BuildCores(cfg, init, reg, cfg.Dim());
    var bias := match biasInit
      case None => None
      case Some(b) => Some(BiasSpec(BiasName, Prod(cfg.outModes), b, biasReg));
    Ok(LayerSpec(cores, bias))
  }

  /** Construction succeeds exactly for buildable arguments, and then core `i`
      is named `mat_core_<i + 1>`, has the 4-D shape
      `(out_modes[i], mat_ranks[i + 1], mat_ranks[i], inp_modes[i])`, hence the
      2-D shape `(out_modes[i] * mat_ranks[i + 1], mat_ranks[i] * inp_modes[i])`, and
      gets the regularizer selected for index `i`. */
  lemma BuildLayerSpec<I, R, B, Q>(cfg: Config, init: PerCore<I>, reg: PerCore<R>, biasInit: Option<B>, biasReg: Q)
    ensures BuildLayer(cfg, init, reg, biasInit, biasReg).Ok? <==> Buildable(cfg, init, reg)
    ensures BuildLayer(cfg, init, reg, biasInit, biasReg).Ok? ==>
      var cores := BuildLayer(cfg, init, reg, biasInit, biasReg).value.cores;
      forall i :: 0 <= i < cfg.Dim() ==>
        && cores[i].name == CoreName(i)
        && cores[i].outMode == cfg.outModes[i] && cores[i].rankNext == cfg.ranks[i + 1]
        && cores[i].rankPrev == cfg.ranks[i] && cores[i].inMode == cfg.inpModes[i]
        && cores[i].Rows() == cfg.outModes[i] * cfg.ranks[i + 1]
        && cores[i].Cols() == cfg.ranks[i] * cfg.inpModes[i]
        && Select(reg, i).Ok?
        && cores[i].regularizer == Select(reg, i).value
  {
    var dim := cfg.Dim();
    if Buildable(cfg, init, reg) {
      forall k | 0 <= k < dim
        ensures BuildCore(cfg, init, reg, k).Ok?
      {
      }
    } else {
      assert dim > 0;
      var k := FirstUnbuildable(cfg, init, reg);
      assert BuildCore(cfg, init, reg, k).Err?;
    }
  }

  /** Some index at which the loop fails, for arguments that are not buildable. */
  lemma FirstUnbuildable<I, R>(cfg: Config, init: PerCore<I>, reg: PerCore<R>) returns (k: nat)
    requires !Buildable(cfg, init, reg)
    ensures k < cfg.Dim() && BuildCore(cfg, init, reg, k).Err?
  {
    var dim := cfg.Dim();
    if init.PerCoreList? && |init.values| < dim {
      k := |init.values|;
    } else if reg.PerCoreList? && |reg.values| < dim {
      k := |reg.values|;
    } else if Prod(cfg.inpModes) * Prod(cfg.outModes) < 0 {
      k := 0;
    } else if |cfg.outModes| < dim {
      k := |cfg.outModes|;
    } else if |cfg.ranks| < dim + 1 {
      k := if |cfg.ranks| == 0 then 0 else |cfg.ranks| - 1;
    } else if i :| 0 <= i < dim && (cfg.inpModes[i] < 0 || cfg.outModes[i] < 0) {
      k := i;
    } else {
      var i :| 0 <= i <= dim && cfg.ranks[i] < 0;
      k := if i == dim then dim - 1 else i;
    }
  }

  /** A well-formed configuration with long enough per-core lists always builds. */
  lemma WellFormedBuilds<I, R>(cfg: Config, init: PerCore<I>, reg: PerCore<R>)
    requires cfg.WellFormed()
    requires init.PerCoreList? ==> |init.values| >= cfg.Dim()
    requires reg.PerCoreList? ==> |reg.values| >= cfg.Dim()
    ensures Buildable(cfg, init, reg)
  {
    ProdPositive(cfg.inpModes);
    ProdPositive(cfg.outModes);
    MulPositive(Prod(cfg.inpModes), Prod(cfg.outModes));
  }

  /** A 4-D buffer `tempI` of shape `(d0, d1, d2, d3)`, stored row-major. */
  datatype Buffer4 = Buffer4(d0: nat, d1: nat, d2: nat, d3: nat, data: seq<int>)

  type Tensor4 = t: Buffer4 | |t.data| == t.d0 * t.d1 * t.d2 * t.d3 witness Buffer4(0, 0, 0, 0, [])

  /** Entry `[a, b, c, e]`, stored at flat position `((a * d1 + b) * d2 + c) * d3 + e`. */
  function At4(t: Tensor4, a: nat, b: nat, c: nat, e: nat): int
    requires a < t.d0 && b < t.d1 && c < t.d2 && e < t.d3
  {
    IndexBound(a, b, t.d0, t.d1);
    IndexBound(a * t.d1 + b, c, t.d0 * t.d1, t.d2);
    IndexBound((a * t.d1 + b) * t.d2 + c, e, t.d0 * t.d1 * t.d2, t.d3);
    t.data[((a * t.d1 + b) * t.d2 + c) * t.d3 + e]
  }

  /** `np.reshape(tempI, [d0 * d1, d2 * d3])`: the core as the 2-D matrix the
      contraction multiplies with; the data is kept as it is. */
  function CoreMatrix(t: Tensor4): (m: Matrix)
    ensures m.rows == t.d0 * t.d1 && m.cols == t.d2 * t.d3
    ensures m.data == t.data
  {
    assert t.d0 * t.d1 * t.d2 * t.d3 == (t.d0 * t.d1) * (t.d2 * t.d3);
    Shaped(t.d0 * t.d1, t.d2 * t.d3, t.data)
  }

  /** In the 2-D matrix of a core, entry `[m, j, k, n]` of the buffer sits at
      row `m * d1 + j` and column `k * d3 + n`. */
  lemma CoreMatrixAt(t: Tensor4, m: nat, j: nat, k: nat, n: nat)
    requires m < t.d0 && j < t.d1 && k < t.d2 && n < t.d3
    ensures m * t.d1 + j < t.d0 * t.d1 && k * t.d3 + n < t.d2 * t.d3
    ensures At(CoreMatrix(t), m * t.d1 + j, k * t.d3 + n) == At4(t, m, j, k, n)
  {
    IndexBound(m, j, t.d0, t.d1);
    IndexBound(k, n, t.d2, t.d3);
    Regroup(m * t.d1 + j, k, n, t.d2, t.d3);
  }

  /** The deterministic part of a core's initial buffer: every slice
      `tempI[:, j, k, :]` holds `np.eye(out_mode, in_mode)`. The Gaussian noise
      and the factor `1 / sqrt(rank_next * rank_prev)` are not modelled; the
      factor is 1 when both ranks are 1. */
  function NoiseFreeCore(outMode: nat, rankNext: nat, rankPrev: nat, inMode: nat): (t: Tensor4)
    ensures t.d0 == outMode && t.d1 == rankNext && t.d2 == rankPrev && t.d3 == inMode
  {
    var slice := rankNext * rankPrev * inMode;
    var size := outMode * rankNext * rankPrev * inMode;
    assert size == outMode * slice && size == (outMode * rankNext * rankPrev) * inMode;
    Buffer4(outMode, rankNext, rankPrev, inMode,
      seq(size, p requires 0 <= p < size =>
        Split(p, outMode, slice);
        Split(p, outMode * rankNext * rankPrev, inMode);
        if p / slice == p % inMode then 1 else 0))
  }

  /** Every rank slice of the noise-free core is the identity pattern: entry
      `[m, j, k, n]` is 1 exactly when `m == n`, whatever `j` and `k`. */
  lemma NoiseFreeCoreAt(outMode: nat, rankNext: nat, rankPrev: nat, inMode: nat, m: nat, j: nat, k: nat, n: nat)
    requires m < outMode && j < rankNext && k < rankPrev && n < inMode
    ensures At4(NoiseFreeCore(outMode, rankNext, rankPrev, inMode), m, j, k, n) == if m == n then 1 else 0
  {
    EyeSlicePosition(outMode, rankNext, rankPrev, inMode, m, j, k, n);
  }

  /** Where entry `[m, j, k, n]` of an `(o, r1, r0, d)` buffer sits, seen
      from its leading index `m` and from its trailing index `n`. */
  lemma EyeSlicePosition(o: nat, r1: nat, r0: nat, d: nat, m: nat, j: nat, k: nat, n: nat)
    requires m < o && j < r1 && k < r0 && n < d
    ensures ((m * r1 + j) * r0 + k) * d + n < o * r1 * r0 * d
    ensures (((m * r1 + j) * r0 + k) * d + n) / (r1 * r0 * d) == m
    ensures (((m * r1 + j) * r0 + k) * d + n) % d == n
  {
    var p := ((m * r1 + j) * r0 + k) * d + n;
    IndexBound(m, j, o, r1);
    IndexBound(m * r1 + j, k, o * r1, r0);
    IndexBound((m * r1 + j) * r0 + k, n, o * r1 * r0, d);
    DivModOf((m * r1 + j) * r0 + k, n, d);
    var rest := (j * r0 + k) * d + n;
    IndexBound(j, k, r1, r0);
    IndexBound(j * r0 + k, n, r1 * r0, d);
    Regroup(m, j, k, r1, r0);
    Regroup(m, j * r0 + k, n, r1 * r0, d);
    assert p == m * (r1 * r0 * d) + rest;
    DivModOf(m, rest, r1 * r0 * d);
  }

  /** With both ranks 1 and equal modes, the noise-free initial core is the identity matrix. */
  lemma NoiseFreeRankOneIsIdentity(n: nat)
    ensures CoreMatrix(NoiseFreeCore(n, 1, 1, n)) == Eye(n, n)
  {
    var t := NoiseFreeCore(n, 1, 1, n);
    forall i: nat, j: nat | i < n && j < n
      ensures At(CoreMatrix(t), i, j) == At(Eye(n, n), i, j)
    {
      CoreMatrixAt(t, i, 0, 0, j);
      NoiseFreeCoreAt(n, 1, 1, n, i, 0, 0, j);
    }
    Extensional(CoreMatrix(t), Eye(n, n));
  }
}
