# TT-matrix layer `tt_dev` in Dafny

`tt_dev` is the tensor-train (TT) fully connected layer of the `tensornet`
package. Its weight matrix of shape `prod(inp_modes) x prod(out_modes)` is
never stored densely. It is kept as `dim` small cores. Core `i` is a 4-D
array of shape `(out_modes[i], mat_ranks[i+1], mat_ranks[i], inp_modes[i])`,
used as a 2-D matrix. The forward pass multiplies the input by one core per
mode. Each step reshapes, left-multiplies by the core, reshapes again and
transposes, so the freshly produced output mode ends up as the last axis.

This project models that layer:

- **Construction** (module `TtCores`):
  - how each core picks its initializer and regularizer from a single value or a per-core list;
  - the variable names `mat_core_1` … `mat_core_dim` and `biases`;
  - the failures construction can run into;
  - the 4-D shape of each core's initial buffer and its row-major reshape to 2-D;
  - the deterministic (noise-free) part of the initial values: an identity pattern in every rank slice.
- **Forward contraction** (module `TtForward`):
  - the loop of reshape / matmul / reshape / transpose steps;
  - the final reshape to `(-1, prod(out_modes))`;
  - the optional bias add.
- **Dense matrix** (modules `TtDense` and `Sums`):
  - the matrix `W` the cores stand for: `W[I, J]` is the product of the core slices `G_k[j_k, :, :, i_k]` over the row-major digits `i_k` of `I` and `j_k` of `J`;
  - the partial contraction the running tensor holds before each loop step;
  - finite sums and the rearrangements of a triple sum that one step performs.
- **Tensors** (module `Tensors`): flat row-major `seq<int>` data with an explicit 2-D shape. The module provides:
  - `tf.reshape` with one inferred (`-1`) size, which needs an exact division;
  - `tf.transpose`;
  - `tf.matmul` over the integers;
  - `tf.add` of a row vector.
- **Failures** (module `Outcomes`): every failure the source would raise is a `Result` error:
  - an `IndexError` on a short list;
  - numpy refusing a negative size;
  - `math.sqrt` of a negative number;
  - a reshape that cannot infer its size;
  - mismatched matmul operands;
  - a bias of the wrong length.

The main results:
- **Construction:**
  - construction succeeds exactly for arguments whose lists are long enough and whose sizes are non-negative;
  - it then builds exactly `dim` cores with distinct names;
  - core `i` has the 2-D shape `(out_modes[i]*mat_ranks[i+1], mat_ranks[i]*inp_modes[i])`;
  - buffer entry `[m, j, k, n]` lands at row `m*mat_ranks[i+1]+j`, column `k*inp_modes[i]+n`.
- **Forward pass:**
  - with `mat_ranks[0] = 1`, every `-1` reshape of the loop divides exactly, and the running tensor before step `i` holds `r_i * prod(n_i..) * batch * prod(m_..i)` entries;
  - each step puts the new rank first and the new output mode last;
  - with `mat_ranks[0] = mat_ranks[dim] = 1` the output is `[batch, prod(out_modes)]`.
- **Dense product:** with `mat_ranks[0] = mat_ranks[dim] = 1`, output entry `(b, J)` is `sum_I x[b, I] * W[I, J]`, plus `bias[J]` when there is a bias. So the layer multiplies its input by the TT matrix of its cores.
- **Identity round trip:** with all ranks 1, `inp_modes == out_modes` and the noise-free initial cores, the step rotations compose to the identity permutation, and the layer returns its input.
- **Linearity:** without a bias the layer is linear.
- **Bias:** the bias adds the same vector to every row and changes nothing else; with all-zero cores the output is the bias on every row, or zero when there is no bias.

The layout comments in the source give the running tensor's axis order before each step as `(r_i, n_i..n_{L-1}, b, m_0..m_{i-1})` (lines 72, 77 and 79). The comment at line 74 puts the batch axis after `m_0..m_{i-1}` instead. The code keeps it before them, as `TtForward.RunIdentity` states for the identity layer.

## Model

| member | source | states |
|---|---|---|
| TtCores.Select | VGG-19/vgg-19/tensornet/layers/tt_dev.py:39-47 | a per-core list gives core `i` element `i`, a single value is given to every core, and a list too short for `i` fails with an index error |
| TtCores.SharedIsRepeatedList | VGG-19/vgg-19/tensornet/layers/tt_dev.py:39-47 | a single initializer or regularizer behaves exactly like a list repeating it once per core |
| Decimal.NatToString | VGG-19/vgg-19/tensornet/layers/tt_dev.py:60 | the `%d` rendering of a number is a non-empty string of decimal digits with no leading zero |
| Decimal.StringToNatInverse | VGG-19/vgg-19/tensornet/layers/tt_dev.py:60 | reading the rendered digits back yields the number again |
| Decimal.NatToStringInjective | VGG-19/vgg-19/tensornet/layers/tt_dev.py:60 | two different numbers never render to the same digits |
| TtCores.NamesDistinct | VGG-19/vgg-19/tensornet/layers/tt_dev.py:60 | the names `mat_core_<i+1>` of two different cores differ, and no core is named `biases` |
| TtCores.BuildCore | VGG-19/vgg-19/tensornet/layers/tt_dev.py:39-65 | a successful iteration has read `out_modes[i]`, `mat_ranks[i+1]` and the selected regularizer, and registers core `i` as `mat_core_<i+1>` with that regularizer and the 4-D buffer shape `(out_modes[i], mat_ranks[i+1], mat_ranks[i], inp_modes[i])` in that axis order, hence the 2-D shape `(out_modes[i]*mat_ranks[i+1], mat_ranks[i]*inp_modes[i])` |
| TtCores.BuildCores | VGG-19/vgg-19/tensornet/layers/tt_dev.py:38-65 | the first `n` loop iterations succeed exactly when every one of them does, and then yield exactly `n` cores, the `k`-th being what iteration `k` registers |
| TtCores.BuildLayer | VGG-19/vgg-19/tensornet/layers/tt_dev.py:36-89 | a built layer has exactly `dim` cores, and has a bias exactly when a bias initializer is given; that bias is named `biases`, has length `prod(out_modes)` and carries the given initializer and regularizer |
| TtCores.BuildLayerSpec | VGG-19/vgg-19/tensornet/layers/tt_dev.py:38-65 | construction succeeds exactly for buildable arguments (lists long enough, sizes non-negative, `inp_size*out_size` non-negative), and then core `i` has the name `mat_core_<i+1>`, the 4-D shape `(out_modes[i], mat_ranks[i+1], mat_ranks[i], inp_modes[i])` in that axis order, its 2-D shape, and the regularizer selected for `i` |
| TtCores.FirstUnbuildable | VGG-19/vgg-19/tensornet/layers/tt_dev.py:39-58 | for arguments that are not buildable, some loop iteration below `dim` fails |
| TtCores.WellFormedBuilds | VGG-19/vgg-19/tensornet/layers/tt_dev.py:49-58 | positive modes and ranks with `dim` output modes, `dim+1` ranks and long enough per-core lists always build |
| TtCores.CoreMatrix | VGG-19/vgg-19/tensornet/layers/tt_dev.py:58 | reshaping a `(d0, d1, d2, d3)` buffer gives a `(d0*d1) x (d2*d3)` matrix holding the same flat data |
| TtCores.CoreMatrixAt | VGG-19/vgg-19/tensornet/layers/tt_dev.py:53-58 | buffer entry `[m, j, k, n]` sits at row `m*d1+j`, column `k*d3+n` of the 2-D core |
| TtCores.NoiseFreeCore | VGG-19/vgg-19/tensornet/layers/tt_dev.py:53-57 | the deterministic part of the initial buffer has shape `(out_modes[i], mat_ranks[i+1], mat_ranks[i], inp_modes[i])` |
| TtCores.NoiseFreeCoreAt | VGG-19/vgg-19/tensornet/layers/tt_dev.py:54-57 | every slice `[:, j, k, :]` of the noise-free buffer is `np.eye(out_mode, in_mode)`: entry `[m, j, k, n]` is 1 exactly when `m == n` |
| TtCores.NoiseFreeRankOneIsIdentity | VGG-19/vgg-19/tensornet/layers/tt_dev.py:57-58 | with both ranks 1 and equal modes the noise-free 2-D core is the identity matrix |
| Tensors.ReshapeRows | VGG-19/vgg-19/tensornet/layers/tt_dev.py:73 | `tf.reshape(t, [k, -1])` succeeds exactly when `k` is positive and divides the element count, and keeps the data |
| Tensors.ReshapeCols | VGG-19/vgg-19/tensornet/layers/tt_dev.py:68 | `tf.reshape(t, [-1, k])` succeeds exactly when `k` is positive and divides the element count, and keeps the data |
| Tensors.ReshapeRowsExact | VGG-19/vgg-19/tensornet/layers/tt_dev.py:78 | a tensor of `rows*cols` entries reshaped to `(rows, -1)` gets `cols` columns |
| Tensors.ReshapeColsExact | VGG-19/vgg-19/tensornet/layers/tt_dev.py:93 | a tensor of `rows*cols` entries reshaped to `(-1, cols)` gets `rows` rows |
| Tensors.Transpose | VGG-19/vgg-19/tensornet/layers/tt_dev.py:69 | `tf.transpose(t, [1, 0])` swaps the shape and moves entry `(i, j)` to `(j, i)` |
| Tensors.TransposeInvolution | VGG-19/vgg-19/tensornet/layers/tt_dev.py:80 | transposing twice gives the tensor back |
| Tensors.MatMul | VGG-19/vgg-19/tensornet/layers/tt_dev.py:76 | `tf.matmul` succeeds exactly when the inner sizes agree, and entry `(i, j)` is row `i` of the core times column `j` of the running tensor |
| Tensors.MatMulEyeLeft | VGG-19/vgg-19/tensornet/layers/tt_dev.py:76 | multiplying by an identity core changes nothing |
| Tensors.MatMulAddRight | VGG-19/vgg-19/tensornet/layers/tt_dev.py:76 | multiplying by a core distributes over a sum of running tensors |
| Tensors.TransposeAdd | VGG-19/vgg-19/tensornet/layers/tt_dev.py:80 | transposing a sum is summing the transposes |
| Tensors.MatMulZeroLeft | VGG-19/vgg-19/tensornet/layers/tt_dev.py:76 | an all-zero core gives an all-zero product |
| Tensors.TransposeZero | VGG-19/vgg-19/tensornet/layers/tt_dev.py:80 | transposing keeps an all-zero tensor all zero |
| Tensors.AddRow | VGG-19/vgg-19/tensornet/layers/tt_dev.py:91 | the model's add requires the exact row length (otherwise BadBroadcast), and then adds the bias to every row, entry by entry |
| Tensors.AddRowZero | VGG-19/vgg-19/tensornet/layers/tt_dev.py:91 | adding the all-zero bias of the default `tf.zeros_initializer` changes nothing |
| Rotation.RotateOne | VGG-19/vgg-19/tensornet/layers/tt_dev.py:72 | with rank 1 and nothing processed yet, the flat layout is the transposed input itself |
| Rotation.RotateUndoesTranspose | VGG-19/vgg-19/tensornet/layers/tt_dev.py:68-69 | rotating the transposed input by its mode product gives the flattened input back |
| Rotation.RotateCompose | VGG-19/vgg-19/tensornet/layers/tt_dev.py:73-80 | two successive step rotations, by `a1` and then `a2`, are one rotation by `a1*a2` |
| TtForward.StepStages | VGG-19/vgg-19/tensornet/layers/tt_dev.py:73-80 | on `k*rest` entries and a fitting core, each of the step's reshapes and its matmul succeeds, with the intermediate shapes the layout comments give |
| TtForward.StepShape | VGG-19/vgg-19/tensornet/layers/tt_dev.py:72-80 | a step on `(r_i*n_i)*rest` entries with a core of shape `(m_i*r_{i+1}, r_i*n_i)` succeeds and gives `(r_{i+1}*rest) x m_i` |
| TtForward.StepEntry | VGG-19/vgg-19/tensornet/layers/tt_dev.py:74-80 | after a step, entry `(r*rest+u, mo)` is core row `(mo, r)` contracted with column `u` of the running tensor: the new rank leads and the output mode is the last axis |
| TtForward.RunLayout | VGG-19/vgg-19/tensornet/layers/tt_dev.py:71-80 | with `mat_ranks[0] = 1`, every loop step succeeds (every `-1` reshape divides exactly), the running tensor before step `i` holds `r_i*prod(n_i..)*batch*prod(m_..i)` entries, and its last axis is the output mode just produced |
| TtForward.ForwardShape | VGG-19/vgg-19/tensornet/layers/tt_dev.py:67-93 | with `mat_ranks[0] = 1` and fitting cores, the forward pass succeeds exactly when the input size is a multiple of `prod(inp_modes)`, and gives `mat_ranks[dim]*batch` rows of `prod(out_modes)` entries |
| TtForward.OutputShape | VGG-19/vgg-19/tensornet/layers/tt_dev.py:19-31 | with `mat_ranks[0] = mat_ranks[dim] = 1`, an input `[batch, prod(inp_modes)]` gives an output `[batch, prod(out_modes)]`, with or without a bias |
| TtForward.BuiltLayerRuns | VGG-19/vgg-19/tensornet/layers/tt_dev.py:33-93 | a well-formed layer with boundary ranks 1 builds, and with core and bias values of the registered shapes its forward pass maps `[batch, prod(inp_modes)]` to `[batch, prod(out_modes)]` |
| TtForward.ForwardBias | VGG-19/vgg-19/tensornet/layers/tt_dev.py:82-93 | without a bias the output is the reshaped contraction; with one, it succeeds exactly when the bias has length `prod(out_modes)`, and then it has the same shape and each entry `(i, j)` grows by `bias[j]` and by nothing else |
| TtForward.StepAdd | VGG-19/vgg-19/tensornet/layers/tt_dev.py:73-80 | a step succeeds on both of two same-shaped tensors or on neither, and maps their sum to the sum of the results |
| TtForward.RunAdd | VGG-19/vgg-19/tensornet/layers/tt_dev.py:71-80 | the contraction loop succeeds on both of two same-shaped tensors or on neither, and maps their sum to the sum of the results |
| TtForward.ForwardAdd | VGG-19/vgg-19/tensornet/layers/tt_dev.py:67-93 | without a bias the layer is linear: it succeeds on both of two same-shaped inputs or on neither, and maps their sum to the sum of the outputs |
| TtForward.StepWithIdentity | VGG-19/vgg-19/tensornet/layers/tt_dev.py:73-80 | a step with an identity core is a pure transpose of the running tensor viewed as `n x c` |
| TtForward.IdentityCoreAt | VGG-19/vgg-19/tensornet/layers/tt_dev.py:53-58 | in the identity layer, step `j` multiplies by an identity matrix and reshapes by `n_j` |
| TtForward.IdentityStepComposes | VGG-19/vgg-19/tensornet/layers/tt_dev.py:73-80 | an identity step on a tensor already rotated by `done` gives the rotation by `done*n` |
| TtForward.RunIdentity | VGG-19/vgg-19/tensornet/layers/tt_dev.py:71-80 | in the identity layer the running tensor before step `i` is the transposed input in flat order `(n_i.., b, n_0..n_{i-1})`, that is, rotated by `n_0*…*n_{i-1}` |
| TtForward.IdentityRoundTrip | VGG-19/vgg-19/tensornet/layers/tt_dev.py:67-93 | with all ranks 1, `inp_modes == out_modes` and the noise-free rank-1 cores, the forward pass returns its input unchanged, with no bias and with the default zero bias |
| TtForward.StepZeroCore | VGG-19/vgg-19/tensornet/layers/tt_dev.py:73-80 | a step with an all-zero core gives an all-zero tensor |
| TtForward.RunZeroCores | VGG-19/vgg-19/tensornet/layers/tt_dev.py:71-80 | after at least one step with all-zero cores the running tensor is all zero |
| TtForward.ForwardZeroCores | VGG-19/vgg-19/tensornet/layers/tt_dev.py:67-93 | with all-zero cores and at least one mode, the output is zero without a bias and is the bias on every row with one |
| TtDense.ForwardIsDense | VGG-19/vgg-19/tensornet/layers/tt_dev.py:67-93 | with `mat_ranks[0] = mat_ranks[dim] = 1` and an input of `prod(inp_modes)` columns, the forward pass succeeds with shape `[batch, prod(out_modes)]`, and entry `(b, J)` is `sum_I x[b, I] * W[I, J]` plus `bias[J]` when there is a bias, `W` being the TT matrix of the cores |
| TtDense.RunDense | VGG-19/vgg-19/tensornet/layers/tt_dev.py:67-80 | before step `i`, the running tensor's cell at rank `alpha`, remaining input index `s`, batch row `b` and output index `q` (axes `(r_i, n_i.., b, m_..i)`) holds row `b` of the input contracted with the first `i` cores over the consumed input modes |
| TtDense.RunDenseBase | VGG-19/vgg-19/tensornet/layers/tt_dev.py:68-69 | the transposed input holds `x[b, s]` at cell `(0, s, b, 0)`, which is the contraction with no cores |
| TtDense.RunDenseStep | VGG-19/vgg-19/tensornet/layers/tt_dev.py:71-80 | one loop step keeps that invariant: cell `(beta, s, b, q*m_k+jj)` after the step holds the partial contraction with one more core |
| TtDense.StepSizes | VGG-19/vgg-19/tensornet/layers/tt_dev.py:72-80 | over one step the remaining input size shrinks by `n_k`, the consumed input size grows by `n_k`, the produced output size grows by `m_k`, and the running tensor's size factors as `(r_k*n_k) * (tail*(batch*done))` |
| TtDense.LeftEntry | VGG-19/vgg-19/tensornet/layers/tt_dev.py:72-73 | row `a*n_k+ii` of the `(r_k*n_k, -1)` reshape, at the column of `(s, b, q)`, is the partial contraction at rank `a` and remaining input `ii*tail+s` |
| TtDense.StepCell | VGG-19/vgg-19/tensornet/layers/tt_dev.py:73-80 | after a step, cell `(beta, s, b, q*m_k+jj)` of the next layout is core row `jj*r_{k+1}+beta` times the column of `(s, b, q)` of the reshaped running tensor |
| TtDense.StepDot | VGG-19/vgg-19/tensornet/layers/tt_dev.py:73-76 | that product of a core row and a column is the next partial contraction at rank `beta`, remaining input `s` and output `q*m_k+jj` |
| TtDense.RightEntry | VGG-19/vgg-19/tensornet/layers/tt_dev.py:76 | the chain of the first `k+1` core slices at input `p*n_k+ii` and output `q*m_k+jj` is the chain of the first `k` at `p` and `q`, contracted with core `k`'s slice `[jj, beta, :, ii]` |
| TtDense.StepSum | VGG-19/vgg-19/tensornet/layers/tt_dev.py:76 | once each term of the matmul's sum is a core slice times a partial contraction, the sum is the next partial contraction |
| TtDense.ContractionSums | VGG-19/vgg-19/tensornet/layers/tt_dev.py:76 | the matmul's sum over `(r_k, n_k)` of partial contractions and the next contraction's sum over the consumed inputs are one triple sum taken in two orders |

## Left out

- Floating point: entries are integers, and `tf.matmul` and `tf.add` are ring operations. Rounding, NaN and infinity of `float32` are not modelled.
- TtCores.NoiseFreeCore: models only the `np.eye` pattern of the initial buffer. The Gaussian noise, the `sigma` and `x` scales, and the factor `1 / sqrt(mat_ranks[i+1]*mat_ranks[i])` are random or floating-point. The factor is 1 when both ranks are 1.
- TtCores.BuildCore: of the `math.sqrt` calls it keeps only the failure on a negative `inp_size*out_size`. A zero product gives an infinite scale in numpy rather than a failure, and is accepted.
- The core initializer is selected (a short list fails) but its value is never used. The source does the same: every core starts from the buffer it builds.
- `get_var_wrap` from `tensornet/layers/auxx.py` is not part of this model. Each call becomes a record of what it is asked for. A core records its name, 4-D shape and regularizer; its initial value `tempI` is not in the record, and `TtCores.NoiseFreeCore` models that buffer separately. The bias records its name, length, initializer and regularizer. Variable creation, `trainable`, `cpu_variables`, `tf.variable_scope` and name collisions inside the factory are not modelled.
- Regularizer functions, gradients and training are left out: they are opaque and float-valued.
- Integer width: `np.prod` of the mode arrays is an unbounded `Prod`, so overflow of `int32`/`int64` products is not modelled.
- No modes: `Forward` follows integer mode arrays, for which `np.prod` of an empty array is 1, and the layer then only flattens its input. An empty float array (product `1.0`) would make `tf.reshape` refuse the shape instead.
- Error order inside a loop step: a mode or rank list too short for index `i` is reported as an index error before any reshape of that step. The source would first run the reshape and matmul at lines 73-76 and read `out_modes[i]` only at line 78. This cannot arise for a layer that was built, since construction reads the same indices.
- Tensors.AddRow: requires the bias length to equal the row length and otherwise fails with BadBroadcast. `tf.add` also broadcasts a bias of length 1 over any row length, and any bias over a one-column tensor, which gives `[N, K]`. Neither case arises in the layer: line 91 always adds a bias of length `prod(out_modes)` to a tensor of `prod(out_modes)` columns.
- Validation: the code validates nothing. Short lists fail with index errors, and negative sizes fail with numpy errors. Boundary ranks other than 1 are accepted. `mat_ranks[0] = mat_ranks[dim] = 1` is a precondition of the shape lemmas, not a check.
- TtForward.ForwardShape: characterises success only for well-formed layers with `mat_ranks[0] = 1` and cores of the registered shapes. Other configurations are modelled by `Forward` but not characterised.
- The source never forms the dense matrix `W`. `TtDense.TtMatrixEntry` defines it from the cores as the TT-matrix format does, reading slice `[j, beta, alpha, i]` of core `k` from its 2-D matrix at row `j*r_{k+1}+beta` and column `alpha*n_k+i`.
- TtDense.ForwardIsDense: stated only for boundary ranks `mat_ranks[0] = mat_ranks[dim] = 1` and an input of exactly `prod(inp_modes)` columns. These are the layers whose output is `[batch, prod(out_modes)]`, and for other ranks `W` is not a single matrix.
