# rl-hypothesis-1: the discrete core, modelled in Dafny

The repository tests whether a conditional generative model (a conditional VAE) can usefully augment
reinforcement-learning transitions. Its numeric parts are Keras graphs and float maths. Around them sits
exact bookkeeping, and that bookkeeping is what this project models and proves:

- **Transfer sampling** (`docker/app/transform/transfer_sampler.py`). A replay-memory transition is the
  5-tuple `(state, action, reward, next_state, dead)`. Its frames are replaced by their 512-wide
  embeddings. Each transition gets one of four integer labels for `(reward > .5, dead)`. The
  `(state, next_state)` pair is concatenated into one row; it is split again at column 512.
  `transfer_sample` draws `n` transitions, or takes all of them when `n <= 0`. `cgan_sample` builds
  the labelled dataset.
- **The CVAE** (`docker/app/cvae.py`). The class stores its constructor arguments. `__init_model`
  gives every layer a width. `__one_hot` writes a one-hot matrix in place.
- **The simple evaluation** (`docker/app/simple_eval.py`). `simple_sample` splits `sample_size`
  into a binomial count of generated transitions and the rest real. It puts the real ones first.
  Real rows and labels are drawn at one shared index list. Generated labels come from
  `np.random.choice` over `0..8`. `fit` shapes its input arrays.

Files: `wrappers.dfy` holds Option, Result and the runtime errors. `arrays.dfy` holds the NumPy
array semantics: concatenation on both axes, column slicing, ravel and reshape. `sampling.dfy`
models `random.sample`. `transfer_sampler.dfy`, `cvae.dfy` and `simple_eval.dfy` follow the
three source files.

Modelling choices:
- Arrays are `Arrays.Mat`: a column count and a sequence of rows of reals. A frame keeps its leading
  batch axis as rows; its other axes are flattened row-major into columns.
- Python and NumPy exceptions are `Err` results, not preconditions. The modelled ones are
  `random.sample` with `k` above the population size, a shape mismatch in `np.concatenate`,
  `np.concatenate([])`, a fancy index out of bounds, and a reshape whose size is not a multiple
  of the row width.
- Randomness is passed in as parameters:
  - `random.sample` is a draw of distinct in-range indices (`Sampling.IsDraw`).
  - The binomial draw is `nFake` with `nFake <= sampleSize`.
  - `np.random.choice` is its own algorithm applied to uniform draws `u` in `[0, 1)`: cumulative
    sum, division by the total, then `searchsorted(side='right')`.
- Neural networks and unseen code are function parameters:
  - `model.predict` and `generator.predict` are `Mat -> Mat` (and `seq<int> -> Mat`).
  - `normalize` and `np.amax` are float functions.
  - `inverse_transfer_sample`, which the repository imports but does not show, is
    `(Mat, seq<int>) -> seq<Transition>`.
  - `transfer_sample` and `cgan_sample` take a `model` argument, but `transfer_sample` maps
    `_transfer_transform_rl_observation` without passing it on (transfer_sampler.py:128, 137).
    The transform therefore always embeds with its default, `rl_1_dense`. In the model, `model`
    is a parameter that nothing reads, and `predict` is `rl_1_dense.predict` whatever `model` is
    passed. `TransferSampler.TransferSampleIgnoresModel` states this.
  - Where one of them is assumed to behave, the lemma says so in a ghost predicate:
    `TransferSampler.Embeds` (one 512-wide output row per input row) and
    `SimpleEval.PreservesLength` (one transition per label).
- `_transfer_transform_rl_observation` copies the tuple into a list and overwrites positions 0 and 3.
  Here that is a method on a copied `Transition` value: positions 0 and 3 are replaced in turn, and
  the caller's transition cannot change.
- Where the code's own comments and its behaviour disagree, the model follows the code. Two
  cases:
  - The comments at transfer_sampler.py:103-104 and 115-116 say that label 3 ("rewarded and
    dead") should not occur. The code still returns it for a rewarded, dead transition.
  - `simple_eval_experiment` documents `sample_size` as the number of game transitions to sample
    (simple_eval.py:116). `simple_sample` returns that many only when `n_real` does not exceed
    the dataset (else `random.sample` raises) and `inverse_transfer_sample` keeps lengths.
    `SimpleEval.SimpleSample` states both conditions.
- `cgan_sample` on an empty memory with `n <= 0` raises, because `np.concatenate` gets nothing
  to concatenate. `TransferSampler.CganRowsAligned` states when it succeeds.
- The pickled dataset is assumed to hold one state row per label (`SimpleEval.Aligned`, a
  requirement of `RowsAt`, `SampleRealData` and `SimpleSample`). The source draws its indices
  from the label count and uses them to index the states (simple_eval.py:128-129). More state
  rows than labels would mispair them silently, and fewer would raise `IndexError`. `cgan_sample`
  produces such aligned data from single-frame memories (`CganRowsAligned`).
- `fit` is modelled as written: its value targets are line 92's expression, `TdTargetAsWritten`.
  The intended target, `TdTarget`, is the corrected half of the finding below.
  `SimpleEval.FitTargetsOffset` relates the two.

## Model

| member | source | states |
|---|---|---|
| `Arrays.ConcatColumns` | docker/app/transform/transfer_sampler.py:122 | column concatenation succeeds iff the row counts agree; the width is the sum of the widths; rectangular inputs give a rectangular result |
| `Arrays.SliceBound` | docker/app/transform/transfer_sampler.py:126 | a Python slice bound: kept inside the axis, counted from the end when negative, clamped at both ends |
| `Arrays.SplitColumns` | docker/app/transform/transfer_sampler.py:126 | `[:, :at]` and `[:, at:]` keep every row, cut at the Python slice bound of `at` (negative counts from the end), and each row is the left part followed by the right |
| `Arrays.SplitOfConcat` | docker/app/transform/transfer_sampler.py:119-126 | splitting a concatenation at the left part's width returns both parts |
| `Arrays.ConcatOfSplit` | docker/app/transform/transfer_sampler.py:119-126 | concatenating the two halves of any split returns the array |
| `Arrays.Concatenate` | docker/app/transform/transfer_sampler.py:158 | `np.concatenate` along axis 0 fails on an empty list or unequal widths, else stacks all rows in order |
| `Arrays.StackSingleRows` | docker/app/transform/transfer_sampler.py:158 | stacking one-row arrays gives one row per array, in order |
| `Arrays.StackValid` | docker/app/transform/transfer_sampler.py:158 | stacking rectangular arrays of one width gives a rectangular array of that width |
| `Arrays.MapEntries` | docker/app/transform/transfer_sampler.py:159 | an elementwise map keeps the shape |
| `Arrays.Chunks` | docker/app/simple_eval.py:90 | a flat sequence whose length is a multiple of `w` is cut into `len / w` rows of width `w` |
| `Arrays.Reshape` | docker/app/simple_eval.py:90 | `reshape(-1, w)` succeeds iff the size is a multiple of `w`, giving `size / w` rows of width `w` |
| `Arrays.FlattenChunks` | docker/app/simple_eval.py:89-90 | ravelling the reshaped rows gives the flat data back |
| `Arrays.ChunksFlatten` | docker/app/simple_eval.py:89-90 | rows of width `w` ravel to `w * rows` entries and reshape back to the same rows |
| `Sampling.DrawWithoutReplacement` | docker/app/simple_eval.py:128 | elements taken at distinct positions form a sub-multiset of the population |
| `Sampling.DrawSize` | docker/app/transform/transfer_sampler.py:134 | `k` distinct positions out of a population exist only when `k` is at most the population size |
| `TransferSampler.TransferTransform` | docker/app/transform/transfer_sampler.py:84-92 | positions 0 and 3 become their predictions; action, reward and dead are kept; the result is `Transformed`, the functional form that `transfer_sample` maps |
| `TransferSampler.RewardDeadToInt` | docker/app/transform/transfer_sampler.py:94-105 | every transition gets a label in `{0, 1, 2, 3}` |
| `TransferSampler.LabelTable` | docker/app/transform/transfer_sampler.py:94-105 | label 0 iff not rewarded and dead, 1 iff rewarded and alive, 2 iff neither, 3 iff both |
| `TransferSampler.LabelInjective` | docker/app/transform/transfer_sampler.py:94-105 | two transitions share a label iff they agree on `reward > .5` and on `dead` |
| `TransferSampler.IntToRewardDead` | docker/app/transform/transfer_sampler.py:107-117 | every decoded reward is 0. or 1. |
| `TransferSampler.DecodeThenEncode` | docker/app/transform/transfer_sampler.py:94-117 | decoding each `k` in 0..3 and encoding the result gives `k` |
| `TransferSampler.EncodeThenDecode` | docker/app/transform/transfer_sampler.py:94-117 | encode then decode keeps `dead` and gives reward 1. iff the reward exceeded .5, else 0. |
| `TransferSampler.DecodeFallback` | docker/app/transform/transfer_sampler.py:115-117 | every int outside `{0, 1, 2}`, labels 4..8 included, decodes to `(1., True)` |
| `TransferSampler.MapTransfersToArray` | docker/app/transform/transfer_sampler.py:119-122 | the pair concatenates iff state and next state have equal row counts; the width is the sum |
| `TransferSampler.MapArrayToTransfers` | docker/app/transform/transfer_sampler.py:124-126 | the split keeps every row, the widths add up to the array's, and the left width is the slice bound of `split_point` (a negative one counts from the end) |
| `TransferSampler.SplitUndoesConcat` | docker/app/transform/transfer_sampler.py:119-126 | for a 512-wide state with as many rows as the next state, split(concat) is `(state, next_state)` |
| `TransferSampler.ConcatUndoesSplit` | docker/app/transform/transfer_sampler.py:119-126 | concat(split at 512) of any array is the array |
| `TransferSampler.DrawnFromData` | docker/app/transform/transfer_sampler.py:133-136 | the transitions a sample takes are a sub-multiset of the memory |
| `TransferSampler.TransferSample` | docker/app/transform/transfer_sampler.py:128-137 | fails iff `n` exceeds the memory; `n <= 0` transforms every transition in order; otherwise exactly `n`, transformed from the drawn positions in draw order; the transform is `predict` (`rl_1_dense`), never the `model` argument |
| `TransferSampler.TransferSampleIgnoresModel` | docker/app/transform/transfer_sampler.py:128-137 | two calls that differ only in `model` return the same result |
| `TransferSampler.ArraysOf` | docker/app/transform/transfer_sampler.py:158 | the per-transition concatenations succeed iff every pair has equal row counts, giving one array per transition |
| `TransferSampler.CganSample` | docker/app/transform/transfer_sampler.py:150-160 | on success, one label per drawn transition, in order, each that transition's label |
| `TransferSampler.SampleEmbedded` | docker/app/transform/transfer_sampler.py:84-92 | with single-frame transitions and a 512-wide embedding, each sampled transition is its drawn transition with two one-row, 512-wide embeddings |
| `TransferSampler.CganRowsAligned` | docker/app/transform/transfer_sampler.py:156-160 | with single-frame transitions and 512-wide embeddings: succeeds iff the draw succeeds and is non-empty; row `j` is the normalised state and next-state embeddings of transition `j`, and label `j` is its label |
| `Cvae.BuildLayout` | docker/app/cvae.py:57-102 | encoder input `data_dim + label_dim`; hidden widths `n_hidden`, then each half the one before; decoder hidden widths the reverse; output `data_dim`; conditioned latent and generator input both `latent_dim + label_dim`; noise shape `(batch_size, latent_dim)` |
| `Cvae.CVAE.constructor` | docker/app/cvae.py:29-45 | the seven fields equal the arguments (with the source's defaults) and the layout is the one they determine |
| `Cvae.CVAE.InitModel` | docker/app/cvae.py:47-105 | the layout becomes the one the stored fields determine; no other field changes |
| `Cvae.CVAE.OneHot` | docker/app/cvae.py:107-111 | succeeds iff every label indexes a column (negatives count from the end); then the matrix is newly allocated, `len(arr)` by `label_dim`, with 1 only at row `i`, column `arr[i]` |
| `Cvae.ArgMax` | docker/app/cvae.py:107-111 | the first position of the largest entry of a row |
| `Cvae.ArgMaxOneHot` | docker/app/cvae.py:109-110 | the argmax of the one-hot row of `k` in `[0, label_dim)` is `k` |
| `Cvae.OneHotRoundTrip` | docker/app/cvae.py:107-111 | for in-range labels, argmax of every one-hot row recovers its label |
| `Cvae.CganDataFitsMainModel` | docker/app/cvae.py:133-135 | the dataset `cgan_sample` produces is 1024 wide, one row per label, and every label is in range for `label_dim = 9` |
| `SimpleEval.RowsAt` | docker/app/simple_eval.py:129-130 | states and labels are taken at the same index list, so drawn row `j` is dataset row `idx[j]` with its own label |
| `SimpleEval.RowsStayPaired` | docker/app/simple_eval.py:128-130 | the drawn (state, label) pairs are a sub-multiset of the dataset's pairs |
| `SimpleEval.SampleRealData` | docker/app/simple_eval.py:127-131 | fails iff `n` exceeds the dataset rows; otherwise the inverse transform of the drawn rows, `n` long if the inverse keeps lengths |
| `SimpleEval.SearchSortedRight` | docker/app/simple_eval.py:140 | the first position whose entry exceeds `u`: every earlier entry is at most `u` |
| `SimpleEval.Cdf` | docker/app/simple_eval.py:140 | one cumulative probability per label |
| `SimpleEval.WeightsSum` | docker/app/simple_eval.py:140 | the nine choice probabilities add up to 1 |
| `SimpleEval.CdfValues` | docker/app/simple_eval.py:140 | the normalised cumulative sum starts at the first weight, grows by each weight and ends at 1 |
| `SimpleEval.CdfIncreasing` | docker/app/simple_eval.py:140 | the cumulative probabilities never decrease |
| `SimpleEval.FakeLabel` | docker/app/simple_eval.py:140 | a uniform draw in `[0, 1)` gives a label in 0..8, the one whose cdf interval holds the draw |
| `SimpleEval.FakeLabelInterval` | docker/app/simple_eval.py:140 | a draw gives label `k` iff it lies in `k`'s interval, and that interval's length is `k`'s probability |
| `SimpleEval.FakeLabels` | docker/app/simple_eval.py:140 | one label per requested sample, each in 0..8 |
| `SimpleEval.FakeLabelsOneHotEncode` | docker/app/simple_eval.py:140 | every generated label indexes a 9-column one-hot, the `label_dim` the CVAE script is built with in `cvae.py`'s main block |
| `SimpleEval.SampleFakeData` | docker/app/simple_eval.py:133-145 | `n` generated transitions if the inverse keeps lengths |
| `SimpleEval.RealCount` | docker/app/simple_eval.py:56-57 | for `n_fake` in `[0, sample_size]`, `n_real` is a natural number and `n_real + n_fake = sample_size` |
| `SimpleEval.SimpleSample` | docker/app/simple_eval.py:50-65 | fails iff `n_real` exceeds the dataset; otherwise the real sample followed by the fake one, `sample_size` long if the inverse keeps lengths |
| `SimpleEval.RealBeforeFake` | docker/app/simple_eval.py:59-65 | the first `n_real` transitions are the real sample and the rest the generated one |
| `SimpleEval.TdTarget` | docker/app/simple_eval.py:92 | the intended one-step target: the reward alone when dead, the reward plus discount times the next maximum otherwise |
| `SimpleEval.TdTargetAsWritten` | docker/app/simple_eval.py:92 | the target as the code computes it: reward + 1 - discount * max when dead, reward + 1 otherwise |
| `SimpleEval.TdTargetAsWrittenOffset` | docker/app/simple_eval.py:92 | the written target differs from the intended one by exactly `1 - discount * max`, which is an excess only while `discount * max < 1` |
| `SimpleEval.TdTargetAsWrittenCounterexample` | docker/app/simple_eval.py:92 | a dead, unrewarded transition gets target 1.0 where 0.0 is intended |
| `SimpleEval.FlatStates` | docker/app/simple_eval.py:89 | one flattened state per transition |
| `SimpleEval.FitInputs` | docker/app/simple_eval.py:89-92 | succeeds iff the flattened states have one length and their total is a multiple of 512; states are 512-wide rows holding exactly the flattened states; one action per transition in data order; target `i` is line 92's expression as written, `TdTargetAsWritten` of transition `i` |
| `SimpleEval.FitTargetsOffset` | docker/app/simple_eval.py:92 | every target `fit` trains on differs from the intended one-step target for that transition by exactly `1 - discount * max`, which is an excess only while `discount * max < 1` |
| `SimpleEval.FitRowsAligned` | docker/app/simple_eval.py:89-91 | when every state holds 512 entries, state row `i` is transition `i`'s state, next to its action |

## Left out

- Cloud storage and files: `download_blob`, `upload_blob`, the module-level downloads and pickle
  loads, and `transform_all_and_upload`, which also opens its file `'rb'` before `pickle.dump`.
  All of this is I/O.
- Keras: `build_model`, `load_weights`, the sub-models `rl_1_dense` and `rl_convs`, and `predict`.
  Only the shape of `predict` is assumed, in `Embeds`.
- The CVAE graph except its widths: the sampler, the MSE and KL loss, compile, `fit`,
  `save_model` and `generate` (an empty method). These are framework calls and float maths. As
  written, `CVAE.fit` calls `self.one_hot`, but Python mangles the method's name to
  `_CVAE__one_hot`, so `fit` cannot run.
- `Cvae.CVAE.constructor`: loading weights when `model_path` is given is I/O and is not modelled.
- `Cvae.CVAE.OneHot`: `arr.astype(np.int32)` is not modelled; labels are already integers.
  Truncation of float labels and 32-bit wrap-around are therefore not covered.
- `normalize` and `denormalize` use float `log1p`, `expm1` and ReLU. `normalize` is a parameter
  of `CganSample`; their round trip is not stated.
- `fit`'s model, loss, Adam updates and training loop are float numerics. So are splicing the
  weights into the agent, `metric_trials`, `simple_eval_experiment`'s rollouts and the
  `__main__` sleep and shutdown loops.
- `SimpleEval.FitInputs`: `np.amax` of the next state is a parameter. Stacking ragged flattened
  states is an error (`ShapeMismatch`), as in current NumPy; older NumPy built an object array
  instead.
- `inverse_transfer_sample` is not part of this model, because the repository does not define
  it. Every length claim that depends on it assumes `PreservesLength`.
- `SimpleEval.SampleFakeData`: the normal noise is folded into the `generate` parameter.
  `np.random.choice` is modelled over exact reals, without float rounding of the cumulative sum.
- `SimpleEval.SimpleSample`: `sample_size` is a natural number, and `nFake` is any count in
  `[0, sample_size]`. `np.random.binomial` raises for a negative size and for a
  `probability_simulated` outside `[0, 1]` (simple_eval.py:56). Neither error path is modelled,
  and neither is the distribution of the binomial and uniform draws.

## Findings

| source | as written | input that shows it | evidently intended | confidence | as-written member | corrected member |
|---|---|---|---|---|---|---|
| docker/app/simple_eval.py:92 | `tpl[2] + (1-int(tpl[4]) * discount * np.amax(tpl[3]))`: the product binds before the subtraction, so the target is `r + 1 - dead*γ*max` | a dead transition with reward 0 and `np.amax` 0 gets target 1.0 | `r + (1-int(dead)) * γ * max`: the reward alone for a final transition, otherwise the reward plus the discounted maximum | not executed; the parenthesisation differs from the standard one-step target | `SimpleEval.TdTargetAsWrittenCounterexample` | `SimpleEval.TdTarget` |
