/** The simple evaluation script: a pool of real and generated transitions, mixed by a binomial
    count, and the arrays the value head is fitted on. */
module SimpleEval {
  import opened Wrappers
  import opened Arrays
  import opened Sampling
  import opened TransferSampler
  import Cvae

  /** The pickled CGAN dataset (states, labels). */
  datatype CganData = CganData(states: Mat, labels: seq<int>)

  /** Row i of the states is labelled labels[i]. */
  predicate Aligned(d: CganData) {
    d.states.Valid() && |d.states.rows| == |d.labels|
  }

  /** inverse_transfer_sample, which maps (states, labels) back to transitions. Only its type is known. */
  type InverseTransfer = (Mat, seq<int>) -> seq<Transition>

  /** The assumption that inverse_transfer_sample returns one transition per label. */
  ghost predicate PreservesLength(inverse: InverseTransfer) {
    forall m, labels :: |inverse(m, labels)| == |labels|
  }

  /** The (state row, label) pairs of a dataset. */
  function Pairs(d: CganData): seq<(seq<real>, int)>
    requires Aligned(d)
  {
    seq(|d.labels|, i requires 0 <= i < |d.labels| => (d.states.rows[i], d.labels[i]))
  }

  /** CGAN_DATA[0][idx, :] and CGAN_DATA[1][idx]: both taken at the same index list. */
  function RowsAt(d: CganData, idx: seq<nat>): (r: CganData)
    requires Aligned(d) && InRange(idx, |d.labels|)
    ensures Aligned(r) && r.states.cols == d.states.cols && |r.labels| == |idx|
    ensures forall j :: 0 <= j < |idx| ==>
      r.states.rows[j] == d.states.rows[idx[j]] && r.labels[j] == d.labels[idx[j]]
  {
    CganData(Mat(d.states.cols, Select(d.states.rows, idx)), Select(d.labels, idx))
  }

  /** Drawing distinct rows keeps every state with its own label: the drawn pairs are a
      sub-multiset of the dataset's pairs. */
  lemma RowsStayPaired(d: CganData, idx: seq<nat>)
    requires Aligned(d) && Distinct(idx) && InRange(idx, |d.labels|)
    ensures multiset(Pairs(RowsAt(d, idx))) <= multiset(Pairs(d))
  {
    assert Pairs(RowsAt(d, idx)) == Select(Pairs(d), idx);
    DrawWithoutReplacement(Pairs(d), idx);
  }

  /** __sample_real_data(n): `idx` is the draw random.sample(range(rows), n). */
  function SampleRealData(d: CganData, n: nat, idx: seq<nat>, inverse: InverseTransfer): (r: Result<seq<Transition>>)
    requires Aligned(d)
    requires n <= |d.labels| ==> IsDraw(idx, n, |d.labels|)
    ensures r.Ok? <==> n <= |d.labels|
    ensures r.Err? ==> r.error == SampleLargerThanPopulation
    ensures r.Ok? ==> r.value == inverse(RowsAt(d, idx).states, RowsAt(d, idx).labels)
    ensures r.Ok? && PreservesLength(inverse) ==> |r.value| == n
  {
    if n > |d.labels| then Err(SampleLargerThanPopulation)
    else
      var drawn := RowsAt(d, idx);
      Ok(inverse(drawn.states, drawn.labels))
  }

  /** The probabilities of labels 0..8 in __sample_fake_data: [.01/3, .03/3, .96/3] * 3. */
  const ChoiceWeights: seq<real> :=
    [0.01 / 3.0, 0.03 / 3.0, 0.96 / 3.0, 0.01 / 3.0, 0.03 / 3.0, 0.96 / 3.0, 0.01 / 3.0, 0.03 / 3.0, 0.96 / 3.0]

  /** The labels np.random.choice picks from. */
  const ChoiceLabels: seq<int> := [0, 1, 2, 3, 4, 5, 6, 7, 8]

  function Sum(ws: seq<real>): real
  {
    if ws == [] then 0.0 else Sum(ws[..|ws| - 1]) + ws[|ws| - 1]
  }

  /** What np.random.choice searches: p.cumsum() divided by its last entry. */
  function Cdf(): (c: seq<real>)
    ensures |c| == |ChoiceWeights|
  {
    WeightsSum();
    seq(|ChoiceWeights|, i requires 0 <= i < |ChoiceWeights| => Sum(ChoiceWeights[..i + 1]) / Sum(ChoiceWeights))
  }

  lemma SumStep(ws: seq<real>, i: nat)
    requires i < |ws|
    ensures Sum(ws[..i + 1]) == Sum(ws[..i]) + ws[i]
  {
    assert ws[..i + 1][..i] == ws[..i];
  }

  /** The weights add up to 1. */
  lemma WeightsSum()
    ensures Sum(ChoiceWeights) == 1.0
  {
    var ws := ChoiceWeights;
    SumStep(ws, 0);
    SumStep(ws, 1);
    SumStep(ws, 2);
    SumStep(ws, 3);
    SumStep(ws, 4);
    SumStep(ws, 5);
    SumStep(ws, 6);
    SumStep(ws, 7);
    SumStep(ws, 8);
    assert ws[..0] == [];
    assert ws[..9] == ws;
  }

  /** Dividing by the total leaves the cumulative sums unchanged, and each label owns an
      interval of [0, 1) as long as its weight. */
  lemma CdfValues()
    ensures Cdf()[0] == ChoiceWeights[0]
    ensures forall k :: 0 < k < |ChoiceWeights| ==> Cdf()[k] == Cdf()[k - 1] + ChoiceWeights[k]
    ensures Cdf()[|ChoiceWeights| - 1] == 1.0
  {
    var ws := ChoiceWeights;
    WeightsSum();
    SumStep(ws, 0);
    assert ws[..0] == [];
    assert ws[..9] == ws;
    forall k | 0 < k < |ws| ensures Cdf()[k] == Cdf()[k - 1] + ws[k] {
      SumStep(ws, k);
    }
  }

  /** ndarray.searchsorted(u, side='right') on a sorted array: the first position whose entry
      exceeds u, or the length when none does. */
  function SearchSortedRight(a: seq<real>, u: real): (i: nat)
    ensures i <= |a|
    ensures forall j :: 0 <= j < i ==> a[j] <= u
    ensures i < |a| ==> u < a[i]
  {
    if a == [] then 0
    else if u < a[0] then 0
    else 1 + SearchSortedRight(a[1..], u)
  }

  /** One label of np.random.choice(labels, p=...): the label of the cdf interval the uniform
      draw u in [0, 1) falls in. */
  function FakeLabel(u: real): (k: int)
    requires 0.0 <= u < 1.0
    ensures 0 <= k <= 8
    ensures u < Cdf()[k] && (k > 0 ==> Cdf()[k - 1] <= u)
  {
    CdfValues();
    var i := SearchSortedRight(Cdf(), u);
    assert i < |ChoiceLabels|;
    ChoiceLabels[i]
  }

  /** A uniform draw u gives label k exactly when u lies in k's interval, whose length is k's weight. */
  lemma FakeLabelInterval(u: real, k: int)
    requires 0.0 <= u < 1.0 && 0 <= k <= 8
    ensures FakeLabel(u) == k <==> (if k == 0 then 0.0 else Cdf()[k - 1]) <= u < Cdf()[k]
    ensures Cdf()[k] - (if k == 0 then 0.0 else Cdf()[k - 1]) == ChoiceWeights[k]
  {
    CdfValues();
    CdfIncreasing();
    var l := FakeLabel(u);
    if l < k {
      assert Cdf()[l] <= Cdf()[k - 1];
    } else if l > k {
      assert Cdf()[k] <= Cdf()[l - 1];
    }
  }

  lemma CdfIncreasing()
    ensures forall i, j :: 0 <= i <= j < |ChoiceWeights| ==> Cdf()[i] <= Cdf()[j]
  {
    CdfValues();
    forall i, j | 0 <= i <= j < |ChoiceWeights| ensures Cdf()[i] <= Cdf()[j] {
      var k := i;
      while k < j
        invariant i <= k <= j
        invariant Cdf()[i] <= Cdf()[k]
      {
        k := k + 1;
      }
    }
  }

  /** The labels of __sample_fake_data: one per uniform draw, each in 0..8. */
  function FakeLabels(us: seq<real>): (labels: seq<int>)
    requires forall i :: 0 <= i < |us| ==> 0.0 <= us[i] < 1.0
    ensures |labels| == |us|
    ensures forall i :: 0 <= i < |us| ==> 0 <= labels[i] <= 8
  {
    seq(|us|, i requires 0 <= i < |us| => FakeLabel(us[i]))
  }

  /** Every generated label indexes a 9-column one-hot, the label_dim the CVAE script is built
      with, and there are as many choice labels as columns. */
  lemma FakeLabelsOneHotEncode(us: seq<real>)
    requires forall i :: 0 <= i < |us| ==> 0.0 <= us[i] < 1.0
    ensures |ChoiceLabels| == Cvae.MainLabelDim
    ensures Cvae.LabelsInRange(FakeLabels(us), Cvae.MainLabelDim)
    ensures forall i :: 0 <= i < |us| ==> FakeLabels(us)[i] >= 0
  {
  }

  /** __sample_fake_data(n): `us` are the n uniform draws behind np.random.choice, `generate` is
      the generator's predict on fresh noise and the labels. */
  function SampleFakeData(n: nat, us: seq<real>, generate: seq<int> -> Mat, inverse: InverseTransfer): (r: seq<Transition>)
    requires |us| == n && forall i :: 0 <= i < n ==> 0.0 <= us[i] < 1.0
    ensures PreservesLength(inverse) ==> |r| == n
  {
    var labels := FakeLabels(us);
    inverse(generate(labels), labels)
  }

  /** n_real = sample_size - n_fake, for n_fake in the binomial's support [0, sample_size]. */
  function RealCount(sampleSize: nat, nFake: nat): (nReal: nat)
    requires nFake <= sampleSize
    ensures nReal + nFake == sampleSize
  {
    sampleSize - nFake
  }

  /** simple_sample: nFake is the binomial draw; the real samples come before the fake ones. */
  function SimpleSample(sampleSize: nat, nFake: nat, d: CganData, idx: seq<nat>, us: seq<real>,
                        generate: seq<int> -> Mat, inverse: InverseTransfer): (r: Result<seq<Transition>>)
    requires nFake <= sampleSize && Aligned(d)
    requires RealCount(sampleSize, nFake) <= |d.labels| ==> IsDraw(idx, RealCount(sampleSize, nFake), |d.labels|)
    requires |us| == nFake && forall i :: 0 <= i < nFake ==> 0.0 <= us[i] < 1.0
    ensures r.Ok? <==> RealCount(sampleSize, nFake) <= |d.labels|
    ensures r.Ok? ==> r.value == SampleRealData(d, RealCount(sampleSize, nFake), idx, inverse).value
                                 + SampleFakeData(nFake, us, generate, inverse)
    ensures r.Ok? && PreservesLength(inverse) ==> |r.value| == sampleSize
  {
    var nReal := RealCount(sampleSize, nFake);
    match SampleRealData(d, nReal, idx, inverse)
    case Err(e) => Err(e)
    case Ok(realData) => Ok(realData + SampleFakeData(nFake, us, generate, inverse))
  }

  /** With a length-preserving inverse, the first n_real elements are the real sample and the
      remaining n_fake the generated one. */
  lemma RealBeforeFake(sampleSize: nat, nFake: nat, d: CganData, idx: seq<nat>, us: seq<real>,
                       generate: seq<int> -> Mat, inverse: InverseTransfer)
    requires nFake <= sampleSize && Aligned(d)
    requires RealCount(sampleSize, nFake) <= |d.labels| ==> IsDraw(idx, RealCount(sampleSize, nFake), |d.labels|)
    requires |us| == nFake && forall i :: 0 <= i < nFake ==> 0.0 <= us[i] < 1.0
    requires PreservesLength(inverse)
    ensures var r := SimpleSample(sampleSize, nFake, d, idx, us, generate, inverse);
      var nReal := RealCount(sampleSize, nFake);
      r.Ok? ==> (r.value[..nReal] == SampleRealData(d, nReal, idx, inverse).value &&
                 r.value[nReal..] == SampleFakeData(nFake, us, generate, inverse))
  {
  }

  /** The one-step target of the value head for reward r, `dead`, discount and the largest entry
      of the next state's array: the reward alone for a final transition, otherwise the reward
      plus the discounted maximum. */
  function TdTarget(reward: real, dead: bool, discount: real, nextMax: real): (y: real)
    ensures dead ==> y == reward
    ensures !dead ==> y == reward + discount * nextMax
  {
    reward + (1.0 - (if dead then 1.0 else 0.0)) * discount * nextMax
  }

  /** The target as fit computes it: `tpl[2] + (1-int(tpl[4]) * discount * np.amax(tpl[3]))`,
      where the product binds tighter than the subtraction. */
  function TdTargetAsWritten(reward: real, dead: bool, discount: real, nextMax: real): (y: real)
    ensures dead ==> y == reward + 1.0 - discount * nextMax
    ensures !dead ==> y == reward + 1.0
  {
    reward + (1.0 - (if dead then 1.0 else 0.0) * discount * nextMax)
  }

  /** The written target is always the intended one plus 1 - discount * nextMax. */
  lemma TdTargetAsWrittenOffset(reward: real, dead: bool, discount: real, nextMax: real)
    ensures TdTargetAsWritten(reward, dead, discount, nextMax)
         == TdTarget(reward, dead, discount, nextMax) + 1.0 - discount * nextMax
  {
  }

  /** A final transition with no reward gets target 1.0 where 0.0 is intended. */
  lemma TdTargetAsWrittenCounterexample()
    ensures TdTargetAsWritten(0.0, true, 0.99, 0.0) == 1.0
    ensures TdTarget(0.0, true, 0.99, 0.0) == 0.0
  {
  }

  /** The arrays fit trains on. */
  datatype FitBatch = FitBatch(states: Mat, actions: seq<int>, targets: seq<real>)

  /** The flattened states of the transitions (tpl[0].flatten() for each tpl). */
  function FlatStates(data: seq<Transition>): (flats: seq<seq<real>>)
    ensures |flats| == |data|
  {
    seq(|data|, i requires 0 <= i < |data| => Flatten(data[i].state.rows))
  }

  /** The input arrays of fit: the flattened states stacked by np.array (which refuses ragged
      rows) and reshaped to rows of 512, the actions, and the targets as line 92 computes them
      (TdTargetAsWritten); `amax` is np.amax. */
  function FitInputs(data: seq<Transition>, discount: real, amax: Mat -> real): (r: Result<FitBatch>)
    ensures r.Ok? <==> (forall i :: 0 <= i < |data| ==> |FlatStates(data)[i]| == |FlatStates(data)[0]|)
                       && |Flatten(FlatStates(data))| % EmbeddingWidth == 0
    ensures r.Ok? ==> r.value.states.Valid() && r.value.states.cols == EmbeddingWidth
    ensures r.Ok? ==> Flatten(r.value.states.rows) == Flatten(FlatStates(data))
    ensures r.Ok? ==> |r.value.actions| == |data| && forall i :: 0 <= i < |data| ==> r.value.actions[i] == data[i].action
    ensures r.Ok? ==> |r.value.targets| == |data| && forall i :: 0 <= i < |data| ==>
      r.value.targets[i] == TdTargetAsWritten(data[i].reward, data[i].dead, discount, amax(data[i].nextState))
  {
    var flats := FlatStates(data);
    if exists i :: 0 <= i < |flats| && |flats[i]| != |flats[0]| then Err(ShapeMismatch)
    else
      match Reshape(Flatten(flats), EmbeddingWidth)
      case Err(e) => Err(e)
      case Ok(states) =>
        FlattenChunks(Flatten(flats), EmbeddingWidth);
        var actions := seq(|data|, i requires 0 <= i < |data| => data[i].action);
        var targets := seq(|data|, i requires 0 <= i < |data| =>
          TdTargetAsWritten(data[i].reward, data[i].dead, discount, amax(data[i].nextState)));
        Ok(FitBatch(states, actions, targets))
  }

  /** When every state holds one 512-entry embedding, fit gets one state row per transition, in
      data order, next to that transition's action. */
  lemma FitRowsAligned(data: seq<Transition>, discount: real, amax: Mat -> real)
    requires forall i :: 0 <= i < |data| ==> |Flatten(data[i].state.rows)| == EmbeddingWidth
    ensures FitInputs(data, discount, amax).Ok?
    ensures var b := FitInputs(data, discount, amax).value;
      |b.states.rows| == |b.actions| == |data|
      && forall i :: 0 <= i < |data| ==>
        b.states.rows[i] == Flatten(data[i].state.rows) && b.actions[i] == data[i].action
  {
    var flats := FlatStates(data);
    ChunksFlatten(flats, EmbeddingWidth);
  }

  /** Each target fit trains on differs from the intended one-step target by exactly
      1 - discount * max: an excess only while discount * max < 1. */
  lemma FitTargetsOffset(data: seq<Transition>, discount: real, amax: Mat -> real)
    ensures var r := FitInputs(data, discount, amax);
      r.Ok? ==> forall i :: 0 <= i < |data| ==>
        r.value.targets[i] == TdTarget(data[i].reward, data[i].dead, discount, amax(data[i].nextState))
                              + 1.0 - discount * amax(data[i].nextState)
  {
    var r := FitInputs(data, discount, amax);
    if r.Ok? {
      forall i | 0 <= i < |data|
        ensures r.value.targets[i] == TdTarget(data[i].reward, data[i].dead, discount, amax(data[i].nextState))
                                      + 1.0 - discount * amax(data[i].nextState)
      {
        TdTargetAsWrittenOffset(data[i].reward, data[i].dead, discount, amax(data[i].nextState));
      }
    }
  }
}
