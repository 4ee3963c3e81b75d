/** Transfer sampling: RL transitions whose frames are replaced by their embeddings, and the
    labelled (state ++ next_state) arrays built from them for conditional generative models. */
module TransferSampler {
  import opened Wrappers
  import opened Arrays
  import opened Sampling

  /** Width of one embedding: the Dense(512) layer that the embedding model ends with, and
      the default split point of the concatenated (state, next_state) rows. */
  const EmbeddingWidth: nat := 512

  /** The 5-tuple (state, action, reward, next_state, dead) of the replay memory, positions 0 to 4.
      A frame or embedding is an array whose leading axis is the batch axis; its other axes
      are flattened row-major into the columns of a Mat. */
  datatype Transition = Transition(state: Mat, action: int, reward: real, nextState: Mat, dead: bool)

  /** What the model's predict is assumed to do: one output row of `width` columns per input row. */
  ghost predicate Embeds(predict: Mat -> Mat, width: nat) {
    forall m: Mat :: m.Valid() ==>
      predict(m).Valid() && predict(m).cols == width && |predict(m).rows| == |m.rows|
  }

  /** The transition with positions 0 and 3 replaced by their predictions: the value
      TransferTransform computes, stated as a function so that the functions below, which
      cannot call a method, can use it. */
  function Transformed(t: Transition, predict: Mat -> Mat): Transition {
    t.(state := predict(t.state), nextState := predict(t.nextState))
  }

  /** _transfer_transform_rl_observation: copy the tuple, then overwrite positions 0 and 3.
      The copy is a value, so the caller's transition is never changed. */
  method TransferTransform(observation: Transition, predict: Mat -> Mat) returns (r: Transition)
    ensures r.state == predict(observation.state) && r.nextState == predict(observation.nextState)
    ensures r.action == observation.action && r.reward == observation.reward && r.dead == observation.dead
    ensures r == Transformed(observation, predict)
  {
    r := observation;
    r := r.(state := predict(r.state));
    r := r.(nextState := predict(r.nextState));
  }

  /** _map_reward_dead_to_int: 0 dead and not rewarded, 1 rewarded and alive, 2 neither,
      3 rewarded and dead (the case the authors do not expect). Rewarded means reward > .5. */
  function RewardDeadToInt(t: Transition): (k: int)
    ensures 0 <= k <= 3
  {
    var rewarded := t.reward > 0.5;
    var dead := t.dead;
    if !rewarded && dead then 0
    else if rewarded && !dead then 1
    else if !rewarded && !dead then 2
    else 3
  }

  /** _map_int_to_reward_dead: the (reward, dead) pair for a label; every int other than 0, 1, 2
      decodes like 3, to (1., True). */
  function IntToRewardDead(k: int): (r: (real, bool))
    ensures r.0 == 0.0 || r.0 == 1.0
  {
    if k == 0 then (0.0, true)
    else if k == 1 then (1.0, false)
    else if k == 2 then (0.0, false)
    else (1.0, true)
  }

  /** The label depends exactly on (reward > .5, dead): equal labels iff equal pairs. */
  lemma LabelInjective(t1: Transition, t2: Transition)
    ensures RewardDeadToInt(t1) == RewardDeadToInt(t2)
        <==> ((t1.reward > 0.5) == (t2.reward > 0.5) && t1.dead == t2.dead)
  {
  }

  /** Every pair gets the label the table assigns to it. */
  lemma LabelTable(t: Transition)
    ensures RewardDeadToInt(t) == 0 <==> t.reward <= 0.5 && t.dead
    ensures RewardDeadToInt(t) == 1 <==> t.reward > 0.5 && !t.dead
    ensures RewardDeadToInt(t) == 2 <==> t.reward <= 0.5 && !t.dead
    ensures RewardDeadToInt(t) == 3 <==> t.reward > 0.5 && t.dead
  {
  }

  /** Decoding a label and encoding the result gives the label back, for all four labels. */
  lemma DecodeThenEncode(k: int, t: Transition)
    requires 0 <= k <= 3
    ensures RewardDeadToInt(t.(reward := IntToRewardDead(k).0, dead := IntToRewardDead(k).1)) == k
  {
  }

  /** Encoding then decoding keeps `dead` and quantises the reward to 1. or 0. */
  lemma EncodeThenDecode(t: Transition)
    ensures IntToRewardDead(RewardDeadToInt(t)) == (if t.reward > 0.5 then 1.0 else 0.0, t.dead)
  {
  }

  /** Ints outside {0, 1, 2}, the labels 4..8 of the generator among them, decode to (1., True). */
  lemma DecodeFallback(k: int)
    requires k < 0 || k > 2
    ensures IntToRewardDead(k) == (1.0, true)
  {
  }

  /** _map_transfers_to_array: np.concatenate([state, next_state], axis=1). */
  function MapTransfersToArray(t: Transition): (r: Result<Mat>)
    ensures r.Ok? <==> |t.state.rows| == |t.nextState.rows|
    ensures r.Ok? ==> r.value.cols == t.state.cols + t.nextState.cols
  {
    ConcatColumns(t.state, t.nextState)
  }

  /** _map_array_to_transfers: (array[:, :split], array[:, split:]), split 512 by default;
      a negative split point counts from the last column. */
  function MapArrayToTransfers(m: Mat, splitPoint: int := EmbeddingWidth): (r: (Mat, Mat))
    requires m.Valid()
    ensures r.0.cols + r.1.cols == m.cols && |r.0.rows| == |m.rows| && |r.1.rows| == |m.rows|
    ensures r.0.cols == SliceBound(splitPoint, m.cols)
  {
    SplitColumns(m, splitPoint)
  }

  /** With a state exactly 512 wide and as many rows as the next state, splitting the
      concatenation gives (state, next_state) back. */
  lemma SplitUndoesConcat(t: Transition)
    requires t.state.Valid() && t.nextState.Valid()
    requires |t.state.rows| == |t.nextState.rows| && t.state.cols == EmbeddingWidth
    ensures MapTransfersToArray(t).Ok?
    ensures MapArrayToTransfers(MapTransfersToArray(t).value) == (t.state, t.nextState)
  {
    SplitOfConcat(t.state, t.nextState, EmbeddingWidth);
  }

  /** Concatenating the two halves of a split array gives the array back. */
  lemma ConcatUndoesSplit(m: Mat, t: Transition)
    requires m.Valid()
    ensures MapTransfersToArray(t.(state := MapArrayToTransfers(m).0, nextState := MapArrayToTransfers(m).1)) == Ok(m)
  {
    ConcatOfSplit(m, EmbeddingWidth);
  }

  /** The transitions transfer_sample transforms: all of data when n <= 0, otherwise the n
      drawn by random.sample. */
  function Drawn(data: seq<Transition>, n: int, picks: seq<nat>): (s: seq<Transition>)
    requires 0 < n <= |data| ==> IsDraw(picks, n, |data|)
  {
    if n > 0 && n <= |data| then Select(data, picks) else data
  }

  /** The drawn transitions come from distinct positions of data: a sub-multiset of it. */
  lemma DrawnFromData(data: seq<Transition>, n: int, picks: seq<nat>)
    requires 0 < n <= |data| ==> IsDraw(picks, n, |data|)
    ensures multiset(Drawn(data, n, picks)) <= multiset(data)
  {
    if 0 < n <= |data| {
      DrawWithoutReplacement(data, picks);
    }
  }

  /** transfer_sample: `picks` is the draw random.sample(data, n) makes (unused when n <= 0).
      The `model` argument is accepted and never used: the transform is mapped without it, so
      it always embeds with its own default, `predict` (rl_1_dense.predict). */
  function TransferSample(data: seq<Transition>, n: int, picks: seq<nat>, model: Mat -> Mat,
                          predict: Mat -> Mat): (r: Result<seq<Transition>>)
    requires 0 < n <= |data| ==> IsDraw(picks, n, |data|)
    ensures r.Ok? <==> n <= |data|
    ensures r.Err? ==> r.error == SampleLargerThanPopulation
    ensures n <= 0 ==> (|r.value| == |data| &&
      forall i :: 0 <= i < |data| ==> r.value[i] == Transformed(data[i], predict))
    ensures 0 < n <= |data| ==> (|r.value| == n &&
      forall j :: 0 <= j < n ==> r.value[j] == Transformed(data[picks[j]], predict))
  {
    if n > |data| then Err(SampleLargerThanPopulation)
    else
      var sample := Drawn(data, n, picks);
      Ok(seq(|sample|, i requires 0 <= i < |sample| => Transformed(sample[i], predict)))
  }

  /** Whatever model the caller passes, transfer_sample computes the same transitions. */
  lemma TransferSampleIgnoresModel(data: seq<Transition>, n: int, picks: seq<nat>,
                                   model: Mat -> Mat, other: Mat -> Mat, predict: Mat -> Mat)
    requires 0 < n <= |data| ==> IsDraw(picks, n, |data|)
    ensures TransferSample(data, n, picks, model, predict) == TransferSample(data, n, picks, other, predict)
  {
  }

  /** list(map(_map_transfers_to_array, tr)): the first transition whose two arrays differ in
      row count raises. */
  function ArraysOf(tr: seq<Transition>): (r: Result<seq<Mat>>)
    ensures r.Ok? <==> forall i :: 0 <= i < |tr| ==> |tr[i].state.rows| == |tr[i].nextState.rows|
    ensures r.Ok? ==> (|r.value| == |tr| &&
      forall i :: 0 <= i < |tr| ==> MapTransfersToArray(tr[i]) == Ok(r.value[i]))
  {
    if tr == [] then Ok([])
    else
      match MapTransfersToArray(tr[0])
      case Err(e) => Err(e)
      case Ok(m) =>
        match ArraysOf(tr[1..])
        case Err(e) => Err(e)
        case Ok(ms) => Ok([m] + ms)
  }

  /** cgan_sample: labels and normalised (state ++ next_state) rows of a transfer sample.
      `normalize` is the elementwise float map of `normalize`. `model` is handed on to
      transfer_sample, which ignores it; `predict` is the embedding actually applied. */
  function CganSample(data: seq<Transition>, n: int, picks: seq<nat>, model: Mat -> Mat,
                      predict: Mat -> Mat, normalize: real -> real): (r: Result<(Mat, seq<int>)>)
    requires 0 < n <= |data| ==> IsDraw(picks, n, |data|)
    ensures r.Ok? ==> (n <= |data| && |r.value.1| == |Drawn(data, n, picks)| &&
      forall j :: 0 <= j < |r.value.1| ==> r.value.1[j] == RewardDeadToInt(Drawn(data, n, picks)[j]))
  {
    match TransferSample(data, n, picks, model, predict)
    case Err(e) => Err(e)
    case Ok(tr) =>
      var labels := seq(|tr|, i requires 0 <= i < |tr| => RewardDeadToInt(tr[i]));
      match ArraysOf(tr)
      case Err(e) => Err(e)
      case Ok(pairs) =>
        match Concatenate(pairs)
        case Err(e) => Err(e)
        case Ok(states) => Ok((MapEntries(states, normalize), labels))
  }

  /** Frames of the replay memory hold one observation each. */
  ghost predicate SingleFrames(data: seq<Transition>) {
    forall i :: 0 <= i < |data| ==>
      data[i].state.Valid() && data[i].nextState.Valid()
      && |data[i].state.rows| == 1 && |data[i].nextState.rows| == 1
  }

  /** With single-frame transitions and a 512-wide embedding, every transition of a successful
      transfer sample holds two one-row, 512-wide embeddings of its drawn transition. */
  lemma SampleEmbedded(data: seq<Transition>, n: int, picks: seq<nat>, model: Mat -> Mat,
                       predict: Mat -> Mat)
    requires 0 < n <= |data| ==> IsDraw(picks, n, |data|)
    requires SingleFrames(data) && Embeds(predict, EmbeddingWidth)
    ensures var r := TransferSample(data, n, picks, model, predict);
      var drawn := Drawn(data, n, picks);
      r.Ok? ==> |r.value| == |drawn| && forall j :: 0 <= j < |r.value| ==>
        r.value[j] == Transformed(drawn[j], predict)
        && r.value[j].state.Valid() && r.value[j].nextState.Valid()
        && |r.value[j].state.rows| == 1 && |r.value[j].nextState.rows| == 1
        && r.value[j].state.cols == EmbeddingWidth && r.value[j].nextState.cols == EmbeddingWidth
  {
    if n <= |data| {
      var drawn := Drawn(data, n, picks);
      var tr := TransferSample(data, n, picks, model, predict).value;
      assert |tr| == |drawn|;
      assert forall j :: 0 <= j < |tr| ==> tr[j] == Transformed(drawn[j], predict);
      assert SingleFrames(drawn) by {
        if 0 < n {
          forall j | 0 <= j < |drawn| ensures drawn[j] == data[picks[j]] { }
        }
      }
      forall j | 0 <= j < |tr|
        ensures tr[j].state.Valid() && tr[j].nextState.Valid()
        ensures |tr[j].state.rows| == 1 && |tr[j].nextState.rows| == 1
        ensures tr[j].state.cols == EmbeddingWidth && tr[j].nextState.cols == EmbeddingWidth
      {
        assert drawn[j].state.Valid() && drawn[j].nextState.Valid();
      }
    }
  }

  /** With single-frame transitions and a 512-wide embedding, cgan_sample fails only when
      random.sample does or the sample is empty (nothing to concatenate); when it succeeds,
      row j of the states is the normalised embedding of the j-th drawn transition's state
      followed by that of its next state, and label j is that transition's label. */
  lemma CganRowsAligned(data: seq<Transition>, n: int, picks: seq<nat>, model: Mat -> Mat,
                        predict: Mat -> Mat, normalize: real -> real)
    requires 0 < n <= |data| ==> IsDraw(picks, n, |data|)
    requires SingleFrames(data) && Embeds(predict, EmbeddingWidth)
    ensures var r := CganSample(data, n, picks, model, predict, normalize);
      r.Ok? <==> n <= |data| && |Drawn(data, n, picks)| > 0
    ensures var r := CganSample(data, n, picks, model, predict, normalize);
      var drawn := Drawn(data, n, picks);
      r.Ok? ==>
        r.value.0.Valid() && r.value.0.cols == 2 * EmbeddingWidth
        && |r.value.0.rows| == |r.value.1| == |drawn|
        && forall j :: 0 <= j < |drawn| ==>
          r.value.0.rows[j] == MapEntries(Mat(2 * EmbeddingWidth,
              [predict(drawn[j].state).rows[0] + predict(drawn[j].nextState).rows[0]]), normalize).rows[0]
          && r.value.1[j] == RewardDeadToInt(drawn[j])
  {
    if n <= |data| {
      var drawn := Drawn(data, n, picks);
      var tr := TransferSample(data, n, picks, model, predict).value;
      SampleEmbedded(data, n, picks, model, predict);
      var pairs := ArraysOf(tr).value;
      forall j | 0 <= j < |pairs|
        ensures pairs[j].Valid() && pairs[j].cols == 2 * EmbeddingWidth && |pairs[j].rows| == 1
        ensures pairs[j].rows[0] == tr[j].state.rows[0] + tr[j].nextState.rows[0]
      {
        assert MapTransfersToArray(tr[j]) == Ok(pairs[j]);
      }
      if |pairs| > 0 {
        var states := Concatenate(pairs).value;
        StackSingleRows(pairs);
        StackValid(pairs, 2 * EmbeddingWidth);
        var normed := MapEntries(states, normalize);
        forall j | 0 <= j < |drawn|
          ensures normed.rows[j] == MapEntries(Mat(2 * EmbeddingWidth,
              [predict(drawn[j].state).rows[0] + predict(drawn[j].nextState).rows[0]]), normalize).rows[0]
        {
          assert states.rows[j] == pairs[j].rows[0];
        }
      }
    }
  }
}
