/** The conditional variational autoencoder: its stored configuration, the layer widths of the
    three Keras models it builds, and the one-hot encoding of its labels. */
module Cvae {
  import opened Wrappers
  import opened Arrays
  import opened Sampling
  import opened TransferSampler

  /** The configuration `__main__` trains: CVAE(data_dim=512*2, label_dim=9). */
  const MainDataDim: nat := 2 * EmbeddingWidth
  const MainLabelDim: nat := 9

  /** The labels NumPy can index a row of `labelDim` columns with. */
  predicate LabelsInRange(arr: seq<int>, labelDim: nat) {
    forall i :: 0 <= i < |arr| ==> -(labelDim as int) <= arr[i] < labelDim
  }

  /** The widths of the tensors in the graph __init_model builds. */
  datatype Layout = Layout(
    encoderInput: nat,           // concatenate([x, condition])
    encoderHidden: seq<nat>,     // the three ReLU Dense layers of the encoder
    latent: nat,                 // mu, log_var and the sample z
    noiseShape: (nat, nat),      // the shape of eps in the sampler
    conditionedLatent: nat,      // concatenate([z, condition]), the decoder's input in cvae
    decoderHidden: seq<nat>,     // z_decoder1, z_decoder2, z_decoder3
    output: nat,                 // y_decoder, the reconstruction y
    generatorInput: nat)         // decoder_input of the generator model

  function Reverse(s: seq<nat>): (r: seq<nat>)
  {
    if s == [] then [] else Reverse(s[1..]) + [s[0]]
  }

  /** The widths __init_model gives each layer, from the stored arguments. */
  function BuildLayout(dataDim: nat, labelDim: nat, latentDim: nat, nHidden: nat, batchSize: nat): (l: Layout)
    ensures l.encoderInput == dataDim + labelDim
    ensures |l.encoderHidden| == 3 && l.encoderHidden[0] == nHidden
    ensures forall i :: 0 < i < 3 ==> l.encoderHidden[i] == l.encoderHidden[i - 1] / 2
    ensures l.decoderHidden == Reverse(l.encoderHidden)
    ensures l.latent == latentDim && l.noiseShape == (batchSize, latentDim)
    ensures l.conditionedLatent == l.latent + labelDim && l.generatorInput == l.conditionedLatent
    ensures l.output == dataDim
  {
    var encoder := [nHidden, nHidden / 2, nHidden / 4];
    assert Reverse(encoder) == [nHidden / 4, nHidden / 2, nHidden] by {
      assert encoder[1..] == [nHidden / 2, nHidden / 4];
      assert encoder[1..][1..] == [nHidden / 4];
      assert Reverse([nHidden / 4]) == [nHidden / 4] by {
        assert [nHidden / 4][1..] == [];
      }
    }
    Layout(
      dataDim + labelDim,
      encoder,
      latentDim,
      (batchSize, latentDim),
      latentDim + labelDim,
      [nHidden / 4, nHidden / 2, nHidden],
      dataDim,
      latentDim + labelDim)
  }

  /** Row k of a one-hot matrix of `labelDim` columns. */
  function OneHotRow(k: int, labelDim: nat): seq<real>
  {
    seq(labelDim, j => if j == k then 1.0 else 0.0)
  }

  /** The column NumPy indexes with k: negative indices count from the end. */
  function Column(k: int, labelDim: nat): int
  {
    if k < 0 then k + labelDim else k
  }

  /** np.argmax of a row: the first position holding the largest entry. */
  function ArgMax(row: seq<real>): (k: nat)
    requires |row| > 0
    ensures k < |row|
    ensures forall j :: 0 <= j < |row| ==> row[j] <= row[k]
    ensures forall j :: 0 <= j < k ==> row[j] < row[k]
  {
    if |row| == 1 then 0
    else
      var k := ArgMax(row[..|row| - 1]);
      if row[|row| - 1] > row[k] then |row| - 1 else k
  }

  /** The argmax of a one-hot row is its label: one-hot encoding is undone by argmax. */
  lemma ArgMaxOneHot(k: int, labelDim: nat)
    requires 0 <= k < labelDim
    ensures ArgMax(OneHotRow(k, labelDim)) == k
  {
    var row := OneHotRow(k, labelDim);
    var m := ArgMax(row);
    assert row[k] == 1.0;
  }

  class CVAE {
    var dataDim: nat
    var labelDim: nat
    var latentDim: nat
    var nHidden: nat
    var modelPath: Option<string>
    var batchSize: nat
    var nEpoch: nat
    /** The shapes of the cvae, encoder and generator models. */
    var layout: Layout

    /** __init__: store the arguments, then build the model. */
    constructor (dataDim: nat, labelDim: nat, latentDim: nat := 10, nHidden: nat := 512,
                 modelPath: Option<string> := None, batchSize: nat := 100000, nEpoch: nat := 50)
      ensures this.dataDim == dataDim && this.labelDim == labelDim && this.latentDim == latentDim
      ensures this.nHidden == nHidden && this.modelPath == modelPath
      ensures this.batchSize == batchSize && this.nEpoch == nEpoch
      ensures layout == BuildLayout(dataDim, labelDim, latentDim, nHidden, batchSize)
    {
      this.dataDim := dataDim;
      this.labelDim := labelDim;
      this.latentDim := latentDim;
      this.nHidden := nHidden;
      this.modelPath := modelPath;
      this.batchSize := batchSize;
      this.nEpoch := nEpoch;
      new;
      InitModel();
    }

    /** __init_model: the layer widths follow from the stored arguments; nothing else changes. */
    method InitModel()
      modifies this`layout
      ensures layout == BuildLayout(dataDim, labelDim, latentDim, nHidden, batchSize)
    {
      layout := BuildLayout(dataDim, labelDim, latentDim, nHidden, batchSize);
    }

    /** __one_hot: a zero matrix of |arr| rows and labelDim columns, with a 1 written in row i
        at column arr[i]. A label outside [-labelDim, labelDim) is an IndexError. */
    method OneHot(arr: seq<int>) returns (r: Result<array2<real>>)
      ensures r.Ok? <==> LabelsInRange(arr, labelDim)
      ensures r.Err? ==> r.error == IndexOutOfBounds
      ensures r.Ok? ==> fresh(r.value)
      ensures r.Ok? ==> r.value.Length0 == |arr| && r.value.Length1 == labelDim
      ensures r.Ok? ==> forall i, j :: 0 <= i < |arr| && 0 <= j < labelDim ==>
        r.value[i, j] == OneHotRow(Column(arr[i], labelDim), labelDim)[j]
    {
      var oneHots := new real[|arr|, labelDim]((i, j) => 0.0);
      var i := 0;
      while i < |arr|
        invariant 0 <= i <= |arr|
        invariant oneHots.Length0 == |arr| && oneHots.Length1 == labelDim
        invariant forall i' :: 0 <= i' < i ==> -(labelDim as int) <= arr[i'] < labelDim
        invariant forall i', j :: 0 <= i' < i && 0 <= j < labelDim ==>
          oneHots[i', j] == OneHotRow(Column(arr[i'], labelDim), labelDim)[j]
        invariant forall i', j :: i <= i' < |arr| && 0 <= j < labelDim ==> oneHots[i', j] == 0.0
      {
        if !(-(labelDim as int) <= arr[i] < labelDim) {
          return Err(IndexOutOfBounds);
        }
        oneHots[i, Column(arr[i], labelDim)] := 1.0;
        i := i + 1;
      }
      return Ok(oneHots);
    }
  }

  /** For labels in [0, labelDim), argmax of each one-hot row recovers the label. */
  lemma OneHotRoundTrip(arr: seq<int>, labelDim: nat)
    requires forall i :: 0 <= i < |arr| ==> 0 <= arr[i] < labelDim
    ensures forall i :: 0 <= i < |arr| ==> ArgMax(OneHotRow(Column(arr[i], labelDim), labelDim)) == arr[i]
  {
    forall i | 0 <= i < |arr| ensures ArgMax(OneHotRow(Column(arr[i], labelDim), labelDim)) == arr[i] {
      ArgMaxOneHot(arr[i], labelDim);
    }
  }

  /** The dataset cgan_sample produces has the shapes __main__'s model is built for: its rows are
      data_dim = 1024 wide and every label one-hot encodes with label_dim = 9. */
  lemma CganDataFitsMainModel(data: seq<Transition>, n: int, picks: seq<nat>, model: Mat -> Mat,
                              predict: Mat -> Mat, normalize: real -> real)
    requires 0 < n <= |data| ==> IsDraw(picks, n, |data|)
    requires SingleFrames(data) && Embeds(predict, EmbeddingWidth)
    ensures var r := CganSample(data, n, picks, model, predict, normalize);
      r.Ok? ==> r.value.0.cols == MainDataDim && |r.value.0.rows| == |r.value.1|
                && LabelsInRange(r.value.1, MainLabelDim)
  {
    CganRowsAligned(data, n, picks, model, predict, normalize);
  }
}
