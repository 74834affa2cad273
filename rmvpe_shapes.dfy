/** The channel and size bookkeeping of RMVPE's U-Net constructors: the
    encoder doubles the channel count and halves the frequency size at every
    layer, the decoder halves the channel count back, and the skip
    connections pair each decoder layer with the encoder layer of the same
    width. */
module UnetShapes {

  /** c doubled n times, i.e. c · 2^n. */
  function Doubled(c: nat, n: nat): nat
  {
    if n == 0 then c else 2 * Doubled(c, n - 1)
  }

  /** x halved by integer division n times, as the constructors' loops do. */
  function Halved(x: nat, n: nat): nat
  {
    if n == 0 then x else Halved(x / 2, n - 1)
  }

  /** The in/out channel counts of one block. */
  datatype Block = Block(inChannels: nat, outChannels: nat)

  /** One entry of `latent_channels`: a channel count and a frequency size. */
  datatype Latent = Latent(channels: nat, size: nat)

  /** What `Encoder.__init__` builds. */
  datatype EncoderShape = EncoderShape(layers: seq<Block>, latent: seq<Latent>, outSize: nat, outChannel: nat)

  /** Channel count entering encoder layer i. */
  function EncoderIn(inChannels: nat, outChannels: nat, i: nat): nat
  {
    if i == 0 then inChannels else Doubled(outChannels, i - 1)
  }

  /** The encoder of n layers: layer i maps `EncoderIn` channels to
      `out_channels · 2^i` and records that width with the size halved i times. */
  function EncoderOf(inChannels: nat, inSize: nat, n: nat, outChannels: nat): EncoderShape
  {
    EncoderShape(
      seq(n, i requires 0 <= i < n => Block(EncoderIn(inChannels, outChannels, i), Doubled(outChannels, i))),
      seq(n, i requires 0 <= i < n => Latent(Doubled(outChannels, i), Halved(inSize, i))),
      Halved(inSize, n),
      Doubled(outChannels, n))
  }

  /** `Encoder.__init__`: the loop over the encoder layers. */
  method BuildEncoder(inChannels: nat, inSize: nat, nEncoders: nat, outChannels: nat) returns (e: EncoderShape)
    ensures e == EncoderOf(inChannels, inSize, nEncoders, outChannels)
  {
    var layers: seq<Block> := [];
    var latent: seq<Latent> := [];
    var cin, cout, size := inChannels, outChannels, inSize;
    for i := 0 to nEncoders
      invariant cin == EncoderIn(inChannels, outChannels, i)
      invariant cout == Doubled(outChannels, i)
      invariant size == Halved(inSize, i)
      invariant layers == EncoderOf(inChannels, inSize, i, outChannels).layers
      invariant latent == EncoderOf(inChannels, inSize, i, outChannels).latent
    {
      EncoderOfStep(inChannels, inSize, i, outChannels);
      layers := layers + [Block(cin, cout)];
      latent := latent + [Latent(cout, size)];
      cin := cout;
      cout := cout * 2;
      HalvedStep(inSize, i);
      size := size / 2;
    }
    e := EncoderShape(layers, latent, size, cout);
  }

  /** One more encoder layer appends one block and one latent entry. */
  lemma EncoderOfStep(inChannels: nat, inSize: nat, i: nat, outChannels: nat)
    ensures EncoderOf(inChannels, inSize, i + 1, outChannels).layers
            == EncoderOf(inChannels, inSize, i, outChannels).layers
               + [Block(EncoderIn(inChannels, outChannels, i), Doubled(outChannels, i))]
    ensures EncoderOf(inChannels, inSize, i + 1, outChannels).latent
            == EncoderOf(inChannels, inSize, i, outChannels).latent + [Latent(Doubled(outChannels, i), Halved(inSize, i))]
  {
  }

  /** Halving once more after i halvings is halving i + 1 times. */
  lemma {:induction false} HalvedStep(x: nat, i: nat)
    ensures Halved(x, i) / 2 == Halved(x, i + 1)
  {
    if i > 0 {
      HalvedStep(x / 2, i - 1);
    }
  }

  /** The decoder of n layers: layer i maps the width halved i times to
      the width halved i + 1 times. */
  function DecoderOf(inChannels: nat, n: nat): seq<Block>
  {
    seq(n, i requires 0 <= i < n => Block(Halved(inChannels, i), Halved(inChannels, i + 1)))
  }

  /** `Decoder.__init__`: every layer maps its input channels to half as many. */
  method BuildDecoder(inChannels: nat, nDecoders: nat) returns (layers: seq<Block>)
    ensures layers == DecoderOf(inChannels, nDecoders)
  {
    layers := [];
    var cin := inChannels;
    for i := 0 to nDecoders
      invariant |layers| == i
      invariant cin == Halved(inChannels, i)
      invariant forall k :: 0 <= k < i ==> layers[k] == Block(Halved(inChannels, k), Halved(inChannels, k + 1))
    {
      var cout := cin / 2;
      HalvedStep(inChannels, i);
      layers := layers + [Block(cin, cout)];
      cin := cout;
    }
  }

  /** Halving c · 2^n i times (i ≤ n) leaves c · 2^(n-i): no rounding occurs. */
  lemma {:induction false} HalvedPow2(c: nat, n: nat, i: nat)
    requires i <= n
    ensures Halved(Doubled(c, n), i) == Doubled(c, n - i)
  {
    if i > 0 {
      HalvedPow2(c, n - 1, i - 1);
    }
  }

  /** What `Intermediate.__init__` builds: a first block from the input
      width to the output width, then `n_inters - 1` blocks that keep the
      output width. The first block is built even when `n_inters` is 0. */
  function IntermediateOf(inChannels: nat, outChannels: nat, nInters: nat): seq<Block>
  {
    seq(if nInters == 0 then 1 else nInters,
        i => if i == 0 then Block(inChannels, outChannels) else Block(outChannels, outChannels))
  }

  /** `Intermediate.__init__`. */
  method BuildIntermediate(inChannels: nat, outChannels: nat, nInters: nat) returns (layers: seq<Block>)
    ensures layers == IntermediateOf(inChannels, outChannels, nInters)
  {
    layers := [Block(inChannels, outChannels)];
    var k := 0;
    while k < nInters - 1
      invariant if nInters == 0 then k == 0 else k <= nInters - 1
      invariant |layers| == k + 1
      invariant layers[0] == Block(inChannels, outChannels)
      invariant forall j :: 1 <= j < |layers| ==> layers[j] == Block(outChannels, outChannels)
    {
      layers := layers + [Block(outChannels, outChannels)];
      k := k + 1;
    }
    assert |layers| == if nInters == 0 then 1 else nInters;
  }

  /** The width `Intermediate.forward` hands on: it runs only the first
      `n_inters` blocks, so with none the input width passes through. */
  function IntermediateOutWidth(layers: seq<Block>, nInters: nat, width: nat): nat
    requires nInters <= |layers|
  {
    if nInters == 0 then width else layers[nInters - 1].outChannels
  }

  /** What `DeepUnet.__init__` wires together. */
  datatype UnetShape = UnetShape(encoder: EncoderShape, intermediate: seq<Block>, interLayers: nat, decoder: seq<Block>)

  /** Frequency bins of the mel input. */
  const MelBins: nat := 128

  /** The network `DeepUnet.__init__` wires together. */
  function UnetOf(nLayers: nat, interLayers: nat, inChannels: nat, enOutChannels: nat): UnetShape
  {
    var e := EncoderOf(inChannels, MelBins, nLayers, enOutChannels);
    UnetShape(e, IntermediateOf(e.outChannel / 2, e.outChannel, interLayers), interLayers, DecoderOf(e.outChannel, nLayers))
  }

  /** `DeepUnet.__init__`: encoder on 128 mel bins, an intermediate stage of
      `inter_layers` blocks whose first goes from half the encoder's final
      width to that width, decoder from that width. */
  method BuildUnet(nLayers: nat, interLayers: nat, inChannels: nat, enOutChannels: nat) returns (u: UnetShape)
    ensures u == UnetOf(nLayers, interLayers, inChannels, enOutChannels)
  {
    var e := BuildEncoder(inChannels, MelBins, nLayers, enOutChannels);
    var m := BuildIntermediate(e.outChannel / 2, e.outChannel, interLayers);
    var d := BuildDecoder(e.outChannel, nLayers);
    u := UnetShape(e, m, interLayers, d);
  }

  /** The wiring closes: the encoder ends at `en_out_channels · 2^n`; the
      first intermediate block takes what the last encoder layer produces; decoder
      layer i concatenates the skip tensor of encoder layer n-1-i, which has
      exactly its output width (so its second stage sees twice that width);
      and the decoder ends at `en_out_channels`, the input width of E2E's
      final convolution. */
  lemma UnetWiringCloses(nLayers: nat, interLayers: nat, inChannels: nat, enOutChannels: nat)
    requires nLayers >= 1
    ensures var u := UnetOf(nLayers, interLayers, inChannels, enOutChannels);
            && |u.encoder.layers| == |u.encoder.latent| == |u.decoder| == nLayers
            && u.encoder.outChannel == Doubled(enOutChannels, nLayers)
            && u.intermediate[0].inChannels == u.encoder.layers[nLayers - 1].outChannels
            && (forall i :: 0 <= i < nLayers ==>
                  u.decoder[i].outChannels == u.encoder.latent[nLayers - 1 - i].channels)
            && u.decoder[nLayers - 1].outChannels == enOutChannels
  {
    var u := UnetOf(nLayers, interLayers, inChannels, enOutChannels);
    var top := Doubled(enOutChannels, nLayers);
    assert u.intermediate[0].inChannels == top / 2 == Doubled(enOutChannels, nLayers - 1);
    forall i | 0 <= i < nLayers
      ensures u.decoder[i].outChannels == u.encoder.latent[nLayers - 1 - i].channels
    {
      SkipWidthMatches(nLayers, interLayers, inChannels, enOutChannels, i);
    }
    DecoderLayerWidth(enOutChannels, nLayers, nLayers - 1);
  }

  /** The intermediate blocks chain (each takes the width the previous one
      gives), and what `Intermediate.forward` hands the decoder is the width
      its first layer expects exactly when `inter_layers` is at least 1; with
      0 the encoder's last width, half of it, arrives instead. */
  lemma IntermediateFeedsDecoder(nLayers: nat, interLayers: nat, inChannels: nat, enOutChannels: nat)
    requires nLayers >= 1 && enOutChannels >= 1
    ensures var u := UnetOf(nLayers, interLayers, inChannels, enOutChannels);
            && interLayers <= |u.intermediate|
            && (forall k :: 0 < k < |u.intermediate| ==> u.intermediate[k].inChannels == u.intermediate[k - 1].outChannels)
            && ((IntermediateOutWidth(u.intermediate, interLayers, u.encoder.layers[nLayers - 1].outChannels)
                   == u.decoder[0].inChannels) <==> interLayers >= 1)
  {
    var u := UnetOf(nLayers, interLayers, inChannels, enOutChannels);
    var top := Doubled(enOutChannels, nLayers);
    DoubledPositive(enOutChannels, nLayers);
    assert u.encoder.layers[nLayers - 1].outChannels == top / 2;
    assert u.decoder[0].inChannels == top;
  }

  lemma {:induction false} DoubledPositive(c: nat, n: nat)
    requires c >= 1
    ensures Doubled(c, n) >= 1
  {
    if n > 0 {
      DoubledPositive(c, n - 1);
    }
  }

  /** Decoder layer i produces the width of the skip tensor it is given. */
  lemma SkipWidthMatches(nLayers: nat, interLayers: nat, inChannels: nat, enOutChannels: nat, i: nat)
    requires i < nLayers
    ensures UnetOf(nLayers, interLayers, inChannels, enOutChannels).decoder[i].outChannels
            == UnetOf(nLayers, interLayers, inChannels, enOutChannels).encoder.latent[nLayers - 1 - i].channels
  {
    var u := UnetOf(nLayers, interLayers, inChannels, enOutChannels);
    var k := nLayers - 1 - i;
    DecoderLayerWidth(enOutChannels, nLayers, i);
    EncoderLatentWidth(inChannels, nLayers, enOutChannels, k);
    assert u.decoder[i] == DecoderOf(Doubled(enOutChannels, nLayers), nLayers)[i];
    assert u.encoder.latent[k] == EncoderOf(inChannels, MelBins, nLayers, enOutChannels).latent[k];
  }

  lemma EncoderLatentWidth(inChannels: nat, n: nat, outChannels: nat, k: nat)
    requires k < n
    ensures EncoderOf(inChannels, MelBins, n, outChannels).latent[k].channels == Doubled(outChannels, k)
  {
  }

  /** Decoder layer i of a decoder starting at c · 2^n produces c · 2^(n-1-i). */
  lemma DecoderLayerWidth(c: nat, n: nat, i: nat)
    requires i < n
    ensures DecoderOf(Doubled(c, n), n)[i].outChannels == Doubled(c, n - 1 - i)
  {
    HalvedPow2(c, n, i + 1);
  }
}
