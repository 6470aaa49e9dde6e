/**
 The signal processor of the tanh waveshaper.

 Every output sample is `tanh(x * gain / ceiling) * mix + x * (1 - mix)` of
 the input sample `x` at the same position. Input channels are paired with
 output channels, and input samples with output samples, the way two
 iterators are zipped: pairing stops at the shorter side, and output
 positions without a partner keep what they held.

 `tanh` is a parameter of every member (an uninterpreted function on reals);
 the lemmas that need a fact about it (`tanh(0) = 0`, monotone, odd) take it
 as a precondition. A zero ceiling is excluded: the source lets the float
 division produce a non-finite value there, which is not modelled.
 */
module Processing {
  import opened Parameters

  type Channel = seq<real>
  type Block = seq<Channel>

  /** The saturated ("wet") signal for input sample `x`. */
  function Wet(p: Params, tanh: real -> real, x: real): (w: real)
    requires p.ceiling != 0.0
  {
    tanh(x * p.gain / p.ceiling)
  }

  /** The output sample for input sample `x`: wet and dry signal blended by
      the mix. */
  function Shape(p: Params, tanh: real -> real, x: real): (y: real)
    requires p.ceiling != 0.0
  {
    Wet(p, tanh, x) * p.mix + x * (1.0 - p.mix)
  }

  /** One channel of output: the zip of `input` and `output`, each paired
      position rewritten from its input sample. */
  function RenderChannel(p: Params, tanh: real -> real, input: Channel, output: Channel): (r: Channel)
    requires p.ceiling != 0.0
    ensures |r| == |output|
    decreases |output|
  {
    if |input| == 0 || |output| == 0 then output
    else [Shape(p, tanh, input[0])] + RenderChannel(p, tanh, input[1..], output[1..])
  }

  /** A whole block: channel `c` of the output is rendered from channel `c`
      of the input, for as many channels as both sides have. */
  function RenderBlock(p: Params, tanh: real -> real, input: Block, output: Block): (r: Block)
    requires p.ceiling != 0.0
    ensures |r| == |output|
    ensures forall c :: 0 <= c < |r| ==> |r[c]| == |output[c]|
    decreases |output|
  {
    if |input| == 0 || |output| == 0 then output
    else [RenderChannel(p, tanh, input[0], output[0])] + RenderBlock(p, tanh, input[1..], output[1..])
  }

  /** Input and output have the same number of channels and each channel
      pair the same number of samples. */
  predicate SameShape(input: Block, output: Block) {
    && |input| == |output|
    && forall c :: 0 <= c < |input| ==> |input[c]| == |output[c]|
  }

  /** Position `k` of a rendered channel: shaped from input sample `k` when
      the input reaches that far, untouched otherwise. */
  lemma {:induction false} RenderChannelAt(p: Params, tanh: real -> real, input: Channel, output: Channel, k: int)
    requires p.ceiling != 0.0
    requires 0 <= k < |output|
    ensures RenderChannel(p, tanh, input, output)[k]
            == if k < |input| then Shape(p, tanh, input[k]) else output[k]
    decreases k
  {
    if |input| > 0 && k > 0 {
      RenderChannelAt(p, tanh, input[1..], output[1..], k - 1);
    }
  }

  /** Channel `c` of a rendered block: rendered from input channel `c` when
      the input has that many channels, untouched otherwise. */
  lemma {:induction false} RenderBlockAt(p: Params, tanh: real -> real, input: Block, output: Block, c: int)
    requires p.ceiling != 0.0
    requires 0 <= c < |output|
    ensures RenderBlock(p, tanh, input, output)[c]
            == if c < |input| then RenderChannel(p, tanh, input[c], output[c]) else output[c]
    decreases c
  {
    if |input| > 0 && c > 0 {
      var rest := RenderBlock(p, tanh, input[1..], output[1..]);
      assert RenderBlock(p, tanh, input, output)[c] == rest[c - 1];
      RenderBlockAt(p, tanh, input[1..], output[1..], c - 1);
    }
  }

  /** Sample `k` of channel `c` of a rendered block. */
  lemma {:induction false} RenderedSample(p: Params, tanh: real -> real, input: Block, output: Block, c: int, k: int)
    requires p.ceiling != 0.0
    requires 0 <= c < |output| && 0 <= k < |output[c]|
    ensures RenderBlock(p, tanh, input, output)[c][k]
            == if c < |input| && k < |input[c]| then Shape(p, tanh, input[c][k]) else output[c][k]
  {
    RenderBlockAt(p, tanh, input, output, c);
    if c < |input| {
      RenderChannelAt(p, tanh, input[c], output[c], k);
    }
  }

  /** With matching shapes every output position is written, each from the
      input sample at the same position. */
  lemma EveryPositionWritten(p: Params, tanh: real -> real, input: Block, output: Block)
    requires p.ceiling != 0.0
    requires SameShape(input, output)
    ensures SameShape(input, RenderBlock(p, tanh, input, output))
    ensures forall c, k :: 0 <= c < |input| && 0 <= k < |input[c]| ==>
              RenderBlock(p, tanh, input, output)[c][k] == Shape(p, tanh, input[c][k])
  {
    forall c, k | 0 <= c < |input| && 0 <= k < |input[c]|
      ensures RenderBlock(p, tanh, input, output)[c][k] == Shape(p, tanh, input[c][k])
    {
      RenderedSample(p, tanh, input, output, c, k);
    }
  }

  /** With matching shapes the old contents of the output buffer do not
      matter: the processor keeps no state and reads nothing but the input. */
  lemma OutputIgnoresOldContents(p: Params, tanh: real -> real, input: Block, out1: Block, out2: Block)
    requires p.ceiling != 0.0
    requires SameShape(input, out1) && SameShape(input, out2)
    ensures RenderBlock(p, tanh, input, out1) == RenderBlock(p, tanh, input, out2)
  {
    var r1 := RenderBlock(p, tanh, input, out1);
    var r2 := RenderBlock(p, tanh, input, out2);
    EveryPositionWritten(p, tanh, input, out1);
    EveryPositionWritten(p, tanh, input, out2);
    forall c | 0 <= c < |input| ensures r1[c] == r2[c] {
      assert |r1[c]| == |r2[c]|;
    }
  }

  /** An output sample depends on its own input sample and the parameters
      alone: two inputs that agree at a position give the same output there,
      whatever the other samples are. */
  lemma {:induction false} OutputIsLocal(p: Params, tanh: real -> real, in1: Block, in2: Block, output: Block, c: int, k: int)
    requires p.ceiling != 0.0
    requires 0 <= c < |in1| && 0 <= c < |in2| && 0 <= c < |output|
    requires 0 <= k < |in1[c]| && 0 <= k < |in2[c]| && 0 <= k < |output[c]|
    requires in1[c][k] == in2[c][k]
    ensures RenderBlock(p, tanh, in1, output)[c][k] == RenderBlock(p, tanh, in2, output)[c][k]
  {
    RenderedSample(p, tanh, in1, output, c, k);
    RenderedSample(p, tanh, in2, output, c, k);
  }

  /** Fully dry (mix 0): the output sample is the input sample. */
  lemma DrySampleIsInput(p: Params, tanh: real -> real, x: real)
    requires p.ceiling != 0.0 && p.mix == 0.0
    ensures Shape(p, tanh, x) == x
  {
  }

  /** Fully wet (mix 1): the output sample is the saturated sample. */
  lemma WetSampleIsSaturated(p: Params, tanh: real -> real, x: real)
    requires p.ceiling != 0.0 && p.mix == 1.0
    ensures Shape(p, tanh, x) == Wet(p, tanh, x)
  {
  }

  /** With the default parameters (gain, ceiling and mix all 1) the effect
      is plain `tanh` of the input sample. */
  lemma DefaultShapeIsTanh(tanh: real -> real, x: real)
    ensures Shape(Default(), tanh, x) == tanh(x)
  {
  }

  /** The worked example: default parameters and input 2.0 give tanh(2.0). */
  lemma DefaultShapeOfTwo(tanh: real -> real)
    ensures Shape(Default(), tanh, 2.0) == tanh(2.0)
  {
  }

  /** Fully dry (mix 0) with matching shapes: the block passes through
      unchanged. */
  lemma DryBlockPassesThrough(p: Params, tanh: real -> real, input: Block, output: Block)
    requires p.ceiling != 0.0 && p.mix == 0.0
    requires SameShape(input, output)
    ensures RenderBlock(p, tanh, input, output) == input
  {
    var r := RenderBlock(p, tanh, input, output);
    EveryPositionWritten(p, tanh, input, output);
    forall c | 0 <= c < |input| ensures r[c] == input[c] {
      forall k | 0 <= k < |input[c]| ensures r[c][k] == input[c][k] {
        DrySampleIsInput(p, tanh, input[c][k]);
      }
    }
  }

  /** Fully wet (mix 1) with matching shapes: every output sample is the
      saturated input sample. */
  lemma WetBlockIsSaturated(p: Params, tanh: real -> real, input: Block, output: Block)
    requires p.ceiling != 0.0 && p.mix == 1.0
    requires SameShape(input, output)
    ensures forall c, k :: 0 <= c < |input| && 0 <= k < |input[c]| ==>
              RenderBlock(p, tanh, input, output)[c][k] == Wet(p, tanh, input[c][k])
  {
    EveryPositionWritten(p, tanh, input, output);
    forall c, k | 0 <= c < |input| && 0 <= k < |input[c]|
      ensures RenderBlock(p, tanh, input, output)[c][k] == Wet(p, tanh, input[c][k])
    {
      WetSampleIsSaturated(p, tanh, input[c][k]);
    }
  }

  /** With a mix in [0, 1] each output sample lies between the dry and the
      wet sample. */
  lemma SampleBetweenDryAndWet(p: Params, tanh: real -> real, x: real)
    requires p.ceiling != 0.0 && 0.0 <= p.mix <= 1.0
    ensures || x <= Shape(p, tanh, x) <= Wet(p, tanh, x)
            || Wet(p, tanh, x) <= Shape(p, tanh, x) <= x
  {
    var w, y, m := Wet(p, tanh, x), Shape(p, tanh, x), p.mix;
    BlendBetween(w, x, m, y);
  }

  /** A blend of `w` and `x` by a weight in [0, 1] lies between them. */
  lemma BlendBetween(w: real, x: real, m: real, y: real)
    requires 0.0 <= m <= 1.0
    requires y == w * m + x * (1.0 - m)
    ensures (x <= y <= w) || (w <= y <= x)
  {
    if x <= w {
      BlendFromDry(w, x, m, y);
      PartOfGap(x, w, m, y);
    } else {
      BlendFromWet(w, x, m, y);
      PartOfGap(w, x, 1.0 - m, y);
    }
  }

  /** The blend is the dry sample moved the fraction `m` toward the wet. */
  lemma BlendFromDry(w: real, x: real, m: real, y: real)
    requires y == w * m + x * (1.0 - m)
    ensures y == x + m * (w - x)
  {
  }

  /** The blend is the wet sample moved the fraction `1 - m` toward the dry. */
  lemma BlendFromWet(w: real, x: real, m: real, y: real)
    requires y == w * m + x * (1.0 - m)
    ensures y == w + (1.0 - m) * (x - w)
  {
  }

  /** Moving `lo` a fraction in [0, 1] of the way to `hi` stays in [lo, hi]. */
  lemma PartOfGap(lo: real, hi: real, f: real, y: real)
    requires lo <= hi && 0.0 <= f <= 1.0
    requires y == lo + f * (hi - lo)
    ensures lo <= y <= hi
  {
    FractionOfGap(f, hi - lo);
    var e := f * (hi - lo);
    assert y == lo + e;
    assert e <= hi - lo;
  }

  /** A fraction in [0, 1] of a non-negative gap stays within the gap. */
  lemma FractionOfGap(m: real, d: real)
    requires 0.0 <= m <= 1.0 && 0.0 <= d
    ensures 0.0 <= m * d <= d
  {
  }

  ghost predicate Monotone(f: real -> real) {
    forall a, b :: a <= b ==> f(a) <= f(b)
  }

  ghost predicate Odd(f: real -> real) {
    forall a :: f(-a) == -f(a)
  }

  /** A non-negative gain over a positive ceiling scales input samples
      without reversing their order. */
  lemma ScalePreservesOrder(x1: real, x2: real, g: real, c: real)
    requires x1 <= x2 && 0.0 <= g && 0.0 < c
    ensures x1 * g / c <= x2 * g / c
  {
  }

  /** For a monotone tanh, a non-negative gain, a positive ceiling and a mix
      in [0, 1], the transform never reverses the order of two samples. */
  lemma ShapeMonotone(p: Params, tanh: real -> real, x1: real, x2: real)
    requires Monotone(tanh)
    requires 0.0 <= p.gain && 0.0 < p.ceiling && 0.0 <= p.mix <= 1.0
    requires x1 <= x2
    ensures Shape(p, tanh, x1) <= Shape(p, tanh, x2)
  {
    ScalePreservesOrder(x1, x2, p.gain, p.ceiling);
    var w1, w2 := Wet(p, tanh, x1), Wet(p, tanh, x2);
    assert w1 <= w2;
    assert w1 * p.mix <= w2 * p.mix;
    assert x1 * (1.0 - p.mix) <= x2 * (1.0 - p.mix);
  }

  /** For an odd tanh the transform is odd: negative and positive
      excursions are shaped alike. */
  lemma ShapeOdd(p: Params, tanh: real -> real, x: real)
    requires Odd(tanh)
    requires p.ceiling != 0.0
    ensures Shape(p, tanh, -x) == -Shape(p, tanh, x)
  {
  }

  /** Every sample of the block is zero. */
  predicate Silent(b: Block) {
    forall c, k :: 0 <= c < |b| && 0 <= k < |b[c]| ==> b[c][k] == 0.0
  }

  /** With the default parameters and `tanh(0) = 0`, silence in gives
      silence out. */
  lemma DefaultSilenceStaysSilent(tanh: real -> real, input: Block, output: Block)
    requires tanh(0.0) == 0.0
    requires SameShape(input, output) && Silent(input)
    ensures Silent(RenderBlock(Default(), tanh, input, output))
  {
    EveryPositionWritten(Default(), tanh, input, output);
  }

  /** One channel, processed in place as the source's inner loop does. */
  method ProcessChannel(p: Params, tanh: real -> real, input: Channel, output: Channel) returns (r: Channel)
    requires p.ceiling != 0.0
    ensures |r| == |output|
    ensures forall k :: 0 <= k < |r| ==>
              r[k] == if k < |input| then Shape(p, tanh, input[k]) else output[k]
    ensures r == RenderChannel(p, tanh, input, output)
  {
    r := output;
    var k := 0;
    while k < |input| && k < |output|
      invariant 0 <= k <= |output|
      invariant |r| == |output|
      invariant forall j :: 0 <= j < k ==> j < |input| && r[j] == Shape(p, tanh, input[j])
      invariant forall j :: k <= j < |output| ==> r[j] == output[j]
    {
      r := r[k := Shape(p, tanh, input[k])];
      k := k + 1;
    }
    var spec := RenderChannel(p, tanh, input, output);
    forall j | 0 <= j < |output| ensures r[j] == spec[j] {
      RenderChannelAt(p, tanh, input, output, j);
    }
  }

  /** A whole block, processed in place as the source's outer loop does:
      each input channel paired with the output channel at the same index. */
  method Process(p: Params, tanh: real -> real, input: Block, output: Block) returns (r: Block)
    requires p.ceiling != 0.0
    ensures |r| == |output|
    ensures forall c :: 0 <= c < |r| ==> |r[c]| == |output[c]|
    ensures forall c, k :: 0 <= c < |r| && 0 <= k < |r[c]| ==>
              r[c][k] == if c < |input| && k < |input[c]| then Shape(p, tanh, input[c][k]) else output[c][k]
    ensures r == RenderBlock(p, tanh, input, output)
  {
    r := output;
    var c := 0;
    while c < |input| && c < |output|
      invariant 0 <= c <= |output|
      invariant |r| == |output|
      invariant forall d :: 0 <= d < c ==> d < |input| && r[d] == RenderChannel(p, tanh, input[d], output[d])
      invariant forall d :: c <= d < |output| ==> r[d] == output[d]
    {
      var channel := ProcessChannel(p, tanh, input[c], output[c]);
      r := r[c := channel];
      c := c + 1;
    }
    var spec := RenderBlock(p, tanh, input, output);
    forall d | 0 <= d < |output| ensures r[d] == spec[d] {
      RenderBlockAt(p, tanh, input, output, d);
    }
    forall d, k | 0 <= d < |r| && 0 <= k < |r[d]|
      ensures r[d][k] == if d < |input| && k < |input[d]| then Shape(p, tanh, input[d][k]) else output[d][k]
    {
      RenderedSample(p, tanh, input, output, d, k);
    }
  }
}
