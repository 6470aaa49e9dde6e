# tanh waveshaper — a Dafny model

This project models the core of `tanh`, a VST audio effect that soft-clips a
stereo signal with the hyperbolic tangent. The core has two parts:

- **The parameter store** (`TanhParams`). It holds gain, ceiling and dry/wet
  mix, all 1.0 at instantiation. The host addresses each one by a 0-based
  index. Each index also has a fixed display name and unit label. The model
  (`parameters.dfy`, module `Parameters`) is an immutable record of three
  reals. It has pure `Get` and `Set`, and every accessor except
  `CanBeAutomated` requires `0 <= i < ParamCount`, so the source's
  `unreachable!()` arms cannot be reached. The host's writes over time are modelled as a sequence of
  `Write`s applied in order (`ApplyWrites`).
- **The per-sample processing loop** (`TanhEffect::process`). Each output
  sample is `tanh(x * gain / ceiling) * mix + x * (1 - mix)`, computed from
  the input sample `x` at the same position. The model is in
  `processing.dfy`, module `Processing`. `Wet` is the saturated sample and
  `Shape` the blended one. `RenderChannel` and `RenderBlock` are the
  functional definition of one call: they pair input and output channels,
  and input and output samples, as Rust's `zip` does. Pairing stops at the
  shorter side, and output positions without a partner keep their old
  contents. `ProcessChannel` and `Process` are the two nested loops,
  written as loops that rewrite the output buffer in place.

Samples and parameters are reals. `tanh` is not defined in the model. Every
processing member takes it as a function parameter `tanh: real -> real`. A
lemma that needs a fact about it states that fact as a precondition: `tanh(0)
= 0`, monotone, or odd.

## Model

| member | source | states |
|---|---|---|
| Parameters.Default | src/lib.rs:63-71 | a freshly created store reads 1.0 at every valid index |
| Parameters.Get | src/lib.rs:105-112 | definition of the read, with no contract of its own; it is characterised by Set (read-back and frame), StoreDeterminedByReads, Default and ReadSeesLastWrite |
| Parameters.Set | src/lib.rs:105-121 | a write reads back exactly the value written, with no range check or clamping, and every other index reads what it read before |
| Parameters.Label | src/lib.rs:87-94 | the label is "%" exactly for the mix index and "" for the other two |
| Parameters.CanBeAutomated | src/lib.rs:74-76 | every index, valid or not, may be automated |
| Parameters.StoreDeterminedByReads | src/lib.rs:105-112 | two stores that read alike at the three valid indices are equal, so the index interface sees the whole state |
| Parameters.SetOfGetIsIdentity | src/lib.rs:105-121 | writing back the value just read leaves the store unchanged |
| Parameters.LastWriteWins | src/lib.rs:114-121 | a second write to an index overrides the first |
| Parameters.WritesCommute | src/lib.rs:114-121 | writes to two different indices give the same store in either order |
| Parameters.Name | src/lib.rs:78-85 | definition of the name table, with no contract of its own; NamesAreTable states that index 0 is "Gain", index 1 "Ceiling" and index 2 "Dry/Wet" |
| Parameters.NamesIdentifyParameters | src/lib.rs:78-85 | two valid indices have the same name only when they are the same index |
| Parameters.NamesAreTable | src/lib.rs:78-85 | index 0 is named "Gain", index 1 "Ceiling" and index 2 "Dry/Wet", so the set of names over the valid indices is exactly those three |
| Parameters.NameCountMatchesParamCount | src/lib.rs:30 | the declared count of 3 parameters equals the number of distinct names over indices 0 to count-1 |
| Parameters.ReadSeesLastWrite | src/lib.rs:105-121 | after any sequence of writes, a read returns the last value written to that index, or the earlier value if the index was never written |
| Parameters.FreshStoreReads | src/lib.rs:63-71 | a fresh store that then receives any sequence of writes reads, at each index, the last value written there or 1.0 |
| Processing.Wet | src/lib.rs:41-43 | definition of the saturated sample tanh(x * gain / ceiling), with no contract of its own; used by WetSampleIsSaturated, SampleBetweenDryAndWet and ShapeMonotone |
| Processing.Shape | src/lib.rs:41-45 | definition of the per-sample blend, with no contract of its own; it is characterised by DrySampleIsInput, WetSampleIsSaturated, DefaultShapeIsTanh, SampleBetweenDryAndWet, ShapeMonotone and ShapeOdd |
| Processing.RenderChannel | src/lib.rs:40-46 | processing a channel never changes the output buffer's length |
| Processing.RenderBlock | src/lib.rs:39-47 | processing a block never changes the output's channel count or any channel's length |
| Processing.RenderChannelAt | src/lib.rs:40-46 | an output position with an input partner holds the shaped input sample; a position past the input's end keeps its old value |
| Processing.RenderBlockAt | src/lib.rs:39-47 | an output channel with an input partner is rendered from that channel; an output channel past the input's last channel is untouched |
| Processing.RenderedSample | src/lib.rs:39-47 | sample k of output channel c is shaped from input sample k of channel c when both exist, and is otherwise unchanged |
| Processing.EveryPositionWritten | src/lib.rs:38-48 | when input and output have the same shape, every output position is written, from the input sample at the same position |
| Processing.OutputIgnoresOldContents | src/lib.rs:38-48 | when shapes match, the old contents of the output buffer do not affect the result |
| Processing.OutputIsLocal | src/lib.rs:40-46 | two inputs that agree at one position give the same output there, whatever their other samples are (no state carried between samples) |
| Processing.DrySampleIsInput | src/lib.rs:41-45 | with mix 0 an output sample equals its input sample |
| Processing.WetSampleIsSaturated | src/lib.rs:41-45 | with mix 1 an output sample equals the wet sample `Wet`, which is tanh(x * gain / ceiling) |
| Processing.DefaultShapeIsTanh | src/lib.rs:41-45 | with the default parameters (all 1.0) an output sample is tanh of the input sample |
| Processing.DefaultShapeOfTwo | src/lib.rs:41-45 | with the default parameters, input 2.0 gives tanh(2.0) |
| Processing.DryBlockPassesThrough | src/lib.rs:38-48 | with mix 0 and matching shapes the output block equals the input block |
| Processing.WetBlockIsSaturated | src/lib.rs:38-48 | with mix 1 and matching shapes every output sample is the saturated input sample |
| Processing.SampleBetweenDryAndWet | src/lib.rs:45 | with a mix in [0, 1] each output sample lies between its dry and wet values |
| Processing.ShapeMonotone | src/lib.rs:41-45 | with a monotone tanh, gain >= 0, ceiling > 0 and a mix in [0, 1], a larger input sample never gives a smaller output sample |
| Processing.ShapeOdd | src/lib.rs:41-45 | with an odd tanh, negating the input sample negates the output sample |
| Processing.DefaultSilenceStaysSilent | src/lib.rs:41-45 | with default parameters and tanh(0) = 0, an all-zero input block gives an all-zero output block |
| Processing.ProcessChannel | src/lib.rs:40-46 | the inner loop writes each paired position from its own input sample, leaves the other positions alone, and agrees with RenderChannel |
| Processing.Process | src/lib.rs:38-48 | the outer loop pairs channel c of input and output, every sample obeys the rule of RenderedSample, and the result agrees with RenderBlock |

## Left out

- Concurrency. In the source each parameter sits behind an `RwLock` and the
  store is shared through an `Arc` between the audio and control threads.
  The model holds plain fields and applies writes one at a time. Atomicity
  of reads and writes is not modelled.
- Process: the source reads gain, ceiling and mix from the store again for
  every sample, so a write from another thread can take effect in the
  middle of a block. The model reads one parameter value set for the whole
  block, which is what a single thread observes.
- Process, ProcessChannel, RenderBlock, RenderChannel: these require a
  non-zero ceiling. With a zero ceiling the source's f32 division gives
  ±infinity, which tanh maps to ±1, or NaN when the numerator is also zero.
  Non-finite floats are not modelled.
- Real `tanh` numerics and f32 rounding. Samples are exact reals and `tanh`
  is a function parameter, so outputs are exact blends of whatever `tanh`
  returns.
- `get_parameter_text` is not modelled. Its output depends on f32
  `to_string` and `{:.2}` formatting.
- Index width: the source's index is an `i32`. The model uses unbounded
  integers, which makes no difference because only 0, 1 and 2 are valid.
- `get_info` is modelled only for its parameter count (`ParamCount`). The
  name, vendor, id, category and the 2-in/2-out channel counts are not
  modelled. Neither are `plugin_main!` and `get_parameter_object`: they are
  host registration and sharing glue.
- The `vst` crate's `AudioBuffer` is modelled as a sequence of input
  channels and a sequence of output channels. Its `zip` is modelled as
  pairing by position up to the shorter side.
- `TanhEffect::default` only wraps a default `TanhParams`. It is covered
  by `Default`.
