# rix mixer: a Dafny model of the routing matrix

This project models the matrix-mixing engine of the `rix` audio plugin
(`src/mixer/mod.rs`). A `Mixer` owns three input buffers, two output buffers,
per-channel trims and a flattened matrix of `INPUTS * OUTPUTS` links. Each
buffer is absent, mono or stereo, and each link has an active flag and a
gain / pan / mute property. `process_matrix` does four things:

- It rejects a matrix whose length is not `inputs * outputs`.
- It splits the matrix into one chunk of `inputs` links per output.
- It skips inactive or muted links.
- For every other link, it combines the input into the output with a rule
  chosen by the pair (output arity, input arity).

The model has four modules:

- `MixerTypes` (`types.dfy`) holds the data model and its defaults.
  - A channel is a `seq<real>` of length `BUFFER_SIZE`, standing for the
    source's fixed-size `[f32; BUFFER_SIZE]` arrays.
  - `cos`, `sin` and `PI` are a `Trig` parameter. Everything proved here
    holds for any values of them.
- `Combination` (`combine.dfy`) holds `Combine`, the pure value that one
  link leaves in its copy of an output buffer. Its lemmas cover:
  - the rule for each arity pair;
  - which links accumulate and which overwrite;
  - how two links compose.
- `Matrix` (`matrix.dfy`) holds the routing arithmetic and `process_matrix`
  as an imperative method over arrays. It models the method twice:
  - `ProcessMatrix` is the walk exactly as written.
  - `ProcessMatrixInPlace` is the walk with its writes kept (see Findings).
- `Engine` (`mixer.dfy`) holds the `Mixer` class, its constructor and
  `Process`.

### Where the code departs from its evident intent

Three facts of the code shape the model. The first departs from the
evident intent of the walk (see Findings); the other two are kept as
written.

- The output arms of `process_matrix` bind the sample arrays by value
  (`&&mut Mono(mut outBuf)`, `&&mut Stereo { l: mut outBufL, r: mut outBufR }`,
  src/mixer/mod.rs:103 and 125). Every `+=` and `=` therefore lands in a
  copy that is then dropped.
  - `ProcessMatrix` and `Mixer.Process` leave `outputs` unchanged and
    return `Ok`.
  - The walk's trace records the value each dropped copy held.
- Channels are fixed `[f32; BUFFER_SIZE]` arrays (src/mixer/mod.rs:8-15).
  The model uses sequences of exactly `BUFFER_SIZE` samples.
- Every `MixProperty` defaults to `mute = false`, the `pre`/`post` trims
  included (src/mixer/mod.rs:30-38, 66-74). The model does the same.

## Model

| member | source | states |
|---|---|---|
| `MixerTypes.DefaultBuffer` | src/mixer/mod.rs:17-21 | The default buffer has no channels, so no combination rule writes to it. |
| `MixerTypes.DefaultProperty` | src/mixer/mod.rs:30-38 | Default mix property: gain 1, pan 0.5 (centre), not muted. |
| `MixerTypes.Passes` | src/mixer/mod.rs:96 | The filter stops an inactive link and a muted link, and lets every other link through. |
| `MixerTypes.DefaultLink` | src/mixer/mod.rs:46-53 | The default link carries the default property and always gets through the filter. |
| `Combination.Combine` | src/mixer/mod.rs:101-174 | One link never changes the arity of its output's copy. An absent output stays absent whatever the input. |
| `Combination.CombineAccumulates` | src/mixer/mod.rs:101-169 | For every arity pair except off-centre Stereo→Stereo with L≠R, the link adds to the output exactly what it would add to silence. |
| `Combination.CombineOverwrites` | src/mixer/mod.rs:151-164 | Off-centre Stereo→Stereo with L≠R at every sample (separation or merging) assigns. The previous output value is discarded. |
| `Combination.AccumulatesExcludesOverwrites` | src/mixer/mod.rs:151-168 | The assigning sub-branches and the accumulating ones are exclusive. |
| `Combination.AccumulatesOrOverwrites` | src/mixer/mod.rs:151-168 | Every link either accumulates or overwrites. With one sample per channel, L and R either differ at every sample or are equal. |
| `Combination.AccumulatingLinksCommute` | src/mixer/mod.rs:101-169 | Two accumulating links give the same output in either order. |
| `Combination.OverwriteDiscardsEarlier` | src/mixer/mod.rs:151-164 | A separating or merging link discards an earlier link's contribution to the same output. This is the Stereo→Stereo assign/accumulate inconsistency. |
| `Combination.MonoFromNone` | src/mixer/mod.rs:105-110 | Mono out, None in: each sample gains `gain * (2 pan - 1)`. |
| `Combination.MonoFromMono` | src/mixer/mod.rs:111-115 | Mono out, Mono in: each sample gains `in * gain`. The pan is ignored. |
| `Combination.MonoFromStereo` | src/mixer/mod.rs:116-122 | Mono out, Stereo in: each sample gains `(L cos θ + R sin θ) gain`, where `θ = pan * 0.5 * PI`. |
| `Combination.StereoFromNone` | src/mixer/mod.rs:127-136 | Stereo out, None in: L gains `cos θ (2 gain - 1)` and R gains `sin θ (2 gain - 1)`. |
| `Combination.StereoFromMono` | src/mixer/mod.rs:137-145 | Stereo out, Mono in: L gains `in cos θ gain` and R gains `in sin θ gain`. |
| `Combination.StereoSeparation` | src/mixer/mod.rs:152-157 | Stereo→Stereo with `pan < 0.5` and L≠R: the output is assigned `(L + R pan PI) gain` and `(R + L pan PI) gain`. |
| `Combination.StereoMerging` | src/mixer/mod.rs:158-164 | Stereo→Stereo with `pan > 0.5` and L≠R: the output is assigned the merging pair, weighted by `cos((1.5 - pan) PI/2)` and `sin((pan - 0.5) PI/2)`. |
| `Combination.StereoPassThrough` | src/mixer/mod.rs:165-168 | Stereo→Stereo with `pan == 0.5` or L == R: the output accumulates `L gain` and `R gain`. |
| `Combination.DefaultMonoIdentity` | src/mixer/mod.rs:111-115 | A default link adds a mono input into a mono output unchanged. |
| `Combination.DefaultStereoPassThrough` | src/mixer/mod.rs:165-168 | A default link adds a stereo input into a stereo output unchanged. |
| `Combination.DefaultMonoToStereo` | src/mixer/mod.rs:137-145 | A default link spreads a mono input as `cos(PI/4)` left and `sin(PI/4)` right. |
| `Matrix.LinkIndex` | src/mixer/mod.rs:91-95 | The link from input `i` to output `o` lies in output `o`'s chunk `[o * n, o * n + n)`. |
| `Matrix.LinkAt` | src/mixer/mod.rs:91-95 | The `i`-th link of output `o`'s chunk is `matrix[o * n + i]`, an index inside the matrix. |
| `Matrix.LinkIndexInRange` | src/mixer/mod.rs:91-95 | The link from input `i` to output `o`, at `o * n + i`, lies inside a matrix of `n * m` links. |
| `Matrix.LinkIndexInjective` | src/mixer/mod.rs:91-95 | No two (output, input) pairs share a link. |
| `Matrix.Chunk` | src/mixer/mod.rs:91-95 | Output `o`'s chunk `matrix[o*n .. (o+1)*n]` has `n` links, and its `i`-th link is the one from input `i`. |
| `Matrix.Visits` | src/mixer/mod.rs:91-101 | The loop body makes at most one pass per link walked, so the trace up to (output `o`, input `i`) has at most `o * n + i` passes. |
| `Matrix.VisitsAreUnfiltered` | src/mixer/mod.rs:91-101 | Each pass of the loop body concerns a link that is active and unmuted, between the output and input it connects. It leaves in its copy the combination of that input with the original output. |
| `Matrix.VisitsCoverUnfiltered` | src/mixer/mod.rs:91-96 | A pass is made for every active, unmuted link, whatever its gain and pan. |
| `Matrix.ProcessMatrix` | src/mixer/mod.rs:86-179 | A length other than `inputs * outputs` gives `Err(DimensionMismatch)` before any loop. Otherwise the result is `Ok`, with the passes walked output by output. Either way `outputs` is unchanged. Empty `inputs` are excluded only once the guard has passed. |
| `Matrix.MixPrefix` | src/mixer/mod.rs:94-174 | With writes kept, an output keeps its arity through any number of links. |
| `Matrix.Route` | src/mixer/mod.rs:91-93 | With writes kept, the matrix pass keeps the number and arity of the outputs. |
| `Matrix.ProcessMatrixInPlace` | src/mixer/mod.rs:86-179 | Corrected walk. A mismatch leaves `outputs` untouched. Otherwise every output ends as its own chunk of links leaves it. |
| `Matrix.FilteredLinksContributeNothing` | src/mixer/mod.rs:94-96 | Inactive or muted links contribute nothing, whatever their gain and pan. |
| `Matrix.AllFilteredLeavesOutput` | src/mixer/mod.rs:94-96 | An output whose links are all filtered out is left as it was. |
| `Matrix.AccumulatingChunkAdds` | src/mixer/mod.rs:94-169 | When every passing link accumulates, the chunk adds to its output exactly what it would produce from silence. |
| `Matrix.MonoInputsSum` | src/mixer/mod.rs:111-115 | Several Mono→Mono links sum. Each sample gains `Σ in_i * gain_i` over the passing links. |
| `Matrix.LastOverwriteWins` | src/mixer/mod.rs:151-164 | A final separating or merging link decides a stereo output alone. Earlier links are lost. |
| `Matrix.DroppedWriteWitness` | src/mixer/mod.rs:103-115 | One default link from a mono `1.0` into a silent mono output should yield `1.0`. The walk as written leaves `0.0`. |
| `Matrix.DroppedWriteOnOneLink` | src/mixer/mod.rs:86-125 | On one mono `1.0` input, one silent mono output and one default link, `ProcessMatrix` leaves the output at `0.0` and `ProcessMatrixInPlace` sets it to `1.0`. |
| `Engine.Mixer.constructor` | src/mixer/mod.rs:66-74 | `Mixer::new`: the fixed shape, absent buffers, default trims, and every link active, unmuted, gain 1, pan 0.5. |
| `Engine.Mixer.Process` | src/mixer/mod.rs:76-78 | The mixer's shape always passes the guard, so the unwrap never panics, and the outputs are left as they were. |
| `Engine.NewThenProcess` | src/mixer/mod.rs:186-189 | A new mixer, processed once, is still in its default state. |

## Findings

| source | as written | input that shows it | evidently intended | confidence | as-written member | corrected member |
|---|---|---|---|---|---|---|
| src/mixer/mod.rs:103-125 | The output arms bind the `Copy` sample arrays by value (`mut outBuf`, `mut outBufL`, `mut outBufR`). All writes go to a copy that is dropped, so `process_matrix` never changes `outputs`. | One input `Mono([1.0])`, one output `Mono([0.0])`, one default link: the output stays `[0.0]`. | Each output holds the result of combining its chunk's links into it in turn (`[1.0]` here). | not executed | `Matrix.ProcessMatrix` (with `Matrix.DroppedWriteOnOneLink`) | `Matrix.ProcessMatrixInPlace` |

The Stereo→Stereo rule assigns in its separation and merging sub-branches
and accumulates elsewhere. `OverwriteDiscardsEarlier` and
`LastOverwriteWins` record this behaviour. It is not listed as a finding,
because the intent is not evident from the code.

## Left out

- Floating point: samples, gain and pan are reals. f32 rounding, NaN and
  infinities are not modelled. A NaN pan would fall into the pass-through
  sub-branch in the source.
- Trigonometry: the values of `cos`, `sin` and `PI` are not modelled, since
  they are a parameter. No numeric fact such as `cos(PI/4) = sin(PI/4)` is
  used.
- The `pre`/`post` trims are only stored fields. Processing never reads
  them.
- The `_ => unimplemented!()` arms are not modelled. The matches on the
  three-variant `Buffer` are exhaustive, so these arms cannot be reached.
- Iterator zips are not modelled as truncating. Every channel has exactly
  `BUFFER_SIZE` samples, so every zip in the walk runs its full length.
- `ProcessMatrixInPlace` requires distinct input and output arrays. Rust's
  borrow rules guarantee this for `&[Buffer]` and `&mut [Buffer]`.
- The test's `println!` of the mixer is not modelled.
- `src/lib.rs` is not part of this model. It is the VST2 plugin glue: a
  copy loop that never calls the mixer, and parameter get/set.
- `examples/mixer.rs` is not part of this model. It is device and stream
  set-up, I/O only.
- Real-time and threading concerns are not modelled. The code has no
  hand-off between threads.
