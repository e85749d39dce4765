# Compose shaders: blend and lerp combinators

A Dafny model of Skia's compose shaders (`src/shaders/SkComposeShader.cpp`).
The file combines two child shaders into one. There are two combinators:
`SkShader_Blend` applies a blend mode to a destination and a source shader.
`SkShader_Lerp` mixes the two by a weight. The model covers:

- the factories `SkShader::MakeBlend` and `SkShader::MakeLerp`. They fold the degenerate
  cases before allocating a node.
- the raster stage-append protocol: `append_shader_or_paint`, `append_two_shaders` and
  both `onAppendStages`.
- the serialization codec: both `flatten` and both `CreateProc`.
- the GPU lowering: both `asFragmentProcessor`.

Modules, leaves first:

| file | module | contents |
|---|---|---|
| `wrappers.dfy` | `Wrappers` | `Option` |
| `shaders.dfy` | `Shaders` | blend modes, the nullable shader reference, object identity, class invariants |
| `compose.dfy` | `Compose` | `MakeBlend`, `MakeLerp` |
| `pipeline.dfy` | `Pipeline` | stages, plus a symbolic dataflow semantics for running them |
| `stage_append.dfy` | `StageAppend` | the append protocol, and the proof that it computes the shader's colour |
| `codec.dfy` | `Codec` | token buffer, `flatten`/`CreateProc`, round trips |
| `gpu.dfy` | `Gpu` | fragment-processor lowering |

Modelling choices:

- **Shader references.** `Shader` models an `sk_sp<SkShader>`. `Null` is the null
  pointer. Every other value is an object with an `id`, which stands for its address.
  The source's `dst == src` is pointer equality, `SameObject`, not structural equality.
  Allocating a new object means taking a fresh id. The factories receive that id as a
  parameter. The decoder draws ids from a counter in the reader.
- **Leaf shaders.** The solid colour shader is one leaf; `MakeBlend` creates it for
  `kClear`. Every other leaf is an opaque `Leaf`. Its flags say whether it can append
  raster stages and whether it can produce a fragment processor.
- **Pipeline.** The pipeline is a `seq<Stage>` of opaque tokens. A build only appends.
  Each append function therefore returns the stages it appended, also on failure, as
  the source leaves a partly built pipeline behind. The build arena is a slot counter.
  `append_two_shaders` allocates its scratch buffer from it before anything else.
- **What the protocol computes.** `Pipeline.Run` gives stages a symbolic meaning.
  `store_src` saves the current registers into a slot. `load_dst` loads a slot into the
  secondary registers. The merge stage builds a term `Blended(mode, dst, src)` or
  `Mixed(w, dst, src)` from those two register sets. The model proves that running what
  a successful append produced leaves the shader's `Meaning` in the current registers.
  The lowered GPU processor has the same meaning.
- **Read buffer.** The buffer is a token sequence, a validity flag and the id counter.
  This follows `SkReadBuffer`: once the flag is tripped it stays tripped, and later
  reads return 0 or null without consuming input. `validate(c)` trips the flag when `c`
  is false and returns whether the buffer is still valid. A token of the wrong kind, or
  the end of input, trips the flag.
- **Weights.** A float weight is `Scalar`: `NaN`, or `Num(v)` with `v` a real. Only the
  NaN test and the comparisons `<= 0` and `>= 1` act on it.
- **Blend modes.** A blend mode is an integer 0..28, as in `SkBlendMode`: `kClear` = 0,
  `kSrc` = 1, `kDst` = 2, `kLastMode` = `kLuminosity` = 28. The mode is read as a 32-bit
  int and cast to unsigned before the range test. `Codec.Unsigned32` models that cast,
  so a negative word is rejected as well.

Three behaviours of the source that are easy to miss:

- `MakeLerp` returns null for a NaN weight, and also whenever the child it selects is
  null: `dst` for a weight <= 0, `src` for a weight >= 1, or both children null (lines 33-39).
- Blend's `asFragmentProcessor` lowers `fDst` first and stops if that fails, without
  looking at `fSrc` (lines 139-142). Only the order of the arguments to
  `MakeFromTwoProcessors` (source, then destination) shows up in the result.
- Blend's `CreateProc` returns null when an earlier read already tripped the buffer,
  because `validate` reports the buffer's state, not only the mode test (line 83).

## Model

| member | source | states |
|---|---|---|
| Compose.MakeBlend | src/shaders/SkComposeShader.cpp:19-27 | kClear gives a new solid shader of colour 0 (transparent black). kDst gives `dst` itself and kSrc gives `src` itself. Every other mode gives a new blend node holding exactly (mode, dst, src). Valid children give a valid result, so a stored mode is never kClear/kDst/kSrc |
| Compose.MakeLerp | src/shaders/SkComposeShader.cpp:29-42 | A NaN weight gives null. Otherwise identical children give `dst` whatever the weight, because the identity test comes first. Then weight <= 0 gives `dst` and weight >= 1 gives `src`. Every other case gives a new lerp node with 0 < w < 1 and distinct children. Valid children give a valid result |
| StageAppend.AppendShaderOrPaint | src/shaders/SkComposeShader.cpp:46-55 | A null child appends exactly one constant-colour stage with the premultiplied paint colour, and succeeds. A present child appends exactly what its own `appendStages` appends, and succeeds iff every leaf under it supports the raster pipeline. Scratch slots used lie in [first, next) |
| StageAppend.AppendStages | src/shaders/SkComposeShader.cpp:47-49 | The virtual append gives exactly the node's own stages: a blend node's `onAppendStages` (`BlendAppendStages`), a lerp node's (`LerpAppendStages`), one colour stage for a solid shader, and one opaque stage or a failure for another leaf. It succeeds iff every leaf of the tree supports the raster pipeline, and touches only slots it allocated |
| StageAppend.AppendTwoShaders | src/shaders/SkComposeShader.cpp:57-73 | The slot is reserved first, and on success it is the returned handle. Appended stages are s0's, then `store_src` into the slot, then s1's. If s0 fails the result is null and the stages are exactly s0's: no `store_src`, nothing of s1. If s1 fails the result is null. The slot is never loaded from in these stages |
| StageAppend.BlendAppendStages | src/shaders/SkComposeShader.cpp:95-104 | Succeeds iff both subtrees are supported. On success: the helper's stages, then `load_dst(res0)`, then the mode's blend stages. On failure: only the helper's stages, with no `load_dst` |
| StageAppend.LerpAppendStages | src/shaders/SkComposeShader.cpp:119-128 | Succeeds iff both subtrees are supported. On success: the helper's stages, then `load_dst(res0)`, then `lerp_1_float` with the stored weight. On failure: only the helper's stages, with no `load_dst` |
| StageAppend.TwoShadersMeaning | src/shaders/SkComposeShader.cpp:57-73 | Running the helper's stages from any state ends with s1's colour in the current registers and s0's colour in the slot. Older slots are left untouched. This is the "returns the output of e0, leaves e1 in r,g,b,a" promise |
| StageAppend.AppendShaderOrPaintMeaning | src/shaders/SkComposeShader.cpp:46-55 | A successful append, run from any state, computes the child's colour (the paint colour for null) and preserves older scratch |
| StageAppend.AppendStagesMeaning | src/shaders/SkComposeShader.cpp:95-128 | A successful append of a whole tree computes its meaning. A blend combines (dst, src) by its mode and a lerp mixes (dst, src) by its weight, in that order at every level |
| Codec.Unsigned32 | src/shaders/SkComposeShader.cpp:80-83 | The `(unsigned)` cast keeps non-negative words and maps every negative word above kLastMode |
| Codec.ReadShader | src/shaders/SkComposeShader.cpp:78-79 | On any token stream, the shader read satisfies the class invariants, because combinators are rebuilt only through the factories. New objects get fresh ids. An invalid buffer yields null and is left unchanged |
| Codec.BlendFlatten | src/shaders/SkComposeShader.cpp:89-93 | Writes dst's tokens, then src's, then the mode as a 32-bit word. `Codec.BlendFlattenRoundTrip` reads this back with `CreateProc` as an equal blend node |
| Codec.LerpFlatten | src/shaders/SkComposeShader.cpp:113-117 | Writes dst's tokens, then src's, then the weight as a scalar. `Codec.LerpFlattenRoundTrip` reads this back with `CreateProc` as an equal lerp node |
| Codec.BlendCreateProc | src/shaders/SkComposeShader.cpp:77-87 | On any stream, the result is valid, a tripped buffer yields null, and a buffer tripped on entry stays tripped. A mode word above kLastMode after the unsigned cast gives null and a tripped buffer, whatever the children decoded to |
| Codec.LerpCreateProc | src/shaders/SkComposeShader.cpp:106-111 | On any stream, the result is valid, and if the buffer is invalid after the three reads the result is null (the factory is not consulted) |
| Codec.ReadShaderRoundTrip | src/shaders/SkComposeShader.cpp:77-117 | Reading back what was written for a valid shader consumes exactly its tokens, keeps the buffer valid, and rebuilds an equal tree (equal up to object identity) |
| Codec.BlendCreateProcReads | src/shaders/SkComposeShader.cpp:77-93 | For flattened children followed by a mode word: a word above kLastMode after the unsigned cast gives null and a tripped buffer. Any other word gives `MakeBlend(mode, dst, src)` on the rebuilt children, so kClear/kDst/kSrc decode to their simplified forms |
| Codec.LerpCreateProcReads | src/shaders/SkComposeShader.cpp:106-117 | For flattened children followed by a weight, the buffer stays valid. NaN gives null, and two null children give null. Otherwise the rebuilt children are distinct objects, so <= 0 gives dst, >= 1 gives src, and anything between gives a lerp node with that weight |
| Codec.BlendFlattenRoundTrip | src/shaders/SkComposeShader.cpp:77-93 | `flatten` then `CreateProc` of a blend node gives a blend node equal to it |
| Codec.LerpFlattenRoundTrip | src/shaders/SkComposeShader.cpp:106-117 | `flatten` then `CreateProc` of a lerp node gives a lerp node equal to it, with distinct children |
| Gpu.AsFragmentProcessor | src/shaders/SkComposeShader.cpp:137-161 | Defined whenever lowering dereferences no null child. It yields a processor iff every leaf supports the GPU and the tree holds no lerp |
| Gpu.BlendAsFragmentProcessor | src/shaders/SkComposeShader.cpp:137-149 | Absent iff either child's processor is absent, and absent without lowering the source when the destination fails. Otherwise the node is `MakeFromTwoProcessors(fpSrc, fpDst, mode)`, source first |
| Gpu.LerpAsFragmentProcessor | src/shaders/SkComposeShader.cpp:151-161 | Always absent, even when both children lower (the source is lowered only after the destination) |
| Gpu.AsFragmentProcessorMeaning | src/shaders/SkComposeShader.cpp:147-148 | A lowered processor has the same meaning as the raster pipeline for that shader. Passing the source as the first argument matches "saved = destination, current = source" |

## Left out

- Running the pipeline: the SIMD stage bodies of `store_src`, `load_dst` and `lerp_1_float`, and the blend maths behind `SkBlendMode_AppendStages`. The merge is the single token `BlendStages(mode)`, whose meaning is a symbolic term. These are floating-point code outside this file.
- Float arithmetic: weights and colours are reals. Infinities are not told apart from large values, which changes none of the comparisons made here.
- The stages and processors of leaf shaders (including `SkColorShader`) are opaque tokens. They belong to other files.
- The paint colour's `getColor4f()` conversion, with its float rounding: the paint colour is an input `Color4f` of real channels, premultiplied by `Shaders.Premul` in real arithmetic.
- Arena allocation, the scratch buffer's size (`4 * SkRasterPipeline_kMaxStride` floats) and pointer values. A scratch buffer is an abstract slot number.
- The byte layout of `SkWriteBuffer`/`SkReadBuffer`: factory names and indices, alignment, and the recorded-size check in `readFlattenable`. Each written value is one token.
- Reference counting and object lifetime (`sk_sp`), and threads. Objects are immutable values with an identity.
- `GrFragmentProcessor` internals and `GrXfermodeFragmentProcessor::MakeFromTwoProcessors`. Only the node it is asked to build, with its argument order, is modelled.
- Gpu.AsFragmentProcessor: requires that lowering never reaches a null child. A combinator dereferences `fDst` at lines 139 and 152, and dereferences `fSrc` at lines 143 and 156 only once `fDst` has lowered. A null child reached there is undefined behaviour, which the model does not represent. A null source behind a destination that cannot lower is accepted, and gives an absent result.
