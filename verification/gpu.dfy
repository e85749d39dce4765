/**
 * GPU lowering of the two combinators (asFragmentProcessor). Fragment
 * processors are opaque except for the node that
 * GrXfermodeFragmentProcessor::MakeFromTwoProcessors builds, whose first
 * argument is the source and whose second is the destination.
 */
module Gpu {
  import opened Wrappers
  import opened Shaders
  import opened Pipeline

  datatype Fp =
    | ConstColorFp(color: Color)                        // a solid colour shader's processor
    | LeafFp(kind: nat)                                 // another leaf's processor
    | XfermodeFp(mode: BlendMode, fpSrc: Fp, fpDst: Fp) // MakeFromTwoProcessors(src, dst, mode)

  /** The colour a processor computes, in the terms of the raster pipeline's semantics. */
  function FpMeaning(fp: Fp): Value {
    match fp
    case ConstColorFp(c) => Solid(c)
    case LeafFp(k) => Opaque(k)
    case XfermodeFp(mode, fpSrc, fpDst) => Blended(mode, FpMeaning(fpDst), FpMeaning(fpSrc))
  }

  /** Lowering never dereferences a null child. A combinator dereferences its destination
      first and its source only once the destination has lowered, so a null source is
      harmless when the destination cannot lower. */
  predicate Lowerable(s: Shader) {
    match s
    case Null => false
    case ColorShader(_, _) => true
    case Leaf(_, _, _, _) => true
    case Blend(_, _, dst, src) => Lowerable(dst) && (GpuSupported(dst) ==> Lowerable(src))
    case Lerp(_, _, dst, src) => Lowerable(dst) && (GpuSupported(dst) ==> Lowerable(src))
  }

  /** Whether lowering yields a processor: every leaf supports the GPU and no lerp occurs. */
  predicate GpuSupported(s: Shader) {
    match s
    case Null => false
    case ColorShader(_, _) => true
    case Leaf(_, _, _, gpuOk) => gpuOk
    case Blend(_, _, dst, src) => GpuSupported(dst) && GpuSupported(src)
    case Lerp(_, _, _, _) => false
  }

  /** SkShaderBase::asFragmentProcessor, dispatched on the kind of shader. */
  function AsFragmentProcessor(s: Shader): (r: Option<Fp>)
    requires Lowerable(s)
    ensures r.Some? <==> GpuSupported(s)
    decreases s, 1
  {
    match s
    case ColorShader(_, c) => Some(ConstColorFp(c))
    case Leaf(_, k, _, gpuOk) => if gpuOk then Some(LeafFp(k)) else None
    case Blend(_, _, _, _) => BlendAsFragmentProcessor(s)
    case Lerp(_, _, _, _) => LerpAsFragmentProcessor(s)
  }

  /** SkShader_Blend::asFragmentProcessor: absent if either child's processor is absent,
      otherwise the two are combined with the source first and the destination second. */
  function BlendAsFragmentProcessor(s: Shader): (r: Option<Fp>)
    requires s.Blend? && Lowerable(s)
    ensures r.Some? <==> GpuSupported(s.dst) && GpuSupported(s.src)
    ensures !GpuSupported(s.dst) ==> r.None?
    ensures r.Some? ==> r.value == XfermodeFp(s.mode, AsFragmentProcessor(s.src).value,
                                                      AsFragmentProcessor(s.dst).value)
    decreases s, 0
  {
    var fpA := AsFragmentProcessor(s.dst);
    if fpA.None? then None
    else
      var fpB := AsFragmentProcessor(s.src);
      if fpB.None? then None
      else Some(XfermodeFp(s.mode, fpB.value, fpA.value))
  }

  /** SkShader_Lerp::asFragmentProcessor: lowers both children and then reports the lerp
      itself as unsupported, whatever the children gave. */
  function LerpAsFragmentProcessor(s: Shader): (r: Option<Fp>)
    requires s.Lerp? && Lowerable(s)
    ensures r.None?
    decreases s, 0
  {
    var fpA := AsFragmentProcessor(s.dst);
    if fpA.None? then None
    else
      var fpB := AsFragmentProcessor(s.src);
      if fpB.None? then None
      else None
  }

  /** A processor obtained by lowering computes the same colour as the raster pipeline
      built for the same shader: the argument order given to MakeFromTwoProcessors matches
      the pipeline's "saved = destination, current = source". */
  lemma {:induction false} AsFragmentProcessorMeaning(s: Shader, paint: Color4f)
    requires Lowerable(s) && AsFragmentProcessor(s).Some?
    ensures FpMeaning(AsFragmentProcessor(s).value) == Meaning(s, paint)
    decreases s
  {
    match s
    case ColorShader(_, _) =>
    case Leaf(_, _, _, _) =>
    case Blend(_, _, dst, src) =>
      AsFragmentProcessorMeaning(dst, paint);
      AsFragmentProcessorMeaning(src, paint);
  }
}
