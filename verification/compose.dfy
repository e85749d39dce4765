/**
 * The construction-time simplifiers SkShader::MakeBlend and SkShader::MakeLerp.
 * Allocation of a new object is modelled by the caller passing a fresh `newId`
 * identity; it is used only when the factory allocates.
 */
module Compose {
  import opened Shaders

  /** SkShader::MakeBlend. Never fails; folds kClear, kDst and kSrc. */
  function MakeBlend(mode: BlendMode, dst: Shader, src: Shader, newId: Id): (r: Shader)
    ensures mode == Clear ==> r == ColorShader(newId, TransparentBlack)
    ensures mode == DstMode ==> r == dst
    ensures mode == SrcMode ==> r == src
    ensures !IsTrivialMode(mode) ==> r == Blend(newId, mode, dst, src)
    ensures Valid(dst) && Valid(src) ==> Valid(r)
  {
    if mode == Clear then ColorShader(newId, TransparentBlack)
    else if mode == DstMode then dst
    else if mode == SrcMode then src
    else Blend(newId, mode, dst, src)
  }

  /** SkShader::MakeLerp. A NaN weight gives null; otherwise the result is one of the
      children (null if that child is null) or a new lerp node. The identity test on the
      two children comes before the tests on the weight. */
  function MakeLerp(weight: Scalar, dst: Shader, src: Shader, newId: Id): (r: Shader)
    ensures weight.NaN? ==> r == Null
    ensures weight.Num? && SameObject(dst, src) ==> r == dst
    ensures weight.Num? && !SameObject(dst, src) && weight.v <= 0.0 ==> r == dst
    ensures weight.Num? && !SameObject(dst, src) && weight.v >= 1.0 ==> r == src
    ensures weight.Num? && !SameObject(dst, src) && 0.0 < weight.v < 1.0
            ==> r == Lerp(newId, weight.v, dst, src)
    ensures Valid(dst) && Valid(src) ==> Valid(r)
  {
    if weight.NaN? then Null
    else if SameObject(dst, src) then dst
    else if weight.v <= 0.0 then dst
    else if weight.v >= 1.0 then src
    else Lerp(newId, weight.v, dst, src)
  }
}
