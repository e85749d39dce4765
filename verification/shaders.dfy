/**
 * Data model of the shaders that SkComposeShader.cpp combines.
 *
 * An `sk_sp<SkShader>` is a possibly-null reference to an immutable shader
 * object. `Shader` models the reference: `Null` is the null pointer, every
 * other constructor is an object carrying an `id` that stands for its address,
 * so that pointer equality (`dst == src` in the source) is `SameObject`, not
 * structural equality. Shaders other than the two combinators are opaque
 * collaborators: the solid colour shader (which `MakeBlend` creates for
 * `kClear`) and a generic `Leaf` whose pipeline and GPU support are given as
 * flags.
 */
module Shaders {

  /** SkBlendMode, numbered as in the enum: kClear = 0, kSrc = 1, kDst = 2, kSrcOver = 3,
      ..., kLuminosity = kLastMode = 28. */
  const LastMode: int := 28
  type BlendMode = m: int | 0 <= m <= LastMode

  const Clear: BlendMode := 0
  const SrcMode: BlendMode := 1
  const DstMode: BlendMode := 2

  /** The three modes that `MakeBlend` folds away instead of building a blend node. */
  predicate IsTrivialMode(m: BlendMode) {
    m == Clear || m == SrcMode || m == DstMode
  }

  /** A 32-bit float as far as this core looks at it: either NaN or an ordered value. */
  datatype Scalar = NaN | Num(v: real)

  /** Object identity: the address of a heap-allocated shader. */
  type Id = nat

  /** SkColor: 32-bit unpremultiplied ARGB; 0 is transparent black. */
  type Color = c: int | 0 <= c < 0x1_0000_0000
  const TransparentBlack: Color := 0

  datatype Shader =
    | Null
    | ColorShader(id: Id, color: Color)
    | Leaf(id: Id, kind: nat, rasterOk: bool, gpuOk: bool)
    | Blend(id: Id, mode: BlendMode, dst: Shader, src: Shader)
    | Lerp(id: Id, weight: real, dst: Shader, src: Shader)

  /** `a == b` on two `sk_sp<SkShader>`: both null, or the same object. */
  predicate SameObject(a: Shader, b: Shader) {
    (a.Null? && b.Null?) || (!a.Null? && !b.Null? && a.id == b.id)
  }

  /** The class invariants of SkShader_Blend and SkShader_Lerp, throughout a shader tree:
      a stored blend mode is never one the factory folds, and a stored weight lies strictly
      between 0 and 1 with two distinct children. */
  predicate Valid(s: Shader) {
    match s
    case Null => true
    case ColorShader(_, _) => true
    case Leaf(_, _, _, _) => true
    case Blend(_, mode, dst, src) => !IsTrivialMode(mode) && Valid(dst) && Valid(src)
    case Lerp(_, w, dst, src) => 0.0 < w < 1.0 && !SameObject(dst, src) && Valid(dst) && Valid(src)
  }

  /** The shader tree with every object identity forgotten: two trees with equal erasures
      describe the same composition, possibly built from different objects. */
  function Erase(s: Shader): Shader {
    match s
    case Null => Null
    case ColorShader(_, c) => ColorShader(0, c)
    case Leaf(_, k, r, g) => Leaf(0, k, r, g)
    case Blend(_, m, dst, src) => Blend(0, m, Erase(dst), Erase(src))
    case Lerp(_, w, dst, src) => Lerp(0, w, Erase(dst), Erase(src))
  }

  /** Number of references in a shader tree (a null child counts as one). */
  function Size(s: Shader): (n: nat)
    ensures n >= 1
  {
    match s
    case Blend(_, _, dst, src) => 1 + Size(dst) + Size(src)
    case Lerp(_, _, dst, src) => 1 + Size(dst) + Size(src)
    case _ => 1
  }

  /** SkColor4f, with real channels in place of floats. */
  datatype Color4f = Color4f(r: real, g: real, b: real, a: real)

  /** SkColor4f::premul: colour channels scaled by alpha. */
  function Premul(c: Color4f): Color4f {
    Color4f(c.r * c.a, c.g * c.a, c.b * c.a, c.a)
  }
}
