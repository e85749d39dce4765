/**
 * The raster pipeline as this core sees it: an ordered list of opaque stages.
 *
 * To state what the stage protocol achieves without modelling the SIMD
 * arithmetic, stages get a symbolic dataflow meaning: the machine holds the
 * "current" colour registers (r,g,b,a, written `src`), the secondary registers
 * (dr,dg,db,da, written `dst`) and the scratch memory handed out per build.
 * Colours are symbolic terms (`Value`); a blend or interpolation stage builds a
 * term from the two register sets instead of computing numbers.
 */
module Pipeline {
  import opened Wrappers
  import opened Shaders

  /** An abstract scratch allocation (the `fRes0` buffer of one two-shader evaluation). */
  type Slot = nat

  datatype Stage =
    | ConstantColor(rgba: Color4f)     // SkRasterPipeline::append_constant_color
    | ColorStage(color: Color)         // the stages of a solid colour shader
    | LeafStage(kind: nat)             // the stages of another leaf shader
    | StoreSrc(slot: Slot)             // store_src: current registers -> scratch
    | LoadDst(slot: Slot)              // load_dst: scratch -> secondary registers
    | BlendStages(mode: BlendMode)     // SkBlendMode_AppendStages(mode)
    | Lerp1Float(weight: real)         // lerp_1_float with the stored weight

  /** Symbolic per-pixel colour. */
  datatype Value =
    | Paint(rgba: Color4f)
    | Solid(color: Color)
    | Opaque(kind: nat)
    | Blended(mode: BlendMode, dst: Value, src: Value)
    | Mixed(weight: real, dst: Value, src: Value)

  datatype Machine = Machine(src: Value, dst: Value, scratch: map<Slot, Value>)

  /** One stage; loading from scratch that was never stored to is a fault (`None`). */
  function Exec(m: Machine, st: Stage): Option<Machine> {
    match st
    case ConstantColor(c) => Some(m.(src := Paint(c)))
    case ColorStage(c) => Some(m.(src := Solid(c)))
    case LeafStage(k) => Some(m.(src := Opaque(k)))
    case StoreSrc(k) => Some(m.(scratch := m.scratch[k := m.src]))
    case LoadDst(k) => if k in m.scratch then Some(m.(dst := m.scratch[k])) else None
    case BlendStages(mode) => Some(m.(src := Blended(mode, m.dst, m.src)))
    case Lerp1Float(w) => Some(m.(src := Mixed(w, m.dst, m.src)))
  }

  /** Stages execute in append order. */
  function Run(m: Machine, stages: seq<Stage>): Option<Machine>
    decreases |stages|
  {
    if |stages| == 0 then Some(m)
    else match Exec(m, stages[0])
      case None => None
      case Some(m') => Run(m', stages[1..])
  }

  /** Running a concatenation runs the first part, then the second from where it left off. */
  lemma {:induction false} RunConcat(m: Machine, a: seq<Stage>, b: seq<Stage>)
    ensures Run(m, a + b) == (match Run(m, a)
                              case None => None
                              case Some(m') => Run(m', b))
    decreases |a|
  {
    if |a| == 0 {
      assert a + b == b;
    } else {
      assert (a + b)[0] == a[0];
      assert (a + b)[1..] == a[1..] + b;
      match Exec(m, a[0])
      case None =>
      case Some(m1) => RunConcat(m1, a[1..], b);
    }
  }

  /** `load_dst` from a slot that was stored to, then a merge stage: the merge sees the
      slot's colour as destination and the current colour as source. */
  lemma RunLoadThenMerge(m: Machine, k: Slot, merge: Stage)
    requires k in m.scratch
    ensures Run(m, [LoadDst(k), merge]) == Exec(m.(dst := m.scratch[k]), merge)
  {
    var loaded := m.(dst := m.scratch[k]);
    assert [LoadDst(k), merge][1..] == [merge];
    match Exec(loaded, merge)
    case None =>
    case Some(after) => assert Run(after, [merge][1..]) == Some(after);
  }

  /** The colour a shader denotes: a null shader stands for the premultiplied paint colour;
      a combinator combines the colour of its destination with that of its source. */
  function Meaning(s: Shader, paint: Color4f): Value {
    match s
    case Null => Paint(Premul(paint))
    case ColorShader(_, c) => Solid(c)
    case Leaf(_, k, _, _) => Opaque(k)
    case Blend(_, mode, dst, src) => Blended(mode, Meaning(dst, paint), Meaning(src, paint))
    case Lerp(_, w, dst, src) => Mixed(w, Meaning(dst, paint), Meaning(src, paint))
  }

  /** Every scratch slot below `bound` that `before` held is still held, unchanged, by `after`. */
  predicate KeepsScratchBelow(before: Machine, after: Machine, bound: Slot) {
    forall k | k in before.scratch && k < bound :: k in after.scratch && after.scratch[k] == before.scratch[k]
  }
}
