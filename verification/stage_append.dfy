/**
 * The stage-append protocol of SkComposeShader.cpp: `append_shader_or_paint`,
 * `append_two_shaders` and the two combinators' `onAppendStages`, together with
 * the virtual `appendStages` dispatch that reaches them.
 *
 * A pipeline build only ever appends, so each function returns the stages it
 * appended (also on failure: the source leaves a partially built pipeline for
 * the caller to discard). Scratch allocation from the build's arena is a
 * counter: a call receives the first unused slot and returns the next unused.
 */
module StageAppend {
  import opened Wrappers
  import opened Shaders
  import opened Pipeline

  datatype Appended = Appended(ok: bool, stages: seq<Stage>, nextSlot: Slot)

  /** Result of `append_two_shaders`: the scratch slot holding child 0's output, or failure. */
  datatype TwoShaders = TwoShaders(res0: Option<Slot>, stages: seq<Stage>, nextSlot: Slot)

  /** Whether every leaf of the tree can append its stages (a null child always can). */
  predicate RasterSupported(s: Shader) {
    match s
    case Null => true
    case ColorShader(_, _) => true
    case Leaf(_, _, rasterOk, _) => rasterOk
    case Blend(_, _, dst, src) => RasterSupported(dst) && RasterSupported(src)
    case Lerp(_, _, dst, src) => RasterSupported(dst) && RasterSupported(src)
  }

  /** A stage touches scratch only inside [lo, hi). */
  predicate SlotWithin(st: Stage, lo: Slot, hi: Slot) {
    match st
    case StoreSrc(k) => lo <= k < hi
    case LoadDst(k) => lo <= k < hi
    case _ => true
  }

  predicate SlotsWithin(stages: seq<Stage>, lo: Slot, hi: Slot) {
    forall i | 0 <= i < |stages| :: SlotWithin(stages[i], lo, hi)
  }

  /** A slot outside [lo, hi) is neither stored to nor loaded from. */
  lemma SlotOutsideAbsent(stages: seq<Stage>, lo: Slot, hi: Slot, k: Slot)
    requires SlotsWithin(stages, lo, hi) && (k < lo || hi <= k)
    ensures StoreSrc(k) !in stages && LoadDst(k) !in stages
  {
  }

  /** Slot bounds survive concatenation. */
  lemma SlotsWithinConcat(a: seq<Stage>, b: seq<Stage>, lo: Slot, hi: Slot)
    requires SlotsWithin(a, lo, hi) && SlotsWithin(b, lo, hi)
    ensures SlotsWithin(a + b, lo, hi)
  {
  }

  /** append_shader_or_paint: a present child appends its own stages (and may fail);
      a null child becomes one constant-colour stage carrying the premultiplied paint colour. */
  function AppendShaderOrPaint(s: Shader, paint: Color4f, slot0: Slot): (r: Appended)
    ensures r.ok <==> RasterSupported(s)
    ensures slot0 <= r.nextSlot && SlotsWithin(r.stages, slot0, r.nextSlot)
    ensures s.Null? ==> r == Appended(true, [ConstantColor(Premul(paint))], slot0)
    ensures !s.Null? ==> r == AppendStages(s, paint, slot0)
    decreases Size(s), 3
  {
    if s.Null? then Appended(true, [ConstantColor(Premul(paint))], slot0)
    else AppendStages(s, paint, slot0)
  }

  /** SkShaderBase::appendStages, dispatched on the kind of shader. The leaves are opaque:
      a colour shader always succeeds, another leaf succeeds as its flag says. */
  function AppendStages(s: Shader, paint: Color4f, slot0: Slot): (r: Appended)
    requires !s.Null?
    ensures r.ok <==> RasterSupported(s)
    ensures slot0 <= r.nextSlot && SlotsWithin(r.stages, slot0, r.nextSlot)
    ensures s.ColorShader? ==> r == Appended(true, [ColorStage(s.color)], slot0)
    ensures s.Leaf? ==> r.stages == (if s.rasterOk then [LeafStage(s.kind)] else []) && r.nextSlot == slot0
    ensures s.Blend? ==> r == BlendAppendStages(s, paint, slot0)
    ensures s.Lerp? ==> r == LerpAppendStages(s, paint, slot0)
    decreases Size(s), 2
  {
    match s
    case ColorShader(_, c) => Appended(true, [ColorStage(c)], slot0)
    case Leaf(_, k, rasterOk, _) =>
      if rasterOk then Appended(true, [LeafStage(k)], slot0) else Appended(false, [], slot0)
    case Blend(_, _, _, _) => BlendAppendStages(s, paint, slot0)
    case Lerp(_, _, _, _) => LerpAppendStages(s, paint, slot0)
  }

  /** append_two_shaders: reserves the scratch slot first, appends child 0, `store_src` into
      the slot, then child 1; fails as soon as a child fails. */
  function AppendTwoShaders(s0: Shader, s1: Shader, paint: Color4f, slot0: Slot): (r: TwoShaders)
    ensures r.res0.Some? <==> RasterSupported(s0) && RasterSupported(s1)
    ensures r.res0.Some? ==> r.res0.value == slot0
    ensures slot0 < r.nextSlot && SlotsWithin(r.stages, slot0, r.nextSlot)
    ensures LoadDst(slot0) !in r.stages
    ensures !RasterSupported(s0) ==> StoreSrc(slot0) !in r.stages
    ensures !RasterSupported(s0) ==> r.stages == AppendShaderOrPaint(s0, paint, slot0 + 1).stages
    ensures var c0 := AppendShaderOrPaint(s0, paint, slot0 + 1);
            c0.ok ==> r.stages == c0.stages + [StoreSrc(slot0)]
                                 + AppendShaderOrPaint(s1, paint, c0.nextSlot).stages
    decreases Size(s0) + Size(s1), 4
  {
    var c0 := AppendShaderOrPaint(s0, paint, slot0 + 1);
    SlotOutsideAbsent(c0.stages, slot0 + 1, c0.nextSlot, slot0);
    if !c0.ok then
      TwoShaders(None, c0.stages, c0.nextSlot)
    else
      var c1 := AppendShaderOrPaint(s1, paint, c0.nextSlot);
      SlotOutsideAbsent(c1.stages, c0.nextSlot, c1.nextSlot, slot0);
      var stages := c0.stages + [StoreSrc(slot0)] + c1.stages;
      SlotsWithinConcat(c0.stages + [StoreSrc(slot0)], c1.stages, slot0, c1.nextSlot);
      TwoShaders(if c1.ok then Some(slot0) else None, stages, c1.nextSlot)
  }

  /** SkShader_Blend::onAppendStages: on success of the helper, `load_dst` from the slot
      followed by the blend mode's stages; on failure nothing more. */
  function BlendAppendStages(s: Shader, paint: Color4f, slot0: Slot): (r: Appended)
    requires s.Blend?
    ensures r.ok <==> RasterSupported(s)
    ensures slot0 <= r.nextSlot && SlotsWithin(r.stages, slot0, r.nextSlot)
    ensures var two := AppendTwoShaders(s.dst, s.src, paint, slot0);
            if r.ok then r.stages == two.stages + [LoadDst(slot0), BlendStages(s.mode)]
            else r.stages == two.stages && LoadDst(slot0) !in r.stages
    decreases Size(s), 1
  {
    var two := AppendTwoShaders(s.dst, s.src, paint, slot0);
    if two.res0.None? then Appended(false, two.stages, two.nextSlot)
    else Appended(true, two.stages + [LoadDst(two.res0.value), BlendStages(s.mode)], two.nextSlot)
  }

  /** SkShader_Lerp::onAppendStages: on success of the helper, `load_dst` from the slot
      followed by `lerp_1_float` with the stored weight; on failure nothing more. */
  function LerpAppendStages(s: Shader, paint: Color4f, slot0: Slot): (r: Appended)
    requires s.Lerp?
    ensures r.ok <==> RasterSupported(s)
    ensures slot0 <= r.nextSlot && SlotsWithin(r.stages, slot0, r.nextSlot)
    ensures var two := AppendTwoShaders(s.dst, s.src, paint, slot0);
            if r.ok then r.stages == two.stages + [LoadDst(slot0), Lerp1Float(s.weight)]
            else r.stages == two.stages && LoadDst(slot0) !in r.stages
    decreases Size(s), 1
  {
    var two := AppendTwoShaders(s.dst, s.src, paint, slot0);
    if two.res0.None? then Appended(false, two.stages, two.nextSlot)
    else Appended(true, two.stages + [LoadDst(two.res0.value), Lerp1Float(s.weight)], two.nextSlot)
  }

  /** After append_two_shaders succeeds, running its stages leaves child 1's colour in the
      current registers and child 0's colour in the reserved slot, and every older slot
      untouched: "current = source, saved = destination" for the merge stage that follows. */
  lemma {:induction false} TwoShadersMeaning(s0: Shader, s1: Shader, paint: Color4f, slot0: Slot, m: Machine)
    requires AppendTwoShaders(s0, s1, paint, slot0).res0.Some?
    ensures var out := Run(m, AppendTwoShaders(s0, s1, paint, slot0).stages);
            && out.Some?
            && out.value.src == Meaning(s1, paint)
            && slot0 in out.value.scratch && out.value.scratch[slot0] == Meaning(s0, paint)
            && KeepsScratchBelow(m, out.value, slot0)
    decreases Size(s0) + Size(s1), 2
  {
    var c0 := AppendShaderOrPaint(s0, paint, slot0 + 1);
    var c1 := AppendShaderOrPaint(s1, paint, c0.nextSlot);
    AppendShaderOrPaintMeaning(s0, paint, slot0 + 1, m);
    var m1 := Run(m, c0.stages).value;
    var m2 := m1.(scratch := m1.scratch[slot0 := m1.src]);
    assert Run(m1, [StoreSrc(slot0)]) == Some(m2);
    AppendShaderOrPaintMeaning(s1, paint, c0.nextSlot, m2);
    RunConcat(m, c0.stages, [StoreSrc(slot0)]);
    RunConcat(m, c0.stages + [StoreSrc(slot0)], c1.stages);
  }

  /** Whatever a successful append_shader_or_paint appended computes the child's colour
      (the paint colour for a null child), from any machine state, without disturbing
      scratch that was allocated before it. */
  lemma {:induction false} AppendShaderOrPaintMeaning(s: Shader, paint: Color4f, slot0: Slot, m: Machine)
    requires AppendShaderOrPaint(s, paint, slot0).ok
    ensures var out := Run(m, AppendShaderOrPaint(s, paint, slot0).stages);
            out.Some? && out.value.src == Meaning(s, paint) && KeepsScratchBelow(m, out.value, slot0)
    decreases Size(s), 1
  {
    if !s.Null? {
      AppendStagesMeaning(s, paint, slot0, m);
    }
  }

  /** The same for a present shader, through the virtual dispatch; for the two combinators
      the merge stage combines the destination's colour with the source's, in that order. */
  lemma {:induction false} AppendStagesMeaning(s: Shader, paint: Color4f, slot0: Slot, m: Machine)
    requires !s.Null? && AppendStages(s, paint, slot0).ok
    ensures var out := Run(m, AppendStages(s, paint, slot0).stages);
            out.Some? && out.value.src == Meaning(s, paint) && KeepsScratchBelow(m, out.value, slot0)
    decreases Size(s), 0
  {
    match s
    case ColorShader(_, _) =>
    case Leaf(_, _, _, _) =>
    case Blend(_, mode, dst, src) =>
      var two := AppendTwoShaders(dst, src, paint, slot0);
      assert AppendStages(s, paint, slot0).stages == two.stages + [LoadDst(slot0), BlendStages(mode)];
      TwoShadersMeaning(dst, src, paint, slot0, m);
      RunLoadThenMerge(Run(m, two.stages).value, slot0, BlendStages(mode));
      RunConcat(m, two.stages, [LoadDst(slot0), BlendStages(mode)]);
    case Lerp(_, w, dst, src) =>
      var two := AppendTwoShaders(dst, src, paint, slot0);
      assert AppendStages(s, paint, slot0).stages == two.stages + [LoadDst(slot0), Lerp1Float(w)];
      TwoShadersMeaning(dst, src, paint, slot0, m);
      RunLoadThenMerge(Run(m, two.stages).value, slot0, Lerp1Float(w));
      RunConcat(m, two.stages, [LoadDst(slot0), Lerp1Float(w)]);
  }
}
