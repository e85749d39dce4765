/**
 * The serialization codec: SkShader_Blend / SkShader_Lerp `flatten` and
 * `CreateProc`, with the buffer they use reduced to a sequence of tokens.
 *
 * `WriteFlattenable` stands for SkWriteBuffer::writeFlattenable (a tag naming
 * the shader's factory, then the shader's own `flatten`, or a null marker) and
 * `ReadShader` for SkReadBuffer::readShader (read the tag, dispatch to the
 * factory's `CreateProc`). The solid colour shader and the generic leaf are
 * one token each. The read buffer has the validity flag of SkReadBuffer: once
 * tripped it stays tripped, and every later read yields a default value (0,
 * or null) without consuming input. Reading a token of the wrong kind, or
 * reading past the end, trips it. Every object a `CreateProc` allocates takes
 * the reader's next identity.
 */
module Codec {
  import opened Shaders
  import opened Compose

  /** A signed 32-bit integer, as written by SkWriteBuffer::write32. */
  type I32 = v: int | -0x8000_0000 <= v < 0x8000_0000

  datatype Token =
    | NullTag                                           // writeFlattenable(nullptr)
    | ColorTag(color: Color)                            // a flattened solid colour shader
    | LeafTag(kind: nat, rasterOk: bool, gpuOk: bool)   // a flattened other leaf shader
    | BlendTag                                          // factory tag of SkShader_Blend
    | LerpTag                                           // factory tag of SkShader_Lerp
    | Int32(i: I32)                                     // write32
    | Float(f: Scalar)                                  // writeScalar

  /** The conversion `(unsigned)` of a 32-bit int: two's-complement reinterpretation. */
  function Unsigned32(v: I32): (u: nat)
    ensures u < 0x1_0000_0000
    ensures 0 <= v ==> u == v
    ensures v < 0 ==> u > LastMode
  {
    if v < 0 then v + 0x1_0000_0000 else v
  }

  // ---------------------------------------------------------------- writing

  /** SkWriteBuffer::writeFlattenable applied to a shader reference. */
  function WriteFlattenable(s: Shader): seq<Token>
    decreases s, 1
  {
    match s
    case Null => [NullTag]
    case ColorShader(_, c) => [ColorTag(c)]
    case Leaf(_, k, r, g) => [LeafTag(k, r, g)]
    case Blend(_, _, _, _) => [BlendTag] + BlendFlatten(s)
    case Lerp(_, _, _, _) => [LerpTag] + LerpFlatten(s)
  }

  /** SkShader_Blend::flatten: dst, src, then the mode as a 32-bit int. */
  function BlendFlatten(s: Shader): seq<Token>
    requires s.Blend?
    decreases s, 0
  {
    WriteFlattenable(s.dst) + WriteFlattenable(s.src) + [Int32(s.mode)]
  }

  /** SkShader_Lerp::flatten: dst, src, then the weight as a scalar. */
  function LerpFlatten(s: Shader): seq<Token>
    requires s.Lerp?
    decreases s, 0
  {
    WriteFlattenable(s.dst) + WriteFlattenable(s.src) + [Float(Num(s.weight))]
  }

  // ---------------------------------------------------------------- reading

  datatype Reader = Reader(toks: seq<Token>, valid: bool, nextId: Id)

  /** SkReadBuffer::read32. */
  function Read32(r: Reader): (I32, Reader) {
    if !r.valid then (0, r)
    else if |r.toks| > 0 && r.toks[0].Int32? then (r.toks[0].i, r.(toks := r.toks[1..]))
    else (0, r.(valid := false))
  }

  /** SkReadBuffer::readScalar. */
  function ReadScalar(r: Reader): (Scalar, Reader) {
    if !r.valid then (Num(0.0), r)
    else if |r.toks| > 0 && r.toks[0].Float? then (r.toks[0].f, r.(toks := r.toks[1..]))
    else (Num(0.0), r.(valid := false))
  }

  /** SkReadBuffer::validate: trips the flag when the condition fails, and answers whether
      the buffer is still valid. */
  function Validate(r: Reader, condition: bool): (bool, Reader) {
    (r.valid && condition, r.(valid := r.valid && condition))
  }

  /** SkReadBuffer::readShader: a null marker, a leaf, or a combinator's CreateProc.
      Whatever the input, the result satisfies the class invariants, because combinators
      are only ever rebuilt through the factories. */
  function ReadShader(r: Reader): (res: (Shader, Reader))
    ensures |res.1.toks| <= |r.toks| && r.nextId <= res.1.nextId
    ensures res.0.Null? || r.nextId <= res.0.id < res.1.nextId
    ensures Valid(res.0)
    ensures !r.valid ==> res == (Null, r)
    decreases |r.toks|, 0
  {
    if !r.valid then (Null, r)
    else if |r.toks| == 0 then (Null, r.(valid := false))
    else
      var rest := r.(toks := r.toks[1..]);
      match r.toks[0]
      case NullTag => (Null, rest)
      case ColorTag(c) => (ColorShader(r.nextId, c), rest.(nextId := r.nextId + 1))
      case LeafTag(k, ro, go) => (Leaf(r.nextId, k, ro, go), rest.(nextId := r.nextId + 1))
      case BlendTag => BlendCreateProc(rest)
      case LerpTag => LerpCreateProc(rest)
      case _ => (Null, r.(valid := false))
  }

  /** SkShader_Blend::CreateProc: reads dst, src and the mode; a mode above kLastMode (after
      the cast to unsigned) trips the buffer and yields null before any cast or allocation;
      otherwise the result is whatever MakeBlend makes of it. */
  function BlendCreateProc(r: Reader): (res: (Shader, Reader))
    ensures |res.1.toks| <= |r.toks| && r.nextId <= res.1.nextId
    ensures res.0.Null? || r.nextId <= res.0.id < res.1.nextId
    ensures Valid(res.0)
    ensures !res.1.valid ==> res.0.Null?
    ensures !r.valid ==> !res.1.valid
    ensures var (_, r1) := ReadShader(r);
            var (_, r2) := ReadShader(r1);
            var (v, _) := Read32(r2);
            Unsigned32(v) > LastMode ==> res.0.Null? && !res.1.valid
    decreases |r.toks|, 1
  {
    var (dst, r1) := ReadShader(r);
    var (src, r2) := ReadShader(r1);
    var (v, r3) := Read32(r2);
    var mode := Unsigned32(v);
    var (ok, r4) := Validate(r3, mode <= LastMode);
    if !ok then (Null, r4)
    else (MakeBlend(mode, dst, src, r4.nextId), r4.(nextId := r4.nextId + 1))
  }

  /** SkShader_Lerp::CreateProc: reads dst, src and the weight; a buffer tripped by any of
      these reads yields null without calling the factory; otherwise the result is whatever
      MakeLerp makes of it (null for a NaN weight). */
  function LerpCreateProc(r: Reader): (res: (Shader, Reader))
    ensures |res.1.toks| <= |r.toks| && r.nextId <= res.1.nextId
    ensures res.0.Null? || r.nextId <= res.0.id < res.1.nextId
    ensures Valid(res.0)
    ensures !res.1.valid ==> res.0.Null?
    ensures !r.valid ==> !res.1.valid
    decreases |r.toks|, 1
  {
    var (dst, r1) := ReadShader(r);
    var (src, r2) := ReadShader(r1);
    var (t, r3) := ReadScalar(r2);
    if r3.valid then (MakeLerp(t, dst, src, r3.nextId), r3.(nextId := r3.nextId + 1))
    else (Null, r3)
  }

  // ---------------------------------------------------------------- round trips

  /** Reading back what writeFlattenable wrote for a shader satisfying the class invariants
      consumes exactly those tokens, leaves the buffer valid, and rebuilds the same
      composition out of new objects. */
  lemma {:induction false} ReadShaderRoundTrip(s: Shader, rest: seq<Token>, n: Id)
    requires Valid(s)
    ensures var (d, r') := ReadShader(Reader(WriteFlattenable(s) + rest, true, n));
            Erase(d) == Erase(s) && r'.toks == rest && r'.valid
    decreases Size(s), 1
  {
    var toks := WriteFlattenable(s) + rest;
    match s
    case Null => assert toks[1..] == rest;
    case ColorShader(_, _) => assert toks[1..] == rest;
    case Leaf(_, _, _, _) => assert toks[1..] == rest;
    case Blend(_, mode, dst, src) =>
      assert toks[1..] == WriteFlattenable(dst) + WriteFlattenable(src) + [Int32(mode)] + rest;
      BlendCreateProcReads(dst, src, mode, rest, n);
    case Lerp(_, w, dst, src) =>
      assert toks[1..] == WriteFlattenable(dst) + WriteFlattenable(src) + [Float(Num(w))] + rest;
      LerpCreateProcReads(dst, src, Num(w), rest, n);
  }

  /** SkShader_Blend::CreateProc on a stream holding two flattened children and a mode
      word: an out-of-range word (negative ones included, through the unsigned cast) is
      rejected with a tripped buffer; any other word is handed to MakeBlend, so kClear,
      kDst and kSrc decode to their simplified forms and every other mode to a blend node
      equal to the one flattened. */
  lemma {:induction false} BlendCreateProcReads(dst: Shader, src: Shader, v: I32, rest: seq<Token>, n: Id)
    requires Valid(dst) && Valid(src)
    ensures var (d, r') := BlendCreateProc(Reader(WriteFlattenable(dst) + WriteFlattenable(src) + [Int32(v)] + rest, true, n));
            if Unsigned32(v) > LastMode then d == Null && !r'.valid
            else r'.valid && r'.toks == rest && Erase(d) == MakeBlend(v, Erase(dst), Erase(src), 0)
    decreases Size(dst) + Size(src), 2
  {
    var toks := WriteFlattenable(dst) + WriteFlattenable(src) + [Int32(v)] + rest;
    var tail := WriteFlattenable(src) + ([Int32(v)] + rest);
    assert toks == WriteFlattenable(dst) + tail;
    ReadShaderRoundTrip(dst, tail, n);
    var (d0, r1) := ReadShader(Reader(toks, true, n));
    assert r1 == Reader(tail, true, r1.nextId);
    ReadShaderRoundTrip(src, [Int32(v)] + rest, r1.nextId);
  }

  /** SkShader_Lerp::CreateProc on a stream holding two flattened children and a weight:
      the buffer stays valid and the factory decides. A NaN weight gives null; two null
      children give null (they are the same pointer); otherwise the children read back are
      distinct new objects, so the weight alone picks dst, src or a new lerp node. */
  lemma {:induction false} LerpCreateProcReads(dst: Shader, src: Shader, t: Scalar, rest: seq<Token>, n: Id)
    requires Valid(dst) && Valid(src)
    ensures var (d, r') := LerpCreateProc(Reader(WriteFlattenable(dst) + WriteFlattenable(src) + [Float(t)] + rest, true, n));
            && r'.valid && r'.toks == rest
            && (t.NaN? ==> d == Null)
            && (t.Num? && dst.Null? && src.Null? ==> d == Null)
            && (t.Num? && !(dst.Null? && src.Null?) ==>
                  && (t.v <= 0.0 ==> Erase(d) == Erase(dst))
                  && (t.v >= 1.0 ==> Erase(d) == Erase(src))
                  && (0.0 < t.v < 1.0 ==> Erase(d) == Lerp(0, t.v, Erase(dst), Erase(src))))
    decreases Size(dst) + Size(src), 2
  {
    var toks := WriteFlattenable(dst) + WriteFlattenable(src) + [Float(t)] + rest;
    var tail := WriteFlattenable(src) + ([Float(t)] + rest);
    assert toks == WriteFlattenable(dst) + tail;
    ReadShaderRoundTrip(dst, tail, n);
    var (d0, r1) := ReadShader(Reader(toks, true, n));
    assert r1 == Reader(tail, true, r1.nextId);
    ReadShaderRoundTrip(src, [Float(t)] + rest, r1.nextId);
    var (s0, r2) := ReadShader(r1);
    assert d0.Null? == dst.Null? && s0.Null? == src.Null?;
    assert !(dst.Null? && src.Null?) ==> !SameObject(d0, s0);
  }

  /** SkShader_Blend::flatten followed by SkShader_Blend::CreateProc gives back an equal
      blend node. */
  lemma BlendFlattenRoundTrip(s: Shader, rest: seq<Token>, n: Id)
    requires s.Blend? && Valid(s)
    ensures var (d, r') := BlendCreateProc(Reader(BlendFlatten(s) + rest, true, n));
            d.Blend? && Erase(d) == Erase(s) && r'.valid && r'.toks == rest
  {
    BlendCreateProcReads(s.dst, s.src, s.mode, rest, n);
  }

  /** SkShader_Lerp::flatten followed by SkShader_Lerp::CreateProc gives back an equal
      lerp node: same weight, same children, and the children are distinct objects. */
  lemma LerpFlattenRoundTrip(s: Shader, rest: seq<Token>, n: Id)
    requires s.Lerp? && Valid(s)
    ensures var (d, r') := LerpCreateProc(Reader(LerpFlatten(s) + rest, true, n));
            d.Lerp? && Erase(d) == Erase(s) && !SameObject(d.dst, d.src) && r'.valid && r'.toks == rest
  {
    LerpCreateProcReads(s.dst, s.src, Num(s.weight), rest, n);
  }
}
