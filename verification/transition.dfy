/**
 * The transition orchestrator of `gl/gl.js` (class `GL`) as a state machine
 * over values. `GLState` holds every field the class updates; each operation
 * is a function from the old state, the Swiper fields it reads (`Env`) and its
 * arguments to the new state. The class in module Carousel runs the same steps
 * imperatively and is proved to agree with these functions.
 *
 * Modelling choices:
 * - textures are opaque ids with the pixel size of their image;
 * - a material is the record of its uniform cells (`texture1`, `texture2`,
 *   `progress`, `resolution`); `addObjects` replaces it by a fresh one, and
 *   `generation` counts those replacements so that an animation started on a
 *   material that has since been replaced writes to that dead material only;
 * - a JavaScript `TypeError` (destructuring an `undefined` shader, reading
 *   `textures[0]` of an empty list) is `Run.ok == false`: the caller stops
 *   where the source would stop;
 * - `Math.random()` is `rand` in [0, 1), and the cosine ease of one animation
 *   frame is `ease` in [0, 1].
 */
module Transition {
  import opened Wrappers
  import opened Shaders
  import opened Slides

  type PosReal = r: real | r > 0.0 witness 1.0

  /** A loaded slide texture: an opaque id and its image's pixel size. */
  datatype Texture = Texture(id: nat, imageWidth: PosReal, imageHeight: PosReal)

  datatype Vec4 = Vec4(x: real, y: real, z: real, w: real)

  /** The uniform cells of one material that the orchestrator writes. */
  datatype Uniforms = Uniforms(texture1: Option<Texture>, texture2: Option<Texture>, progress: real, resolution: Vec4)

  /** What the completion callback of the eased animation closes over. */
  datatype Callback = Callback(fromTexture: Option<Texture>, newTexture: Option<Texture>, progress: real)

  /**
   * A scheduled `animate` closure: the material generation it writes to, its
   * start value, its target, its direction fixed at start (`'next'` is
   * `rising`) and its completion callback.
   */
  datatype Animation = Animation(generation: nat, start: real, target: real, rising: bool, done: Callback)

  /** The arguments the deferred `onInit` closure replays. */
  datatype Replay = Replay(from: int, to: int, progress: real, needsTransitionDuration: bool)

  datatype GLState = GLState(
    shader: ShaderDef,
    textures: seq<Texture>,
    loading: bool,                  // the texture promise of `init` has not resolved yet
    initialized: bool,
    destroyed: bool,
    preventShaderReplace: bool,
    guardReleasePending: bool,      // the frame callback that clears `preventShaderReplace` is scheduled
    onInit: Option<Replay>,
    replay: Option<Replay>,         // the frame callback scheduled by `onInit` is pending
    material: Option<Uniforms>,
    vertexMaterial: Option<Uniforms>,
    generation: nat,
    animation: Option<Animation>,   // `animateUniformFrame` is pending
    width: real,
    height: real)

  /** What the orchestrator reads outside itself: its options and the Swiper's fields. */
  datatype Env = Env(
    table: ShaderTable,
    optsShader: ShaderOption,       // `opts.shader`, fixed at construction
    shaderPerSlide: bool,
    glShader: ShaderOption,         // `swiper.params.gl.shader`
    loop: bool,
    realIndex: nat,
    activeIndex: nat,
    slides: seq<Slide>,
    width: PosReal,
    height: PosReal,
    glDestroyed: bool)

  /** A new state, and whether the operation ran to its end rather than throwing. */
  datatype Run = Run(state: GLState, ok: bool)

  predicate WellFormed(a: Animation) {
    a.rising == (a.target > a.start)
  }

  /** The scheduling part of the invariant: a pending animation is well formed, and the guard is pending exactly while it is set. */
  predicate Scheduled(s: GLState) {
    && (s.animation.Some? ==> WellFormed(s.animation.value))
    && (s.guardReleasePending <==> s.preventShaderReplace)
  }

  /** The invariant every operation keeps: the materials exist wherever the source dereferences them. */
  predicate Inv(s: GLState) {
    && Scheduled(s)
    && (s.initialized ==> s.material.Some?)
    && (s.material.Some? && s.shader.hasVertex ==> s.vertexMaterial.Some?)
    && (s.animation.Some? ==> s.material.Some?)
  }

  /** The two states agree on everything but the materials, the shader, the recorded size and the animation. */
  predicate SameControl(a: GLState, b: GLState) {
    && a.textures == b.textures && a.loading == b.loading
    && a.initialized == b.initialized && a.destroyed == b.destroyed
    && a.preventShaderReplace == b.preventShaderReplace && a.guardReleasePending == b.guardReleasePending
    && a.onInit == b.onInit && a.replay == b.replay
  }

  /** The state `new GL(opts)` leaves once its synchronous part has run. */
  function Initial(shader: ShaderDef, width: real, height: real): (s: GLState)
    ensures Inv(s) && !s.initialized && !s.destroyed && s.loading
  {
    GLState(shader, [], true, false, false, false, false, None, None, None, None, 0, None, width, height)
  }

  /** `this.textures[i]`: `undefined` outside the list. */
  function TexAt(ts: seq<Texture>, i: int): (r: Option<Texture>)
    ensures r.Some? <==> 0 <= i < |ts|
    ensures r.Some? ==> r.value == ts[i]
  {
    if 0 <= i < |ts| then Some(ts[i]) else None
  }

  /** `Math.abs`. */
  function Abs(x: real): (r: real)
    ensures r >= 0.0 && (r == x || r == -x)
    ensures x >= 0.0 ==> r == x
  {
    if x < 0.0 then -x else x
  }

  /** The index `getRandomShader` reads: `realIndex` in loop mode, else `activeIndex`. */
  function SlideIndex(env: Env): (i: nat)
    ensures env.loop ==> i == env.realIndex
    ensures !env.loop ==> i == env.activeIndex
  {
    if env.loop then env.realIndex else env.activeIndex
  }

  /** The uniform cells of `createMaterial()`. */
  function FreshUniforms(ts: seq<Texture>): (u: Uniforms)
    ensures u.texture1 == TexAt(ts, 0) && u.texture2 == TexAt(ts, 1) && u.progress == 0.0
  {
    Uniforms(TexAt(ts, 0), TexAt(ts, 1), 0.0, Vec4(0.0, 0.0, 0.0, 0.0))
  }

  function WithProgress(s: GLState, v: real): (r: GLState)
    requires s.material.Some?
    ensures r.material.Some? && r.material.value.progress == v
  {
    s.(material := Some(s.material.value.(progress := v)))
  }

  function WithTextures(s: GLState, t1: Option<Texture>, t2: Option<Texture>): (r: GLState)
    requires s.material.Some?
    ensures r.material.Some? && r.material.value.texture1 == t1 && r.material.value.texture2 == t2
  {
    s.(material := Some(s.material.value.(texture1 := t1, texture2 := t2)))
  }

  /**
   * `addObjects`: a fresh material, and a fresh vertex material whose
   * `texture1` is the second texture when the shader has a vertex stage.
   */
  function AddObjects(s: GLState): (r: GLState)
    requires Scheduled(s)
    ensures Inv(r)
    ensures r.material == Some(FreshUniforms(s.textures))
    ensures r.generation == s.generation + 1
    ensures s.shader.hasVertex ==> r.vertexMaterial == Some(FreshUniforms(s.textures).(texture1 := TexAt(s.textures, 1)))
    ensures !s.shader.hasVertex ==> r.vertexMaterial == s.vertexMaterial
    ensures r.(material := s.material, vertexMaterial := s.vertexMaterial, generation := s.generation) == s
  {
    var m := FreshUniforms(s.textures);
    s.(material := Some(m),
       vertexMaterial := if s.shader.hasVertex then Some(m.(texture1 := TexAt(s.textures, 1))) else s.vertexMaterial,
       generation := s.generation + 1)
  }

  function Min(a: real, b: real): real {
    if a <= b then a else b
  }

  /**
   * The cover-fit ratios `(a1, a2)` of `resize` for a surface of `width` by
   * `height` and an image of aspect `imageAspect` (height over width).
   */
  function CoverRatios(width: PosReal, height: PosReal, imageAspect: PosReal): (r: (real, real))
    ensures r.0 == Min(1.0, width / height * imageAspect)
    ensures r.1 == Min(1.0, height / width / imageAspect)
  {
    RatioOrder(width, height, imageAspect);
    if height / width > imageAspect then (width / height * imageAspect, 1.0)
    else (1.0, height / width / imageAspect)
  }

  /** Both ratios compare with 1 as the surface aspect compares with the image aspect. */
  lemma RatioOrder(width: PosReal, height: PosReal, imageAspect: PosReal)
    ensures width / height * imageAspect < 1.0 <==> height / width > imageAspect
    ensures width / height * imageAspect == 1.0 <==> height / width == imageAspect
    ensures height / width / imageAspect > 1.0 <==> height / width > imageAspect
    ensures height / width / imageAspect == 1.0 <==> height / width == imageAspect
  {
    var q := height / width;
    assert q * width == height;
    assert width / height * imageAspect == imageAspect / q by {
      assert (width / height) * q == 1.0;
    }
    DivCompare(imageAspect, q);
    DivCompare(q, imageAspect);
  }

  /** For positive x, y: x / y compares with 1 as x compares with y. */
  lemma DivCompare(x: PosReal, y: PosReal)
    ensures x / y < 1.0 <==> x < y
    ensures x / y == 1.0 <==> x == y
    ensures x / y > 1.0 <==> x > y
  {
    var d := x / y;
    assert d * y == x;
    if d < 1.0 {
      var e := 1.0 - d;
      assert e * y > 0.0;
      assert e * y + x == y;
    } else if d > 1.0 {
      var e := d - 1.0;
      assert e * y > 0.0;
      assert e * y + y == x;
    }
  }

  /**
   * The image is covered without distortion: one ratio is 1, both lie in
   * (0, 1], both are 1 exactly when the surface has the image's aspect, and
   * `a1 / a2` is the image aspect scaled by the surface's width over height.
   */
  lemma CoverFit(width: PosReal, height: PosReal, imageAspect: PosReal)
    ensures var (a1, a2) := CoverRatios(width, height, imageAspect);
            && (a1 == 1.0 || a2 == 1.0)
            && 0.0 < a1 <= 1.0 && 0.0 < a2 <= 1.0
            && (a1 == 1.0 && a2 == 1.0 <==> height / width == imageAspect)
            && a1 * height == a2 * imageAspect * width
  {
    var (a1, a2) := CoverRatios(width, height, imageAspect);
    RatioOrder(width, height, imageAspect);
    if height / width > imageAspect {
      assert a1 * height == imageAspect * width;
    } else {
      assert a2 * imageAspect * width == height;
    }
  }

  function WithResolution(m: Option<Uniforms>, v: Vec4): Option<Uniforms> {
    if m.Some? then Some(m.value.(resolution := v)) else m
  }

  /**
   * `resize`: nothing unless initialized and not destroyed; otherwise record
   * the Swiper's size, then (throwing when there is no first texture) write
   * `(width, height, a1, a2)` to the resolution of the material, and of the
   * vertex material when the shader has a vertex stage.
   */
  function Resize(s: GLState, env: Env): (r: Run)
    requires Inv(s)
    ensures Inv(r.state)
    ensures SameControl(s, r.state) && r.state.shader == s.shader && r.state.generation == s.generation
    ensures r.state.animation == s.animation
    ensures r.state.material.Some? <==> s.material.Some?
    ensures s.material.Some? ==> r.state.material.value.(resolution := s.material.value.resolution) == s.material.value
    ensures r.state.vertexMaterial.Some? <==> s.vertexMaterial.Some?
    ensures s.vertexMaterial.Some? ==>
              r.state.vertexMaterial.value.(resolution := s.vertexMaterial.value.resolution) == s.vertexMaterial.value
    ensures !s.initialized || s.destroyed ==> r == Run(s, true)
    ensures s.initialized && !s.destroyed ==> (r.ok <==> |s.textures| > 0)
    ensures s.initialized && !s.destroyed ==> r.state.width == env.width && r.state.height == env.height
    ensures s.initialized && !s.destroyed && r.ok ==>
              var image := s.textures[0];
              var (a1, a2) := CoverRatios(env.width, env.height, image.imageHeight / image.imageWidth);
              && r.state.material.Some?
              && r.state.material.value == s.material.value.(resolution := Vec4(env.width, env.height, a1, a2))
              && (s.shader.hasVertex ==> r.state.vertexMaterial == Some(s.vertexMaterial.value.(resolution := Vec4(env.width, env.height, a1, a2))))
              && (!s.shader.hasVertex ==> r.state.vertexMaterial == s.vertexMaterial)
  {
    if !s.initialized || s.destroyed then Run(s, true)
    else
      var s1 := s.(width := env.width, height := env.height);
      if |s.textures| == 0 then Run(s1, false)
      else
        var image := s.textures[0];
        var (a1, a2) := CoverRatios(env.width, env.height, image.imageHeight / image.imageWidth);
        var v := Vec4(env.width, env.height, a1, a2);
        Run(s1.(material := WithResolution(s1.material, v),
                vertexMaterial := if s.shader.hasVertex then WithResolution(s1.vertexMaterial, v) else s1.vertexMaterial),
            true)
  }

  /** `replaceRandomShader`: a new pick from `opts.shader`, fresh materials, a resize. */
  function ReplaceRandomShader(s: GLState, env: Env, rand: real): (r: Run)
    requires Inv(s) && IsRandom(rand)
    ensures Inv(r.state)
    ensures SameControl(s, r.state) && r.state.animation == s.animation
    ensures var k := PickShader(env.table, env.optsShader, env.shaderPerSlide, SlideIndex(env), rand);
            && (k.None? ==> r == Run(s, false))
            && (k.Some? ==> r.state.shader == env.table.defs[k.value] && r.state.generation == s.generation + 1)
  {
    match PickShader(env.table, env.optsShader, env.shaderPerSlide, SlideIndex(env), rand)
    case None => Run(s, false)
    case Some(k) => Resize(AddObjects(s.(shader := env.table.defs[k])), env)
  }

  /** The completion callback passed to `animateUniform` by `setProgress`. */
  function Complete(s: GLState, env: Env, cb: Callback, rand: real): (r: Run)
    requires Inv(s) && s.material.Some? && IsRandom(rand)
    ensures Inv(r.state)
    ensures SameControl(s, r.state) && r.state.animation == s.animation
    ensures !IsRandomPool(env.glShader) ==> r.ok && r.state.shader == s.shader
  {
    var r1 :=
      if IsRandomPool(env.glShader) then
        var r0 := ReplaceRandomShader(s, env, rand);
        if r0.ok then Run(WithProgress(WithTextures(r0.state, cb.fromTexture, cb.newTexture), cb.progress), true) else r0
      else Run(s, true);
    if !r1.ok then r1
    else
      var s2 := r1.state;
      var s3 := if cb.progress == 1.0 then s2.(material := Some(s2.material.value.(texture1 := cb.newTexture))) else s2;
      Run(WithProgress(s3, 0.0), true)
  }

  /** `isOutOfBound`: the value has reached or crossed the target in the animation's direction. */
  predicate Reached(a: Animation, v: real): (r: bool)
    ensures v == a.target ==> r
    ensures WellFormed(a) && v != a.target && (a.rising ==> a.start <= v <= a.target) && (!a.rising ==> a.target <= v <= a.start)
            ==> !r
  {
    (a.rising && v >= a.target) || (!a.rising && v <= a.target)
  }

  /** The value one frame writes: the eased point between start and target, snapped to the target once it gets there. */
  function Eased(a: Animation, ease: real): (v: real)
    requires WellFormed(a) && 0.0 <= ease <= 1.0
    ensures a.rising ==> a.start <= v <= a.target
    ensures !a.rising ==> a.target <= v <= a.start
    ensures Reached(a, v) <==> v == a.target
    ensures ease == 1.0 ==> v == a.target
  {
    var current := Lerp(a.start, a.target, ease);
    if Reached(a, current) then a.target else current
  }

  /** `startPosition + easeProgress * (targetValue - startPosition)`: between start and target, the target at full ease. */
  function Lerp(start: real, target: real, ease: real): (c: real)
    requires 0.0 <= ease <= 1.0
    ensures target >= start ==> start <= c <= target
    ensures target <= start ==> target <= c <= start
    ensures ease == 1.0 ==> c == target
  {
    var c := start + ease * (target - start);
    assert (target >= start ==> start <= c <= target) && (target <= start ==> target <= c <= start) by {
      var d := target - start;
      var rest := 1.0 - ease;
      assert ease * d + rest * d == d;
      if d >= 0.0 {
        assert rest * d >= 0.0 && ease * d >= 0.0;
      } else {
        var e := -d;
        assert rest * e >= 0.0 && ease * e >= 0.0;
        assert rest * d == -(rest * e) && ease * d == -(ease * e);
      }
    }
    c
  }

  /**
   * One run of the `animate` closure: nothing when no frame is pending; when
   * destroyed, stop; otherwise write the eased value to the animated cell and
   * either stay scheduled or, at the target, stop and run the callback.
   */
  function Frame(s: GLState, env: Env, ease: real, rand: real): (r: Run)
    requires Inv(s) && 0.0 <= ease <= 1.0 && IsRandom(rand)
    ensures Inv(r.state)
    ensures SameControl(s, r.state)
    ensures !IsRandomPool(env.glShader) ==> r.state.shader == s.shader
  {
    match s.animation
    case None => Run(s, true)
    case Some(a) =>
      if s.destroyed then Run(s.(animation := None), true)
      else
        var v := Eased(a, ease);
        var s1 := if a.generation == s.generation then WithProgress(s, v) else s;
        if Reached(a, v) then Complete(s1.(animation := None), env, a.done, rand)
        else Run(s1, true)
  }

  /**
   * `animateUniform` on the progress cell: cancel the pending frame, fix the
   * start value and the direction, and run the first frame at once (whose
   * ease is 0).
   */
  function AnimateProgress(s: GLState, env: Env, target: real, cb: Callback, rand: real): (r: Run)
    requires Inv(s) && s.material.Some? && IsRandom(rand)
    ensures Inv(r.state)
    ensures SameControl(s, r.state)
    ensures !IsRandomPool(env.glShader) ==> r.state.shader == s.shader
  {
    var start := s.material.value.progress;
    var a := Animation(s.generation, start, target, target > start, cb);
    Frame(s.(animation := Some(a)), env, 0.0, rand)
  }

  /** The value the progress cell holds before the eased path animates it: the 0/1 flip. */
  function Flipped(current: real, progress: real): (v: real)
    ensures progress == 0.0 && current == 0.0 ==> v == 1.0
    ensures progress == 1.0 && current == 1.0 ==> v == 0.0
    ensures !(progress == 0.0 && current == 0.0) && !(progress == 1.0 && current == 1.0) ==> v == current
  {
    var v := if progress == 0.0 && current == 0.0 then 1.0 else current;
    if progress == 1.0 && v == 1.0 then 0.0 else v
  }

  /** The `(from, to)` pair after the loop-mode remapping through `data-swiper-slide-index`. */
  function Remap(env: Env, from: int, to: int): (r: (int, int))
    ensures !env.loop ==> r == (from, to)
    ensures !(0 <= from < |env.slides| && 0 <= to < |env.slides|) ==> r == (from, to)
    ensures env.loop && 0 <= from < |env.slides| && 0 <= to < |env.slides| ==>
              r == (env.slides[from].dataIndex, env.slides[to].dataIndex)
  {
    if env.loop && 0 <= from < |env.slides| && 0 <= to < |env.slides|
    then (env.slides[from].dataIndex, env.slides[to].dataIndex)
    else (from, to)
  }

  /**
   * The head of an initialized `setProgress`: the outgoing texture into
   * `texture1` of the material, the incoming one into `texture2`, or into
   * `texture1` of the vertex material when the shader has a vertex stage.
   */
  function AssignTextures(s: GLState, fromTexture: Option<Texture>, newTexture: Option<Texture>): (r: GLState)
    requires Inv(s) && s.material.Some?
    ensures Inv(r) && SameControl(s, r)
    ensures r.shader == s.shader && r.generation == s.generation && r.animation == s.animation
    ensures r.material == Some(s.material.value.(texture1 := fromTexture,
                                                 texture2 := if s.shader.hasVertex then s.material.value.texture2 else newTexture))
    ensures r.vertexMaterial == if s.shader.hasVertex then Some(s.vertexMaterial.value.(texture1 := newTexture)) else s.vertexMaterial
  {
    var m := s.material.value.(texture1 := fromTexture);
    if !s.shader.hasVertex then s.(material := Some(m.(texture2 := newTexture)))
    else s.(material := Some(m), vertexMaterial := Some(s.vertexMaterial.value.(texture1 := newTexture)))
  }

  /**
   * The `needShaderReplace` branch of `setProgress`: while guarded only the
   * progress is written; otherwise set the guard, schedule its release and,
   * for a random pool, swap the shader and put the textures back.
   */
  function ShaderReplaceStep(s: GLState, env: Env, fromTexture: Option<Texture>, newTexture: Option<Texture>,
                             progress: real, rand: real): (r: Run)
    requires Inv(s) && s.material.Some? && IsRandom(rand)
    ensures Inv(r.state)
    ensures r.state.preventShaderReplace
    ensures r.state.textures == s.textures && r.state.initialized == s.initialized && r.state.destroyed == s.destroyed
    ensures r.state.onInit == s.onInit && r.state.replay == s.replay
    ensures s.preventShaderReplace || !IsRandomPool(env.glShader) ==> r.ok && r.state.shader == s.shader
  {
    if s.preventShaderReplace then Run(WithProgress(s, Abs(progress)), true)
    else
      var s2 := s.(preventShaderReplace := true, guardReleasePending := true);
      if IsRandomPool(env.glShader) then SwapRandom(s2, env, fromTexture, newTexture, progress, rand)
      else Run(WithProgress(s2, Abs(progress)), true)
  }

  /** A random swap on a shader-replacement request: `replaceRandomShader`, then the textures and `|progress|` put back. */
  function SwapRandom(s: GLState, env: Env, fromTexture: Option<Texture>, newTexture: Option<Texture>,
                      progress: real, rand: real): (r: Run)
    requires Inv(s) && IsRandom(rand)
    ensures Inv(r.state) && SameControl(s, r.state)
  {
    var r0 := ReplaceRandomShader(s, env, rand);
    if r0.ok then Run(WithProgress(WithTextures(r0.state, fromTexture, newTexture), Abs(progress)), true)
    else r0
  }

  /**
   * The `needsTransitionDuration` branch of `setProgress`: flip the progress
   * cell, then animate it to `progress`.
   */
  function EasedStep(s: GLState, env: Env, fromTexture: Option<Texture>, newTexture: Option<Texture>,
                     progress: real, rand: real): (r: Run)
    requires Inv(s) && s.material.Some? && IsRandom(rand)
    ensures Inv(r.state) && SameControl(s, r.state)
    ensures !IsRandomPool(env.glShader) ==> r.state.shader == s.shader
  {
    var s2 := WithProgress(s, Flipped(s.material.value.progress, progress));
    AnimateProgress(s2, env, progress, Callback(fromTexture, newTexture, progress), rand)
  }

  /** `setProgress(from, to, progress, needsTransitionDuration, needShaderReplace)`. */
  function SetProgress(s: GLState, env: Env, from: int, to: int, progress: real, needsDuration: bool,
                       needShaderReplace: bool, rand: real): (r: Run)
    requires Inv(s) && IsRandom(rand)
    ensures Inv(r.state)
    ensures s.destroyed || env.glDestroyed ==> r == Run(s, true)
    ensures !s.destroyed && !env.glDestroyed && !s.initialized ==>
              r == Run(s.(onInit := Some(Replay(from, to, progress, needsDuration))), true)
    ensures r.state.textures == s.textures && r.state.initialized == s.initialized && r.state.destroyed == s.destroyed
    ensures r.state.replay == s.replay && r.state.loading == s.loading
    ensures !needShaderReplace ==> r.state.preventShaderReplace == s.preventShaderReplace
    ensures needShaderReplace && s.initialized && !s.destroyed && !env.glDestroyed ==> r.state.preventShaderReplace
    ensures !IsRandomPool(env.glShader) ==> r.ok && r.state.shader == s.shader
  {
    if s.destroyed || env.glDestroyed then Run(s, true)
    else if !s.initialized then Run(s.(onInit := Some(Replay(from, to, progress, needsDuration))), true)
    else
      var (f, t) := Remap(env, from, to);
      var newTexture := TexAt(s.textures, t);
      var fromTexture := TexAt(s.textures, f);
      var s1 := AssignTextures(s, fromTexture, newTexture);
      if needShaderReplace then ShaderReplaceStep(s1, env, fromTexture, newTexture, progress, rand)
      else if needsDuration then EasedStep(s1, env, fromTexture, newTexture, progress, rand)
      else Run(WithProgress(s1, Abs(progress)), true)
  }

  /**
   * What `replaceShader` writes into the rebuilt materials: for a vertex
   * shader the incoming texture on both, otherwise the outgoing and incoming
   * textures at progress 1.
   */
  function CarryTextures(s: GLState, fromTexture: Option<Texture>, newTexture: Option<Texture>): (r: GLState)
    requires Inv(s) && s.material.Some?
    ensures Inv(r) && SameControl(s, r)
    ensures r.shader == s.shader && r.generation == s.generation && r.animation == s.animation
    ensures s.shader.hasVertex ==>
              && r.material == Some(s.material.value.(texture1 := newTexture))
              && r.vertexMaterial == Some(s.vertexMaterial.value.(texture1 := newTexture))
    ensures !s.shader.hasVertex ==>
              && r.material == Some(s.material.value.(texture1 := fromTexture, texture2 := newTexture, progress := 1.0))
              && r.vertexMaterial == s.vertexMaterial
  {
    if s.shader.hasVertex then
      s.(material := Some(s.material.value.(texture1 := newTexture)),
         vertexMaterial := Some(s.vertexMaterial.value.(texture1 := newTexture)))
    else WithProgress(WithTextures(s, fromTexture, newTexture), 1.0)
  }

  /**
   * `replaceShader(name)`: keep the outgoing and incoming textures, pick the
   * new shader, rebuild the materials, put the textures back, and resize.
   */
  function ReplaceShader(s: GLState, env: Env, name: ShaderOption, rand: real): (r: Run)
    requires Inv(s) && IsRandom(rand)
    ensures Inv(r.state) && SameControl(s, r.state)
    ensures s.material.None? ==> r == Run(s, false)
    ensures Resolve(env.table, name, env.shaderPerSlide, SlideIndex(env), rand).None? ==> r == Run(s, false)
    ensures s.material.Some? && Resolve(env.table, name, env.shaderPerSlide, SlideIndex(env), rand).Some? ==>
              && r.state.shader == Resolve(env.table, name, env.shaderPerSlide, SlideIndex(env), rand).value
              && r.state.generation == s.generation + 1
  {
    if s.material.None? then Run(s, false)
    else
      var fromTexture := s.material.value.texture1;
      var newTexture := if s.shader.hasVertex then s.vertexMaterial.value.texture1 else s.material.value.texture2;
      match Resolve(env.table, name, env.shaderPerSlide, SlideIndex(env), rand)
      case None => Run(s, false)
      case Some(def) => Rebuild(s, env, def, fromTexture, newTexture)
  }

  /** The tail of `replaceShader` once the new shader is known: new materials carrying the textures, then `resize`. */
  function Rebuild(s: GLState, env: Env, def: ShaderDef, fromTexture: Option<Texture>, newTexture: Option<Texture>): (r: Run)
    requires Inv(s)
    ensures Inv(r.state) && SameControl(s, r.state)
    ensures r.state.shader == def && r.state.generation == s.generation + 1 && r.state.animation == s.animation
    ensures r.ok <==> !s.initialized || s.destroyed || |s.textures| > 0
  {
    Resize(CarryTextures(AddObjects(s.(shader := def)), fromTexture, newTexture), env)
  }

  /** `destroy`. */
  function Destroy(s: GLState): (r: GLState)
    requires Inv(s)
    ensures Inv(r) && r.destroyed && !r.initialized
  {
    s.(initialized := false, destroyed := true)
  }

  /**
   * The continuation of `init` once the textures have loaded: mark
   * initialized, schedule the `onInit` replay if one was stored, build the
   * materials and resize.
   */
  function FinishInit(s: GLState, env: Env, loaded: seq<Texture>): (r: Run)
    requires Inv(s)
    ensures Inv(r.state)
    ensures !s.loading ==> r == Run(s, true)
    ensures s.loading ==>
              && !r.state.loading && r.state.initialized && r.state.textures == loaded
              && r.state.destroyed == s.destroyed && r.state.onInit == s.onInit
              && r.state.replay == (if s.onInit.Some? then s.onInit else s.replay)
              && r.state.shader == s.shader && r.state.generation == s.generation + 1
    ensures s.loading ==> (r.ok <==> s.destroyed || |loaded| > 0)
  {
    if !s.loading then Run(s, true)
    else
      var s1 := s.(loading := false, textures := loaded, initialized := true,
                   replay := if s.onInit.Some? then s.onInit else s.replay);
      Resize(AddObjects(s1), env)
  }

  /** The frame callback scheduled by `onInit`: replay `setProgress` without `needShaderReplace`. */
  function RunReplay(s: GLState, env: Env, rand: real): (r: Run)
    requires Inv(s) && IsRandom(rand)
    ensures Inv(r.state)
    ensures s.replay.None? ==> r == Run(s, true)
    ensures r.state.replay.None?
    ensures r.state.preventShaderReplace == s.preventShaderReplace
    ensures r.state.initialized == s.initialized && r.state.destroyed == s.destroyed && r.state.textures == s.textures
  {
    match s.replay
    case None => Run(s, true)
    case Some(p) => SetProgress(s.(replay := None), env, p.from, p.to, p.progress, p.needsTransitionDuration, false, rand)
  }

  /** The frame callback scheduled with the shader-replace guard: clear it. */
  function ReleaseGuard(s: GLState): (r: GLState)
    requires Inv(s)
    ensures Inv(r) && !r.preventShaderReplace
  {
    if s.guardReleasePending then s.(preventShaderReplace := false, guardReleasePending := false) else s
  }
}
