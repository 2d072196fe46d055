/**
 * The objects of the WebGL carousel: the Swiper fields the driver reads and
 * writes, the transition orchestrator `GL` of `gl/gl.js`, and the event
 * handlers of `swiper-gl.esm.js`. Every method updates the fields in place
 * as the source does and is proved to leave the state that the matching
 * function of module Transition computes.
 *
 * Frame callbacks (`requestAnimationFrame`) and the texture promise are not
 * run by the methods that schedule them: the method records that they are
 * pending, and a separate method of `GL` is their body, which the host calls
 * when the browser would.
 */
module Carousel {
  import opened Wrappers
  import opened Shaders
  import opened Slides
  import T = Transition

  /** The Swiper instance, reduced to the fields the driver touches. */
  class Swiper {
    var effect: string
    var cssMode: bool
    var loop: bool
    var watchSlidesProgress: bool
    var glShader: ShaderOption          // `params.gl.shader`
    var shaderPerSlide: bool            // `params.gl.shaderPerSlide`
    var realIndex: nat
    var activeIndex: nat
    var progress: real
    var slides: seq<Slide>
    var width: T.PosReal
    var height: T.PosReal
    var glDestroyed: bool
    var gl: GL?

    constructor (effect: string, cssMode: bool, loop: bool, glShader: ShaderOption, shaderPerSlide: bool,
                 width: T.PosReal, height: T.PosReal)
      ensures this.effect == effect && this.cssMode == cssMode && this.loop == loop
      ensures this.glShader == glShader && this.shaderPerSlide == shaderPerSlide
      ensures this.width == width && this.height == height
      ensures !watchSlidesProgress && !glDestroyed && gl == null
      ensures realIndex == 0 && activeIndex == 0 && progress == 0.0 && slides == []
    {
      this.effect := effect;
      this.cssMode := cssMode;
      this.loop := loop;
      this.watchSlidesProgress := false;
      this.glShader := glShader;
      this.shaderPerSlide := shaderPerSlide;
      this.realIndex := 0;
      this.activeIndex := 0;
      this.progress := 0.0;
      this.slides := [];
      this.width := width;
      this.height := height;
      this.glDestroyed := false;
      this.gl := null;
    }

    /** The slide index `getRandomShader` reads: `realIndex` in loop mode, else `activeIndex`. */
    function ShaderIndex(): (i: nat)
      reads this
      ensures loop ==> i == realIndex
      ensures !loop ==> i == activeIndex
    {
      if loop then realIndex else activeIndex
    }
  }

  /** The transition orchestrator (`class GL`). */
  class GL {
    const swiper: Swiper
    const table: ShaderTable            // the `shaders` catalogue
    const optsShader: ShaderOption      // `opts.shader`
    const shaderPerSlide: bool          // `opts.shaderPerSlide`

    var shader: ShaderDef
    var textures: seq<T.Texture>
    var loading: bool
    var initialized: bool
    var destroyed: bool
    var preventShaderReplace: bool
    var guardReleasePending: bool
    var onInit: Option<T.Replay>
    var replay: Option<T.Replay>
    var material: Option<T.Uniforms>
    var vertexMaterial: Option<T.Uniforms>
    var generation: nat
    var animateUniformFrame: Option<T.Animation>
    var width: real
    var height: real

    /** The fields as a value of the state machine. */
    ghost function State(): T.GLState
      reads this
    {
      T.GLState(shader, textures, loading, initialized, destroyed, preventShaderReplace, guardReleasePending,
                onInit, replay, material, vertexMaterial, generation, animateUniformFrame, width, height)
    }

    /** The options and the Swiper fields the orchestrator reads. */
    ghost function Context(): (env: T.Env)
      reads swiper
      ensures T.SlideIndex(env) == swiper.ShaderIndex()
    {
      T.Env(table, optsShader, shaderPerSlide, swiper.glShader, swiper.loop, swiper.realIndex, swiper.activeIndex,
            swiper.slides, swiper.width, swiper.height, swiper.glDestroyed)
    }

    ghost predicate Valid()
      reads this
    {
      T.Inv(State())
    }

    /**
     * The synchronous part of `new GL(opts)` for the shader already picked
     * from `opts.shader`: record the Swiper's size and start loading the
     * textures.
     */
    constructor (swiper: Swiper, table: ShaderTable, optsShader: ShaderOption, shaderPerSlide: bool, shader: ShaderDef)
      ensures this.swiper == swiper && this.table == table
      ensures this.optsShader == optsShader && this.shaderPerSlide == shaderPerSlide
      ensures State() == T.Initial(shader, swiper.width, swiper.height)
      ensures Valid()
    {
      this.swiper := swiper;
      this.table := table;
      this.optsShader := optsShader;
      this.shaderPerSlide := shaderPerSlide;
      this.shader := shader;
      this.textures := [];
      this.loading := true;
      this.initialized := false;
      this.destroyed := false;
      this.preventShaderReplace := false;
      this.guardReleasePending := false;
      this.onInit := None;
      this.replay := None;
      this.material := None;
      this.vertexMaterial := None;
      this.generation := 0;
      this.animateUniformFrame := None;
      this.width := swiper.width;
      this.height := swiper.height;
    }

    /** `addObjects`: new materials built by `createMaterial`. */
    method AddObjects()
      requires T.Scheduled(State())
      modifies this
      ensures State() == T.AddObjects(old(State()))
    {
      material := Some(T.FreshUniforms(textures));
      if shader.hasVertex {
        var texture := T.TexAt(textures, 1);
        vertexMaterial := Some(T.FreshUniforms(textures).(texture1 := texture));
      }
      generation := generation + 1;
    }

    /** `resize`; `ok` is false where reading `textures[0]` throws. */
    method Resize() returns (ok: bool)
      requires Valid()
      modifies this
      ensures Valid()
      ensures T.Run(State(), ok) == T.Resize(old(State()), Context())
    {
      if !initialized || destroyed {
        return true;
      }
      var w, h := swiper.width, swiper.height;
      width, height := w, h;
      if |textures| == 0 {
        return false;
      }
      var imageAspect := textures[0].imageHeight / textures[0].imageWidth;
      var (a1, a2) := T.CoverRatios(w, h, imageAspect);
      var resolution := T.Vec4(w, h, a1, a2);
      material := Some(material.value.(resolution := resolution));
      if shader.hasVertex && vertexMaterial.Some? {
        vertexMaterial := Some(vertexMaterial.value.(resolution := resolution));
      }
      ok := true;
    }

    /** `replaceRandomShader`; `ok` is false where destructuring an `undefined` pick throws. */
    method ReplaceRandomShader(rand: real) returns (ok: bool)
      requires Valid() && IsRandom(rand)
      modifies this
      ensures Valid()
      ensures T.Run(State(), ok) == T.ReplaceRandomShader(old(State()), Context(), rand)
    {
      var key := GetRandomShader(table, optsShader, shaderPerSlide, swiper.ShaderIndex(), rand);
      if key.None? {
        return false;
      }
      shader := table.defs[key.value];
      AddObjects();
      ok := Resize();
    }

    /** The completion callback `setProgress` hands to `animateUniform`. */
    method Complete(cb: T.Callback, rand: real) returns (ok: bool)
      requires Valid() && material.Some? && IsRandom(rand)
      modifies this
      ensures Valid()
      ensures T.Run(State(), ok) == T.Complete(old(State()), Context(), cb, rand)
    {
      if IsRandomPool(swiper.glShader) {
        ok := ReplaceRandomShader(rand);
        if !ok {
          return;
        }
        material := Some(material.value.(texture1 := cb.fromTexture, texture2 := cb.newTexture));
        material := Some(material.value.(progress := cb.progress));
      }
      if cb.progress == 1.0 {
        material := Some(material.value.(texture1 := cb.newTexture));
      }
      material := Some(material.value.(progress := 0.0));
      ok := true;
    }

    /**
     * One run of the `animate` closure of `animateUniform`, whose cosine ease
     * for this frame is `ease`. The closure writes to the progress cell of
     * the material it started on; once `addObjects` has replaced that
     * material the write reaches no live material.
     */
    method AnimationFrame(ease: real, rand: real) returns (ok: bool)
      requires Valid() && 0.0 <= ease <= 1.0 && IsRandom(rand)
      modifies this
      ensures Valid()
      ensures T.Run(State(), ok) == T.Frame(old(State()), Context(), ease, rand)
    {
      if animateUniformFrame.None? {
        return true;
      }
      var a := animateUniformFrame.value;
      if destroyed {
        animateUniformFrame := None;
        return true;
      }
      var currentPosition := T.Lerp(a.start, a.target, ease);
      if T.Reached(a, currentPosition) {
        currentPosition := a.target;
      }
      assert currentPosition == T.Eased(a, ease);
      if a.generation == generation {
        material := Some(material.value.(progress := currentPosition));
      }
      if T.Reached(a, currentPosition) {
        animateUniformFrame := None;
        ok := Complete(a.done, rand);
        return;
      }
      ok := true;
    }

    /** `animateUniform` on the progress cell: replace the pending frame and run the first one. */
    method AnimateUniform(targetValue: real, cb: T.Callback, rand: real) returns (ok: bool)
      requires Valid() && material.Some? && IsRandom(rand)
      modifies this
      ensures Valid()
      ensures T.Run(State(), ok) == T.AnimateProgress(old(State()), Context(), targetValue, cb, rand)
    {
      var startPosition := material.value.progress;
      animateUniformFrame := Some(T.Animation(generation, startPosition, targetValue, targetValue > startPosition, cb));
      ok := AnimationFrame(0.0, rand);
    }

    /** The texture assignment at the head of an initialized `setProgress`. */
    method AssignTextures(fromTexture: Option<T.Texture>, newTexture: Option<T.Texture>)
      requires Valid() && material.Some?
      modifies this
      ensures Valid()
      ensures State() == T.AssignTextures(old(State()), fromTexture, newTexture)
    {
      material := Some(material.value.(texture1 := fromTexture));
      if !shader.hasVertex {
        material := Some(material.value.(texture2 := newTexture));
      } else {
        vertexMaterial := Some(vertexMaterial.value.(texture1 := newTexture));
      }
    }

    /** The `needShaderReplace` branch of `setProgress`. */
    method ShaderReplaceStep(fromTexture: Option<T.Texture>, newTexture: Option<T.Texture>, progress: real, rand: real)
      returns (ok: bool)
      requires Valid() && material.Some? && IsRandom(rand)
      modifies this
      ensures Valid()
      ensures T.Run(State(), ok) == T.ShaderReplaceStep(old(State()), Context(), fromTexture, newTexture, progress, rand)
    {
      if preventShaderReplace {
        material := Some(material.value.(progress := T.Abs(progress)));
        return true;
      }
      preventShaderReplace := true;
      guardReleasePending := true;
      if IsRandomPool(swiper.glShader) {
        ok := SwapRandom(fromTexture, newTexture, progress, rand);
      } else {
        material := Some(material.value.(progress := T.Abs(progress)));
        ok := true;
      }
    }

    /** The random swap of the `needShaderReplace` branch, with the textures and `|progress|` put back. */
    method SwapRandom(fromTexture: Option<T.Texture>, newTexture: Option<T.Texture>, progress: real, rand: real)
      returns (ok: bool)
      requires Valid() && IsRandom(rand)
      modifies this
      ensures Valid()
      ensures T.Run(State(), ok) == T.SwapRandom(old(State()), Context(), fromTexture, newTexture, progress, rand)
    {
      ok := ReplaceRandomShader(rand);
      if !ok {
        return;
      }
      material := Some(material.value.(texture1 := fromTexture, texture2 := newTexture));
      material := Some(material.value.(progress := T.Abs(progress)));
    }

    /** The `needsTransitionDuration` branch of `setProgress`. */
    method EasedStep(fromTexture: Option<T.Texture>, newTexture: Option<T.Texture>, progress: real, rand: real)
      returns (ok: bool)
      requires Valid() && material.Some? && IsRandom(rand)
      modifies this
      ensures Valid()
      ensures T.Run(State(), ok) == T.EasedStep(old(State()), Context(), fromTexture, newTexture, progress, rand)
    {
      if progress == 0.0 && material.value.progress == 0.0 {
        material := Some(material.value.(progress := 1.0));
      }
      if progress == 1.0 && material.value.progress == 1.0 {
        material := Some(material.value.(progress := 0.0));
      }
      ok := AnimateUniform(progress, T.Callback(fromTexture, newTexture, progress), rand);
    }

    /** `setProgress`; `ok` is false where the shader replacement throws. */
    method SetProgress(fromIndex: int, toIndex: int, progress: real, needsTransitionDuration: bool,
                       needShaderReplace: bool, rand: real) returns (ok: bool)
      requires Valid() && IsRandom(rand)
      modifies this
      ensures Valid()
      ensures T.Run(State(), ok) ==
              T.SetProgress(old(State()), Context(), fromIndex, toIndex, progress, needsTransitionDuration, needShaderReplace, rand)
    {
      if destroyed || swiper.glDestroyed {
        return true;
      }
      if !initialized {
        onInit := Some(T.Replay(fromIndex, toIndex, progress, needsTransitionDuration));
        return true;
      }
      var from, to := fromIndex, toIndex;
      if swiper.loop && 0 <= from < |swiper.slides| && 0 <= to < |swiper.slides| {
        from, to := swiper.slides[from].dataIndex, swiper.slides[to].dataIndex;
      }
      var newTexture := T.TexAt(textures, to);
      var fromTexture := T.TexAt(textures, from);
      AssignTextures(fromTexture, newTexture);
      if needShaderReplace {
        ok := ShaderReplaceStep(fromTexture, newTexture, progress, rand);
      } else if needsTransitionDuration {
        ok := EasedStep(fromTexture, newTexture, progress, rand);
      } else {
        material := Some(material.value.(progress := T.Abs(progress)));
        ok := true;
      }
    }

    /** The textures `replaceShader` writes back into the rebuilt materials. */
    method CarryTextures(fromTexture: Option<T.Texture>, newTexture: Option<T.Texture>)
      requires Valid() && material.Some?
      modifies this
      ensures Valid()
      ensures State() == T.CarryTextures(old(State()), fromTexture, newTexture)
    {
      if shader.hasVertex {
        material := Some(material.value.(texture1 := newTexture));
        vertexMaterial := Some(vertexMaterial.value.(texture1 := newTexture));
      } else {
        material := Some(material.value.(texture1 := fromTexture, texture2 := newTexture));
        material := Some(material.value.(progress := 1.0));
      }
    }

    /**
     * `replaceShader(newShaderName)` up to its final `resize`; `ok` is false
     * where reading the material or destructuring an `undefined` shader throws.
     */
    method SwapShader(newShaderName: ShaderOption, rand: real) returns (ok: bool)
      requires Valid() && IsRandom(rand)
      modifies this
      ensures Valid()
      ensures T.Run(State(), ok) == T.ReplaceShader(old(State()), Context(), newShaderName, rand)
    {
      if material.None? {
        return false;
      }
      var fromTexture := material.value.texture1;
      var newTexture := if shader.hasVertex then vertexMaterial.value.texture1 else material.value.texture2;
      var picked := ResolveShader(table, newShaderName, shaderPerSlide, swiper.ShaderIndex(), rand);
      if picked.None? {
        return false;
      }
      ok := Rebuild(picked.value, fromTexture, newTexture);
    }

    /** The tail of `replaceShader` once the new shader is known. */
    method Rebuild(def: ShaderDef, fromTexture: Option<T.Texture>, newTexture: Option<T.Texture>) returns (ok: bool)
      requires Valid()
      modifies this
      ensures Valid()
      ensures T.Run(State(), ok) == T.Rebuild(old(State()), Context(), def, fromTexture, newTexture)
    {
      shader := def;
      AddObjects();
      CarryTextures(fromTexture, newTexture);
      ok := Resize();
    }

    /**
     * `replaceShader(newShaderName)`; once it has run to its end the Swiper's
     * `gl.shader` parameter becomes `newShaderName`.
     */
    method ReplaceShader(newShaderName: ShaderOption, rand: real) returns (ok: bool)
      requires Valid() && IsRandom(rand)
      modifies this, swiper`glShader
      ensures Valid()
      ensures T.Run(State(), ok) == T.ReplaceShader(old(State()), old(Context()), newShaderName, rand)
      ensures swiper.glShader == if ok then newShaderName else old(swiper.glShader)
    {
      ok := SwapShader(newShaderName, rand);
      if ok {
        swiper.glShader := newShaderName;
      }
    }

    /** `destroy`. */
    method Destroy()
      requires Valid()
      modifies this
      ensures Valid()
      ensures State() == T.Destroy(old(State()))
    {
      initialized := false;
      destroyed := true;
    }

    /**
     * The continuation of `init` once `loadTextures` has resolved with
     * `loaded`: then `addObjects` and `resize`; `ok` is false where `resize`
     * throws.
     */
    method FinishInit(loaded: seq<T.Texture>) returns (ok: bool)
      requires Valid()
      modifies this
      ensures Valid()
      ensures T.Run(State(), ok) == T.FinishInit(old(State()), Context(), loaded)
    {
      if !loading {
        return true;
      }
      loading := false;
      textures := loaded;
      initialized := true;
      if onInit.Some? {
        replay := onInit;
      }
      AddObjects();
      ok := Resize();
    }

    /** The frame callback `onInit` schedules: the deferred `setProgress`, without `needShaderReplace`. */
    method ReplayDeferred(rand: real) returns (ok: bool)
      requires Valid() && IsRandom(rand)
      modifies this
      ensures Valid()
      ensures T.Run(State(), ok) == T.RunReplay(old(State()), Context(), rand)
    {
      if replay.None? {
        return true;
      }
      var r := replay.value;
      replay := None;
      ok := SetProgress(r.from, r.to, r.progress, r.needsTransitionDuration, false, rand);
    }

    /** The frame callback that clears `preventShaderReplace`. */
    method ReleaseShaderReplaceGuard()
      requires Valid()
      modifies this
      ensures Valid()
      ensures State() == T.ReleaseGuard(old(State()))
    {
      if guardReleasePending {
        preventShaderReplace := false;
        guardReleasePending := false;
      }
    }
  }

  /**
   * What one `setTranslate` does to the orchestrator: scan the slides
   * against the previous Swiper progress and, on a match, call `setProgress`
   * with the scan's replacement request.
   */
  function TranslateStep(s: T.GLState, env: T.Env, swiperProgress: real, cssMode: bool, previous: Option<real>,
                         needsDuration: bool, rand: real): (r: T.Run)
    requires T.Inv(s) && IsRandom(rand)
    ensures T.Inv(r.state)
    ensures LastMatch(env.slides, swiperProgress, previous).None? ==> r == T.Run(s, true)
    ensures r.state.textures == s.textures && r.state.initialized == s.initialized && r.state.destroyed == s.destroyed
    ensures !(cssMode && AnyAtRest(env.slides)) ==> r.state.preventShaderReplace == s.preventShaderReplace
    ensures !IsRandomPool(env.glShader) ==> r.ok && r.state.shader == s.shader
  {
    match LastMatch(env.slides, swiperProgress, previous)
    case None => T.Run(s, true)
    case Some(t) =>
      T.SetProgress(s, env, t.from, t.to, t.progress, needsDuration, NeedShaderReplace(cssMode && AnyAtRest(env.slides), t), rand)
  }

  /**
   * A translate arms the shader-replacement guard only in CSS mode with some
   * slide at rest, and only when the transition it found sits exactly on a
   * slide boundary.
   */
  lemma TranslateArmsGuardOnlyAtRest(s: T.GLState, env: T.Env, swiperProgress: real, cssMode: bool,
                                     previous: Option<real>, needsDuration: bool, rand: real)
    requires T.Inv(s) && IsRandom(rand) && !s.preventShaderReplace
    ensures var r := TranslateStep(s, env, swiperProgress, cssMode, previous, needsDuration, rand);
            var m := LastMatch(env.slides, swiperProgress, previous);
            r.state.preventShaderReplace ==>
              && cssMode && AnyAtRest(env.slides) && m.Some?
              && (m.value.progress == 0.0 || m.value.progress == 1.0)
  {
  }

  /** The module instance `SwiperGL({ swiper, on, extendParams })` and its event handlers. */
  class SwiperGL {
    const swiper: Swiper
    const table: ShaderTable
    var noWebGLSupport: bool
    var needsTransitionDuration: bool
    var previousProgress: Option<real>

    /** The orchestrator, when there is one, belongs to this Swiper and keeps its invariant. */
    ghost predicate Valid()
      reads this, swiper, swiper.gl
    {
      swiper.gl != null ==> swiper.gl.swiper == swiper && swiper.gl.table == table && swiper.gl.Valid()
    }

    /** The early return of the `init`, `resize`, `setTranslate` and `setTransition` handlers. */
    predicate Inactive()
      reads this, swiper
      ensures swiper.effect != "gl" ==> Inactive()
      ensures noWebGLSupport || swiper.glDestroyed ==> Inactive()
      ensures Inactive() ==> swiper.effect != "gl" || noWebGLSupport || swiper.glDestroyed
    {
      swiper.effect != "gl" || noWebGLSupport || swiper.glDestroyed
    }

    constructor (swiper: Swiper, table: ShaderTable)
      modifies swiper`gl
      ensures this.swiper == swiper && this.table == table && swiper.gl == null
      ensures !noWebGLSupport && !needsTransitionDuration && previousProgress.None?
      ensures Valid()
    {
      this.swiper := swiper;
      this.table := table;
      this.noWebGLSupport := false;
      this.needsTransitionDuration := false;
      this.previousProgress := None;
      new;
      swiper.gl := null;
    }

    /** `beforeInit`; `webGLSupported` is the answer of `supportsWebGL()`. */
    method BeforeInit(webGLSupported: bool)
      requires Valid()
      modifies this, swiper`watchSlidesProgress
      ensures Valid()
      ensures needsTransitionDuration == old(needsTransitionDuration) && previousProgress == old(previousProgress)
      ensures swiper.effect != "gl" ==>
                noWebGLSupport == old(noWebGLSupport) && swiper.watchSlidesProgress == old(swiper.watchSlidesProgress)
      ensures swiper.effect == "gl" && !webGLSupported ==>
                noWebGLSupport && swiper.watchSlidesProgress == old(swiper.watchSlidesProgress)
      ensures swiper.effect == "gl" && webGLSupported ==>
                noWebGLSupport == old(noWebGLSupport) && swiper.watchSlidesProgress
    {
      if swiper.effect != "gl" {
        return;
      }
      if !webGLSupported {
        noWebGLSupport := true;
        return;
      }
      swiper.watchSlidesProgress := true;
    }

    /**
     * `glInit`: construct the orchestrator with the Swiper's `gl` parameters;
     * `ok` is false, and no orchestrator is made, where the constructor's
     * shader pick is `undefined`.
     */
    method GlInit(rand: real) returns (ok: bool)
      requires IsRandom(rand)
      modifies swiper`gl
      ensures var picked := Resolve(table, swiper.glShader, swiper.shaderPerSlide, swiper.ShaderIndex(), rand);
              && (ok <==> picked.Some?)
              && (!ok ==> swiper.gl == old(swiper.gl))
              && (ok ==> swiper.gl != null && fresh(swiper.gl)
                         && swiper.gl.swiper == swiper && swiper.gl.table == table
                         && swiper.gl.optsShader == swiper.glShader && swiper.gl.shaderPerSlide == swiper.shaderPerSlide
                         && swiper.gl.Valid()
                         && swiper.gl.State() == T.Initial(picked.value, swiper.width, swiper.height))
    {
      var picked := ResolveShader(table, swiper.glShader, swiper.shaderPerSlide, swiper.ShaderIndex(), rand);
      if picked.None? {
        return false;
      }
      swiper.gl := new GL(swiper, table, swiper.glShader, swiper.shaderPerSlide, picked.value);
      ok := true;
    }

    /** `init`: create the orchestrator unless there is one. */
    method Init(rand: real)
      requires Valid() && IsRandom(rand)
      modifies swiper`gl
      ensures Valid()
      ensures Inactive() || old(swiper.gl) != null ==> swiper.gl == old(swiper.gl)
      ensures !Inactive() && old(swiper.gl) == null ==>
                var picked := Resolve(table, swiper.glShader, swiper.shaderPerSlide, swiper.ShaderIndex(), rand);
                && (swiper.gl != null <==> picked.Some?)
                && (swiper.gl != null ==> fresh(swiper.gl) && swiper.gl.State() == T.Initial(picked.value, swiper.width, swiper.height))
    {
      if Inactive() {
        return;
      }
      if swiper.gl == null {
        var ok := GlInit(rand);
      }
    }

    /** `resize`; `ok` is false where there is no orchestrator or its `resize` throws. */
    method OnResize() returns (ok: bool)
      requires Valid()
      modifies swiper.gl
      ensures Valid()
      ensures Inactive() ==> ok && (swiper.gl != null ==> swiper.gl.State() == old(swiper.gl.State()))
      ensures !Inactive() && swiper.gl == null ==> !ok
      ensures !Inactive() && swiper.gl != null ==>
                T.Run(swiper.gl.State(), ok) == T.Resize(old(swiper.gl.State()), swiper.gl.Context())
    {
      if Inactive() {
        return true;
      }
      if swiper.gl == null {
        return false;
      }
      ok := swiper.gl.Resize();
    }

    /**
     * `setTranslate`: create the orchestrator when there is none (with
     * `randInit` as the constructor's draw), scan the slides, remember the
     * Swiper's progress and hand the match to `setProgress`.
     */
    method SetTranslate(randInit: real, rand: real) returns (ok: bool)
      requires Valid() && IsRandom(randInit) && IsRandom(rand)
      modifies this, swiper`gl, swiper.gl
      ensures Valid()
      ensures needsTransitionDuration == old(needsTransitionDuration) && noWebGLSupport == old(noWebGLSupport)
      ensures Inactive() ==>
                ok && swiper.gl == old(swiper.gl) && previousProgress == old(previousProgress)
                && (swiper.gl != null ==> swiper.gl.State() == old(swiper.gl.State()))
      ensures !Inactive() && swiper.gl == null ==> !ok && previousProgress == old(previousProgress)
      ensures !Inactive() && swiper.gl != null ==> previousProgress == Some(swiper.progress)
      ensures !Inactive() && old(swiper.gl) != null ==>
                && swiper.gl == old(swiper.gl)
                && T.Run(swiper.gl.State(), ok) ==
                   TranslateStep(old(swiper.gl.State()), swiper.gl.Context(), swiper.progress, swiper.cssMode,
                                 old(previousProgress), needsTransitionDuration, rand)
      ensures !Inactive() && old(swiper.gl) == null ==>
                var picked := Resolve(table, swiper.glShader, swiper.shaderPerSlide, swiper.ShaderIndex(), randInit);
                && (swiper.gl != null <==> picked.Some?)
                && (swiper.gl != null ==>
                      && fresh(swiper.gl)
                      && T.Run(swiper.gl.State(), ok) ==
                         TranslateStep(T.Initial(picked.value, swiper.width, swiper.height), swiper.gl.Context(),
                                       swiper.progress, swiper.cssMode, old(previousProgress), needsTransitionDuration, rand))
    {
      if Inactive() {
        return true;
      }
      if swiper.gl == null {
        ok := GlInit(randInit);
        if !ok {
          return;
        }
      }
      var found, atRest := ScanSlides(swiper.slides, swiper.cssMode, swiper.progress, previousProgress);
      previousProgress := Some(swiper.progress);
      if found.None? {
        return true;
      }
      var t := found.value;
      ok := swiper.gl.SetProgress(t.from, t.to, t.progress, needsTransitionDuration, NeedShaderReplace(atRest, t), rand);
    }

    /** `setTransition(duration)`. */
    method SetTransition(duration: real)
      requires Valid()
      modifies this
      ensures Valid()
      ensures noWebGLSupport == old(noWebGLSupport) && previousProgress == old(previousProgress)
      ensures Inactive() ==> needsTransitionDuration == old(needsTransitionDuration)
      ensures !Inactive() ==> needsTransitionDuration == NeedsTransitionDuration(duration, swiper.cssMode)
    {
      if Inactive() {
        return;
      }
      needsTransitionDuration := NeedsTransitionDuration(duration, swiper.cssMode);
    }

    /** `beforeDestroy`: destroy the orchestrator and drop it, marking the Swiper. */
    method BeforeDestroy()
      requires Valid()
      modifies swiper`glDestroyed, swiper`gl, swiper.gl
      ensures Valid()
      ensures swiper.effect != "gl" || noWebGLSupport || old(swiper.gl) == null ==>
                swiper.gl == old(swiper.gl) && swiper.glDestroyed == old(swiper.glDestroyed)
                && (swiper.gl != null ==> swiper.gl.State() == old(swiper.gl.State()))
      ensures swiper.effect == "gl" && !noWebGLSupport && old(swiper.gl) != null ==>
                swiper.gl == null && swiper.glDestroyed
                && old(swiper.gl).State() == T.Destroy(old(swiper.gl.State()))
    {
      if swiper.effect != "gl" || noWebGLSupport {
        return;
      }
      if swiper.gl != null {
        swiper.glDestroyed := true;
        swiper.gl.Destroy();
        swiper.gl := null;
      }
    }
  }
}
