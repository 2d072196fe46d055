/**
 * What `setProgress`, `animateUniform`, `resize`, `replaceShader` and
 * `destroy` of `gl/gl.js` promise, proved of the state machine in module
 * Transition.
 */
module TransitionProperties {
  import opened Wrappers
  import opened Shaders
  import opened Transition

  /** The orchestrator is live: initialized, and neither it nor the Swiper has been destroyed. */
  predicate Live(s: GLState, env: Env) {
    s.initialized && !s.destroyed && !env.glDestroyed
  }

  /** The textures the assignment at the head of an initialized `setProgress` writes. */
  predicate TexturesAssigned(r: GLState, s: GLState, env: Env, from: int, to: int)
    requires r.material.Some? && (s.shader.hasVertex ==> r.vertexMaterial.Some?)
  {
    var (f, t) := Remap(env, from, to);
    && r.material.value.texture1 == TexAt(s.textures, f)
    && (!s.shader.hasVertex ==> r.material.value.texture2 == TexAt(s.textures, t))
    && (s.shader.hasVertex ==> r.vertexMaterial.value.texture1 == TexAt(s.textures, t))
  }

  /**
   * The direct path (neither shader replacement nor a transition duration):
   * the textures are assigned, the progress cell holds `|progress|`, and
   * nothing else moves.
   */
  lemma DirectPath(s: GLState, env: Env, from: int, to: int, p: real, rand: real)
    requires Inv(s) && IsRandom(rand) && Live(s, env)
    ensures var r := SetProgress(s, env, from, to, p, false, false, rand);
            && r.ok && Inv(r.state)
            && TexturesAssigned(r.state, s, env, from, to)
            && r.state.material.value.progress == Abs(p)
            && r.state.shader == s.shader && r.state.generation == s.generation
            && r.state.animation == s.animation && SameControl(s, r.state)
  {
  }

  /** While the guard is set, a requested shader replacement only writes the textures and `|progress|`. */
  lemma GuardedReplace(s: GLState, env: Env, from: int, to: int, p: real, ntd: bool, rand: real)
    requires Inv(s) && IsRandom(rand) && Live(s, env) && s.preventShaderReplace
    ensures var r := SetProgress(s, env, from, to, p, ntd, true, rand);
            && r.ok
            && TexturesAssigned(r.state, s, env, from, to)
            && r.state.material.value.progress == Abs(p)
            && r.state.shader == s.shader && r.state.generation == s.generation
            && r.state.animation == s.animation && SameControl(s, r.state)
  {
  }

  /**
   * A requested shader replacement with the guard clear sets the guard and
   * schedules its release; it swaps the shader only when the configured
   * shader is a random pool, and then keeps the two textures and `|progress|`.
   */
  lemma UnguardedReplace(s: GLState, env: Env, from: int, to: int, p: real, ntd: bool, rand: real)
    requires Inv(s) && IsRandom(rand) && Live(s, env) && !s.preventShaderReplace
    ensures var r := SetProgress(s, env, from, to, p, ntd, true, rand);
            var (f, t) := Remap(env, from, to);
            && r.state.preventShaderReplace && r.state.guardReleasePending
            && (!IsRandomPool(env.glShader) ==>
                  && r.ok && TexturesAssigned(r.state, s, env, from, to)
                  && r.state.material.value.progress == Abs(p)
                  && r.state.shader == s.shader && r.state.generation == s.generation)
            && (IsRandomPool(env.glShader) && r.ok ==>
                  var k := PickShader(env.table, env.optsShader, env.shaderPerSlide, SlideIndex(env), rand);
                  && k.Some? && r.state.shader == env.table.defs[k.value]
                  && r.state.generation == s.generation + 1
                  && r.state.material.value.texture1 == TexAt(s.textures, f)
                  && r.state.material.value.texture2 == TexAt(s.textures, t)
                  && r.state.material.value.progress == Abs(p))
  {
  }

  /**
   * The one-frame debounce: of two shader-replacement requests with no
   * guard release between them, the second swaps nothing.
   */
  lemma ReplaceDebounced(s: GLState, env: Env, from: int, to: int, p: real, ntd: bool, rand: real,
                         from2: int, to2: int, p2: real, ntd2: bool, rand2: real)
    requires Inv(s) && IsRandom(rand) && IsRandom(rand2) && Live(s, env)
    ensures var r1 := SetProgress(s, env, from, to, p, ntd, true, rand);
            var r2 := SetProgress(r1.state, env, from2, to2, p2, ntd2, true, rand2);
            && r1.state.preventShaderReplace
            && r2.state.shader == r1.state.shader && r2.state.generation == r1.state.generation
            && r2.state.animation == r1.state.animation
  {
    var r1 := SetProgress(s, env, from, to, p, ntd, true, rand);
    if s.preventShaderReplace {
      GuardedReplace(s, env, from, to, p, ntd, rand);
    } else {
      UnguardedReplace(s, env, from, to, p, ntd, rand);
    }
    GuardedReplace(r1.state, env, from2, to2, p2, ntd2, rand2);
  }

  /**
   * The eased path: the progress cell is first flipped (0 to 1 when the target
   * is 0, 1 to 0 when the target is 1); if the flipped value is not already
   * the target an animation from it towards the target is left pending,
   * otherwise the animation completed in its first frame.
   */
  lemma EasedPath(s: GLState, env: Env, from: int, to: int, p: real, rand: real)
    requires Inv(s) && IsRandom(rand) && Live(s, env)
    ensures var r := SetProgress(s, env, from, to, p, true, false, rand);
            var (f, t) := Remap(env, from, to);
            var start := Flipped(s.material.value.progress, p);
            && SameControl(s, r.state)
            && (start != p ==>
                  && r.ok
                  && r.state.animation == Some(Animation(s.generation, start, p, p > start,
                                                         Callback(TexAt(s.textures, f), TexAt(s.textures, t), p)))
                  && TexturesAssigned(r.state, s, env, from, to)
                  && r.state.material.value.progress == start
                  && r.state.shader == s.shader && r.state.generation == s.generation)
            && (start == p ==> r.state.animation.None?)
  {
    var (f, t) := Remap(env, from, to);
    var start := Flipped(s.material.value.progress, p);
    var a := Animation(s.generation, start, p, p > start, Callback(TexAt(s.textures, f), TexAt(s.textures, t), p));
    if start == p {
      assert Eased(a, 0.0) == p;
    } else {
      assert Eased(a, 0.0) == start;
    }
  }

  /** The completion callback leaves the progress cell at 0, and after a forward transition shows the new texture. */
  lemma CompletionSettles(s: GLState, env: Env, cb: Callback, rand: real)
    requires Inv(s) && s.material.Some? && IsRandom(rand)
    ensures var r := Complete(s, env, cb, rand);
            && (!IsRandomPool(env.glShader) ==> r.ok)
            && (r.ok ==> r.state.material.value.progress == 0.0)
            && (r.ok && cb.progress == 1.0 ==> r.state.material.value.texture1 == cb.newTexture)
            && (r.ok && cb.progress != 1.0 ==>
                  r.state.material.value.texture1 == if IsRandomPool(env.glShader) then cb.fromTexture else s.material.value.texture1)
            && (!IsRandomPool(env.glShader) ==> r.state.shader == s.shader && r.state.generation == s.generation)
  {
  }

  /**
   * One animation frame on a live cell: the value written lies between the
   * start and the target; short of the target the animation stays pending,
   * at the target it is written exactly, the frame is no longer pending and
   * the callback has run.
   */
  lemma FrameStepsTowardTarget(s: GLState, env: Env, ease: real, rand: real)
    requires Inv(s) && 0.0 <= ease <= 1.0 && IsRandom(rand)
    requires s.animation.Some? && !s.destroyed && s.animation.value.generation == s.generation
    ensures var a := s.animation.value;
            var v := Eased(a, ease);
            var r := Frame(s, env, ease, rand);
            && (if a.rising then a.start <= v <= a.target else a.target <= v <= a.start)
            && (!Reached(a, v) ==> r == Run(WithProgress(s, v), true))
            && (Reached(a, v) ==> v == a.target
                                  && r == Complete(WithProgress(s, a.target).(animation := None), env, a.done, rand)
                                  && r.state.animation.None?)
  {
  }

  /** With no frame pending, or after completion, a further frame changes nothing: the callback runs once. */
  lemma StoppedAnimationIsInert(s: GLState, env: Env, ease: real, rand: real, ease2: real, rand2: real)
    requires Inv(s) && 0.0 <= ease <= 1.0 && IsRandom(rand) && 0.0 <= ease2 <= 1.0 && IsRandom(rand2)
    ensures s.animation.None? ==> Frame(s, env, ease, rand) == Run(s, true)
    ensures var r := Frame(s, env, ease, rand);
            r.state.animation.None? ==> Frame(r.state, env, ease2, rand2) == Run(r.state, true)
  {
  }

  /** A frame after `destroy` writes nothing and stops. */
  lemma FrameAfterDestroy(s: GLState, env: Env, ease: real, rand: real)
    requires Inv(s) && 0.0 <= ease <= 1.0 && IsRandom(rand) && s.destroyed
    ensures Frame(s, env, ease, rand) == Run(s.(animation := None), true)
  {
  }

  /**
   * `resize` is a no-op unless initialized and not destroyed; otherwise the
   * resolution it writes holds the Swiper's size and the cover-fit ratios of
   * the first image.
   */
  lemma ResizeFits(s: GLState, env: Env)
    requires Inv(s)
    ensures !s.initialized || s.destroyed ==> Resize(s, env) == Run(s, true)
    ensures var r := Resize(s, env);
            s.initialized && !s.destroyed && |s.textures| > 0 ==>
              var v := r.state.material.value.resolution;
              && r.ok && v.x == env.width && v.y == env.height
              && (v.z == 1.0 || v.w == 1.0) && 0.0 < v.z <= 1.0 && 0.0 < v.w <= 1.0
              && v.z * env.height == v.w * (s.textures[0].imageHeight / s.textures[0].imageWidth) * env.width
  {
    if s.initialized && !s.destroyed && |s.textures| > 0 {
      CoverFit(env.width, env.height, s.textures[0].imageHeight / s.textures[0].imageWidth);
    }
  }

  /**
   * `replaceShader` carries the textures across the swap: a fragment-only
   * shader shows the outgoing and incoming textures at progress 1, a vertex
   * shader shows the incoming texture on both materials; an unknown name or
   * a missing material changes nothing.
   */
  lemma ReplaceShaderCarriesTextures(s: GLState, env: Env, name: ShaderOption, rand: real)
    requires Inv(s) && IsRandom(rand)
    ensures var r := ReplaceShader(s, env, name, rand);
            var def := Resolve(env.table, name, env.shaderPerSlide, SlideIndex(env), rand);
            && (s.material.None? || def.None? ==> r == Run(s, false))
            && (s.material.Some? && def.Some? ==>
                  var fromTexture := s.material.value.texture1;
                  var newTexture := if s.shader.hasVertex then s.vertexMaterial.value.texture1 else s.material.value.texture2;
                  && r.state.shader == def.value && r.state.generation == s.generation + 1
                  && SameControl(s, r.state)
                  && (!def.value.hasVertex ==>
                        && r.state.material.value.texture1 == fromTexture
                        && r.state.material.value.texture2 == newTexture
                        && r.state.material.value.progress == 1.0)
                  && (def.value.hasVertex ==>
                        && r.state.material.value.texture1 == newTexture
                        && r.state.vertexMaterial.value.texture1 == newTexture))
  {
  }

  /** After `destroy`, `setProgress` and `resize` change nothing. */
  lemma DestroyIsFinal(s: GLState, env: Env, from: int, to: int, p: real, ntd: bool, nsr: bool, rand: real)
    requires Inv(s) && IsRandom(rand)
    ensures var d := Destroy(s);
            && SetProgress(d, env, from, to, p, ntd, nsr, rand) == Run(d, true)
            && Resize(d, env) == Run(d, true)
  {
  }

  /** The replay scheduled by `onInit` never takes the shader-replacement branch, and without a duration never swaps. */
  lemma ReplayNeverForcesReplace(s: GLState, env: Env, rand: real)
    requires Inv(s) && IsRandom(rand) && s.replay.Some?
    ensures var r := RunReplay(s, env, rand);
            && r.state.preventShaderReplace == s.preventShaderReplace
            && r.state.guardReleasePending == s.guardReleasePending
            && (!s.replay.value.needsTransitionDuration ==>
                  r.state.shader == s.shader && r.state.generation == s.generation)
  {
    var p := s.replay.value;
    var s0 := s.(replay := None);
    if Live(s0, env) {
      if p.needsTransitionDuration {
        EasedPath(s0, env, p.from, p.to, p.progress, rand);
      } else {
        DirectPath(s0, env, p.from, p.to, p.progress, rand);
      }
    }
  }

  /** Completing the texture load schedules the stored `onInit` replay and builds the materials. */
  lemma FinishInitSchedulesReplay(s: GLState, env: Env, loaded: seq<Texture>)
    requires Inv(s) && s.loading
    ensures var r := FinishInit(s, env, loaded);
            && r.state.initialized && !r.state.loading && r.state.textures == loaded
            && r.state.replay == (if s.onInit.Some? then s.onInit else s.replay)
            && r.state.material.Some? && r.state.material.value.texture1 == TexAt(loaded, 0)
            && r.state.material.value.texture2 == TexAt(loaded, 1)
            && r.state.generation == s.generation + 1
  {
  }
}
