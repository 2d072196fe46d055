# Swiper WebGL transition driver, modelled in Dafny

This project models the WebGL slide-transition effect of `dash_swiper`. Two
parts are modelled.

- The Swiper module `SwiperGL` (`swiper-gl.esm.js`). Its event handlers decide
  when the effect is active and create the orchestrator. On every
  `setTranslate` they scan the slides' `progress` values to find the pair of
  slides in transition, and they decide whether a CSS-mode snap asks for a
  new shader.
- The transition orchestrator `GL` (`gl/gl.js`). It is a small state machine
  over the uniform cells of its materials (`texture1`, `texture2`,
  `progress`, `resolution`) and its flags `initialized`, `destroyed`,
  `preventShaderReplace` and `onInit`. It picks a shader from the catalogue,
  assigns the outgoing and incoming textures, and either writes the progress
  directly or animates it. It swaps the shader at a boundary and fits the
  image to the surface on `resize`.

The modules:

- `Wrappers`: `Option`, standing for a JavaScript value that may be `undefined`.
- `Shaders`: the shader catalogue and `getRandomShader`. It has a pure
  selection rule (`PickShader`) and the imperative `forEach` that implements
  it (`GetRandomShader`). `Math.random()` is a parameter `rand` in [0, 1).
- `Slides`: the `setTranslate` scan. `ScanSlides` is the loop.
  `LastMatch`, `SlideMatch` and `AnyAtRest` give the meaning of its result.
- `Transition`: the orchestrator as a state machine over values. `GLState`
  holds every field `GL` updates. `Env` holds the options and Swiper fields
  it reads. There is one function per operation.
  - A JavaScript `TypeError` is `Run.ok == false`, and the state is left where
    the source stops. Examples are destructuring an `undefined` shader or
    reading `textures[0]` of an empty list.
  - A material is replaced by `addObjects`, while an animation already
    started keeps writing to the material it started on. A `generation`
    counter records this.
- `TransitionProperties`: the promises of `setProgress`, `animateUniform`,
  `resize`, `replaceShader` and `destroy`, proved about those functions.
- `Carousel`: the objects, each updated in place.
  - `Swiper` holds the Swiper fields the driver touches.
  - `GL` holds one field per orchestrator field. Each method is the
    source's procedure and is proved to leave exactly the state the
    matching `Transition` function computes.
  - `SwiperGL` holds the handlers' closure state (`noWebGLSupport`,
    `needsTransitionDuration`, `previousProgress`).

Callbacks scheduled with `requestAnimationFrame`, and the continuation of
the texture promise, are methods of `GL` of their own. The method that
schedules one records that it is pending (`animateUniformFrame`,
`guardReleasePending`, `replay`, `loading`). The host calls the callback's
method when the browser would run it. A callback that is not pending is a
no-op.

`replaceRandomShader` draws from `opts.shader`, the option fixed when the
orchestrator was built. `setProgress` decides whether to swap at all from
`swiper.params.gl.shader`, which `replaceShader` overwrites. The model keeps
that distinction (`Env.optsShader` against `Env.glShader`).

## Model

| member | source | states |
|---|---|---|
| Shaders.DrawIndex | dash_swiper/src/lib/building_blocks/demo-vite/gl/gl.js:42 | `Math.floor(Math.random() * n)` is an index in [0, n) for n > 0 |
| Shaders.IsRandomPool | dash_swiper/src/lib/building_blocks/demo-vite/gl/gl.js:49 | a list is always a random pool; anything else is a single name other than `random` |
| Shaders.Filter | dash_swiper/src/lib/building_blocks/demo-vite/gl/gl.js:37-40 | the keys collected are exactly the catalogue keys the list names, never more than the catalogue holds |
| Shaders.FilterKeepsOrder | dash_swiper/src/lib/building_blocks/demo-vite/gl/gl.js:37-40 | the collected keys are a subsequence of the catalogue keys (catalogue order kept) and, the catalogue keys being distinct, hold no name twice |
| Shaders.DrawKey | dash_swiper/src/lib/building_blocks/demo-vite/gl/gl.js:42-43 | a key is drawn exactly when there are keys, and it is one of them |
| Shaders.PickShader | dash_swiper/src/lib/building_blocks/demo-vite/gl/gl.js:28-44 | a picked key is always in the catalogue |
| Shaders.Resolve | dash_swiper/src/lib/building_blocks/demo-vite/gl/gl.js:48-51 | a random pool goes through `getRandomShader`; a name resolves exactly when it is in the catalogue, to its entry |
| Shaders.GetRandomShader | dash_swiper/src/lib/building_blocks/demo-vite/gl/gl.js:28-44 | the `forEach` collection and the draw return the key `PickShader` selects |
| Shaders.ResolveShader | dash_swiper/src/lib/building_blocks/demo-vite/gl/gl.js:315-318 | the shader expression of `replaceShader` and of the constructor yields `Resolve` |
| Shaders.PerSlidePick | dash_swiper/src/lib/building_blocks/demo-vite/gl/gl.js:30-35 | with `shaderPerSlide`, slide `index` gets `arr[index]`, or `arr[0]` past the end of the list |
| Shaders.ListPickIsListedAndKnown | dash_swiper/src/lib/building_blocks/demo-vite/gl/gl.js:36-43 | without `shaderPerSlide`, a list pick exists exactly when a listed name is in the catalogue, and it lies in both |
| Shaders.DrawIndexAt | dash_swiper/src/lib/building_blocks/demo-vite/gl/gl.js:42 | the draw i/n selects index i |
| Shaders.DrawKeyReachable | dash_swiper/src/lib/building_blocks/demo-vite/gl/gl.js:42-43 | every key of the list is drawn for some random value |
| Shaders.EveryCandidateReachable | dash_swiper/src/lib/building_blocks/demo-vite/gl/gl.js:36-43 | every candidate of a random pick (all keys, or the listed known keys) is chosen for some random value |
| Slides.Round | dash_swiper/src/lib/building_blocks/demo-vite/swiper-gl.esm.js:83 | `Math.round` returns the integer within half of its argument, halves going up |
| Slides.AtRest | dash_swiper/src/lib/building_blocks/demo-vite/swiper-gl.esm.js:83 | a slide is at rest exactly when its progress lies in [-0.005, 0.005) |
| Slides.IsWhole | dash_swiper/src/lib/building_blocks/demo-vite/swiper-gl.esm.js:110 | `Math.round(x) === x` exactly when x is an integer; within [0,1] exactly at 0 and 1 |
| Slides.SlideMatch | dash_swiper/src/lib/building_blocks/demo-vite/swiper-gl.esm.js:86-101 | a slide matches exactly when its progress is in (0,1) or (-1,0), or is 0 while the Swiper progress moved; forward gives (i, i+1, p), backward (i-1, i, 1+p), and progress stays in [0,1] |
| Slides.ScanSlides | dash_swiper/src/lib/building_blocks/demo-vite/swiper-gl.esm.js:76-102 | the loop leaves the last match and the CSS-mode at-rest flag |
| Slides.AnyAtRest | dash_swiper/src/lib/building_blocks/demo-vite/swiper-gl.esm.js:83-85 | some slide has a progress in [-0.005, 0.005); never for an empty slide list |
| Slides.LastMatch | dash_swiper/src/lib/building_blocks/demo-vite/swiper-gl.esm.js:80-102 | the match the `forEach` leaves spans two adjacent indices (`to = from + 1`) with -1 ≤ `from` and `to` ≤ the number of slides, so one end may lie outside the list at the first or last slide; progress in [0,1]; an empty list gives none |
| Slides.LastMatchIsHighest | dash_swiper/src/lib/building_blocks/demo-vite/swiper-gl.esm.js:80-107 | the scan finds nothing exactly when no slide matches; otherwise it is the highest-indexed match, with `to = from + 1` and progress in [0,1] |
| Slides.ReplaceOnlyAtBoundary | dash_swiper/src/lib/building_blocks/demo-vite/swiper-gl.esm.js:108-110 | a replacement request needs CSS mode, a slide at rest and a transition progress of exactly 0 or 1 |
| Slides.NeedShaderReplace | dash_swiper/src/lib/building_blocks/demo-vite/swiper-gl.esm.js:108-110 | a request needs the at-rest flag; for a progress in [0,1] it is made exactly when the flag is set and the progress is 0 or 1 |
| Slides.NeedsTransitionDuration | dash_swiper/src/lib/building_blocks/demo-vite/swiper-gl.esm.js:122 | a duration is needed exactly for a positive duration outside CSS mode |
| Transition.Initial | dash_swiper/src/lib/building_blocks/demo-vite/gl/gl.js:47-92 | a new orchestrator is loading, neither initialized nor destroyed, and keeps the invariant |
| Transition.TexAt | dash_swiper/src/lib/building_blocks/demo-vite/gl/gl.js:384-385 | `textures[i]` is defined exactly for an index inside the list |
| Transition.Abs | dash_swiper/src/lib/building_blocks/demo-vite/gl/gl.js:395 | `Math.abs` is non-negative, is x or -x, and is x for non-negative x |
| Transition.SlideIndex | dash_swiper/src/lib/building_blocks/demo-vite/gl/gl.js:30 | the index is `realIndex` in loop mode and `activeIndex` otherwise |
| Transition.FreshUniforms | dash_swiper/src/lib/building_blocks/demo-vite/gl/gl.js:231-262 | a new material shows the first two textures at progress 0 |
| Transition.AddObjects | dash_swiper/src/lib/building_blocks/demo-vite/gl/gl.js:264-303 | new materials; the vertex material's `texture1` is the second texture; nothing else changes |
| Transition.CoverRatios | dash_swiper/src/lib/building_blocks/demo-vite/gl/gl.js:198-208 | `a1 = min(1, w/h·aspect)` and `a2 = min(1, h/w/aspect)` |
| Transition.CoverFit | dash_swiper/src/lib/building_blocks/demo-vite/gl/gl.js:198-208 | one ratio is 1, both lie in (0,1], both are 1 exactly when h/w equals the image aspect, and `a1·h = a2·aspect·w` |
| Transition.Resize | dash_swiper/src/lib/building_blocks/demo-vite/gl/gl.js:185-229 | a no-op unless initialized and not destroyed; live, it records the Swiper's width and height, throws exactly when there is no first texture, and otherwise writes the size and the cover ratios to the resolution; shader, animation and control flags are unchanged |
| Transition.ReplaceRandomShader | dash_swiper/src/lib/building_blocks/demo-vite/gl/gl.js:338-347 | throws without effect when the pick is undefined; otherwise the picked shader with new materials, control flags untouched |
| Transition.Complete | dash_swiper/src/lib/building_blocks/demo-vite/gl/gl.js:421-435 | the completion callback keeps the invariant and the control flags, and for a non-random option cannot throw nor change the shader |
| Transition.Reached | dash_swiper/src/lib/building_blocks/demo-vite/gl/gl.js:103-105 | `isOutOfBound` holds at the target, and never strictly between the start and the target |
| Transition.Lerp | dash_swiper/src/lib/building_blocks/demo-vite/gl/gl.js:119-120 | the interpolated position lies between start and target, and is the target at full ease |
| Transition.Eased | dash_swiper/src/lib/building_blocks/demo-vite/gl/gl.js:117-124 | the written value lies between start and target, reaches the target only by being set to it, and is the target at full ease |
| Transition.Frame | dash_swiper/src/lib/building_blocks/demo-vite/gl/gl.js:107-132 | one animation frame keeps the invariant and the control flags, and for a non-random option leaves the shader |
| Transition.AnimateProgress | dash_swiper/src/lib/building_blocks/demo-vite/gl/gl.js:94-134 | starting an animation keeps the invariant and the control flags, and for a non-random option leaves the shader |
| Transition.Flipped | dash_swiper/src/lib/building_blocks/demo-vite/gl/gl.js:415-420 | target 0 at current 0 flips to 1, target 1 at current 1 flips to 0, otherwise unchanged |
| Transition.Remap | dash_swiper/src/lib/building_blocks/demo-vite/gl/gl.js:370-383 | indices are remapped to the slides' `data-swiper-slide-index` only in loop mode and only when both slides exist; otherwise they are kept |
| Transition.AssignTextures | dash_swiper/src/lib/building_blocks/demo-vite/gl/gl.js:387-392 | `texture1` gets the outgoing texture; the incoming one goes to `texture2`, or to the vertex material's `texture1` for a vertex shader |
| Transition.ShaderReplaceStep | dash_swiper/src/lib/building_blocks/demo-vite/gl/gl.js:393-413 | the guard is set after the replacement branch; textures, initialization and the deferred replay are untouched; while already guarded or for a non-random option the shader stays |
| Transition.SwapRandom | dash_swiper/src/lib/building_blocks/demo-vite/gl/gl.js:403-410 | the random swap keeps the invariant and the control flags |
| Transition.EasedStep | dash_swiper/src/lib/building_blocks/demo-vite/gl/gl.js:414-435 | the eased branch keeps the control flags, and for a non-random option leaves the shader |
| Transition.SetProgress | dash_swiper/src/lib/building_blocks/demo-vite/gl/gl.js:349-439 | a no-op when destroyed; before initialization it only stores the replay; it never changes the textures, initialization, destruction or the pending replay; only a replacement request changes the guard, and a live one sets it; for a non-random `gl.shader` it never throws and never changes the shader |
| Transition.CarryTextures | dash_swiper/src/lib/building_blocks/demo-vite/gl/gl.js:325-333 | a vertex shader shows the incoming texture on both materials; otherwise outgoing and incoming at progress 1 |
| Transition.ReplaceShader | dash_swiper/src/lib/building_blocks/demo-vite/gl/gl.js:305-336 | throws without effect when there is no material or the name does not resolve; otherwise the resolved shader with new materials (generation + 1), control flags kept |
| Transition.Rebuild | dash_swiper/src/lib/building_blocks/demo-vite/gl/gl.js:319-334 | the materials are rebuilt for the given shader (generation + 1) with the animation and control flags kept; it throws exactly when the orchestrator is live with no texture |
| Transition.Destroy | dash_swiper/src/lib/building_blocks/demo-vite/gl/gl.js:454-458 | destroyed and no longer initialized |
| Transition.FinishInit | dash_swiper/src/lib/building_blocks/demo-vite/gl/gl.js:177-183 | once loading: the loaded textures, initialized, destroyed unchanged, the stored `onInit` call scheduled, new materials for the same shader; it throws exactly when live with no texture; a second resolution changes nothing |
| Transition.RunReplay | dash_swiper/src/lib/building_blocks/demo-vite/gl/gl.js:358-366 | the deferred replay runs once (no replay is pending afterwards), never changes the guard, and keeps textures, initialization and destruction; with nothing pending it changes nothing |
| Transition.ReleaseGuard | dash_swiper/src/lib/building_blocks/demo-vite/gl/gl.js:399-401 | the frame callback clears `preventShaderReplace` |
| TransitionProperties.DirectPath | dash_swiper/src/lib/building_blocks/demo-vite/gl/gl.js:384-392 | the direct path assigns the textures, writes `|progress|` and changes nothing else |
| TransitionProperties.GuardedReplace | dash_swiper/src/lib/building_blocks/demo-vite/gl/gl.js:393-397 | a replacement request while guarded writes only the textures and `|progress|`, and swaps no shader |
| TransitionProperties.UnguardedReplace | dash_swiper/src/lib/building_blocks/demo-vite/gl/gl.js:398-413 | an unguarded request sets the guard; it swaps only for a random pool, and then puts both textures and `|progress|` back |
| TransitionProperties.ReplaceDebounced | dash_swiper/src/lib/building_blocks/demo-vite/gl/gl.js:393-401 | two replacement requests with no guard release between them: the second swaps nothing |
| TransitionProperties.EasedPath | dash_swiper/src/lib/building_blocks/demo-vite/gl/gl.js:414-420 | the eased path flips the cell, then leaves an animation from the flipped value to the target pending, or completes at once when they agree |
| TransitionProperties.CompletionSettles | dash_swiper/src/lib/building_blocks/demo-vite/gl/gl.js:421-435 | completion leaves progress 0, and `texture1` is the new texture after a forward transition |
| TransitionProperties.FrameStepsTowardTarget | dash_swiper/src/lib/building_blocks/demo-vite/gl/gl.js:107-132 | a frame never passes the target; short of it the animation stays pending, at it the target is written exactly, the callback runs and stepping stops |
| TransitionProperties.StoppedAnimationIsInert | dash_swiper/src/lib/building_blocks/demo-vite/gl/gl.js:126-131 | once stopped, a further frame changes nothing, so the callback runs once |
| TransitionProperties.FrameAfterDestroy | dash_swiper/src/lib/building_blocks/demo-vite/gl/gl.js:108 | a frame after `destroy` writes nothing and stops |
| TransitionProperties.ResizeFits | dash_swiper/src/lib/building_blocks/demo-vite/gl/gl.js:185-214 | `resize` is a no-op unless live; live with a texture, the resolution holds the size and cover ratios with one of them 1 |
| TransitionProperties.ReplaceShaderCarriesTextures | dash_swiper/src/lib/building_blocks/demo-vite/gl/gl.js:305-336 | the swap carries the outgoing and incoming textures into the new materials; an unknown name or missing material changes nothing |
| TransitionProperties.DestroyIsFinal | dash_swiper/src/lib/building_blocks/demo-vite/gl/gl.js:454-458 | after `destroy`, `setProgress` and `resize` change nothing |
| TransitionProperties.ReplayNeverForcesReplace | dash_swiper/src/lib/building_blocks/demo-vite/gl/gl.js:358-366 | the deferred replay never arms the guard, and without a duration never swaps the shader |
| TransitionProperties.FinishInitSchedulesReplay | dash_swiper/src/lib/building_blocks/demo-vite/gl/gl.js:177-183 | the loaded textures, initialized, the stored replay scheduled, and new materials on the first two textures |
| Carousel.Swiper.constructor | dash_swiper/src/lib/building_blocks/demo-vite/swiper-gl.esm.js:8 | a Swiper starts without an orchestrator |
| Carousel.Swiper.ShaderIndex | dash_swiper/src/lib/building_blocks/demo-vite/gl/gl.js:30 | the index is `realIndex` in loop mode and `activeIndex` otherwise; `GL.Context` states it agrees with `Transition.SlideIndex` |
| Carousel.GL.constructor | dash_swiper/src/lib/building_blocks/demo-vite/gl/gl.js:47-92 | the state is `Initial` for the picked shader and the Swiper's size |
| Carousel.GL.AddObjects | dash_swiper/src/lib/building_blocks/demo-vite/gl/gl.js:264-303 | leaves `Transition.AddObjects` of the old state |
| Carousel.GL.Resize | dash_swiper/src/lib/building_blocks/demo-vite/gl/gl.js:185-229 | leaves `Transition.Resize` of the old state |
| Carousel.GL.ReplaceRandomShader | dash_swiper/src/lib/building_blocks/demo-vite/gl/gl.js:338-347 | leaves `Transition.ReplaceRandomShader` of the old state |
| Carousel.GL.Complete | dash_swiper/src/lib/building_blocks/demo-vite/gl/gl.js:421-435 | leaves `Transition.Complete` of the old state |
| Carousel.GL.AnimationFrame | dash_swiper/src/lib/building_blocks/demo-vite/gl/gl.js:107-132 | leaves `Transition.Frame` of the old state |
| Carousel.GL.AnimateUniform | dash_swiper/src/lib/building_blocks/demo-vite/gl/gl.js:94-134 | leaves `Transition.AnimateProgress` of the old state |
| Carousel.GL.AssignTextures | dash_swiper/src/lib/building_blocks/demo-vite/gl/gl.js:387-392 | leaves `Transition.AssignTextures` of the old state |
| Carousel.GL.ShaderReplaceStep | dash_swiper/src/lib/building_blocks/demo-vite/gl/gl.js:393-413 | leaves `Transition.ShaderReplaceStep` of the old state |
| Carousel.GL.SwapRandom | dash_swiper/src/lib/building_blocks/demo-vite/gl/gl.js:403-410 | leaves `Transition.SwapRandom` of the old state |
| Carousel.GL.EasedStep | dash_swiper/src/lib/building_blocks/demo-vite/gl/gl.js:414-435 | leaves `Transition.EasedStep` of the old state |
| Carousel.GL.SetProgress | dash_swiper/src/lib/building_blocks/demo-vite/gl/gl.js:349-439 | leaves `Transition.SetProgress` of the old state |
| Carousel.GL.CarryTextures | dash_swiper/src/lib/building_blocks/demo-vite/gl/gl.js:325-333 | leaves `Transition.CarryTextures` of the old state |
| Carousel.GL.SwapShader | dash_swiper/src/lib/building_blocks/demo-vite/gl/gl.js:305-334 | leaves `Transition.ReplaceShader` of the old state |
| Carousel.GL.Rebuild | dash_swiper/src/lib/building_blocks/demo-vite/gl/gl.js:319-334 | leaves `Transition.Rebuild` of the old state |
| Carousel.GL.ReplaceShader | dash_swiper/src/lib/building_blocks/demo-vite/gl/gl.js:305-336 | leaves `Transition.ReplaceShader`, and the Swiper's `gl.shader` becomes the new name once the swap ran to its end |
| Carousel.GL.Destroy | dash_swiper/src/lib/building_blocks/demo-vite/gl/gl.js:454-458 | leaves `Transition.Destroy` of the old state |
| Carousel.GL.FinishInit | dash_swiper/src/lib/building_blocks/demo-vite/gl/gl.js:177-183 | leaves `Transition.FinishInit` of the old state: the `then` of `init` together with the callback the constructor passes to it (gl.js lines 87-91) |
| Carousel.GL.ReplayDeferred | dash_swiper/src/lib/building_blocks/demo-vite/gl/gl.js:358-366 | leaves `Transition.RunReplay` of the old state |
| Carousel.GL.ReleaseShaderReplaceGuard | dash_swiper/src/lib/building_blocks/demo-vite/gl/gl.js:399-401 | leaves `Transition.ReleaseGuard` of the old state |
| Carousel.TranslateStep | dash_swiper/src/lib/building_blocks/demo-vite/swiper-gl.esm.js:80-117 | no match changes nothing; a match never changes the textures, initialization or destruction, changes the guard only in CSS mode with a slide at rest, and for a non-random `gl.shader` neither throws nor swaps the shader |
| Carousel.TranslateArmsGuardOnlyAtRest | dash_swiper/src/lib/building_blocks/demo-vite/swiper-gl.esm.js:83-117 | a translate arms the replacement guard only in CSS mode, with a slide at rest, at a transition progress of 0 or 1 |
| Carousel.SwiperGL.constructor | dash_swiper/src/lib/building_blocks/demo-vite/swiper-gl.esm.js:7-41 | no orchestrator, WebGL assumed, no duration, no previous progress |
| Carousel.SwiperGL.Inactive | dash_swiper/src/lib/building_blocks/demo-vite/swiper-gl.esm.js:57-58 | the `init`, `resize`, `setTranslate` and `setTransition` handlers return early exactly when the effect is not `gl`, WebGL is missing or the carousel is destroyed (`beforeInit` and `beforeDestroy` do not use this gate) |
| Carousel.SwiperGL.BeforeInit | dash_swiper/src/lib/building_blocks/demo-vite/swiper-gl.esm.js:43-56 | outside the `gl` effect nothing; without WebGL only the flag; otherwise `watchSlidesProgress` |
| Carousel.SwiperGL.GlInit | dash_swiper/src/lib/building_blocks/demo-vite/swiper-gl.esm.js:31-38 | a new orchestrator in its initial state exactly when the configured shader resolves |
| Carousel.SwiperGL.Init | dash_swiper/src/lib/building_blocks/demo-vite/swiper-gl.esm.js:57-63 | gated; creates the orchestrator only when there is none |
| Carousel.SwiperGL.OnResize | dash_swiper/src/lib/building_blocks/demo-vite/swiper-gl.esm.js:64-68 | gated; otherwise the orchestrator's `resize` |
| Carousel.SwiperGL.SetTranslate | dash_swiper/src/lib/building_blocks/demo-vite/swiper-gl.esm.js:70-118 | gated; creates the orchestrator if needed, records the Swiper's progress whenever the orchestrator exists (even when nothing matched), and applies `TranslateStep` |
| Carousel.SwiperGL.SetTransition | dash_swiper/src/lib/building_blocks/demo-vite/swiper-gl.esm.js:119-123 | gated; otherwise the flag is `NeedsTransitionDuration` |
| Carousel.SwiperGL.BeforeDestroy | dash_swiper/src/lib/building_blocks/demo-vite/swiper-gl.esm.js:136-143 | marks `glDestroyed`, destroys the orchestrator and drops it |

## Left out

- The `ogl` rendering library (`Renderer`, `Program`, `Mesh`, `Camera`, `Transform`, `Plane`, `Texture`) is foreign code that is not part of this model. Its calls are not modelled: renderer size, camera perspective and `fov`, mesh scales, scene children, and `render` with its `time` uniform. A material is only the record of the uniform cells the driver writes.
- The GLSL sources of the shaders (`shaders/*.js`, `shadersCommon.js`) are GPU code. A catalogue entry is only whether it has a vertex stage. The per-shader `uniforms` that `render` copies are left out with `render`.
- `loadTextures`, `supportsWebGL` and the canvas insertion and removal are image loading and DOM work. The loaded textures arrive as the argument of `GL.FinishInit`, and WebGL support as the argument of `SwiperGL.BeforeInit`. `slidesGridLengthChange`, which reloads the textures, is not modelled.
- Timing: `requestAnimationFrame` callbacks are methods the host calls, in any order. The cosine ease of a frame is the argument `ease` in [0, 1] rather than computed from `Date.getTime()` and `params.speed`. A speed of 0 (which makes the ease NaN) is therefore not modelled.
- Floating point: sizes and image dimensions are positive reals, so IEEE infinities, NaN and rounding are not modelled.
- `Carousel.GL.constructor`: the shader is picked before construction by `SwiperGL.GlInit`. A constructor cannot fail, whereas `new GL` throws on an undefined pick.
- `Carousel.SwiperGL.SetTranslate`: the two draws of `Math.random()` it may make (in the constructor and in a shader swap) are the separate arguments `randInit` and `rand`.
- The class names pushed by `beforeInit`, `originalParams`, and the default parameters given to `extendParams` are configuration only.
- Loop-mode remapping reads each slide's `data-swiper-slide-index` as the integer field `Slide.dataIndex`. The DOM attribute and `parseInt` are not modelled.
- The React and Dash wrappers are UI glue and are not part of this model.
