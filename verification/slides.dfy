/**
 * The `setTranslate` scan of `swiper-gl.esm.js`: from the per-slide progress
 * values Swiper maintains, derive which pair of slides is in transition, how
 * far, and whether a CSS-mode snap asks for a shader replacement.
 */
module Slides {
  import opened Wrappers

  /** A slide as the driver sees it: its `progress` and its `data-swiper-slide-index`. */
  datatype Slide = Slide(progress: real, dataIndex: int)

  /** The `(from, to, transitionProgress)` triple handed to `setProgress`. */
  datatype Span = Span(from: int, to: int, progress: real)

  /** `Math.round`: halves round towards positive infinity. */
  function Round(x: real): (n: int)
    ensures n as real - 0.5 <= x < n as real + 0.5
  {
    (x + 0.5).Floor
  }

  /** `Math.round(progress * 100) === 0`: the slide sits at rest to within half a percent. */
  predicate AtRest(p: real)
    ensures AtRest(p) <==> -0.005 <= p < 0.005
  {
    Round(p * 100.0) == 0
  }

  /** `Math.round(x) === x`. */
  predicate IsWhole(x: real)
    ensures IsWhole(x) <==> x == x.Floor as real
    ensures 0.0 <= x <= 1.0 ==> (IsWhole(x) <==> x == 0.0 || x == 1.0)
  {
    var n := Round(x);
    var f := x.Floor;
    assert n as real == x <==> x == f as real by {
      if x == f as real {
        assert (x + 0.5).Floor == f;
      }
    }
    assert 0.0 <= x <= 1.0 && x == f as real ==> x == 0.0 || x == 1.0 by {
      if 0.0 <= x <= 1.0 && x == f as real {
        assert 0 <= f <= 1;
      }
    }
    n as real == x
  }

  /**
   * What slide `i` contributes to the scan. The second test of the source
   * overrides the first; the two never hold together.
   */
  function SlideMatch(i: int, p: real, swiperProgress: real, previous: Option<real>): (r: Option<Span>)
    ensures r.Some? <==> (0.0 < p < 1.0 || -1.0 < p < 0.0 || (p == 0.0 && previous.Some? && swiperProgress != previous.value))
    ensures r.Some? ==> r.value.to == r.value.from + 1 && 0.0 <= r.value.progress <= 1.0
    ensures r.Some? && p > 0.0 ==> r.value == Span(i, i + 1, p)
    ensures r.Some? && p < 0.0 ==> r.value == Span(i - 1, i, 1.0 + p)
    ensures r.Some? && p == 0.0 ==>
              r.value == if swiperProgress < previous.value then Span(i, i + 1, 0.0) else Span(i - 1, i, 1.0)
  {
    var forward := (0.0 < p < 1.0) || (p == 0.0 && previous.Some? && swiperProgress < previous.value);
    var backward := (-1.0 < p < 0.0) || (p == 0.0 && previous.Some? && swiperProgress > previous.value);
    if backward then Some(Span(i - 1, i, 1.0 + p))
    else if forward then Some(Span(i, i + 1, p))
    else None
  }

  /** The match of the highest-indexed matching slide: the last assignment of the `forEach` wins. */
  function LastMatch(slides: seq<Slide>, swiperProgress: real, previous: Option<real>): (r: Option<Span>)
    ensures slides == [] ==> r.None?
    ensures r.Some? ==> r.value.to == r.value.from + 1 && 0.0 <= r.value.progress <= 1.0
    ensures r.Some? ==> -1 <= r.value.from && r.value.to <= |slides|
  {
    if slides == [] then None
    else
      var i := |slides| - 1;
      var m := SlideMatch(i, slides[i].progress, swiperProgress, previous);
      if m.Some? then m else LastMatch(slides[..i], swiperProgress, previous)
  }

  /** Some slide is at rest (the CSS-mode shader-replacement trigger). */
  predicate AnyAtRest(slides: seq<Slide>)
    ensures AnyAtRest(slides) <==> exists i :: 0 <= i < |slides| && -0.005 <= slides[i].progress < 0.005
    ensures AnyAtRest(slides) ==> slides != []
  {
    exists i :: 0 <= i < |slides| && AtRest(slides[i].progress)
  }

  /**
   * The `forEach` of the `setTranslate` handler: `found` is the transition the
   * scan leaves in `from`, `to`, `transitionProgress` (`None` when both stay
   * undefined), `atRest` the value it leaves in `needShaderReplace`.
   */
  method ScanSlides(slides: seq<Slide>, cssMode: bool, swiperProgress: real, previous: Option<real>)
    returns (found: Option<Span>, atRest: bool)
    ensures found == LastMatch(slides, swiperProgress, previous)
    ensures atRest <==> cssMode && AnyAtRest(slides)
  {
    // `matched` is false while `from` and `to` are still undefined
    var from, to, transitionProgress, matched := 0, 0, 0.0, false;
    atRest := false;
    var slideIndex := 0;
    while slideIndex < |slides|
      invariant 0 <= slideIndex <= |slides|
      invariant LastMatch(slides[..slideIndex], swiperProgress, previous)
                == if matched then Some(Span(from, to, transitionProgress)) else None
      invariant atRest <==> cssMode && AnyAtRest(slides[..slideIndex])
    {
      var progress := slides[slideIndex].progress;
      assert slides[..slideIndex + 1][..slideIndex] == slides[..slideIndex];
      assert slides[..slideIndex + 1][slideIndex] == slides[slideIndex];
      if cssMode && Round(progress * 100.0) == 0 {
        atRest := true;
      }
      if (progress > 0.0 && progress < 1.0)
         || (progress == 0.0 && previous.Some? && swiperProgress < previous.value) {
        from, to, transitionProgress := slideIndex, slideIndex + 1, progress;
        matched := true;
      }
      if (progress < 0.0 && progress > -1.0)
         || (progress == 0.0 && previous.Some? && swiperProgress > previous.value) {
        from, to, transitionProgress := slideIndex - 1, slideIndex, 1.0 + progress;
        matched := true;
      }
      slideIndex := slideIndex + 1;
    }
    assert slides[..slideIndex] == slides;
    found := if matched then Some(Span(from, to, transitionProgress)) else None;
  }

  /**
   * The scan finds a transition exactly when some slide matches; it is the
   * match of the highest-indexed such slide, and it spans two adjacent slides
   * with a progress in [0, 1].
   */
  lemma {:induction false} LastMatchIsHighest(slides: seq<Slide>, swiperProgress: real, previous: Option<real>)
    ensures var r := LastMatch(slides, swiperProgress, previous);
            && (r.None? <==> forall i :: 0 <= i < |slides| ==> SlideMatch(i, slides[i].progress, swiperProgress, previous).None?)
            && (r.Some? ==> r.value.to == r.value.from + 1 && 0.0 <= r.value.progress <= 1.0)
            && (r.Some? ==> exists i :: (0 <= i < |slides|
                  && r == SlideMatch(i, slides[i].progress, swiperProgress, previous)
                  && forall j :: i < j < |slides| ==> SlideMatch(j, slides[j].progress, swiperProgress, previous).None?))
  {
    if slides != [] {
      var n := |slides| - 1;
      var m := SlideMatch(n, slides[n].progress, swiperProgress, previous);
      if m.Some? {
        assert 0 <= n < |slides| && LastMatch(slides, swiperProgress, previous) == SlideMatch(n, slides[n].progress, swiperProgress, previous);
      } else {
        var init := slides[..n];
        LastMatchIsHighest(init, swiperProgress, previous);
        forall i | 0 <= i < n
          ensures SlideMatch(i, init[i].progress, swiperProgress, previous) == SlideMatch(i, slides[i].progress, swiperProgress, previous)
        {
          assert init[i] == slides[i];
        }
        var r := LastMatch(init, swiperProgress, previous);
        if r.Some? {
          var i :| 0 <= i < n
                   && r == SlideMatch(i, init[i].progress, swiperProgress, previous)
                   && forall j :: i < j < n ==> SlideMatch(j, init[j].progress, swiperProgress, previous).None?;
          assert r == SlideMatch(i, slides[i].progress, swiperProgress, previous);
        }
      }
    }
  }

  /** `needShaderReplace` as passed to `setProgress`: the scan's flag and a whole `transitionProgress`. */
  function NeedShaderReplace(atRest: bool, t: Span): (r: bool)
    ensures r ==> atRest
    ensures 0.0 <= t.progress <= 1.0 ==> (r <==> atRest && (t.progress == 0.0 || t.progress == 1.0))
  {
    atRest && IsWhole(t.progress)
  }

  /** A shader replacement is only requested at a boundary: the transition progress is exactly 0 or 1. */
  lemma ReplaceOnlyAtBoundary(slides: seq<Slide>, cssMode: bool, swiperProgress: real, previous: Option<real>)
    requires LastMatch(slides, swiperProgress, previous).Some?
    ensures var t := LastMatch(slides, swiperProgress, previous).value;
            NeedShaderReplace(cssMode && AnyAtRest(slides), t) ==>
              cssMode && AnyAtRest(slides) && (t.progress == 0.0 || t.progress == 1.0)
  {
    LastMatchIsHighest(slides, swiperProgress, previous);
  }

  /** `setTransition`: a duration is needed for a positive duration outside CSS mode. */
  function NeedsTransitionDuration(duration: real, cssMode: bool): (r: bool)
    ensures r ==> duration > 0.0
    ensures cssMode ==> !r
    ensures duration > 0.0 && !cssMode ==> r
  {
    duration > 0.0 && !cssMode
  }
}
