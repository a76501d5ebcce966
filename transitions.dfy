/** A model of the transition driver of the feh image viewer (src/transitions.c).

    One call of the driver looks at the transition fields of a window widget:
    the displayed image, the retained previous image (owned by the widget), the
    "a transition is running" flag, the step counter and the transition kind.
    It either cleans up (invalid input), hands over to the routine of a known
    kind (fade, slide; both are placeholders that only log), or aborts (any
    other kind). Releasing the previous image is the one effect that reaches
    outside the widget; it is recorded in a ghost log so that the ownership
    promise, "released at most once, then forgotten", can be stated.
 */
module Transitions {

  /** A C pointer that may be NULL. */
  datatype Option<T> = None | Some(value: T)

  /** An imlib image, identified by its handle (the pointer value in C). */
  datatype Image = Image(handle: nat)

  /** `enum transition_type` of src/transitions.h, with its C values. */
  datatype TransitionType = NoTransition | Fade | Slide | Glitch
  {
    /** The integer the C enum gives this constant. */
    function Code(): (c: int)
      ensures 0 <= c <= 3
    {
      match this
      case NoTransition => 0
      case Fade => 1
      case Slide => 2
      case Glitch => 3
    }
  }

  /** The enum constant an integer stands for, if any. */
  function FromCode(c: int): (t: Option<TransitionType>)
    ensures t.Some? <==> 0 <= c <= 3
    ensures t.Some? ==> t.value.Code() == c
  {
    if c == 0 then Some(NoTransition)
    else if c == 1 then Some(Fade)
    else if c == 2 then Some(Slide)
    else if c == 3 then Some(Glitch)
    else None
  }

  /** Encoding a constant and decoding it again gives the constant back. */
  lemma CodeRoundTrip(t: TransitionType)
    ensures FromCode(t.Code()) == Some(t)
  {
  }

  /** The transition fields of a `winwidget`, as a value. */
  datatype WidgetState = WidgetState(
    im: Option<Image>,
    oldIm: Option<Image>,
    inTransition: int,
    transitionStep: int,
    transitionType: int)

  /** The validation guard: a non-null widget with both images and the flag set. */
  predicate ReadyToStep(w: Option<WidgetState>)
  {
    w.Some? && w.value.im.Some? && w.value.oldIm.Some? && w.value.inTransition != 0
  }

  /** The kinds that have a per-kind routine. */
  predicate HasHandler(transitionType: int)
  {
    transitionType == Fade.Code() || transitionType == Slide.Code()
  }

  /** What one call does: its return value, the widget afterwards (None for a
      NULL widget) and the images it released, in order. */
  datatype Outcome = Outcome(ret: int, after: Option<WidgetState>, released: seq<Image>)

  /** The releases caused by freeing a pointer that may be NULL. */
  function ReleaseHeld(p: Option<Image>): seq<Image>
  {
    if p.Some? then [p.value] else []
  }

  /** One call of the transition driver, on the widget's fields as a value. */
  function Step(w: Option<WidgetState>): (r: Outcome)
    // every path returns 0
    ensures r.ret == 0
    // a NULL widget stays NULL, a widget stays a widget
    ensures r.after.None? <==> w.None?
    // the only image that can be released is the held previous image, once
    ensures r.released == [] || (w.Some? && w.value.oldIm.Some? && r.released == [w.value.oldIm.value])
    // nothing is leaked: the held previous image is either released or still held
    ensures w.Some? ==> ReleaseHeld(w.value.oldIm) == r.released + ReleaseHeld(r.after.value.oldIm)
    // a released image is forgotten
    ensures r.released != [] ==> r.after.Some? && r.after.value.oldIm.None?
    // the previous image is kept or forgotten, never replaced
    ensures r.after.Some? && r.after.value.oldIm.Some? ==> r.released == [] && r.after.value.oldIm == w.value.oldIm
    // whatever path clears the flag also lets go of the previous image
    ensures r.after.Some? && r.after.value.inTransition == 0 ==> r.after.value.oldIm.None?
    // the displayed image and the kind are never touched
    ensures r.after.Some? ==> r.after.value.im == w.value.im && r.after.value.transitionType == w.value.transitionType
  {
    match w
    case None => Outcome(0, None, [])
    case Some(f) =>
      if !ReadyToStep(w) then
        Outcome(0, Some(f.(oldIm := None, inTransition := 0, transitionStep := 0)), ReleaseHeld(f.oldIm))
      else if HasHandler(f.transitionType) then
        // the fade and slide routines only log
        Outcome(0, w, [])
      else
        Outcome(0, Some(f.(inTransition := 0, oldIm := None)), [f.oldIm.value])
  }

  lemma NullWidgetIsNoOp()
    ensures Step(None) == Outcome(0, None, [])
  {
  }

  lemma InvalidInputCleansUp(f: WidgetState)
    requires !ReadyToStep(Some(f))
    ensures Step(Some(f)).ret == 0
    ensures Step(Some(f)).after == Some(f.(oldIm := None, inTransition := 0, transitionStep := 0))
    ensures Step(Some(f)).released == (if f.oldIm.Some? then [f.oldIm.value] else [])
  {
  }

  lemma UnknownKindAborts(f: WidgetState)
    requires ReadyToStep(Some(f))
    requires !HasHandler(f.transitionType)
    ensures Step(Some(f)).ret == 0
    ensures Step(Some(f)).after == Some(f.(oldIm := None, inTransition := 0))
    ensures Step(Some(f)).released == [f.oldIm.value]
  {
  }

  lemma KnownKindChangesNothing(f: WidgetState)
    requires ReadyToStep(Some(f))
    requires HasHandler(f.transitionType)
    ensures Step(Some(f)) == Outcome(0, Some(f), [])
  {
  }

  /** The per-kind routines are reached exactly for the enum constants FADE
      and SLIDE; NONE, GLITCH and every value outside the enum take the abort
      path. */
  lemma DispatchByKind(transitionType: int)
    ensures HasHandler(transitionType)
        <==> FromCode(transitionType) == Some(Fade) || FromCode(transitionType) == Some(Slide)
    ensures !HasHandler(transitionType)
        <==> FromCode(transitionType) in {None, Some(NoTransition), Some(Glitch)}
  {
  }

  /** The widget and the releases after `n` consecutive calls. */
  datatype Trace = Trace(after: Option<WidgetState>, released: seq<Image>)

  function Run(w: Option<WidgetState>, n: nat): Trace
    decreases n
  {
    if n == 0 then Trace(w, [])
    else
      var first := Step(w);
      var rest := Run(first.after, n - 1);
      Trace(rest.after, first.released + rest.released)
  }

  predicate NoDuplicates(s: seq<Image>)
  {
    forall i, j :: 0 <= i < j < |s| ==> s[i] != s[j]
  }

  /** However many times the driver is called, it releases nothing or exactly
      the previous image the widget held at the start: never an image twice. */
  lemma {:induction false} RunReleasesAtMostOnce(w: Option<WidgetState>, n: nat)
    ensures Run(w, n).released == []
         || (w.Some? && w.value.oldIm.Some? && Run(w, n).released == [w.value.oldIm.value])
    ensures NoDuplicates(Run(w, n).released)
    decreases n
  {
    if n > 0 {
      RunReleasesAtMostOnce(Step(w).after, n - 1);
    }
  }

  /** Over any run, the releases extend a release history without
      duplicates into one without duplicates, provided the held image was not
      already released: the widget's ownership is never violated. */
  lemma RunKeepsOwnership(w: Option<WidgetState>, n: nat, history: seq<Image>)
    requires NoDuplicates(history)
    requires w.Some? && w.value.oldIm.Some? ==> w.value.oldIm.value !in history
    ensures NoDuplicates(history + Run(w, n).released)
    ensures var t := Run(w, n);
      t.after.Some? && t.after.value.oldIm.Some? ==> t.after.value.oldIm.value !in history + t.released
  {
    RunReleasesAtMostOnce(w, n);
    RunForgetsOrKeeps(w, n);
    var t := Run(w, n);
    if t.released != [] {
      forall i, j | 0 <= i < j < |history + t.released|
        ensures (history + t.released)[i] != (history + t.released)[j]
      {
        if j == |history| {
          assert (history + t.released)[i] == history[i];
        }
      }
    } else {
      assert history + t.released == history;
    }
  }

  /** Over any run nothing is leaked: the previous image held at the start
      is either released during the run or still held at its end. */
  lemma {:induction false} RunConserves(w: Option<WidgetState>, n: nat)
    requires w.Some?
    ensures Run(w, n).after.Some?
    ensures ReleaseHeld(w.value.oldIm) == Run(w, n).released + ReleaseHeld(Run(w, n).after.value.oldIm)
    decreases n
  {
    RunKeepsIm(w, n);
    if n > 0 {
      RunConserves(Step(w).after, n - 1);
    }
  }

  /** Over any run, the previous image is either kept as it was (and nothing
      was released) or forgotten: it is never replaced. */
  lemma {:induction false} RunForgetsOrKeeps(w: Option<WidgetState>, n: nat)
    ensures var t := Run(w, n);
      w.Some? && t.after.Some? && t.after.value.oldIm.Some? ==> t.released == [] && t.after.value.oldIm == w.value.oldIm
    decreases n
  {
    if n > 0 {
      RunForgetsOrKeeps(Step(w).after, n - 1);
    }
  }

  /** Over any run the displayed image, the kind and whether there is a widget
      at all never change. */
  lemma {:induction false} RunKeepsIm(w: Option<WidgetState>, n: nat)
    ensures Run(w, n).after.None? <==> w.None?
    ensures Run(w, n).after.Some? ==> Run(w, n).after.value.im == w.value.im
    ensures Run(w, n).after.Some? ==> Run(w, n).after.value.transitionType == w.value.transitionType
    decreases n
  {
    if n > 0 {
      RunKeepsIm(Step(w).after, n - 1);
    }
  }

  /** A widget with no previous image, the flag clear and the step reset is
      a fixed point of the driver: further calls change and release nothing. */
  lemma {:induction false} SettledIsFixedPoint(f: WidgetState, n: nat)
    requires f.oldIm.None? && f.inTransition == 0 && f.transitionStep == 0
    ensures Run(Some(f), n) == Trace(Some(f), [])
    decreases n
  {
    if n > 0 {
      assert Step(Some(f)) == Outcome(0, Some(f), []);
      SettledIsFixedPoint(f, n - 1);
    }
  }

  /** After any call that leaves the flag clear, every further call takes the
      invalid-input branch: it releases nothing, and leaves the previous image
      NULL, the flag clear and the step 0. */
  lemma AfterDeactivationQuiet(w: Option<WidgetState>, n: nat)
    requires Step(w).after.Some? && Step(w).after.value.inTransition == 0
    requires n >= 1
    ensures Run(Step(w).after, n)
         == Trace(Some(Step(w).after.value.(transitionStep := 0)), [])
  {
    var f := Step(w).after.value;
    var settled := f.(transitionStep := 0);
    assert Step(Some(f)) == Outcome(0, Some(settled), []);
    SettledIsFixedPoint(settled, n - 1);
  }

  /** A fade or slide transition never progresses: the per-kind routines are
      placeholders, so repeated calls leave the widget exactly as it was and
      never release the previous image. */
  lemma {:induction false} KnownKindNeverProgresses(f: WidgetState, n: nat)
    requires ReadyToStep(Some(f))
    requires HasHandler(f.transitionType)
    ensures Run(Some(f), n) == Trace(Some(f), [])
    decreases n
  {
    if n > 0 {
      KnownKindChangesNothing(f);
      KnownKindNeverProgresses(f, n - 1);
    }
  }

  /** The fields of `struct __winwidget` that the driver reads and writes. */
  class Widget {
    var im: Option<Image>
    var oldIm: Option<Image>
    var inTransition: int
    var transitionStep: int
    var transitionType: int

    function State(): WidgetState
      reads this
    {
      WidgetState(im, oldIm, inTransition, transitionStep, transitionType)
    }
  }

  /** imlib's image cache, reduced to the log of the images released so far. */
  class ImageCache {
    ghost var released: seq<Image>

    /** `gib_imlib_free_image_and_decache`: an abstract release event. */
    method FreeImageAndDecache(img: Image)
      modifies this
      ensures released == old(released) + [img]
    {
      released := released + [img];
    }
  }

  /** A widget pointer seen as a value. */
  function View(w: Widget?): Option<WidgetState>
    reads w
  {
    if w == null then None else Some(w.State())
  }

  /** The ownership invariant: no image has been released twice, and the
      image the widget holds as its previous image has not been released. */
  ghost predicate Owns(w: Widget?, cache: ImageCache)
    reads w, cache
  {
    NoDuplicates(cache.released)
    && (w != null && w.oldIm.Some? ==> w.oldIm.value !in cache.released)
  }

  /** `feh_transition_step_fade`: a placeholder that only logs. */
  method StepFade(w: Widget) returns (r: int)
    ensures r == 0
  {
    r := 0;
  }

  /** `feh_transition_step_slide`: a placeholder that only logs. */
  method StepSlide(w: Widget) returns (r: int)
    ensures r == 0
  {
    r := 0;
  }

  /** `feh_transition_step`: handle one transition frame of a widget. */
  method TransitionStep(w: Widget?, cache: ImageCache) returns (r: int)
    modifies w, cache
    ensures r == Step(old(View(w))).ret
    ensures View(w) == Step(old(View(w))).after
    ensures cache.released == old(cache.released) + Step(old(View(w))).released
    ensures old(Owns(w, cache)) ==> Owns(w, cache)
  {
    if w == null || w.im.None? || w.oldIm.None? || w.inTransition == 0 {
      if w != null && w.oldIm.Some? {
        cache.FreeImageAndDecache(w.oldIm.value);
        w.oldIm := None;
      }
      if w != null {
        w.inTransition := 0;
        w.transitionStep := 0;
      }
      return 0;
    }

    if w.transitionType == Fade.Code() {
      r := StepFade(w);
      return;
    } else if w.transitionType == Slide.Code() {
      r := StepSlide(w);
      return;
    }

    w.inTransition := 0;
    cache.FreeImageAndDecache(w.oldIm.value);
    w.oldIm := None;
    return 0;
  }
}
