# Transition driver of the feh image viewer

This project models `feh_transition_step` in `src/transitions.c`, together with the two per-kind
routines it dispatches to. The driver is called once per redraw of a window widget. It works on
five fields of the widget:

- `im`, the displayed image;
- `old_im`, the previous image, which the widget owns while a transition runs;
- `in_transition`, the "a transition is running" flag;
- `transition_step`, the step counter;
- `transition_type`, the kind of transition.

Each call takes one of three paths:

- **Invalid input.** The widget is NULL, either image is NULL, or the flag is clear. The driver
  releases `old_im` if it is held, sets it to NULL, clears the flag and resets the step.
- **Known kind.** For fade or slide, the driver hands over to that kind's routine. Both routines
  are placeholders that only log, so nothing changes.
- **Any other kind.** No-transition, glitch or an out-of-range value aborts: the flag is cleared,
  and `old_im` is released and set to NULL.

Every path returns 0.

The model is in `transitions.dfy`, module `Transitions`:

- `Widget` is a class with the five fields. `TransitionStep` updates them in place, branch for
  branch as the C code does, and calls `StepFade` / `StepSlide` for the known kinds.
- `ImageCache` stands in for imlib. Its only operation, `FreeImageAndDecache`, appends the image
  to a ghost log of releases, so ownership can be stated.
- `Step` is the same call as a function on the fields taken as a value (`WidgetState`). It gives
  the return value, the fields afterwards and the images released. `TransitionStep` is proved
  equal to `Step`, and it keeps the ownership invariant `Owns`: no image is released twice, and
  the held `old_im` has not been released yet.
- `Run` is `n` calls in a row. The lemmas about `Run` cover repeated calls. An image is released
  at most once (`RunReleasesAtMostOnce`). Nothing is leaked: the previous image held at the start
  is either released during the run or still held at its end (`RunConserves`). A widget with
  `old_im` NULL, the flag clear and the step 0 is a fixed point
  (`SettledIsFixedPoint`). One call after any call that clears the flag reaches such a state
  (`AfterDeactivationQuiet`). A fade or slide transition never progresses.
- Pointers are `Option` values. An image is an opaque handle. `transition_type` is kept as the
  `int` the widget stores. `TransitionType` is the C enum, and `Code` gives its C values 0 to 3.

## Model

| member | source | states |
|---|---|---|
| Transitions.TransitionType.Code | src/transitions.h:29-34 | each enum constant has the C value 0, 1, 2 or 3, so every value lies in the range 0 to 3 |
| Transitions.FromCode | src/transitions.h:29-34 | an integer names an enum constant exactly when it is in 0 to 3, and then it names the constant whose C value it is |
| Transitions.CodeRoundTrip | src/transitions.h:29-34 | decoding the C value of a constant gives back that constant |
| Transitions.Step | src/transitions.c:34-61 | one call: it returns 0; a NULL widget stays NULL; at most the held `old_im` is released, and then it is NULL afterwards; the held `old_im` is either released or still held, so nothing is leaked; `old_im` is kept or nulled, never replaced; clearing the flag always lets go of `old_im`; `im` and the kind never change |
| Transitions.DispatchByKind | src/transitions.c:51-60 | the per-kind routines run exactly for the enum constants FADE and SLIDE; NONE, GLITCH and every value outside the enum take the abort path |
| Transitions.NullWidgetIsNoOp | src/transitions.c:37-47 | a NULL widget: the call returns 0, touches no state and releases nothing |
| Transitions.InvalidInputCleansUp | src/transitions.c:37-48 | a non-null widget whose `im` or `old_im` is NULL or whose flag is clear: return 0, `old_im` NULL, flag 0, step 0, and `old_im` released exactly when it was held |
| Transitions.UnknownKindAborts | src/transitions.c:51-60 | valid input whose kind is neither fade nor slide: return 0, flag 0, `old_im` released once and NULL, the step left as it was |
| Transitions.KnownKindChangesNothing | src/transitions.c:51-54 | valid input of kind fade or slide: return 0, no field changes, nothing released |
| Transitions.RunReleasesAtMostOnce | src/transitions.c:37-60 | any number of consecutive calls release nothing, or exactly the `old_im` held at the start; no image is released twice |
| Transitions.RunConserves | src/transitions.c:39-59 | over any number of calls on a widget, the `old_im` held at the start is either among the releases or still held at the end, never both and never neither |
| Transitions.RunForgetsOrKeeps | src/transitions.c:39-59 | after any number of calls, a non-null `old_im` is the original one and nothing was released |
| Transitions.RunKeepsOwnership | src/transitions.c:37-60 | appended to a release history without duplicates that does not contain the held `old_im`, the releases of any run leave the history without duplicates, and a still-held `old_im` is not in the history |
| Transitions.RunKeepsIm | src/transitions.c:34-61 | over any run, `im` and the kind are never modified, and a widget never becomes NULL or the reverse |
| Transitions.SettledIsFixedPoint | src/transitions.c:37-48 | a widget with `old_im` NULL, the flag clear and the step 0 is left so by any number of calls, and nothing is released |
| Transitions.AfterDeactivationQuiet | src/transitions.c:37-59 | after any call that leaves the flag clear, every further call releases nothing and leaves `old_im` NULL, the flag 0 and the step 0 |
| Transitions.KnownKindNeverProgresses | src/transitions.c:51-76 | a valid fade or slide transition is left exactly as it is by any number of calls, and `old_im` is never released |
| Transitions.ImageCache.FreeImageAndDecache | src/transitions.c:40 | releasing an image appends it to the release log and changes nothing else |
| Transitions.StepFade | src/transitions.c:64-69 | the fade routine returns 0 and modifies nothing |
| Transitions.StepSlide | src/transitions.c:71-76 | the slide routine returns 0 and modifies nothing |
| Transitions.TransitionStep | src/transitions.c:34-61 | the in-place driver: its return value, the widget's fields afterwards and the images it adds to the release log are those of `Step` on the fields before; it preserves the ownership invariant `Owns` |

## What the code does not do

The fade and slide routines are marked as placeholders (src/transitions.c:63), and the driver
itself does little besides validating and dispatching. The model follows the code as written.
In particular:

- Neither per-kind routine increments `transition_step`. There is no completion test, so a fade or
  slide transition never ends. `KnownKindNeverProgresses` states this.
- There is no viewport guard. The driver takes no viewport.
- The unknown-kind abort clears the flag and releases `old_im`, but it does not reset
  `transition_step`. So after that path the flag can be clear while the step is not 0. The next
  call resets the step (`AfterDeactivationQuiet`).

## Left out

- Fade blending, slide offsets, centering, compositing and presenting frames: the code has only
  placeholders, so the model adds no formula, no step increment and no completion threshold.
- The debug logging `D((...))` in both placeholder routines: it is output only.
- What releasing an image does in imlib: `gib_imlib_free_image_and_decache` is a foreign call. It
  is modelled only as an entry in a ghost log. The C function reaches it through a global; the
  model passes the `ImageCache` object as a parameter.
- The other fields of `winwidget`, the window and event loop that call the driver, and
  initialising a transition: these are not part of this model.
- Transitions.RunKeepsIm: says that `im` is never assigned. It does not say that `im` is never
  freed. If `im` and `old_im` are the same pointer, freeing `old_im` also frees the image `im`
  points to. The source does not guard against this.
- The C `int` fields are modelled as unbounded integers. No arithmetic is done on them, so width does not
  matter.
