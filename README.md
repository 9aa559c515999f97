# Image carousel controller, modelled in Dafny

This project models the horizontal image carousel of `script.js`: a single
scroll position `currentPercentage` in `[-100, 0]`, moved by wheel events and
by touch drags, clamped after every input, and snapped to the centre of the
nearest image once the input stops. Every change of position is followed by a
pass that hands target values to the page: the track offset, the
object-position of each image, the title's offset, scale and opacity, the
subtitle's fade, and the scale of each image (the active image is enlarged,
every other one shrunk).

The project has three modules:

- `CarouselMath` (`carousel_math.dfy`): the pure arithmetic. The clamp, the
  dominant-axis choice of the wheel delta, `Math.round`, the snap step
  `100 / (imageCount - 1)`, the snap index and target, and the scene targets
  derived from a position. Positions and all visual values are `real`.
- `SnapTimer` (`snap_timer.dfy`): the `setTimeout`/`clearTimeout` discipline
  around the single handle `snapTimeout`. It counts the pending snaps, tells
  apart the one whose handle is still stored, and models the firing of the
  snap delay as an event.
- `Carousel` (`controller.dfy`): the module-level state as a class
  `Controller` whose methods are the handlers (`Wheel`, `TouchStart`,
  `TouchMove`, `TouchEnd`), the snap routine (`SnapToNearest`), the timer
  firing (`FireSnap`) and the two repaint passes (`UpdateScene`,
  `UpdateActiveImage`). The image styles are an array of scales that
  `UpdateActiveImage` rewrites in a loop. The class invariant `Valid()` holds
  after every method, so the position is in `[-100, 0]` after any sequence of
  events.

`Math.round` is applied in the source only to non-negative values, and it is
modelled as `Floor(x + 0.5)`. With one image the source divides by zero
(`snapStep` is Infinity and the snap yields NaN); with none, `snapStep` is
-100. The controller requires at least two.

`script.js` has no readiness gate: input is accepted from page load, and
every touch move repaints the whole scene (script.js:247).

## Model

| member | source | states |
|---|---|---|
| `CarouselMath.Clamp` | script.js:198-201 | the result always lies in `[-100, 0]`; a position already in range is unchanged; above 0 gives 0, below -100 gives -100 |
| `CarouselMath.WheelDelta` | script.js:190-193 | the chosen delta is one of the two axis deltas and has the largest magnitude; on equal magnitudes it is `deltaY` |
| `CarouselMath.WheelTarget` | script.js:190-201 | the position after a wheel event lies in range; a positive delta never moves it towards 0 and a negative one never away; when the unclamped value is in range it is exactly `p - delta*0.12` |
| `CarouselMath.TouchTarget` | script.js:236-245 | the position after a touch move lies in range; a finger moving right never decreases it and one moving left never increases it; unclamped it is exactly `p + (x - startX)*0.25` |
| `CarouselMath.Round` | script.js:170-171 | the rounded value is within half a unit of the input (halves round up) and is non-negative for a non-negative input |
| `CarouselMath.SnapStep` | script.js:69-71 | for at least two images the step is positive, at most 100, and `(imageCount - 1)` steps span exactly the track |
| `CarouselMath.ImagePosition` | script.js:170-173 | the centre of image k, `-(k*snapStep)`, is never positive and lies in range for every image index |
| `CarouselMath.SnapIndex` | script.js:123-125 | `round(|p|/snapStep)` is never negative and, for an in-range position, at most `imageCount - 1` |
| `CarouselMath.SnapTarget` | script.js:169-173 | the snap target is never positive, is in range for an in-range position, and lies within half a snap step of a non-positive position |
| `CarouselMath.IndexOfImagePosition` | script.js:122-125 | at the centre of image k, the active index is k |
| `CarouselMath.SnapIdempotent` | script.js:169-173 | snapping keeps the active index, and snapping an already snapped position leaves it unchanged |
| `CarouselMath.SnapIsNearest` | script.js:169-173 | for an in-range position the snap target is at least as close as the centre of any image |
| `CarouselMath.Progress` | script.js:91 | progress is at least 0, at most 1 in range, and 0 exactly at the first image |
| `CarouselMath.TitleOffset` | script.js:92 | the title's upward offset lies in `[0, 150]` px in range and is 0 exactly at position 0 |
| `CarouselMath.TitleScale` | script.js:102 | the title's scale lies in `[0.95, 1]` in range and is 1 exactly at position 0 |
| `CarouselMath.FadeProgress` | script.js:95-98 | the fade lies in `[0, 1]`; it is complete exactly when `|p| >= snapStep`; before that it is `|p|/snapStep`; it is 0 exactly at position 0 |
| `CarouselMath.TitleOpacity` | script.js:99 | the title's opacity lies in `[0, 1]`; it is 0 exactly once `|p| >= snapStep` and 1 exactly at position 0 |
| `CarouselMath.SubtitleOffset` | script.js:150 | for an eased fade in `[0, 1]` the subtitle's drift lies in `[0, 24]` px and is 0 only with no fade |
| `CarouselMath.SubtitleOpacity` | script.js:155 | for an eased fade in `[0, 1]` the subtitle's opacity lies in `[0, 1]` and is 0 only with the fade complete |
| `CarouselMath.ImageScale` | script.js:128-129 | an image gets the emphasis scale 1.56 exactly when it is the active one, and 0.96 otherwise |
| `CarouselMath.ExactlyOneEmphasised` | script.js:122-131 | at an in-range position the images carrying the emphasis scale are exactly the one at the active index |
| `CarouselMath.SnapKeepsScales` | script.js:174-176 | the scales written after a snap equal those before it, so the delayed refresh after the snap animation writes the same values |
| `CarouselMath.SceneOf` | script.js:76-111 | every target of an in-range position is within its bounds; the track offset is the position and the object-position is `100 + p` for every image; title opacity and fade add up to 1; the opacity is 0 exactly once `|p| >= snapStep`. The targets depend on the position alone |
| `SnapTimer.Pending` | script.js:58 | nothing is pending exactly when the stored handle is dead and there are no orphaned timers |
| `SnapTimer.Clear` | script.js:205 | `clearTimeout(snapTimeout)` cancels the stored timer only: afterwards no handle is live and the orphaned timers are exactly those before |
| `SnapTimer.Arm` | script.js:206 | `setTimeout` adds one pending snap and stores its handle; a still-pending timer whose handle is overwritten becomes an orphan |
| `SnapTimer.Fire` | script.js:206 | the elapsed delay fires one snap, the oldest: an orphan while there is one (the stored timer stays as it was), otherwise the stored timer |
| `SnapTimer.StepAsWritten` | script.js:254 | as written, a touch end adds a pending snap without cancelling the stored one |
| `SnapTimer.Step` | script.js:205-206 | no event creates an orphan; a wheel event leaves exactly the orphans plus one pending; a touch start leaves only the orphans; the elapsed delay fires one snap |
| `SnapTimer.TouchStartLeavesStaleSnap` | script.js:250-254 | as written, touch start, wheel, touch end, touch start leaves one snap pending that no handle can cancel |
| `SnapTimer.RunKeepsAtMostOne` | script.js:205-206 | with the touch end clearing before arming, no event sequence creates an orphan, so at most one snap is ever pending |
| `SnapTimer.TouchStartCancelsAll` | script.js:224-228 | with the touch end clearing before arming, a touch start after any event sequence leaves no snap pending |
| `Carousel.Controller.constructor` | script.js:57-58 | at load the position is 0, nothing is dragged, no snap is pending and no scene has been painted |
| `Carousel.Controller.UpdateActiveImage` | script.js:122-132 | each image's scale becomes the emphasis scale if it is the active image and the de-emphasis scale otherwise |
| `Carousel.Controller.UpdateScene` | script.js:76-118 | the painted targets are the scene of the given position, and the image scales match the current position |
| `Carousel.Controller.Wheel` | script.js:184-209 | the new position is the clamped dominant-axis move, the scene is repainted for it, and exactly one snap is pending afterwards |
| `Carousel.Controller.TouchStart` | script.js:224-228 | the finger position is stored, dragging starts, and no snap is pending afterwards |
| `Carousel.Controller.TouchMove` | script.js:230-248 | without a drag nothing changes; during a drag the position is the clamped move by the finger's delta, the start point moves to the finger, and the scene is repainted |
| `Carousel.Controller.TouchEnd` | script.js:250-255 | without a drag nothing changes; otherwise dragging stops and exactly one snap is pending |
| `Carousel.Controller.SnapToNearest` | script.js:169-178 | the position moves to the centre of an existing image that is at least as close as any other image's centre, and the scene is repainted |
| `Carousel.Controller.FireSnap` | script.js:205-206 | the pending snap fires, none is left pending, and the position is snapped |
| `Carousel.FourImageScenario` | script.js:195-201 | with four images, one wheel tick of 1000 clamps the position at -100, and the following snap keeps it at -100 with the fourth image active |

## Findings

| source | as written | input that shows it | evidently intended | confidence | as-written member | corrected member |
|---|---|---|---|---|---|---|
| script.js:254 | the touch-end handler stores a new snap timer in `snapTimeout` without clearing the one stored there | touch start, a wheel event during the touch, touch end, touch start: the wheel's timer is orphaned and still fires, snapping the carousel while the finger is down | clear the stored timer before arming, as the wheel handler does at script.js:205-206, so that a touch start cancels every pending snap | medium, not executed | `SnapTimer.TouchStartLeavesStaleSnap` | `SnapTimer.TouchStartCancelsAll` |

The controller uses the corrected touch end (`SnapTimer.Step`), so its invariant
keeps at most one snap pending and `TouchStart` leaves none.

## Left out

- `Carousel.Controller.TouchEnd`: clears the stored snap before arming a new one, unlike script.js:254; the as-written behaviour is `SnapTimer.StepAsWritten` (see Findings).
- `SnapTimer.StepAsWritten`: the timer-only event model does not see the drag state, so a touch end there always arms; the controller's `TouchEnd` does nothing without a drag.
- The particle spawner (script.js:10-36) and the delayed reveal of the track (script.js:42-46): random placement, DOM element creation and timers with no state of the carousel.
- The Web Animations calls themselves: durations (400, 120 and 700 ms), easing, `fill`, the CSS strings written, `preventDefault` and listener registration. Only the target values are modelled.
- The subtitle's easing `Math.pow(fadeProgress, 0.85)` (script.js:147): real powers are not modelled. `SubtitleOffset` and `SubtitleOpacity` take the eased value as input and require it to lie in `[0, 1]`, where that power maps `[0, 1]`.
- Wall-clock time: `SNAP_DELAY` and the delayed `updateActiveImageByIndex` after `ANIMATION_TIME` (script.js:176) are events. A snap fires when `FireSnap` is called; the delayed refresh is a call of `UpdateActiveImage`. Timers of equal delay are taken to fire in the order they were armed.
- IEEE-754 floating point: positions are exact reals, so rounding error in `100/(imageCount-1)` the Infinity and NaN results with one image and the negative step with none are not modelled; the constructor requires at least two images.
- The image set is fixed after load: `imageCount` (script.js:69) and the `images.length` re-read at script.js:127 are one constant, since script.js never adds or removes images.
- `touchCurrentX` (script.js:218): written and read only within one touch move, so it is a local of `TouchMove`.
