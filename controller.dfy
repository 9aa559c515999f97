/** The carousel controller of script.js: the module-level state shared by the
    wheel and touch handlers, the snap routine, and the passes that hand the
    derived targets to the page. Timers are events: a pending snap fires only
    when FireSnap is called, and the delayed refresh of the image scales is a
    call of UpdateActiveImage. */
module Carousel {
  import opened CarouselMath
  import SnapTimer

  datatype Option<T> = None | Some(value: T)

  class Controller {
    /** images.length, read once at load. */
    const imageCount: nat
    /** The scale each image's style.transform carries. */
    const scales: array<real>

    var currentPercentage: real
    var touchStartX: real
    var isTouching: bool
    /** The pending snaps and the one whose handle is kept in snapTimeout. */
    var timers: SnapTimer.Timers
    /** The targets of the last pass of updateScene; None before the first. */
    var scene: Option<Scene>

    ghost predicate Valid()
      reads this
    {
      imageCount >= 2 && scales.Length == imageCount &&
      InRange(currentPercentage) &&
      timers.orphans == 0
    }

    /** Number of snaps still to fire. */
    function PendingSnaps(): (c: nat)
      reads this
    {
      SnapTimer.Pending(timers)
    }

    /** The images show the emphasis of the current position. */
    ghost predicate ScalesShowPosition()
      reads this, scales
      requires Valid()
    {
      scales[..] == ActiveScales(currentPercentage, imageCount)
    }

    /** Page load with n images (at least two, so the snap step is defined). */
    constructor (n: nat)
      requires n >= 2
      ensures Valid() && fresh(scales)
      ensures imageCount == n
      ensures currentPercentage == 0.0 && touchStartX == 0.0 && !isTouching
      ensures timers == SnapTimer.Idle && PendingSnaps() == 0
      ensures scene == None
      ensures forall i :: 0 <= i < n ==> scales[i] == 1.0
    {
      imageCount := n;
      // 1.0 stands for "no transform written yet": script.js sets none at load.
      scales := new real[n](_ => 1.0);
      currentPercentage := 0.0;
      touchStartX := 0.0;
      isTouching := false;
      timers := SnapTimer.Idle;
      scene := None;
    }

    /** updateActiveImageByIndex: emphasise the image nearest to the current
        position and de-emphasise every other one. */
    method UpdateActiveImage()
      requires Valid()
      modifies scales
      ensures Valid()
      ensures ScalesShowPosition()
    {
      var index := SnapIndex(currentPercentage, imageCount);
      var i := 0;
      while i < scales.Length
        invariant 0 <= i <= scales.Length
        invariant forall j :: 0 <= j < i ==> scales[j] == ImageScale(j, index)
      {
        scales[i] := if i == index then ActiveScale else InactiveScale;
        i := i + 1;
      }
      assert scales[..] == ActiveScales(currentPercentage, imageCount);
    }

    /** updateScene: hand the targets of `percentage` to the track, the images
        and the titles, then refresh the emphasis from the current position. */
    method UpdateScene(percentage: real)
      requires Valid()
      modifies this`scene, scales
      ensures Valid()
      ensures scene == Some(SceneOf(percentage, imageCount))
      ensures ScalesShowPosition()
    {
      scene := Some(SceneOf(percentage, imageCount));
      UpdateActiveImage();
    }

    /** The wheel handler: follow the dominant axis, clamp, repaint, and
        restart the snap delay. */
    method Wheel(deltaX: real, deltaY: real)
      requires Valid()
      modifies this`currentPercentage, this`scene, this`timers, scales
      ensures Valid()
      ensures currentPercentage == WheelTarget(old(currentPercentage), deltaX, deltaY)
      ensures scene == Some(SceneOf(currentPercentage, imageCount))
      ensures ScalesShowPosition()
      ensures timers == SnapTimer.Step(old(timers), SnapTimer.WheelEvent)
      ensures PendingSnaps() == 1
    {
      var delta := WheelDelta(deltaX, deltaY);
      currentPercentage := currentPercentage - delta * ScrollSpeed;
      currentPercentage := Clamp(currentPercentage);
      UpdateScene(currentPercentage);
      timers := SnapTimer.Step(timers, SnapTimer.WheelEvent);
    }

    /** The touchstart handler: remember the finger, start dragging and
        cancel the pending snap. */
    method TouchStart(x: real)
      requires Valid()
      modifies this`touchStartX, this`isTouching, this`timers
      ensures Valid()
      ensures touchStartX == x && isTouching
      ensures timers == SnapTimer.Step(old(timers), SnapTimer.TouchStartEvent)
      ensures PendingSnaps() == 0
    {
      touchStartX := x;
      isTouching := true;
      timers := SnapTimer.Step(timers, SnapTimer.TouchStartEvent);
    }

    /** The touchmove handler: ignored unless dragging; otherwise follow the
        finger's movement since the last event, clamp and repaint. */
    method TouchMove(x: real)
      requires Valid()
      modifies this`currentPercentage, this`touchStartX, this`scene, scales
      ensures Valid()
      ensures !old(isTouching) ==> unchanged(this) && unchanged(scales)
      ensures old(isTouching) ==>
        currentPercentage == TouchTarget(old(currentPercentage), old(touchStartX), x) &&
        touchStartX == x &&
        scene == Some(SceneOf(currentPercentage, imageCount)) &&
        ScalesShowPosition()
    {
      if !isTouching {
        return;
      }
      var deltaX := x - touchStartX;
      touchStartX := x;
      currentPercentage := currentPercentage + deltaX * TouchSpeed;
      currentPercentage := Clamp(currentPercentage);
      UpdateScene(currentPercentage);
    }

    /** The touchend handler: ignored unless dragging; otherwise stop
        dragging and arm the snap. */
    method TouchEnd()
      requires Valid()
      modifies this`isTouching, this`timers
      ensures Valid()
      ensures !old(isTouching) ==> unchanged(this)
      ensures old(isTouching) ==>
        !isTouching &&
        timers == SnapTimer.Step(old(timers), SnapTimer.TouchEndEvent) &&
        PendingSnaps() == 1
    {
      if !isTouching {
        return;
      }
      isTouching := false;
      timers := SnapTimer.Step(timers, SnapTimer.TouchEndEvent);
    }

    /** snapToNearest: move to the centre of the nearest image and repaint. */
    method SnapToNearest()
      requires Valid()
      modifies this`currentPercentage, this`scene, scales
      ensures Valid()
      ensures currentPercentage == SnapTarget(old(currentPercentage), imageCount)
      ensures currentPercentage == ImagePosition(SnapIndex(old(currentPercentage), imageCount), imageCount)
      ensures 0 <= SnapIndex(old(currentPercentage), imageCount) < imageCount
      ensures forall j :: 0 <= j < imageCount ==>
        Abs(currentPercentage - old(currentPercentage)) <= Abs(ImagePosition(j, imageCount) - old(currentPercentage))
      ensures scene == Some(SceneOf(currentPercentage, imageCount))
      ensures ScalesShowPosition()
    {
      var p := currentPercentage;
      forall j | 0 <= j < imageCount
        ensures Abs(SnapTarget(p, imageCount) - p) <= Abs(ImagePosition(j, imageCount) - p)
      {
        SnapIsNearest(p, imageCount, j);
      }
      currentPercentage := SnapTarget(p, imageCount);
      UpdateScene(currentPercentage);
    }

    /** The snap delay elapses: the oldest pending snap fires. */
    method FireSnap()
      requires Valid() && PendingSnaps() > 0
      modifies this`currentPercentage, this`scene, this`timers, scales
      ensures Valid()
      ensures timers == SnapTimer.Step(old(timers), SnapTimer.DelayElapsed)
      ensures PendingSnaps() == 0
      ensures currentPercentage == SnapTarget(old(currentPercentage), imageCount)
      ensures scene == Some(SceneOf(currentPercentage, imageCount))
      ensures ScalesShowPosition()
    {
      timers := SnapTimer.Step(timers, SnapTimer.DelayElapsed);
      SnapToNearest();
    }
  }

  /** Four images: one long wheel tick clamps at the last image, and the snap
      that follows keeps it there, with the fourth image emphasised. */
  method FourImageScenario() returns (p: real, active: int)
    ensures p == -MaxScroll
    ensures active == 3
  {
    var c := new Controller(4);
    c.Wheel(0.0, 1000.0);
    assert c.currentPercentage == -MaxScroll;
    c.FireSnap();
    IndexOfImagePosition(3, 4);
    assert ImagePosition(3, 4) == -MaxScroll;
    p := c.currentPercentage;
    active := SnapIndex(p, 4);
  }
}
