/** Pure arithmetic of the image carousel in script.js: the clamp applied after
    every input, the snap to the nearest image, and the visual targets that
    updateScene derives from the scroll position. Positions are percentages
    of the track, from 0 (first image) down to -MaxScroll (last image). */
module CarouselMath {

  // Configuration constants (script.js:61, 66, 70, 102, 129, 150, 222).
  const MaxScroll: real := 100.0
  const ScrollSpeed: real := 0.12
  const TouchSpeed: real := 0.25
  const TitleMoveMax: real := 150.0
  const TitleShrink: real := 0.05
  const SubtitleDrift: real := 24.0
  const ActiveScale: real := 1.56
  const InactiveScale: real := 0.96

  function Abs(x: real): (r: real)
    ensures r >= 0.0 && (r == x || r == -x)
  {
    if x < 0.0 then -x else x
  }

  function Min(a: real, b: real): (r: real)
    ensures r <= a && r <= b && (r == a || r == b)
  {
    if a < b then a else b
  }

  function Max(a: real, b: real): (r: real)
    ensures r >= a && r >= b && (r == a || r == b)
  {
    if a > b then a else b
  }

  /** The valid scroll positions. */
  predicate InRange(p: real) {
    -MaxScroll <= p <= 0.0
  }

  /** Math.max(Math.min(x, 0), -maxScroll): every position lands in range,
      and a position already in range is left alone. */
  function Clamp(x: real): (r: real)
    ensures InRange(r)
    ensures InRange(x) ==> r == x
    ensures x > 0.0 ==> r == 0.0
    ensures x < -MaxScroll ==> r == -MaxScroll
  {
    Max(Min(x, 0.0), -MaxScroll)
  }

  /** The wheel delta the carousel follows: the axis with the larger
      magnitude, the vertical one on a tie. */
  function WheelDelta(deltaX: real, deltaY: real): (d: real)
    ensures d == deltaX || d == deltaY
    ensures Abs(d) >= Abs(deltaX) && Abs(d) >= Abs(deltaY)
    ensures Abs(deltaX) == Abs(deltaY) ==> d == deltaY
  {
    if Abs(deltaX) > Abs(deltaY) then deltaX else deltaY
  }

  /** Position after one wheel event. */
  function WheelTarget(p: real, deltaX: real, deltaY: real): (r: real)
    ensures InRange(r)
    ensures InRange(p) && WheelDelta(deltaX, deltaY) >= 0.0 ==> r <= p
    ensures InRange(p) && WheelDelta(deltaX, deltaY) <= 0.0 ==> r >= p
    ensures InRange(p - WheelDelta(deltaX, deltaY) * ScrollSpeed) ==>
              r == p - WheelDelta(deltaX, deltaY) * ScrollSpeed
  {
    Clamp(p - WheelDelta(deltaX, deltaY) * ScrollSpeed)
  }

  /** Position after one touch-move from startX to x. */
  function TouchTarget(p: real, startX: real, x: real): (r: real)
    ensures InRange(r)
    ensures InRange(p) && x >= startX ==> r >= p
    ensures InRange(p) && x <= startX ==> r <= p
    ensures InRange(p + (x - startX) * TouchSpeed) ==> r == p + (x - startX) * TouchSpeed
  {
    Clamp(p + (x - startX) * TouchSpeed)
  }

  /** Math.round on a non-negative argument: halves round up. */
  function Round(x: real): (k: int)
    ensures x - 0.5 < k as real <= x + 0.5
    ensures x >= 0.0 ==> k >= 0
  {
    (x + 0.5).Floor
  }

  /** Distance between two adjacent images: maxScroll / (imageCount - 1). */
  function SnapStep(n: nat): (s: real)
    requires n >= 2
    ensures 0.0 < s <= MaxScroll
    ensures s * (n - 1) as real == MaxScroll
  {
    MaxScroll / (n - 1) as real
  }

  /** Position at which image k is centred. */
  function ImagePosition(k: int, n: nat): (p: real)
    requires n >= 2
    ensures 0 <= k < n ==> InRange(p)
    ensures k >= 0 ==> p <= 0.0
  {
    -(k as real * SnapStep(n))
  }

  /** Index of the image nearest to p: round(|p| / snapStep). This is both
      the index snapToNearest moves to and the index updateActiveImageByIndex
      emphasises. */
  function SnapIndex(p: real, n: nat): (k: int)
    requires n >= 2
    ensures k >= 0
    ensures InRange(p) ==> k <= n - 1
  {
    Round(Abs(p) / SnapStep(n))
  }

  /** snapToNearest's target: the centre of the nearest image. */
  function SnapTarget(p: real, n: nat): (r: real)
    requires n >= 2
    ensures r <= 0.0
    ensures InRange(p) ==> InRange(r)
    ensures p <= 0.0 ==> Abs(r - p) <= SnapStep(n) / 2.0
  {
    RoundDistance(p, n);
    ImagePosition(SnapIndex(p, n), n)
  }

  lemma RoundDistance(p: real, n: nat)
    requires n >= 2
    ensures p <= 0.0 ==> Abs(ImagePosition(SnapIndex(p, n), n) - p) <= SnapStep(n) / 2.0
  {
    if p <= 0.0 {
      var s := SnapStep(n);
      var x := Abs(p) / s;
      var k := SnapIndex(p, n);
      DivMul(Abs(p), s);
      assert ImagePosition(k, n) - p == -(k as real * s) + x * s;
      NearestCore(x, k, s);
    }
  }

  /** At the centre of image k, image k is the nearest one. */
  lemma IndexOfImagePosition(k: int, n: nat)
    requires n >= 2 && 0 <= k
    ensures SnapIndex(ImagePosition(k, n), n) == k
  {
  }

  /** Snapping keeps the active image, and snapping twice is snapping once. */
  lemma SnapIdempotent(p: real, n: nat)
    requires n >= 2
    ensures SnapIndex(SnapTarget(p, n), n) == SnapIndex(p, n)
    ensures SnapTarget(SnapTarget(p, n), n) == SnapTarget(p, n)
  {
  }

  /** The snap target is at least as close to p as the centre of any image. */
  lemma SnapIsNearest(p: real, n: nat, j: int)
    requires n >= 2 && InRange(p) && 0 <= j < n
    ensures Abs(SnapTarget(p, n) - p) <= Abs(ImagePosition(j, n) - p)
  {
    var s := SnapStep(n);
    var x := Abs(p) / s;
    var k := SnapIndex(p, n);
    DivMul(Abs(p), s);
    assert SnapTarget(p, n) - p == -(k as real * s) + x * s;
    assert ImagePosition(j, n) - p == -(j as real * s) + x * s;
    CloserCore(x, k, j, s);
  }

  // Arithmetic facts over plain reals, kept apart so that the solver does
  // not see the definition of the snap step while proving them.

  lemma DivMul(a: real, s: real)
    requires s > 0.0
    ensures (a / s) * s == a
  {
  }

  lemma MulMonotone(a: real, b: real, s: real)
    requires a <= b && s >= 0.0
    ensures a * s <= b * s
  {
  }

  lemma NearestCore(x: real, k: int, s: real)
    requires s > 0.0 && x - 0.5 < k as real <= x + 0.5
    ensures Abs(-(k as real * s) + x * s) <= s / 2.0
  {
    var d := k as real - x;
    MulMonotone(-0.5, d, s);
    MulMonotone(d, 0.5, s);
    assert -(k as real * s) + x * s == -(d * s);
  }

  lemma CloserCore(x: real, k: int, j: int, s: real)
    requires s > 0.0 && x - 0.5 < k as real <= x + 0.5
    ensures Abs(-(k as real * s) + x * s) <= Abs(-(j as real * s) + x * s)
  {
    RoundedIsClosest(x, k, j);
    ScaledCloser(k as real - x, j as real - x, s);
    Distribute(k as real, x, s);
    Distribute(j as real, x, s);
  }

  lemma ScaledCloser(a: real, b: real, s: real)
    requires s > 0.0 && Abs(a) <= Abs(b)
    ensures Abs(-(a * s)) <= Abs(-(b * s))
  {
    calc {
      Abs(-(a * s));
    == { AbsScale(a, s); }
      Abs(a) * s;
    <= { MulMonotone(Abs(a), Abs(b), s); }
      Abs(b) * s;
    == { AbsScale(b, s); }
      Abs(-(b * s));
    }
  }

  /** No integer is closer to x than one within half a unit of it. */
  lemma RoundedIsClosest(x: real, k: int, j: int)
    requires x - 0.5 < k as real <= x + 0.5
    ensures Abs(k as real - x) <= Abs(j as real - x)
  {
    if j > k {
      assert j as real - x >= 0.5;
    } else if j < k {
      assert j as real - x <= -0.5;
    }
  }

  lemma Distribute(a: real, x: real, s: real)
    ensures -(a * s) + x * s == -((a - x) * s)
  {
  }

  lemma AbsScale(a: real, s: real)
    requires s > 0.0
    ensures Abs(-(a * s)) == Abs(a) * s
  {
  }

  /** Scroll progress through the whole track, |p| / maxScroll. */
  function Progress(p: real): (r: real)
    ensures r >= 0.0
    ensures InRange(p) ==> r <= 1.0
    ensures r == 0.0 <==> p == 0.0
  {
    Abs(p) / MaxScroll
  }

  /** Upward drift of the title, in pixels. */
  function TitleOffset(p: real): (r: real)
    ensures r >= 0.0
    ensures InRange(p) ==> r <= TitleMoveMax
    ensures r == 0.0 <==> p == 0.0
  {
    Progress(p) * TitleMoveMax
  }

  /** Uniform scale of the title: shrinks by at most five percent. */
  function TitleScale(p: real): (r: real)
    ensures r <= 1.0
    ensures InRange(p) ==> 1.0 - TitleShrink <= r
    ensures r == 1.0 <==> p == 0.0
  {
    1.0 - Progress(p) * TitleShrink
  }

  /** Fade of title and subtitle: completes over exactly one snap step,
      whatever the number of images. */
  function FadeProgress(p: real, n: nat): (f: real)
    requires n >= 2
    ensures 0.0 <= f <= 1.0
    ensures f == 1.0 <==> Abs(p) >= SnapStep(n)
    ensures f < 1.0 ==> f * SnapStep(n) == Abs(p)
    ensures f == 0.0 <==> p == 0.0
  {
    Min(Abs(p) / SnapStep(n), 1.0)
  }

  /** Title opacity: fully visible at the first image, gone from the second. */
  function TitleOpacity(p: real, n: nat): (o: real)
    requires n >= 2
    ensures 0.0 <= o <= 1.0
    ensures o == 0.0 <==> Abs(p) >= SnapStep(n)
    ensures o == 1.0 <==> p == 0.0
  {
    1.0 - FadeProgress(p, n)
  }

  /** Subtitle drift for an eased fade value e (the source eases the fade
      with a power curve that maps [0, 1] onto itself). */
  function SubtitleOffset(e: real): (r: real)
    requires 0.0 <= e <= 1.0
    ensures 0.0 <= r <= SubtitleDrift
    ensures r == 0.0 <==> e == 0.0
  {
    e * SubtitleDrift
  }

  /** Subtitle opacity for an eased fade value e. */
  function SubtitleOpacity(e: real): (o: real)
    requires 0.0 <= e <= 1.0
    ensures 0.0 <= o <= 1.0
    ensures o == 0.0 <==> e == 1.0
  {
    1.0 - e
  }

  /** Scale written on image i when image `active` is the active one. */
  function ImageScale(i: int, active: int): (r: real)
    ensures r == ActiveScale <==> i == active
    ensures r == ActiveScale || r == InactiveScale
  {
    if i == active then ActiveScale else InactiveScale
  }

  /** The scales updateActiveImageByIndex writes on the n images at position p. */
  function ActiveScales(p: real, n: nat): (sc: seq<real>)
    requires n >= 2
    ensures |sc| == n
  {
    seq(n, i => ImageScale(i, SnapIndex(p, n)))
  }

  /** At an in-range position exactly one image, the nearest, is emphasised. */
  lemma ExactlyOneEmphasised(p: real, n: nat)
    requires n >= 2 && InRange(p)
    ensures (set i | 0 <= i < n && ActiveScales(p, n)[i] == ActiveScale) == {SnapIndex(p, n)}
  {

  }

  /** Snapping leaves the emphasis where it was, so refreshing the scales
      after the snap animation writes the same values again. */
  lemma SnapKeepsScales(p: real, n: nat)
    requires n >= 2
    ensures ActiveScales(SnapTarget(p, n), n) == ActiveScales(p, n)
  {

  }

  /** The targets one pass of updateScene hands to the animations. */
  datatype Scene = Scene(
    trackOffset: real,     // translate(trackOffset%, -50%) of the track
    objectPosition: real,  // objectPosition of every image, in percent
    titleOffset: real,     // translateY(-titleOffset px) of the title
    titleScale: real,
    titleOpacity: real,
    fade: real)            // input of the subtitle's easing curve

  /** The bounds every scene of an in-range position keeps. */
  predicate SceneBounded(sc: Scene) {
    InRange(sc.trackOffset) &&
    0.0 <= sc.objectPosition <= MaxScroll &&
    0.0 <= sc.titleOffset <= TitleMoveMax &&
    1.0 - TitleShrink <= sc.titleScale <= 1.0 &&
    0.0 <= sc.titleOpacity <= 1.0 &&
    0.0 <= sc.fade <= 1.0
  }

  /** The scene of position p: a function of p alone, so recomputing it for
      the same position gives the same targets. */
  function SceneOf(p: real, n: nat): (sc: Scene)
    requires n >= 2
    ensures InRange(p) ==> SceneBounded(sc)
    ensures sc.trackOffset == p
    ensures sc.objectPosition == MaxScroll + p
    ensures sc.titleOpacity + sc.fade == 1.0
    ensures sc.titleOpacity == 0.0 <==> Abs(p) >= SnapStep(n)
  {
    Scene(p, MaxScroll + p, TitleOffset(p), TitleScale(p), TitleOpacity(p, n), FadeProgress(p, n))
  }
}
