/**
 * The smooth-scroll fallback: a quadratic ease-in-out curve that moves the
 * page from its current offset to an anchor's offset over a fixed duration,
 * and the click rule that decides which clicks are anchor jumps.
 *
 * The browser is abstracted away: frame timestamps, the page offset and the
 * offsets of the elements by id are parameters, and `window.scrollTo` is the
 * position a frame returns.
 */
module SmoothScroll {
  import opened Wrappers

  /** The fallback animation's duration, in milliseconds. */
  const Duration: real := 800.0

  // ---------------------------------------------------------------------------
  // The easing curve
  // ---------------------------------------------------------------------------

  /** The accelerating half, for normalised time u in [0,1). */
  function EaseInBranch(u: real, b: real, c: real): real {
    c / 2.0 * u * u + b
  }

  /** The decelerating half, for normalised time u >= 1. */
  function EaseOutBranch(u: real, b: real, c: real): real {
    var v := u - 1.0;
    -c / 2.0 * (v * (v - 2.0) - 1.0) + b
  }

  /** Quadratic ease-in-out: the position at time t of a move that starts at
      b, changes by c and lasts d.  Time is first rescaled so that the
      half-way point is 1; the result is not clamped for t outside [0,d].
      Whatever the branch, the position is the start plus the change scaled
      by the reference curve Progress. */
  function EaseInOutQuad(t: real, b: real, c: real, d: real): (r: real)
    requires d != 0.0
    ensures r == b + c * Progress(HalfDurations(t, d))
  {
    var u := t / (d / 2.0);
    if u < 1.0 then EaseInBranch(u, b, c)
    else
      OutBranchIsProgress(u, b, c);
      EaseOutBranch(u, b, c)
  }

  /** The fraction of the move completed at normalised time u, written as
      two parabolas meeting at u = 1: the reference the curve is checked
      against. */
  function Progress(u: real): real {
    if u < 1.0 then u * u / 2.0 else 1.0 - (2.0 - u) * (2.0 - u) / 2.0
  }

  /** Normalised time: t measured in half-durations. */
  function HalfDurations(t: real, d: real): real
    requires d != 0.0
  {
    t / (d / 2.0)
  }

  /** The decelerating branch, expanded, is the second parabola of Progress. */
  lemma OutBranchIsProgress(u: real, b: real, c: real)
    requires u >= 1.0
    ensures EaseOutBranch(u, b, c) == b + c * Progress(u)
  {
    var v := u - 1.0;
    assert v * (v - 2.0) - 1.0 == (2.0 - u) * (2.0 - u) - 2.0;
    assert -c / 2.0 * ((2.0 - u) * (2.0 - u) - 2.0)
        == c * (1.0 - (2.0 - u) * (2.0 - u) / 2.0);
  }

  // Facts about Progress on its own.

  /** Progress starts at 0, ends at 1, and is 1/2 at the switch-over
      point u = 1. */
  lemma ProgressLandmarks()
    ensures Progress(0.0) == 0.0 && Progress(2.0) == 1.0 && Progress(1.0) == 0.5
  {
  }

  lemma SquareLe(a: real, b: real)
    requires 0.0 <= a <= b
    ensures a * a <= b * b
  {
    var aa, ab, bb := a * a, a * b, b * b;
    assert aa <= ab;
    assert ab <= bb;
  }

  lemma SquareLtNegative(a: real, b: real)
    requires a < b <= 0.0
    ensures b * b < a * a
  {
    var aa, ab, bb := a * a, a * b, b * b;
    assert bb <= ab;
    assert ab < aa;
  }

  /** Progress never decreases on [0,2]. */
  lemma ProgressMonotone(u1: real, u2: real)
    requires 0.0 <= u1 <= u2 <= 2.0
    ensures Progress(u1) <= Progress(u2)
  {
    if u2 < 1.0 {
      SquareLe(u1, u2);
    } else if u1 >= 1.0 {
      SquareLe(2.0 - u2, 2.0 - u1);
    } else {
      SquareLe(u1, 1.0);
      SquareLe(2.0 - u2, 1.0);
    }
  }

  /** Point symmetry about (1, 1/2), for every u. */
  lemma ProgressSymmetric(u: real)
    ensures Progress(u) + Progress(2.0 - u) == 1.0
  {
  }

  /** Past the end the curve turns back down: for u > 2 it is below 1. */
  lemma ProgressOvershoot(u: real)
    requires u > 2.0
    ensures Progress(u) < 1.0
  {
    SquareLtNegative(2.0 - u, 0.0);
  }

  // Facts about the time scale.

  lemma HalfDurationsFacts(t: real, d: real)
    requires d > 0.0
    ensures HalfDurations(0.0, d) == 0.0 && HalfDurations(d, d) == 2.0
    ensures HalfDurations(d / 2.0, d) == 1.0
    ensures HalfDurations(d - t, d) == 2.0 - HalfDurations(t, d)
    ensures 0.0 <= t <= d ==> 0.0 <= HalfDurations(t, d) <= 2.0
    ensures t > d ==> HalfDurations(t, d) > 2.0
  {
    var h := d / 2.0;
    assert (d - t) / h == d / h - t / h;
    assert d / h == 2.0;
    assert h / h == 1.0;
  }

  lemma HalfDurationsMonotone(t1: real, t2: real, d: real)
    requires d > 0.0 && t1 <= t2
    ensures HalfDurations(t1, d) <= HalfDurations(t2, d)
  {
  }

  // Facts about the easing curve.

  /** The move starts at b and, at t = d, ends exactly at b + c. */
  lemma EaseEndpoints(b: real, c: real, d: real)
    requires d > 0.0
    ensures EaseInOutQuad(0.0, b, c, d) == b
    ensures EaseInOutQuad(d, b, c, d) == b + c
  {
    HalfDurationsFacts(0.0, d);
  }

  /** Both branches give b + c/2 where the curve switches, at t = d/2, so
      the curve has no jump there. */
  lemma EaseContinuous(b: real, c: real, d: real)
    requires d > 0.0
    ensures EaseInBranch(1.0, b, c) == b + c / 2.0
    ensures EaseOutBranch(1.0, b, c) == b + c / 2.0
    ensures EaseInOutQuad(d / 2.0, b, c, d) == b + c / 2.0
  {
    HalfDurationsFacts(0.0, d);
  }

  /** For a forward move (c >= 0) the position never goes back while the
      animation runs, and it stays between b and b + c. */
  lemma EaseMonotone(t1: real, t2: real, b: real, c: real, d: real)
    requires d > 0.0 && c >= 0.0 && 0.0 <= t1 <= t2 <= d
    ensures EaseInOutQuad(t1, b, c, d) <= EaseInOutQuad(t2, b, c, d)
    ensures b <= EaseInOutQuad(t1, b, c, d) <= b + c
  {
    var u1, u2 := HalfDurations(t1, d), HalfDurations(t2, d);
    assert 0.0 <= u1 <= u2 <= 2.0 by {
      HalfDurationsFacts(t1, d);
      HalfDurationsMonotone(t1, t2, d);
      HalfDurationsFacts(t2, d);
    }
    ProgressBetween(u1, u2);
    ScaledBetween(b, c, Progress(u1), Progress(u2),
                  EaseInOutQuad(t1, b, c, d), EaseInOutQuad(t2, b, c, d));
  }

  /** Two ordered times on [0,2] give ordered fractions of the move. */
  lemma ProgressBetween(u1: real, u2: real)
    requires 0.0 <= u1 <= u2 <= 2.0
    ensures 0.0 <= Progress(u1) <= Progress(u2) <= 1.0
  {
    ProgressMonotone(u1, u2);
    ProgressMonotone(0.0, u1);
    ProgressMonotone(u2, 2.0);
    ProgressLandmarks();
  }

  /** Positions b + c * p and b + c * q for fractions 0 <= p <= q <= 1 of a
      non-negative change keep their order and stay between b and b + c. */
  lemma ScaledBetween(b: real, c: real, p: real, q: real, x: real, y: real)
    requires c >= 0.0 && 0.0 <= p <= q <= 1.0
    requires x == b + c * p && y == b + c * q
    ensures b <= x <= y <= b + c
  {
    ScaleLe(p, q, c);
    ScaleLe(0.0, p, c);
    ScaleLe(q, 1.0, c);
  }

  lemma ScaleLe(p: real, q: real, c: real)
    requires p <= q && c >= 0.0
    ensures c * p <= c * q
  {
  }

  /** Point symmetry: the positions at t and at d - t average to the
      midpoint b + c/2. */
  lemma EaseSymmetric(t: real, b: real, c: real, d: real)
    requires d > 0.0
    ensures EaseInOutQuad(t, b, c, d) + EaseInOutQuad(d - t, b, c, d) == 2.0 * b + c
  {
    HalfDurationsFacts(t, d);
    ProgressSymmetric(HalfDurations(t, d));
  }

  /** The curve is not clamped: past the duration a positive move falls
      short of b + c again. */
  lemma EaseNotClamped(t: real, b: real, c: real, d: real)
    requires d > 0.0 && t > d && c > 0.0
    ensures EaseInOutQuad(t, b, c, d) < b + c
  {
    HalfDurationsFacts(t, d);
    ProgressOvershoot(HalfDurations(t, d));
  }

  // ---------------------------------------------------------------------------
  // One animation frame and the run of frames
  // ---------------------------------------------------------------------------

  /** What a frame callback does: the offset it scrolls to and whether it
      asks for another frame. */
  datatype Frame = Frame(scrollTo: real, requestNext: bool)

  /** The frame callback at `timeElapsed` milliseconds after the first one,
      for a move from `startPosition` to `targetPosition`. */
  function AnimationFrame(startPosition: real, targetPosition: real, timeElapsed: real): (f: Frame)
    ensures f.requestNext <==> timeElapsed < Duration
  {
    var run := EaseInOutQuad(timeElapsed, startPosition, targetPosition - startPosition, Duration);
    Frame(run, timeElapsed < Duration)
  }

  /** The first frame shows the start offset; the frame exactly at the
      duration shows the target offset. */
  lemma FrameEndpoints(startPosition: real, targetPosition: real)
    ensures AnimationFrame(startPosition, targetPosition, 0.0).scrollTo == startPosition
    ensures AnimationFrame(startPosition, targetPosition, Duration).scrollTo == targetPosition
  {
    EaseEndpoints(startPosition, targetPosition - startPosition, Duration);
  }

  /** The last frame (the one that asks for no other) lands on the target
      only if it runs exactly at the duration or there was nowhere to go. */
  lemma LastFrameLanding(startPosition: real, targetPosition: real, timeElapsed: real)
    requires !AnimationFrame(startPosition, targetPosition, timeElapsed).requestNext
    ensures AnimationFrame(startPosition, targetPosition, timeElapsed).scrollTo == targetPosition
        <==> timeElapsed == Duration || startPosition == targetPosition
  {
    var c := targetPosition - startPosition;
    var u := HalfDurations(timeElapsed, Duration);
    assert AnimationFrame(startPosition, targetPosition, timeElapsed).scrollTo
        == startPosition + c * Progress(u);
    if timeElapsed == Duration {
      FrameEndpoints(startPosition, targetPosition);
    } else {
      HalfDurationsFacts(timeElapsed, Duration);
      ProgressOvershoot(u);
      if c != 0.0 {
        assert c * Progress(u) != c;
      }
    }
  }

  /** Nondecreasing timestamps. */
  predicate Ascending(times: seq<real>) {
    forall k, l :: 0 <= k <= l < |times| ==> times[k] <= times[l]
  }

  /** Runs the frame callback over the timestamps the browser delivers, the
      first of which fixes the start time, until a frame asks for no other.
      Returns the offsets scrolled to and whether the animation finished. */
  method Animate(startPosition: real, targetPosition: real, frameTimes: seq<real>)
    returns (positions: seq<real>, finished: bool)
    ensures |positions| <= |frameTimes|
    ensures forall k :: 0 <= k < |positions| ==>
      positions[k] == AnimationFrame(startPosition, targetPosition, frameTimes[k] - frameTimes[0]).scrollTo
    ensures forall k :: 0 <= k < |positions| - 1 ==> frameTimes[k] - frameTimes[0] < Duration
    ensures finished <==> 0 < |positions| && frameTimes[|positions| - 1] - frameTimes[0] >= Duration
    ensures !finished ==> |positions| == |frameTimes|
    ensures Ascending(frameTimes) && startPosition <= targetPosition ==>
      forall k, l :: 0 <= k <= l < |positions| && frameTimes[l] - frameTimes[0] <= Duration ==>
        startPosition <= positions[k] <= positions[l] <= targetPosition
  {
    positions := [];
    finished := false;
    var i := 0;
    while i < |frameTimes| && !finished
      invariant 0 <= i <= |frameTimes|
      invariant |positions| == i
      invariant forall k :: 0 <= k < i ==>
        positions[k] == AnimationFrame(startPosition, targetPosition, frameTimes[k] - frameTimes[0]).scrollTo
      invariant forall k :: 0 <= k < i - 1 ==> frameTimes[k] - frameTimes[0] < Duration
      invariant finished <==> 0 < i && frameTimes[i - 1] - frameTimes[0] >= Duration
    {
      var f := AnimationFrame(startPosition, targetPosition, frameTimes[i] - frameTimes[0]);
      positions := positions + [f.scrollTo];
      finished := !f.requestNext;
      i := i + 1;
    }
    if Ascending(frameTimes) && startPosition <= targetPosition {
      forall k, l | 0 <= k <= l < |positions| && frameTimes[l] - frameTimes[0] <= Duration
        ensures startPosition <= positions[k] <= positions[l] <= targetPosition
      {
        var c := targetPosition - startPosition;
        EaseMonotone(frameTimes[k] - frameTimes[0], frameTimes[l] - frameTimes[0], startPosition, c, Duration);
        EaseMonotone(frameTimes[l] - frameTimes[0], frameTimes[l] - frameTimes[0], startPosition, c, Duration);
      }
    }
  }

  // ---------------------------------------------------------------------------
  // Anchor clicks
  // ---------------------------------------------------------------------------

  predicate StartsWith(s: string, prefix: string) {
    |prefix| <= |s| && s[..|prefix|] == prefix
  }

  /** The id an anchor click targets: the clicked element must be an `A`
      whose `href` attribute exists and starts with `#`; the id is the href
      without that first character. */
  function AnchorId(tagName: string, href: Option<string>): (id: Option<string>)
    ensures id.Some? <==> tagName == "A" && href.Some? && |href.value| > 0 && href.value[0] == '#'
    ensures id.Some? ==> href.value == "#" + id.value
  {
    if tagName == "A" && href.Some? && StartsWith(href.value, "#") then
      Some(href.value[1..])
    else
      None
  }

  /** An `A` element with href `#` followed by an id targets exactly that id. */
  lemma AnchorIdRoundTrip(id: string)
    ensures AnchorId("A", Some("#" + id)) == Some(id)
  {
    assert ("#" + id)[1..] == id;
  }

  /** The scroll a click starts: from the page's current offset to the
      target element's offset. */
  datatype ScrollPlan = ScrollPlan(startPosition: real, targetPosition: real)

  /** What the click listener does: whether it cancels the browser's own
      jump, and the smooth scroll it starts, if any. */
  datatype ClickEffect = ClickEffect(preventDefault: bool, scroll: Option<ScrollPlan>)

  /** `document.getElementById`: the offset of the element with that id, if
      any.  No element has the empty id, so the empty id finds nothing,
      whatever the map holds for it. */
  function FindElement(offsetTops: map<string, real>, id: string): (top: Option<real>)
    ensures top.Some? <==> id != "" && id in offsetTops
    ensures top.Some? ==> top.value == offsetTops[id]
  {
    if id != "" && id in offsetTops then Some(offsetTops[id]) else None
  }

  /** The click listener.  `offsetTops` maps the ids present in the document
      to their elements' `offsetTop`; `pageYOffset` is the current offset. */
  function HandleClick(tagName: string, href: Option<string>,
                       offsetTops: map<string, real>, pageYOffset: real): (e: ClickEffect)
    ensures e.preventDefault <==> AnchorId(tagName, href).Some?
    ensures e.scroll.Some? <==>
      AnchorId(tagName, href).Some? && AnchorId(tagName, href).value != ""
      && AnchorId(tagName, href).value in offsetTops
    ensures e.scroll.Some? ==>
      e.scroll.value == ScrollPlan(pageYOffset, offsetTops[AnchorId(tagName, href).value])
  {
    match AnchorId(tagName, href)
    case None => ClickEffect(false, None)
    case Some(id) =>
      match FindElement(offsetTops, id)
      case Some(top) => ClickEffect(true, Some(ScrollPlan(pageYOffset, top)))
      case None => ClickEffect(true, None)
  }

  /** A bare `#` link still cancels the browser's jump, but names no element,
      so no scroll starts. */
  lemma BareHashCancelsOnly(offsetTops: map<string, real>, pageYOffset: real)
    ensures HandleClick("A", Some("#"), offsetTops, pageYOffset) == ClickEffect(true, None)
  {
    assert AnchorId("A", Some("#")) == Some("");
  }

  /** A started scroll reaches the clicked element's offset at the end of
      the duration: `easeInOutQuad(duration, start, target - start,
      duration)` is the target. */
  lemma ClickScrollsToTarget(tagName: string, href: Option<string>,
                             offsetTops: map<string, real>, pageYOffset: real)
    requires HandleClick(tagName, href, offsetTops, pageYOffset).scroll.Some?
    ensures var plan := HandleClick(tagName, href, offsetTops, pageYOffset).scroll.value;
      AnimationFrame(plan.startPosition, plan.targetPosition, Duration).scrollTo
        == offsetTops[AnchorId(tagName, href).value]
  {
    var plan := HandleClick(tagName, href, offsetTops, pageYOffset).scroll.value;
    FrameEndpoints(plan.startPosition, plan.targetPosition);
  }
}
