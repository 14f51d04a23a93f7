/** useSwipeGesture: horizontal swipe recognition from a start point and an
    end point, over three refs (startX, startY, isDragging). The touch and
    mouse handlers share one logic and are modelled once. */
module SwipeGesture {
  import opened Js

  const DEFAULT_MIN_SWIPE_DISTANCE: int := 100

  /** Which callback an end event fires, if any. */
  datatype Swipe = NoSwipe | SwipeLeft | SwipeRight

  function Abs(x: int): nat {
    if x < 0 then -x else x
  }

  /** The decision for one gesture, `deltaX = startX - endX` and likewise for
      y: only a long enough, mostly horizontal movement is a swipe, and it is
      a left swipe when the pointer moved left. */
  function SwipeDecision(deltaX: int, deltaY: int, minSwipeDistance: int): (r: Swipe)
    ensures r != NoSwipe <==> Abs(deltaX) > minSwipeDistance && Abs(deltaX) > 2 * Abs(deltaY)
    ensures r == SwipeLeft ==> deltaX > 0
    ensures r == SwipeRight ==> deltaX < 0
  {
    if Abs(deltaX) > minSwipeDistance && Abs(deltaX) > Abs(deltaY) * 2 then
      if deltaX > 0 then SwipeLeft else SwipeRight
    else NoSwipe
  }

  /** Mirroring the movement left-to-right swaps the two swipes. */
  lemma SwipeMirror(deltaX: int, deltaY: int, minSwipeDistance: int)
    ensures SwipeDecision(deltaX, deltaY, minSwipeDistance) == SwipeLeft
            <==> SwipeDecision(-deltaX, deltaY, minSwipeDistance) == SwipeRight
    ensures SwipeDecision(deltaX, deltaY, minSwipeDistance) == NoSwipe
            <==> SwipeDecision(-deltaX, deltaY, minSwipeDistance) == NoSwipe
  {
  }

  lemma AbsScale(k: nat, x: int)
    ensures Abs(k * x) == k * Abs(x)
    ensures x > 0 && k > 0 ==> k * x > 0
  {
    if x < 0 {
      assert k * x == -(k * (-x));
    }
  }

  lemma ScaleKeepsOrder(k: nat, a: nat, b: nat)
    requires k >= 1 && a > b
    ensures k * a >= a && k * a > k * b
  {
    assert k * a - k * b == k * (a - b);
  }

  /** A movement in the swipe's cone stays the same swipe when it is made
      k times longer. */
  lemma SwipeScales(deltaX: int, deltaY: int, minSwipeDistance: int, k: nat)
    requires k >= 1
    requires SwipeDecision(deltaX, deltaY, minSwipeDistance) != NoSwipe
    ensures SwipeDecision(k * deltaX, k * deltaY, minSwipeDistance) == SwipeDecision(deltaX, deltaY, minSwipeDistance)
  {
    AbsScale(k, deltaX);
    AbsScale(k, deltaY);
    ScaleKeepsOrder(k, Abs(deltaX), 2 * Abs(deltaY));
    assert k * (2 * Abs(deltaY)) == 2 * (k * Abs(deltaY));
  }

  /** JavaScript truthiness of a nullable number ref: null and 0 are falsy. */
  predicate NumTruthy(x: Option<int>) {
    x.Some? && x.value != 0
  }

  class SwipeGestureHook {
    const minSwipeDistance: int
    var startX: Option<int>
    var startY: Option<int>
    var isDragging: bool

    /** `minSwipeDistance = 100` applies when the option is left undefined. */
    constructor (minSwipeDistance: Option<int>)
      ensures this.minSwipeDistance == if minSwipeDistance.Some? then minSwipeDistance.value else DEFAULT_MIN_SWIPE_DISTANCE
      ensures startX == None && startY == None && !isDragging
    {
      this.minSwipeDistance := if minSwipeDistance.Some? then minSwipeDistance.value else DEFAULT_MIN_SWIPE_DISTANCE;
      startX := None;
      startY := None;
      isDragging := false;
    }

    /** onTouchStart / onMouseDown: record the start point and start dragging. */
    method OnStart(x: int, y: int)
      modifies this
      ensures startX == Some(x) && startY == Some(y) && isDragging
    {
      startX := Some(x);
      startY := Some(y);
      isDragging := true;
    }

    /** resetState. */
    method ResetState()
      modifies this
      ensures startX == None && startY == None && !isDragging
    {
      startX := None;
      startY := None;
      isDragging := false;
    }

    /** onTouchEnd / onMouseUp / onMouseLeave at the end point (x, y). */
    method OnEnd(x: int, y: int) returns (swipe: Swipe)
      modifies this
      // Ignored while not dragging, with a falsy startX (null or 0) or a null startY.
      ensures !old(isDragging) || !NumTruthy(old(startX)) || old(startY).None? ==>
                swipe == NoSwipe && startX == old(startX) && startY == old(startY) && isDragging == old(isDragging)
      // Otherwise the decision is made on start minus end, and the refs are reset.
      ensures old(isDragging) && NumTruthy(old(startX)) && old(startY).Some? ==>
                && swipe == SwipeDecision(old(startX).value - x, old(startY).value - y, minSwipeDistance)
                && startX == None && startY == None && !isDragging
    {
      if !isDragging || !NumTruthy(startX) || startY.None? {
        return NoSwipe;
      }
      swipe := SwipeDecision(startX.value - x, startY.value - y, minSwipeDistance);
      ResetState();
    }

    /** The window-level mouseup listener: stops dragging, keeps the start point. */
    method OnGlobalMouseUp()
      modifies this`isDragging
      ensures !isDragging
    {
      isDragging := false;
    }
  }

  /** A start followed by an end fires a swipe as SwipeDecision says, unless
      the start x was 0, which the ref check takes for "no start". */
  method Gesture(hook: SwipeGestureHook, x0: int, y0: int, x1: int, y1: int) returns (swipe: Swipe)
    modifies hook
    ensures x0 != 0 ==> swipe == SwipeDecision(x0 - x1, y0 - y1, hook.minSwipeDistance)
    ensures x0 == 0 ==> swipe == NoSwipe && hook.isDragging
    ensures x0 != 0 ==> hook.startX == None && hook.startY == None && !hook.isDragging
  {
    hook.OnStart(x0, y0);
    swipe := hook.OnEnd(x1, y1);
  }
}
