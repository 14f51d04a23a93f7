/** useSliderDrag: a drag-to-confirm slider. While dragging, the pointer's x
    position is turned into a percentage of the track; reaching the threshold
    completes the slide. */
module SliderDrag {
  import opened Js

  /** Width of the draggable handle, subtracted from the track width. */
  const HANDLE_WIDTH: real := 36.0
  const DEFAULT_THRESHOLD: real := 80.0

  /** The part of getBoundingClientRect() the hook reads. */
  datatype Rect = Rect(left: real, width: real)

  /** A JavaScript number as the hook can produce it: a value, or NaN
      (0 / 0 when the pointer is exactly on the left edge of a track that is
      exactly as wide as the handle). */
  datatype Number = Value(v: real) | NaN

  function Max(a: real, b: real): real { if a >= b then a else b }
  function Min(a: real, b: real): real { if a <= b then a else b }

  /** `(x / width) * 100` in IEEE terms for a zero width: ±Infinity clamps to
      100 or 0, and 0 / 0 is NaN, which Math.min and Math.max pass on. */
  function CalculateProgress(rect: Option<Rect>, clientX: real): (r: Number)
    // No element: 0.
    ensures rect.None? ==> r == Value(0.0)
    // A number, when it is one, is a percentage.
    ensures r.Value? ==> 0.0 <= r.v <= 100.0
    // With a positive effective width, r is the share of it covered, clamped.
    ensures rect.Some? && rect.value.width - HANDLE_WIDTH > 0.0 ==>
              var x, w := clientX - rect.value.left, rect.value.width - HANDLE_WIDTH;
              && r.Value?
              && (r.v == 0.0 <==> x <= 0.0)
              && (r.v == 100.0 <==> x >= w)
              && (0.0 < x < w ==> r.v * w == x * 100.0)
    ensures r == NaN <==> rect.Some? && rect.value.width == HANDLE_WIDTH && clientX == rect.value.left
  {
    if rect.None? then Value(0.0)
    else
      var x := clientX - rect.value.left;
      var width := rect.value.width - HANDLE_WIDTH;
      if width == 0.0 then
        (if x > 0.0 then Value(100.0) else if x < 0.0 then Value(0.0) else NaN)
      else Value(Max(0.0, Min(100.0, (x / width) * 100.0)))
  }

  /** For a fixed track of positive effective width, moving the pointer to
      the right never lowers the progress. */
  lemma ProgressMonotone(rect: Rect, x1: real, x2: real)
    requires rect.width - HANDLE_WIDTH > 0.0
    requires x1 <= x2
    ensures CalculateProgress(Some(rect), x1).v <= CalculateProgress(Some(rect), x2).v
  {
    var w := rect.width - HANDLE_WIDTH;
    var a, b := x1 - rect.left, x2 - rect.left;
    assert a / w <= b / w by {
      assert b / w - a / w == (b - a) / w;
    }
  }

  class SliderDragHook {
    const threshold: real
    var progress: Number
    var isDragging: bool

    /** `threshold = 80` applies when the argument is left undefined. */
    constructor (threshold: Option<real>)
      ensures this.threshold == if threshold.Some? then threshold.value else DEFAULT_THRESHOLD
      ensures progress == Value(0.0) && !isDragging
    {
      this.threshold := if threshold.Some? then threshold.value else DEFAULT_THRESHOLD;
      progress := Value(0.0);
      isDragging := false;
    }

    /** startDrag. */
    method StartDrag()
      modifies this`isDragging
      ensures isDragging
    {
      isDragging := true;
    }

    /** handleMove for a pointer at clientX over the track `rect`. Returns
        whether onComplete fired. */
    method HandleMove(rect: Option<Rect>, clientX: real) returns (completed: bool)
      modifies this
      // Not dragging: nothing changes and nothing fires.
      ensures !old(isDragging) ==> !completed && progress == old(progress) && isDragging == old(isDragging)
      ensures old(isDragging) ==>
                var p := CalculateProgress(rect, clientX);
                && (completed <==> p.Value? && p.v >= threshold)
                // Completion stops the drag and resets the progress to 0.
                && (completed ==> !isDragging && progress == Value(0.0))
                && (!completed ==> isDragging && progress == p)
    {
      completed := false;
      if !isDragging {
        return;
      }
      var newProgress := CalculateProgress(rect, clientX);
      progress := newProgress;
      if newProgress.Value? && newProgress.v >= threshold {
        isDragging := false;
        progress := Value(0.0);
        completed := true;
      }
    }

    /** handleEnd: stop dragging; a progress below the threshold snaps back
        to 0 (NaN compares false and stays). */
    method HandleEnd()
      modifies this
      ensures !isDragging
      ensures old(progress).Value? && old(progress).v < threshold ==> progress == Value(0.0)
      ensures !(old(progress).Value? && old(progress).v < threshold) ==> progress == old(progress)
    {
      isDragging := false;
      if progress.Value? && progress.v < threshold {
        progress := Value(0.0);
      }
    }
  }

  /** Starting a drag and moving the pointer to the right end of the track
      completes the slide for any threshold up to 100 and leaves the slider
      at rest. */
  method SlideAcross(hook: SliderDragHook, rect: Rect)
    returns (completed: bool)
    requires rect.width - HANDLE_WIDTH > 0.0 && hook.threshold <= 100.0
    modifies hook
    ensures completed && !hook.isDragging && hook.progress == Value(0.0)
  {
    hook.StartDrag();
    completed := hook.HandleMove(Some(rect), rect.left + rect.width);
  }
}
