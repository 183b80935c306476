/**
  The integer reveal rules every scene is built from: an element that appears
  once the scene's local frame reaches a threshold, a list whose item i appears
  at base + i * stride, and the frame windows [start, end] handed to the
  interpolation primitive, after whose end the animated value is held.
 */
module Reveal {

  /** Opacity of an element guarded by `frame >= threshold ? 1 : 0`. */
  function GateOpacity(frame: nat, threshold: nat): (o: nat)
    ensures o <= 1
    ensures o == 1 <==> threshold <= frame
  {
    if frame >= threshold then 1 else 0
  }

  /** Offset of an element that slides into place: `frame >= threshold ? 0 : offset`. */
  function GateOffset(frame: nat, threshold: nat, offset: nat): (y: nat)
    ensures y == 0 || y == offset
    ensures y == offset <==> frame < threshold || offset == 0
  {
    if frame >= threshold then 0 else offset
  }

  /** A gate never closes again: once open at frame f it is open at every
      later frame, and the element it guards then sits in place; while it is
      shut the element waits at its full offset. */
  lemma GateMonotone(threshold: nat, offset: nat, f: nat, g: nat)
    requires f <= g
    ensures GateOpacity(f, threshold) <= GateOpacity(g, threshold)
    ensures GateOpacity(f, threshold) == 1 ==> GateOffset(g, threshold, offset) == 0
    ensures GateOpacity(f, threshold) == 0 ==> GateOffset(f, threshold, offset) == offset
  {
  }

  /** Frame at which item i of a staggered list appears. */
  function Delay(base: nat, stride: nat, i: nat): (d: nat)
    ensures i == 0 ==> d == base
    ensures base <= d && (stride > 0 ==> base + i <= d)
  {
    base + i * stride
  }

  function Min(a: nat, b: nat): nat {
    if a <= b then a else b
  }

  /** How many items of an n-item staggered list are visible at frame,
      computed directly rather than item by item. */
  function ShownCount(frame: nat, base: nat, stride: nat, n: nat): (c: nat)
    ensures c <= n
  {
    if frame < base then 0
    else if stride == 0 then n
    else Min(n, (frame - base) / stride + 1)
  }

  lemma MulMonotone(a: nat, b: nat, c: nat)
    requires a <= b
    ensures a * c <= b * c
  {
    assert b * c - a * c == (b - a) * c;
  }

  /** Later items never appear earlier: the delay is non-decreasing in the
      index, and strictly increasing when the stride is positive. */
  lemma DelayIncreasing(base: nat, stride: nat, i: nat, j: nat)
    requires i <= j
    ensures Delay(base, stride, i) <= Delay(base, stride, j)
    ensures stride > 0 && i < j ==> Delay(base, stride, i) < Delay(base, stride, j)
  {
    MulMonotone(i, j, stride);
    if stride > 0 && i < j {
      MulMonotone(i + 1, j, stride);
    }
  }

  /** The visible items form a prefix: item i is visible at frame exactly when
      its index is below ShownCount. */
  lemma ShownIsPrefix(frame: nat, base: nat, stride: nat, n: nat, i: nat)
    requires i < n
    ensures frame >= Delay(base, stride, i) <==> i < ShownCount(frame, base, stride, n)
  {
    if frame >= base && stride > 0 {
      var q := (frame - base) / stride;
      var r := (frame - base) % stride;
      assert frame - base == q * stride + r && 0 <= r < stride;
      if i <= q {
        MulMonotone(i, q, stride);
      } else {
        MulMonotone(q + 1, i, stride);
      }
    }
  }

  /** Once an item is visible it stays visible, so the count never drops. */
  lemma ShownCountMonotone(f: nat, g: nat, base: nat, stride: nat, n: nat)
    requires f <= g
    ensures ShownCount(f, base, stride, n) <= ShownCount(g, base, stride, n)
  {
    var c := ShownCount(f, base, stride, n);
    if c > 0 {
      ShownIsPrefix(f, base, stride, n, c - 1);
      ShownIsPrefix(g, base, stride, n, c - 1);
    }
  }

  /** The whole list is visible exactly from the last item's delay on. */
  lemma AllShownFrom(frame: nat, base: nat, stride: nat, n: nat)
    requires n > 0
    ensures ShownCount(frame, base, stride, n) == n <==> frame >= Delay(base, stride, n - 1)
  {
    ShownIsPrefix(frame, base, stride, n, n - 1);
  }

  /** The input frame range [start, end] given to one interpolation. */
  datatype Window = Window(start: nat, end: nat)

  /** The interpolation primitive rejects an empty or reversed range. */
  predicate ValidWindow(w: Window) {
    w.start < w.end
  }

  /** With right clamping, the value is held from the window's end on. */
  predicate Settled(frame: nat, w: Window) {
    frame >= w.end
  }

  /** Window of item i of a staggered list whose items each animate for span frames. */
  function StaggerWindow(base: nat, stride: nat, span: nat, i: nat): (w: Window)
    ensures w.start == Delay(base, stride, i) && w.end - w.start == span
    ensures ValidWindow(w) <==> span > 0
  {
    Window(Delay(base, stride, i), Delay(base, stride, i) + span)
  }

  /** Staggered windows keep their order: a later item neither starts nor
      settles before an earlier one, and starts strictly later when the stride
      is positive. */
  lemma StaggerWindowsOrdered(base: nat, stride: nat, span: nat, i: nat, j: nat, frame: nat)
    requires i < j
    ensures StaggerWindow(base, stride, span, i).start <= StaggerWindow(base, stride, span, j).start
    ensures stride > 0 ==> StaggerWindow(base, stride, span, i).start < StaggerWindow(base, stride, span, j).start
    ensures Settled(frame, StaggerWindow(base, stride, span, j)) ==> Settled(frame, StaggerWindow(base, stride, span, i))
  {
    DelayIncreasing(base, stride, i, j);
  }

  /** When the stride is shorter than the span, item i + 1 starts moving while
      item i is still animating. */
  lemma ConsecutiveWindowsOverlap(base: nat, stride: nat, span: nat, i: nat)
    requires stride < span
    ensures StaggerWindow(base, stride, span, i + 1).start < StaggerWindow(base, stride, span, i).end
  {
    assert Delay(base, stride, i + 1) == Delay(base, stride, i) + stride by {
      assert (i + 1) * stride == i * stride + stride;
    }
  }
}
