/**
 * Pointer events as the directive's handlers receive them, and the
 * normalisation every handler applies before reading coordinates
 * (src/index.js:50-53, 78-81, 121-123): when a touch event carries at least
 * one active touch point, the first touch point's coordinates replace the
 * event's own.
 */
module Pointer {
  /** One active touch point of a touch event. */
  datatype Touch = Touch(clientX: int, clientY: int)

  /** A mouse or touch event: its own viewport coordinates and its active touch
      points (a mouse event has none). */
  datatype PointerEvent = PointerEvent(clientX: int, clientY: int, touches: seq<Touch>)

  /** A position in viewport coordinates. */
  datatype Point = Point(x: int, y: int)

  /** The coordinates a handler works with after normalisation. */
  function Coordinates(e: PointerEvent): Point
  {
    if |e.touches| > 0 then Point(e.touches[0].clientX, e.touches[0].clientY)
    else Point(e.clientX, e.clientY)
  }

  /** Only the first touch point matters: the event's own coordinates and any
      later touch points are ignored once a touch is present. */
  lemma FirstTouchDecides(e1: PointerEvent, e2: PointerEvent)
    requires |e1.touches| > 0 && |e2.touches| > 0
    requires e1.touches[0] == e2.touches[0]
    ensures Coordinates(e1) == Coordinates(e2)
    ensures Coordinates(e1) == Point(e1.touches[0].clientX, e1.touches[0].clientY)
  {
  }

  /** Without touch points the event's own coordinates are used, so a touch
      event and a mouse event at the same place are indistinguishable. */
  lemma TouchMatchesMouse(t: PointerEvent, m: PointerEvent)
    requires |t.touches| > 0 && m.touches == []
    requires t.touches[0].clientX == m.clientX && t.touches[0].clientY == m.clientY
    ensures Coordinates(t) == Coordinates(m) == Point(m.clientX, m.clientY)
  {
  }
}
