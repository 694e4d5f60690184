/**
 * The viewport-edge predicates of the `window-only` constraint
 * (src/index.js:104-118, 130-133). Their names do not match what they test:
 * `reachedLeft` looks at the right edge, `reachedRight` at the left edge, and
 * the direction flags passed for the vertical axis are named after the
 * opposite screen direction (y grows downwards). The functions below keep the
 * source's names and arguments; HorizontalBlocked and VerticalBlocked state
 * the combined effect in terms of edges and pointer movement.
 */
module Edges {
  /** `window.innerWidth` and `window.innerHeight`. */
  datatype Viewport = Viewport(innerWidth: int, innerHeight: int)

  /** Tests the RIGHT viewport edge. */
  predicate ReachedLeft(offsetLeft: int, width: int, innerWidth: int, movingLeft: bool)
  {
    offsetLeft + width >= innerWidth && !movingLeft
  }

  /** Tests the LEFT viewport edge. */
  predicate ReachedRight(offsetLeft: int, movingRight: bool)
  {
    offsetLeft <= 0 && !movingRight
  }

  predicate ReachedTop(offsetTop: int, movingUp: bool)
  {
    offsetTop <= 0 && !movingUp
  }

  predicate ReachedBottom(offsetTop: int, height: int, innerHeight: int, movingDown: bool)
  {
    offsetTop + height >= innerHeight && !movingDown
  }

  /** Whether a constrained move skips the horizontal update, with the
      direction flags computed as mousemove computes them from the previous
      and current pointer x. Blocked exactly when the element touches the
      right edge and the pointer did not move left, or touches the left edge
      and the pointer did not move right. */
  function HorizontalBlocked(offsetLeft: int, width: int, innerWidth: int, previousX: int, x: int): (blocked: bool)
    ensures blocked <==> (offsetLeft + width >= innerWidth && x >= previousX)
                         || (offsetLeft <= 0 && x <= previousX)
  {
    ReachedLeft(offsetLeft, width, innerWidth, previousX > x) || ReachedRight(offsetLeft, previousX < x)
  }

  /** Whether a constrained move skips the vertical update. Blocked exactly
      when the element touches the top edge and the pointer did not move down
      the screen, or touches the bottom edge and the pointer did not move up. */
  function VerticalBlocked(offsetTop: int, height: int, innerHeight: int, previousY: int, y: int): (blocked: bool)
    ensures blocked <==> (offsetTop <= 0 && y <= previousY)
                         || (offsetTop + height >= innerHeight && y >= previousY)
  {
    ReachedTop(offsetTop, previousY < y) || ReachedBottom(offsetTop, height, innerHeight, previousY > y)
  }

  /** At an edge, the element may move only away from it; strictly inside the
      viewport it is never held; an element at least as wide as the viewport
      that reaches the left edge is held on that axis for good. */
  lemma HorizontalEdgeRule(offsetLeft: int, width: int, innerWidth: int, previousX: int, x: int)
    ensures (0 < offsetLeft && offsetLeft + width < innerWidth)
              ==> !HorizontalBlocked(offsetLeft, width, innerWidth, previousX, x)
    ensures (offsetLeft <= 0 && offsetLeft + width < innerWidth)
              ==> (HorizontalBlocked(offsetLeft, width, innerWidth, previousX, x) <==> x <= previousX)
    ensures (0 < offsetLeft && offsetLeft + width >= innerWidth)
              ==> (HorizontalBlocked(offsetLeft, width, innerWidth, previousX, x) <==> x >= previousX)
    ensures (offsetLeft <= 0 && offsetLeft + width >= innerWidth)
              ==> HorizontalBlocked(offsetLeft, width, innerWidth, previousX, x)
  {
  }

  /** The same rule on the vertical axis. */
  lemma VerticalEdgeRule(offsetTop: int, height: int, innerHeight: int, previousY: int, y: int)
    ensures (0 < offsetTop && offsetTop + height < innerHeight)
              ==> !VerticalBlocked(offsetTop, height, innerHeight, previousY, y)
    ensures (offsetTop <= 0 && offsetTop + height < innerHeight)
              ==> (VerticalBlocked(offsetTop, height, innerHeight, previousY, y) <==> y <= previousY)
    ensures (0 < offsetTop && offsetTop + height >= innerHeight)
              ==> (VerticalBlocked(offsetTop, height, innerHeight, previousY, y) <==> y >= previousY)
    ensures (offsetTop <= 0 && offsetTop + height >= innerHeight)
              ==> VerticalBlocked(offsetTop, height, innerHeight, previousY, y)
  {
  }
}
