/**
 * Sequences of events. The `inserted` hook subscribes the three handlers to
 * the element, and `createOverlay` subscribes them to each overlay, under the
 * touch event names on a touch-capable page and the mouse event names
 * otherwise (src/index.js:19-27, 185-193). Whether the page is touch-capable
 * is a fixed parameter here. Events reach the handlers one at a time; Run
 * applies a sequence of them in order.
 */
module Sessions {
  import opened Wrappers
  import opened Pointer
  import opened HitTest
  import opened Edges
  import opened Transitions

  /** The DOM event types the directive subscribes to. */
  datatype EventType = Mousedown | Mousemove | Mouseup | Touchstart | Touchmove | Touchend
  {
    predicate IsTouch() { Touchstart? || Touchmove? || Touchend? }
  }

  /** The directive's three handlers. */
  datatype Handler = OnDown | OnMove | OnUp

  /** The layout at the time of an event: the handle regions of the page and
      the viewport size. */
  datatype Env = Env(regions: Regions, viewport: Viewport)

  /** One event delivered to the element or to its overlay. */
  datatype Input = Input(kind: EventType, event: PointerEvent, env: Env)

  /** The handler subscribed to an event type, if any: only the touch event
      names are subscribed on a touch-capable page, only the mouse ones
      otherwise. */
  function ListenerFor(touchEnabled: bool, kind: EventType): (h: Option<Handler>)
    ensures h.Some? <==> kind.IsTouch() == touchEnabled
    ensures h == Some(OnDown) ==> kind == Mousedown || kind == Touchstart
    ensures h == Some(OnMove) ==> kind == Mousemove || kind == Touchmove
    ensures h == Some(OnUp) ==> kind == Mouseup || kind == Touchend
  {
    match kind
    case Touchstart => if touchEnabled then Some(OnDown) else None
    case Touchend => if touchEnabled then Some(OnUp) else None
    case Touchmove => if touchEnabled then Some(OnMove) else None
    case Mouseup => if touchEnabled then None else Some(OnUp)
    case Mousedown => if touchEnabled then None else Some(OnDown)
    case Mousemove => if touchEnabled then None else Some(OnMove)
  }

  /** Delivering one event. */
  function Step(touchEnabled: bool, w: World, input: Input): World
  {
    match ListenerFor(touchEnabled, input.kind)
    case None => w
    case Some(OnDown) => MouseDown(w, input.event, input.env.regions)
    case Some(OnMove) => MouseMove(w, input.event, input.env.viewport)
    case Some(OnUp) => MouseUp(w)
  }

  /** Delivering a sequence of events in order. */
  function Run(touchEnabled: bool, w: World, inputs: seq<Input>): World
    decreases |inputs|
  {
    if inputs == [] then w
    else Run(touchEnabled, Step(touchEnabled, w, inputs[0]), inputs[1..])
  }

  /** Running two sequences one after the other is running their concatenation. */
  lemma {:induction false} RunAppend(touchEnabled: bool, w: World, a: seq<Input>, b: seq<Input>)
    ensures Run(touchEnabled, w, a + b) == Run(touchEnabled, Run(touchEnabled, w, a), b)
    decreases |a|
  {
    if a == [] {
      assert a + b == b;
    } else {
      assert (a + b)[0] == a[0];
      assert (a + b)[1..] == a[1..] + b;
      RunAppend(touchEnabled, Step(touchEnabled, w, a[0]), a[1..], b);
    }
  }

  lemma StepPreservesInv(touchEnabled: bool, w: World, input: Input)
    requires Inv(w)
    ensures Inv(Step(touchEnabled, w, input))
  {
    match ListenerFor(touchEnabled, input.kind)
    case None =>
    case Some(OnDown) => MouseDownPreservesInv(w, input.event, input.env.regions);
    case Some(OnMove) => MouseMovePreservesInv(w, input.event, input.env.viewport);
    case Some(OnUp) => MouseUpPreservesInv(w);
  }

  /** Every sequence of events keeps the invariant. */
  lemma {:induction false} RunPreservesInv(touchEnabled: bool, w: World, inputs: seq<Input>)
    requires Inv(w)
    ensures Inv(Run(touchEnabled, w, inputs))
    decreases |inputs|
  {
    if inputs != [] {
      StepPreservesInv(touchEnabled, w, inputs[0]);
      RunPreservesInv(touchEnabled, Step(touchEnabled, w, inputs[0]), inputs[1..]);
    }
  }

  /** From the state `inserted` builds, no sequence of pointer events ever
      leaves more than one overlay of the directive attached, and one is
      attached exactly while a drag is in progress. */
  lemma AtMostOneOverlay(touchEnabled: bool, el: ElementState, arg: Option<string>, windowOnly: bool,
                         page: Page, inputs: seq<Input>)
    requires page.overlays == {}
    ensures var r := Run(touchEnabled, World(Inserted(el, arg, windowOnly), el, page), inputs);
            |r.page.overlays| <= 1 && (r.data.down <==> |r.page.overlays| == 1)
  {
    InsertedEstablishesInv(el, arg, windowOnly, page);
    var w := World(Inserted(el, arg, windowOnly), el, page);
    RunPreservesInv(touchEnabled, w, inputs);
    InvBoundsOverlays(Run(touchEnabled, w, inputs));
  }

  /** Every event of the sequence goes to the move handler. */
  ghost predicate AllMoves(touchEnabled: bool, inputs: seq<Input>)
  {
    forall i :: 0 <= i < |inputs| ==> ListenerFor(touchEnabled, inputs[i].kind) == Some(OnMove)
  }

  /** During an unconstrained drag, after one or more moves the element sits at
      the resting offset plus the displacement of the last pointer position
      from the initial one; nothing but the element's position and the
      recorded pointer changes. */
  lemma {:induction false} MovesFollowPointer(touchEnabled: bool, w: World, inputs: seq<Input>)
    requires w.data.down && !w.data.constrainToWindow
    requires |inputs| > 0 && AllMoves(touchEnabled, inputs)
    ensures var r := Run(touchEnabled, w, inputs);
            var p := Coordinates(inputs[|inputs| - 1].event);
            && r.el == w.el.(left := w.data.draggerOffsetLeft + (p.x - w.data.initialX),
                             top := w.data.draggerOffsetTop + (p.y - w.data.initialY))
            && r.data == w.data.(cursorPreviousX := p.x, cursorPreviousY := p.y)
            && r.page == w.page
    decreases |inputs|
  {
    var next := Step(touchEnabled, w, inputs[0]);
    assert ListenerFor(touchEnabled, inputs[0].kind) == Some(OnMove);
    MouseMoveEffect(w, inputs[0].event, inputs[0].env.viewport);
    if |inputs| > 1 {
      assert AllMoves(touchEnabled, inputs[1..]) by {
        forall i | 0 <= i < |inputs[1..]|
          ensures ListenerFor(touchEnabled, inputs[1..][i].kind) == Some(OnMove)
        {
          assert inputs[1..][i] == inputs[i + 1];
        }
      }
      MovesFollowPointer(touchEnabled, next, inputs[1..]);
      assert inputs[1..][|inputs[1..]| - 1] == inputs[|inputs| - 1];
    }
  }

  /** The first part of an unconstrained drag: after the pointer-down and
      zero or more moves the element is raised, displaced by the pointer's
      net movement, and the drag is in progress with one overlay recorded. */
  lemma DragBeforeRelease(touchEnabled: bool, w: World, down: Input, moves: seq<Input>)
    requires Inv(w) && !w.data.down && !w.data.constrainToWindow
    requires ListenerFor(touchEnabled, down.kind) == Some(OnDown)
    requires StartsDrag(w.data, Coordinates(down.event), down.env.regions)
    requires AllMoves(touchEnabled, moves)
    ensures var m := Run(touchEnabled, w, [down] + moves);
            var p0 := Coordinates(down.event);
            var p := if |moves| > 0 then Coordinates(moves[|moves| - 1].event) else p0;
            && m.el == w.el.(left := w.el.left + (p.x - p0.x), top := w.el.top + (p.y - p0.y),
                             zIndex := ElevatedZIndex)
            && m.data.down && m.data.overlay.Some? && m.page.overlays == {m.data.overlay.value}
            && m.data.initialZIndex == w.data.initialZIndex
  {
    var started := Step(touchEnabled, w, down);
    MouseDownStartsDrag(w, down.event, down.env.regions);
    MouseDownPreservesInv(w, down.event, down.env.regions);
    assert Run(touchEnabled, w, [down]) == started;
    RunAppend(touchEnabled, w, [down], moves);
    if |moves| > 0 {
      MovesFollowPointer(touchEnabled, started, moves);
    }
  }

  /** A whole unconstrained drag (pointer-down that passes the handle check,
      zero or more moves, pointer-up) starting at rest moves the element by the
      pointer's net displacement (none when there was no move), commits the
      new position as the resting offset, restores the z-index and leaves no
      overlay attached. */
  lemma DragSessionCommitsPosition(touchEnabled: bool, w: World, down: Input, moves: seq<Input>, up: Input)
    requires Inv(w) && !w.data.down && !w.data.constrainToWindow
    requires ListenerFor(touchEnabled, down.kind) == Some(OnDown)
    requires StartsDrag(w.data, Coordinates(down.event), down.env.regions)
    requires AllMoves(touchEnabled, moves)
    requires ListenerFor(touchEnabled, up.kind) == Some(OnUp)
    ensures var r := Run(touchEnabled, w, [down] + moves + [up]);
            var p0 := Coordinates(down.event);
            var p := if |moves| > 0 then Coordinates(moves[|moves| - 1].event) else p0;
            && r.el.left == w.el.left + (p.x - p0.x)
            && r.el.top == w.el.top + (p.y - p0.y)
            && (|moves| == 0 ==> r.el == w.el)
            && r.data.draggerOffsetLeft == r.el.left && r.data.draggerOffsetTop == r.el.top
            && !r.data.down
            && r.page.overlays == {}
            && r.el.zIndex == w.data.initialZIndex
  {
    DragBeforeRelease(touchEnabled, w, down, moves);
    var moved := Run(touchEnabled, w, [down] + moves);
    RunAppend(touchEnabled, w, [down] + moves, [up]);
    assert Run(touchEnabled, moved, [up]) == MouseUp(moved);
    MouseUpEffect(moved);
  }

  /** A touch event standing for a mouse event: the matching touch name, the
      same layout, and (except for the end event, whose coordinates no
      handler reads) the same normalised coordinates. */
  ghost predicate Corresponds(touch: Input, mouse: Input)
  {
    && touch.env == mouse.env
    && match mouse.kind
       case Mousedown => touch.kind == Touchstart && Coordinates(touch.event) == Coordinates(mouse.event)
       case Mousemove => touch.kind == Touchmove && Coordinates(touch.event) == Coordinates(mouse.event)
       case Mouseup => touch.kind == Touchend
       case _ => false
  }

  /** On a touch-capable page a touch sequence has the same effect as the
      corresponding mouse sequence on a page without touch. */
  lemma {:induction false} TouchParity(w: World, touches: seq<Input>, mice: seq<Input>)
    requires |touches| == |mice|
    requires forall i :: 0 <= i < |mice| ==> Corresponds(touches[i], mice[i])
    ensures Run(true, w, touches) == Run(false, w, mice)
    decreases |mice|
  {
    if mice != [] {
      assert Corresponds(touches[0], mice[0]);
      assert Step(true, w, touches[0]) == Step(false, w, mice[0]);
      TouchParity(Step(true, w, touches[0]), touches[1..], mice[1..]);
    }
  }

  /** The touch sequence (10,10) -> (50,30) -> (50,30) and the same mouse
      sequence end in the same state. */
  lemma TouchParityExample(w: World, env: Env)
    ensures Run(true, w, [Input(Touchstart, PointerEvent(0, 0, [Touch(10, 10)]), env),
                          Input(Touchmove, PointerEvent(0, 0, [Touch(50, 30)]), env),
                          Input(Touchend, PointerEvent(0, 0, []), env)])
         == Run(false, w, [Input(Mousedown, PointerEvent(10, 10, []), env),
                           Input(Mousemove, PointerEvent(50, 30, []), env),
                           Input(Mouseup, PointerEvent(50, 30, []), env)])
  {
    var touches := [Input(Touchstart, PointerEvent(0, 0, [Touch(10, 10)]), env),
                    Input(Touchmove, PointerEvent(0, 0, [Touch(50, 30)]), env),
                    Input(Touchend, PointerEvent(0, 0, []), env)];
    var mice := [Input(Mousedown, PointerEvent(10, 10, []), env),
                 Input(Mousemove, PointerEvent(50, 30, []), env),
                 Input(Mouseup, PointerEvent(50, 30, []), env)];
    assert Corresponds(touches[0], mice[0]);
    assert Corresponds(touches[1], mice[1]);
    assert Corresponds(touches[2], mice[2]);
    TouchParity(w, touches, mice);
  }

  /** An element with z-index 5 is raised to 10001 by a pointer-down and gets
      5 back at the pointer-up. */
  lemma StackingOrderExample(el: ElementState, page: Page, e: PointerEvent, env: Env)
    requires el.zIndex == "5" && page.overlays == {}
    ensures var w := World(Inserted(el, None, false), el, page);
            var dragging := Step(false, w, Input(Mousedown, e, env));
            && dragging.el.zIndex == "10001"
            && Step(false, dragging, Input(Mouseup, e, env)).el.zIndex == "5"
  {
  }

  /** In a 1000 x 800 viewport, a 100 x 50 element held at the top-left corner
      with the constraint on stays at left 0 when the pointer moves left, and
      follows the pointer when it moves right. */
  lemma LeftEdgeExample(d: DragData, el: ElementState, page: Page, y: int)
    requires d.down && d.constrainToWindow && d.width == 100 && d.height == 50
    requires el.left == 0 && el.top == 0 && d.cursorPreviousX == 40
    ensures MouseMove(World(d, el, page), PointerEvent(30, y, []), Viewport(1000, 800)).el.left == 0
    ensures MouseMove(World(d, el, page), PointerEvent(50, y, []), Viewport(1000, 800)).el.left
            == d.draggerOffsetLeft + (50 - d.initialX)
  {
  }

  /** The constraint skips an update rather than clamping it: one large move
      takes an element that is well inside the viewport past its right edge. */
  lemma SkipIsNotClamp()
    ensures var d := DragData(None, true, 50, 100, 0, 0, true, 0, 0, 500, 300, Some(0), "");
            var el := ElementState(500, 300, 100, 50, ElevatedZIndex);
            var r := MouseMove(World(d, el, Page({0}, 1)), PointerEvent(2000, 0, []), Viewport(1000, 800));
            r.el.left == 2500 && r.el.left + r.el.width > 1000
  {
  }
}
