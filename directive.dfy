/**
 * The directive as the source runs it: the `_data` record as an object whose
 * fields the handlers assign, the element whose style the handlers write, and
 * the document the overlays are attached to. Each handler is proved to make
 * exactly the transition of the same name in Transitions.
 */
module Directive {
  import opened Wrappers
  import opened Pointer
  import opened HitTest
  import opened Edges
  import opened Transitions
  import Sessions

  /** The dragged element. `left`/`top` stand for both `style.left`/`style.top`
      and `offsetLeft`/`offsetTop`; `width`/`height` for `offsetWidth`/`offsetHeight`. */
  class Element {
    var left: int
    var top: int
    var width: int
    var height: int
    var zIndex: string

    constructor (left: int, top: int, width: int, height: int, zIndex: string)
      ensures Value() == ElementState(left, top, width, height, zIndex)
    {
      this.left, this.top, this.width, this.height, this.zIndex := left, top, width, height, zIndex;
    }

    function Value(): ElementState
      reads this
    {
      ElementState(left, top, width, height, zIndex)
    }
  }

  /** The document body, as far as the directive's overlays go. */
  class Document {
    var overlays: set<OverlayId>
    var nextOverlay: OverlayId

    constructor ()
      ensures Value() == Page({}, 0)
    {
      overlays, nextOverlay := {}, 0;
    }

    function Value(): Page
      reads this
    {
      Page(overlays, nextOverlay)
    }

    /** `createOverlay`: a new overlay element appended to the body. */
    method CreateOverlay() returns (id: OverlayId)
      modifies this
      ensures (Value(), id) == Transitions.CreateOverlay(old(Value()))
      ensures overlays == old(overlays) + {id}
      ensures PageValid(old(Value())) ==> id !in old(overlays) && PageValid(Value())
    {
      id := nextOverlay;
      overlays := overlays + {id};
      nextOverlay := nextOverlay + 1;
    }

    /** `overlay.remove()`. */
    method RemoveOverlay(id: OverlayId)
      modifies this
      ensures Value() == Transitions.RemoveOverlay(old(Value()), id)
      ensures overlays == old(overlays) - {id} && nextOverlay == old(nextOverlay)
    {
      overlays := overlays - {id};
    }
  }

  /** `adjustElementZIndex`. */
  method AdjustElementZIndex(el: Element, index: string)
    modifies el
    ensures el.Value() == old(el.Value()).(zIndex := index)
  {
    el.zIndex := index;
  }

  /** The `_data` record of one element. */
  class DragState {
    var handleId: Option<string>
    var down: bool
    var height: int
    var width: int
    var initialX: int
    var initialY: int
    var constrainToWindow: bool
    var cursorPreviousX: int
    var cursorPreviousY: int
    var draggerOffsetLeft: int
    var draggerOffsetTop: int
    var overlay: Option<OverlayId>
    var initialZIndex: string

    function Data(): DragData
      reads this
    {
      DragData(handleId, down, height, width, initialX, initialY, constrainToWindow,
               cursorPreviousX, cursorPreviousY, draggerOffsetLeft, draggerOffsetTop,
               overlay, initialZIndex)
    }

    /** Everything the handlers can change. */
    function State(el: Element, doc: Document): World
      reads this, el, doc
    {
      World(Data(), el.Value(), doc.Value())
    }

    /** The `inserted` hook: `arg` is `binding.arg`, `windowOnly` the
        `window-only` modifier. */
    constructor Inserted(el: Element, arg: Option<string>, windowOnly: bool)
      ensures Data() == Transitions.Inserted(el.Value(), arg, windowOnly)
      ensures forall doc: Document :: doc.overlays == {} ==> Inv(State(el, doc))
    {
      handleId := None;
      down := false;
      height := 0;
      width := 0;
      initialX := 0;
      initialY := 0;
      constrainToWindow := false;
      cursorPreviousX := 0;
      cursorPreviousY := 0;
      draggerOffsetLeft := 0;
      draggerOffsetTop := 0;
      overlay := None;
      initialZIndex := "";
      new;
      handleId := if arg.Some? && arg.value != "" then arg else None;
      constrainToWindow := windowOnly;
      SetDraggerOffset(el);
      initialZIndex := el.zIndex;
      forall doc: Document | doc.overlays == {} ensures Inv(State(el, doc)) {
        InsertedEstablishesInv(el.Value(), arg, windowOnly, doc.Value());
      }
    }

    /** `setDraggerOffset`: the element's position becomes the resting offset. */
    method SetDraggerOffset(el: Element)
      modifies this
      ensures Data() == Transitions.SetDraggerOffset(old(Data()), el.Value())
      ensures draggerOffsetLeft == el.left && draggerOffsetTop == el.top
    {
      draggerOffsetLeft := el.left;
      draggerOffsetTop := el.top;
    }

    /** The `mousedown` handler (also `touchstart`). */
    method MouseDown(e: PointerEvent, el: Element, doc: Document, regions: Regions)
      modifies this, el, doc
      ensures State(el, doc) == Transitions.MouseDown(old(State(el, doc)), e, regions)
    {
      var p := Coordinates(e);
      if handleId.Some? && handleId.value != "" && !IsEventInElement(p, regions, handleId.value) {
        return;
      }
      StartDrag(e, el, doc, regions);
    }

    /** The part of `mousedown` after the handle check passed: drop any
        recorded overlay, measure the element, record the pointer, attach a
        new overlay and raise the element. */
    method StartDrag(e: PointerEvent, el: Element, doc: Document, regions: Regions)
      requires StartsDrag(Data(), Coordinates(e), regions)
      modifies this, el, doc
      ensures State(el, doc) == Transitions.MouseDown(old(State(el, doc)), e, regions)
    {
      ghost var before := State(el, doc);
      var p := Coordinates(e);
      if overlay.Some? {
        doc.RemoveOverlay(overlay.value);
      }
      ghost var cleared := doc.Value();
      assert cleared == if before.data.overlay.Some? then RemoveOverlay(before.page, before.data.overlay.value) else before.page;
      // the size is measured again at every drag start
      width := el.width;
      height := el.height;
      down := true;
      initialX := p.x;
      initialY := p.y;
      var created := doc.CreateOverlay();
      overlay := Some(created);
      AdjustElementZIndex(el, ElevatedZIndex);
      assert Data() == before.data.(width := before.el.width, height := before.el.height, down := true,
                                    initialX := p.x, initialY := p.y, overlay := Some(created));
      assert el.Value() == before.el.(zIndex := ElevatedZIndex);
      assert (doc.Value(), created) == Transitions.CreateOverlay(cleared);
    }

    /** The `mouseup` handler (also `touchend`). The listener removals it
        performs name functions that were never subscribed, so they have no
        effect and are not modelled. */
    method MouseUp(e: PointerEvent, el: Element, doc: Document)
      modifies this, el, doc
      ensures State(el, doc) == Transitions.MouseUp(old(State(el, doc)))
    {
      down := false;
      if overlay.None? {
        return;
      }
      doc.RemoveOverlay(overlay.value);
      AdjustElementZIndex(el, initialZIndex);
      SetDraggerOffset(el);
    }

    /** The `mousemove` handler (also `touchmove`), given the viewport size at
        the time of the event. */
    method MouseMove(e: PointerEvent, el: Element, viewport: Viewport)
      modifies this, el
      ensures Data() == old(Data()).(cursorPreviousX := Coordinates(e).x, cursorPreviousY := Coordinates(e).y)
      ensures forall page: Page :: World(Data(), el.Value(), page)
                                     == Transitions.MouseMove(World(old(Data()), old(el.Value()), page), e, viewport)
    {
      var p := Coordinates(e);
      if down {
        var movingLeft := cursorPreviousX > p.x;
        var movingRight := cursorPreviousX < p.x;
        var movingUp := cursorPreviousY < p.y;
        var movingDown := cursorPreviousY > p.y;
        // with the constraint on, an axis at a viewport edge is not updated
        if !(constrainToWindow
             && (ReachedLeft(el.left, width, viewport.innerWidth, movingLeft)
                 || ReachedRight(el.left, movingRight))) {
          el.left := draggerOffsetLeft + (p.x - initialX);
        }
        if !(constrainToWindow
             && (ReachedTop(el.top, movingUp)
                 || ReachedBottom(el.top, height, viewport.innerHeight, movingDown))) {
          el.top := draggerOffsetTop + (p.y - initialY);
        }
      }
      cursorPreviousX := p.x;
      cursorPreviousY := p.y;
    }

    /** The listeners the directive subscribes on the element and on each
        overlay: an event runs the handler subscribed to its type, if any. */
    method Handle(touchEnabled: bool, input: Sessions.Input, el: Element, doc: Document)
      modifies this, el, doc
      ensures State(el, doc) == Sessions.Step(touchEnabled, old(State(el, doc)), input)
    {
      var handler := Sessions.ListenerFor(touchEnabled, input.kind);
      match handler
      case None =>
      case Some(OnDown) => MouseDown(input.event, el, doc, input.env.regions);
      case Some(OnMove) => MouseMove(input.event, el, input.env.viewport);
      case Some(OnUp) => MouseUp(input.event, el, doc);
    }
  }
}
