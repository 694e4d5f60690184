/**
 * The drag state machine of the `v-drag` directive on values: the directive's
 * `_data` record, the dragged element, and the overlays attached to the page,
 * and one function per handler (src/index.js:49-162) together with the
 * `inserted` initialisation (src/index.js:166-196).
 *
 * Assumption of the model: the element is absolutely positioned with the
 * viewport as origin, so its `offsetLeft`/`offsetTop` read back the last
 * `style.left`/`style.top` written; only the directive moves it.
 */
module Transitions {
  import opened Wrappers
  import opened Pointer
  import opened HitTest
  import opened Edges

  /** An overlay element, identified by the order in which it was created. */
  type OverlayId = nat

  /** The z-index mousedown gives the element (the number 10001, read back
      from `style.zIndex` as a string). */
  const ElevatedZIndex: string := "10001"

  /** The directive's per-element record `_data`. */
  datatype DragData = DragData(
    handleId: Option<string>,
    down: bool,
    height: int,
    width: int,
    initialX: int,
    initialY: int,
    constrainToWindow: bool,
    cursorPreviousX: int,
    cursorPreviousY: int,
    draggerOffsetLeft: int,
    draggerOffsetTop: int,
    overlay: Option<OverlayId>,
    initialZIndex: string)

  /** What the handlers read and write of the dragged element: its position,
      its size as laid out, and its `style.zIndex`. */
  datatype ElementState = ElementState(left: int, top: int, width: int, height: int, zIndex: string)

  /** The overlays this directive has attached to the page, and the id the
      next created overlay will get. */
  datatype Page = Page(overlays: set<OverlayId>, nextOverlay: OverlayId)

  /** Everything the handlers can change. */
  datatype World = World(data: DragData, el: ElementState, page: Page)

  /** Every attached overlay was created earlier. */
  ghost predicate PageValid(page: Page)
  {
    forall o :: o in page.overlays ==> o < page.nextOverlay
  }

  /** The `_data` record the `inserted` hook builds for an element, from the
      directive's argument (`binding.arg`) and its `window-only` modifier. An
      absent or empty argument means no handle region. */
  function Inserted(el: ElementState, arg: Option<string>, windowOnly: bool): DragData
  {
    DragData(
      handleId := if arg.Some? && arg.value != "" then arg else None,
      down := false,
      height := 0,
      width := 0,
      initialX := 0,
      initialY := 0,
      constrainToWindow := windowOnly,
      cursorPreviousX := 0,
      cursorPreviousY := 0,
      draggerOffsetLeft := el.left,
      draggerOffsetTop := el.top,
      overlay := None,
      initialZIndex := el.zIndex)
  }

  /** `createOverlay`: a new overlay appended to the page. */
  function CreateOverlay(page: Page): (result: (Page, OverlayId))
    ensures result.0.overlays == page.overlays + {result.1}
    ensures PageValid(page) ==> result.1 !in page.overlays && PageValid(result.0)
  {
    (Page(page.overlays + {page.nextOverlay}, page.nextOverlay + 1), page.nextOverlay)
  }

  /** `overlay.remove()`: detaching an overlay that is not attached does nothing. */
  function RemoveOverlay(page: Page, id: OverlayId): Page
  {
    page.(overlays := page.overlays - {id})
  }

  /** `setDraggerOffset`: the resting offset becomes the element's position. */
  function SetDraggerOffset(data: DragData, el: ElementState): DragData
  {
    data.(draggerOffsetLeft := el.left, draggerOffsetTop := el.top)
  }

  /** A handle region restricts dragging when the handle id is set and non-empty. */
  predicate HandleRestricted(data: DragData)
  {
    data.handleId.Some? && data.handleId.value != ""
  }

  /** Whether a pointer-down at `p` gets past the handle-region check. */
  predicate StartsDrag(data: DragData, p: Point, regions: Regions)
  {
    !(HandleRestricted(data) && !IsEventInElement(p, regions, data.handleId.value))
  }

  /** The `mousedown` handler. */
  function MouseDown(w: World, e: PointerEvent, regions: Regions): World
  {
    var p := Coordinates(e);
    if !StartsDrag(w.data, p, regions) then w
    else
      var cleared := if w.data.overlay.Some? then RemoveOverlay(w.page, w.data.overlay.value) else w.page;
      var created := CreateOverlay(cleared);
      var data := w.data.(width := w.el.width, height := w.el.height, down := true,
                          initialX := p.x, initialY := p.y, overlay := Some(created.1));
      World(data, w.el.(zIndex := ElevatedZIndex), created.0)
  }

  /** The `mousemove` handler, given the viewport size at the time of the event. */
  function MouseMove(w: World, e: PointerEvent, viewport: Viewport): World
  {
    var p := Coordinates(e);
    var d := w.data;
    var el :=
      if !d.down then w.el
      else
        var horizontal :=
          if d.constrainToWindow && HorizontalBlocked(w.el.left, d.width, viewport.innerWidth, d.cursorPreviousX, p.x)
          then w.el
          else w.el.(left := d.draggerOffsetLeft + (p.x - d.initialX));
        if d.constrainToWindow && VerticalBlocked(horizontal.top, d.height, viewport.innerHeight, d.cursorPreviousY, p.y)
        then horizontal
        else horizontal.(top := d.draggerOffsetTop + (p.y - d.initialY));
    World(d.(cursorPreviousX := p.x, cursorPreviousY := p.y), el, w.page)
  }

  /** The `mouseup` handler. Its event's coordinates are never read. The
      recorded overlay is detached but stays recorded. */
  function MouseUp(w: World): World
  {
    var d := w.data.(down := false);
    if d.overlay.None? then w.(data := d)
    else
      var el := w.el.(zIndex := d.initialZIndex);
      World(SetDraggerOffset(d, el), el, RemoveOverlay(w.page, d.overlay.value))
  }

  /** The invariant of every state the handlers can reach from `inserted`:
      an overlay is attached exactly while a drag is in progress, and it is the
      recorded one; the element is raised while dragging; at rest the element
      has its original z-index and sits at the resting offset. */
  ghost predicate Inv(w: World)
  {
    PageValid(w.page)
    && (w.data.down ==>
          w.data.overlay.Some? && w.page.overlays == {w.data.overlay.value}
          && w.el.zIndex == ElevatedZIndex)
    && (!w.data.down ==>
          w.page.overlays == {} && w.el.zIndex == w.data.initialZIndex
          && w.data.draggerOffsetLeft == w.el.left && w.data.draggerOffsetTop == w.el.top)
  }

  /** The state right after `inserted` satisfies the invariant, on a page
      without overlays of this directive. */
  lemma InsertedEstablishesInv(el: ElementState, arg: Option<string>, windowOnly: bool, page: Page)
    requires page.overlays == {}
    ensures Inv(World(Inserted(el, arg, windowOnly), el, page))
    ensures !Inserted(el, arg, windowOnly).down && Inserted(el, arg, windowOnly).overlay == None
    ensures Inserted(el, arg, windowOnly).handleId.Some? <==> arg.Some? && arg.value != ""
  {
  }

  /** At most one overlay of the directive is attached in any reachable state. */
  lemma InvBoundsOverlays(w: World)
    requires Inv(w)
    ensures |w.page.overlays| <= 1
    ensures w.data.down <==> |w.page.overlays| == 1
  {
  }

  /** A pointer-down outside the configured handle region changes nothing. */
  lemma MouseDownOutsideHandle(w: World, e: PointerEvent, regions: Regions)
    requires w.data.handleId.Some? && w.data.handleId.value != ""
    requires !IsEventInElement(Coordinates(e), regions, w.data.handleId.value)
    ensures MouseDown(w, e, regions) == w
  {
  }

  /** What a pointer-down that passes the handle check does. */
  lemma MouseDownStartsDrag(w: World, e: PointerEvent, regions: Regions)
    requires PageValid(w.page)
    requires StartsDrag(w.data, Coordinates(e), regions)
    ensures var r := MouseDown(w, e, regions);
            var p := Coordinates(e);
            && r.data.down
            && r.data.width == w.el.width && r.data.height == w.el.height
            && r.data.initialX == p.x && r.data.initialY == p.y
            && r.data.overlay.Some?
            && r.data.overlay.value !in w.page.overlays
            && r.page.overlays == (w.page.overlays - (if w.data.overlay.Some? then {w.data.overlay.value} else {}))
                                  + {r.data.overlay.value}
            && r.el == w.el.(zIndex := ElevatedZIndex)
            && r.data.draggerOffsetLeft == w.data.draggerOffsetLeft
            && r.data.draggerOffsetTop == w.data.draggerOffsetTop
            && r.data == w.data.(down := true, width := w.el.width, height := w.el.height,
                                 initialX := p.x, initialY := p.y, overlay := r.data.overlay)
  {
  }

  /** A pointer-down while already dragging replaces the overlay: exactly one
      overlay stays attached, and it is not the previous one. */
  lemma ReentrantMouseDown(w: World, e: PointerEvent, regions: Regions)
    requires Inv(w) && w.data.down
    requires StartsDrag(w.data, Coordinates(e), regions)
    ensures var r := MouseDown(w, e, regions);
            |r.page.overlays| == 1 && w.data.overlay.value !in r.page.overlays
  {
    var r := MouseDown(w, e, regions);
    MouseDownStartsDrag(w, e, regions);
    assert r.page.overlays == {r.data.overlay.value};
  }

  /** What a pointer-move does: it always records the pointer; it moves the
      element only while dragging, to the resting offset plus the pointer's
      displacement since the drag began, on each axis the edge rule does not
      hold. */
  lemma MouseMoveEffect(w: World, e: PointerEvent, viewport: Viewport)
    ensures var r := MouseMove(w, e, viewport);
            var p := Coordinates(e);
            var d := w.data;
            && r.data == d.(cursorPreviousX := p.x, cursorPreviousY := p.y)
            && r.page == w.page
            && r.el.width == w.el.width && r.el.height == w.el.height && r.el.zIndex == w.el.zIndex
            && (!d.down ==> r.el == w.el)
            && (d.down && !d.constrainToWindow ==>
                  r.el.left == d.draggerOffsetLeft + (p.x - d.initialX)
                  && r.el.top == d.draggerOffsetTop + (p.y - d.initialY))
            && (d.down && d.constrainToWindow ==>
                  r.el.left == (if HorizontalBlocked(w.el.left, d.width, viewport.innerWidth, d.cursorPreviousX, p.x)
                                then w.el.left else d.draggerOffsetLeft + (p.x - d.initialX))
                  && r.el.top == (if VerticalBlocked(w.el.top, d.height, viewport.innerHeight, d.cursorPreviousY, p.y)
                                  then w.el.top else d.draggerOffsetTop + (p.y - d.initialY)))
  {
  }

  /** What a pointer-up does: the drag ends; without a recorded overlay
      nothing else changes; otherwise the overlay is detached (and stays
      recorded), the z-index is restored and the element's position becomes
      the resting offset. */
  lemma MouseUpEffect(w: World)
    ensures var r := MouseUp(w);
            && !r.data.down
            && r.data.overlay == w.data.overlay
            && (w.data.overlay.None? ==> r == w.(data := w.data.(down := false)))
            && (w.data.overlay.Some? ==>
                  r.page.overlays == w.page.overlays - {w.data.overlay.value}
                  && r.page.nextOverlay == w.page.nextOverlay
                  && r.el == w.el.(zIndex := w.data.initialZIndex)
                  && r.data == w.data.(down := false, draggerOffsetLeft := w.el.left, draggerOffsetTop := w.el.top))
  {
  }

  /** Pointer-up twice is pointer-up once. */
  lemma MouseUpIdempotent(w: World)
    ensures MouseUp(MouseUp(w)) == MouseUp(w)
  {
  }

  /** In every reachable state, a pointer-up while no drag is in progress
      leaves everything unchanged, even though after the first drag it takes
      the full path (the overlay stays recorded). */
  lemma IdleMouseUpIsNoop(w: World)
    requires Inv(w) && !w.data.down
    ensures MouseUp(w) == w
  {
    MouseUpEffect(w);
  }

  lemma MouseDownPreservesInv(w: World, e: PointerEvent, regions: Regions)
    requires Inv(w)
    ensures Inv(MouseDown(w, e, regions))
  {
    if StartsDrag(w.data, Coordinates(e), regions) {
      MouseDownStartsDrag(w, e, regions);
      var r := MouseDown(w, e, regions);
      assert w.page.overlays - (if w.data.overlay.Some? then {w.data.overlay.value} else {}) == {};
      assert r.page.overlays == {r.data.overlay.value};
    }
  }

  lemma MouseMovePreservesInv(w: World, e: PointerEvent, viewport: Viewport)
    requires Inv(w)
    ensures Inv(MouseMove(w, e, viewport))
  {
    MouseMoveEffect(w, e, viewport);
  }

  lemma MouseUpPreservesInv(w: World)
    requires Inv(w)
    ensures Inv(MouseUp(w))
  {
    MouseUpEffect(w);
  }
}
