# v-drag: the drag state machine, in Dafny

`v-drag` is a Vue directive that makes an element draggable. Its handlers
work like a small state machine. Pointer-down starts a drag: it raises the
element's z-index and attaches a full-viewport overlay that keeps receiving
pointer events. Pointer-move places the element at its resting offset plus
the pointer's displacement since the drag started. Pointer-up detaches the
overlay, restores the z-index and commits the element's position as the new
resting offset. Two options change this. A handle id (the directive's
argument) means only pointer-downs inside that element start a drag. The
`window-only` modifier skips updates to an axis once the element touches a
viewport edge, unless the pointer moves away from that edge.

The project models these handlers, the `inserted` hook that sets up the
per-element record `_data`, and the hit test and edge predicates they use.

- `wrappers.dfy` (`Wrappers`): `Option`.
- `pointer.dfy` (`Pointer`): mouse and touch events, and the normalisation that prefers the first touch point.
- `hit_test.dfy` (`HitTest`): the half-open handle-region test. The page's lookup of an element by id is a map from id to rectangle.
- `edges.dfy` (`Edges`): `reachedLeft/Right/Top/Bottom` under their source names, and the combined edge rule per axis.
- `transitions.dfy` (`Transitions`): `_data`, the element and the page's overlays as values. It has one function per handler, the `inserted` state and the invariant of every reachable state.
- `sessions.dfy` (`Sessions`): which handler each DOM event type runs on touch and non-touch pages, and runs of event sequences. It proves the overlay bound, the position after a whole drag and touch/mouse parity.
- `directive.dfy` (`Directive`): the imperative form. `DragState` holds the fields of `_data`, `Element` the element's position, size and z-index, and `Document` the attached overlays. Each handler method is proved to make the transition of the same name in `Transitions`.

Assumptions of the model:
- The element is absolutely positioned with the viewport as origin. So `offsetLeft`/`offsetTop` read back the last `style.left`/`style.top` written.
- Sizes, rectangles and positions are integers.
- Overlays are identified by creation order. The document's overlay set holds only this directive's overlays.
- Whether the page supports touch is a fixed parameter.
- The viewport size and the handle rectangles are read at each event.

The model follows the code in two places where a cleaner reading would differ:
- `mouseup` never clears the recorded overlay (src/index.js:98). After the first drag the record is never empty. What holds is weaker: an overlay is *attached* exactly while a drag is in progress (`Transitions.Inv`).
- The `window-only` constraint skips an update rather than clamping it. One large move can still carry the element past an edge (`Sessions.SkipIsNotClamp`).

## Model

| member | source | states |
|---|---|---|
| `Pointer.FirstTouchDecides` | src/index.js:50-53 | when touch points are present, the first one alone gives the coordinates |
| `Pointer.TouchMatchesMouse` | src/index.js:121-123 | a touch event and a mouse event at the same place give the same coordinates |
| `HitTest.IsEventInElement` | src/index.js:38-47 | true iff the id resolves and left <= x < right and top <= y < bottom; false for an unknown id |
| `Edges.HorizontalBlocked` | src/index.js:104-110 | `reachedLeft or reachedRight` holds iff the element touches the right edge and x did not decrease, or touches the left edge and x did not increase |
| `Edges.VerticalBlocked` | src/index.js:112-118 | `reachedTop or reachedBottom` holds iff the element touches the top edge and y did not increase, or touches the bottom edge and y did not decrease |
| `Edges.HorizontalEdgeRule` | src/index.js:130-140 | at an edge the element moves only away from it; strictly inside it is never held; one as wide as the viewport at the left edge is always held |
| `Edges.VerticalEdgeRule` | src/index.js:132-148 | the same rule on the vertical axis |
| `Transitions.CreateOverlay` | src/index.js:5-32 | the new overlay is added to the page and was not attached before |
| `Transitions.InsertedEstablishesInv` | src/index.js:166-196 | `inserted` leaves the drag idle with no recorded overlay, a handle only for a non-empty argument, and a state satisfying the invariant |
| `Transitions.InvBoundsOverlays` | src/index.js:62-73 | in every reachable state at most one overlay is attached, and one is attached iff a drag is in progress |
| `Transitions.MouseDownOutsideHandle` | src/index.js:55-60 | a pointer-down outside the configured handle region changes nothing |
| `Transitions.MouseDownStartsDrag` | src/index.js:62-74 | a pointer-down that passes the handle check sets `down`, re-measures width and height, records the pointer, replaces the old overlay by one new one, raises the z-index to 10001 and keeps the resting offset |
| `Transitions.ReentrantMouseDown` | src/index.js:62-64 | a pointer-down during a drag leaves exactly one overlay attached, not the previous one |
| `Transitions.MouseMoveEffect` | src/index.js:129-156 | a move always records the pointer; it moves nothing when idle; unconstrained it places the element at offset + displacement; constrained each axis is skipped exactly when the edge rule holds |
| `Transitions.MouseUpEffect` | src/index.js:83-101 | a pointer-up always clears `down`; with no recorded overlay nothing else changes; otherwise the overlay is detached but stays recorded, the z-index is restored and the position becomes the resting offset |
| `Transitions.MouseUpIdempotent` | src/index.js:77-102 | two pointer-ups give the same state as one |
| `Transitions.IdleMouseUpIsNoop` | src/index.js:83-101 | in every reachable state, a pointer-up while no drag is in progress changes nothing, although after the first drag it takes the full path |
| `Transitions.MouseDownPreservesInv` | src/index.js:49-75 | pointer-down keeps the invariant |
| `Transitions.MouseMovePreservesInv` | src/index.js:120-157 | pointer-move keeps the invariant |
| `Transitions.MouseUpPreservesInv` | src/index.js:77-102 | pointer-up keeps the invariant |
| `Sessions.ListenerFor` | src/index.js:185-193 | an event type has a handler iff it belongs to the page's family (touch or mouse); down, move and up events go to the matching handler |
| `Sessions.StepPreservesInv` | src/index.js:185-193 | delivering any event keeps the invariant |
| `Sessions.RunPreservesInv` | src/index.js:49-102 | every sequence of events keeps the invariant |
| `Sessions.AtMostOneOverlay` | src/index.js:62-98 | from the `inserted` state, after any event sequence at most one overlay is attached, and one is attached iff dragging |
| `Sessions.MovesFollowPointer` | src/index.js:141-152 | during an unconstrained drag, after one or more moves the element is at the resting offset plus the last pointer displacement, and only the position and recorded pointer change |
| `Sessions.DragBeforeRelease` | src/index.js:62-152 | after an unconstrained pointer-down and zero or more moves from rest, the element is raised and displaced by the net pointer movement, and exactly the recorded overlay is attached |
| `Sessions.DragSessionCommitsPosition` | src/index.js:62-101 | an unconstrained down, zero or more moves, up sequence from rest moves the element by the net pointer displacement (not at all for a plain click), commits it as the resting offset, restores the z-index and leaves no overlay |
| `Sessions.TouchParity` | src/index.js:186-188 | a touch sequence on a touch page has the same effect as the corresponding mouse sequence on a mouse page |
| `Sessions.TouchParityExample` | src/index.js:121-123 | touch (10,10), (50,30), (50,30) and the same mouse sequence end in the same state |
| `Sessions.StackingOrderExample` | src/index.js:74-99 | z-index 5 becomes 10001 during the drag and 5 again after pointer-up |
| `Sessions.LeftEdgeExample` | src/index.js:108-110 | in a 1000 x 800 viewport an element at left 0 stays put on a leftward move and follows a rightward one |
| `Sessions.SkipIsNotClamp` | src/index.js:135-144 | with the constraint on, one move can carry an element inside the viewport past its right edge |
| `Directive.Document.CreateOverlay` | src/index.js:5-32 | appends one overlay not attached before, as `Transitions.CreateOverlay` |
| `Directive.Document.RemoveOverlay` | src/index.js:98 | detaches the overlay and nothing else |
| `Directive.AdjustElementZIndex` | src/index.js:34-36 | sets the element's z-index and nothing else |
| `Directive.DragState.Inserted` | src/index.js:165-196 | builds `_data` as `Transitions.Inserted`; with no overlays attached the invariant holds |
| `Directive.DragState.SetDraggerOffset` | src/index.js:159-162 | the resting offset becomes the element's position, nothing else changes |
| `Directive.DragState.MouseDown` | src/index.js:49-75 | the new drag state, element and document are `Transitions.MouseDown` of the old ones |
| `Directive.DragState.StartDrag` | src/index.js:62-74 | once the handle check has passed, the rest of `mousedown` makes the transition `Transitions.MouseDown` |
| `Directive.DragState.MouseMove` | src/index.js:120-157 | the new drag state and element are `Transitions.MouseMove` of the old ones; the document is untouched |
| `Directive.DragState.MouseUp` | src/index.js:77-102 | the new drag state, element and document are `Transitions.MouseUp` of the old ones |
| `Directive.DragState.Handle` | src/index.js:185-193 | an event runs the subscribed handler, as `Sessions.Step` |

## Left out

- Directive registration and `addEventListener` wiring (src/index.js:164, 19-27, 185-193): framework plumbing. Only the mapping from event type to handler is modelled (`Sessions.ListenerFor`). Element and overlay dispatch to the same handlers, so one dispatch models both.
- `isTouchEnabled` (src/index.js:3) is a fixed boolean parameter. `preventDefault` on touch moves (src/index.js:124-126) has no effect on the modelled state.
- The `removeEventListener` calls in `mouseup` (src/index.js:88-96) pass functions that were never subscribed, so they remove nothing. They are not modelled.
- The overlay's CSS (src/index.js:7-17) is not modelled, including its own z-index 10000 and its size. Overlays are identifiers.
- `document.querySelector` and `getBoundingClientRect` (src/index.js:39-41) are a map from id to rectangle. This assumes that the selector `'#' + id` selects the element with that id. An id that is not a valid selector makes `querySelector` throw. An id such as `a.b` or `a b` is a valid selector that may match some other element or none. Neither case is modelled.
- Fractional pixel values and the `'px'` string formatting of `style.left/top` are not modelled: positions are integers.
- The handlers write the normalised coordinates back into the event object. Here events are values and normalisation is a function.
- `_data.draggableEl` is never read or written after initialisation and is not modelled. An absent `window-only` modifier is `false`.
- Changes to the element's size, position or z-index by other code between events are not modelled in `Sessions.Run`. The imperative `Element` allows them, but the invariant assumes only the directive moves the element.
- Other directive instances' overlays on the same page are not modelled.
- Sessions.DragSessionCommitsPosition: covers only drags with the constraint off. With the constraint on, the final position depends on the whole path of skipped updates; each move of such a drag is described by `Transitions.MouseMoveEffect`.
- Directive.DragState.MouseDown: does not restate invariant preservation itself. It follows from its tie to `Transitions.MouseDown` and `Transitions.MouseDownPreservesInv`, and likewise for `MouseMove` and `MouseUp`.
