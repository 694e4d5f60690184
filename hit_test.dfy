/**
 * The handle-region hit test (src/index.js:38-47). The page's lookup of an
 * element by id and its bounding rectangle are abstracted into a map from id
 * to rectangle; an id missing from the map is an element the page does not have.
 */
module HitTest {
  import opened Pointer

  /** An axis-aligned bounding rectangle in viewport coordinates. */
  datatype Rect = Rect(left: int, top: int, right: int, bottom: int)

  /** The rectangles of the page's elements, by id. */
  type Regions = map<string, Rect>

  /** True iff the element `id` exists and the point lies in its rectangle,
      left and top edges included, right and bottom edges excluded. */
  function IsEventInElement(p: Point, regions: Regions, id: string): (inside: bool)
    ensures inside <==> id in regions
                        && regions[id].left <= p.x < regions[id].right
                        && regions[id].top <= p.y < regions[id].bottom
  {
    if id !in regions then false
    else
      var rect := regions[id];
      if p.x < rect.left || p.x >= rect.right then false
      else if p.y < rect.top || p.y >= rect.bottom then false
      else true
  }
}
