/**
 * The part of the browser's document that the scroll trackers read: each element id
 * that is on the page maps to the viewport-relative vertical bounds that
 * `getBoundingClientRect()` reports for it. A map gives every id at most one rect,
 * as `document.getElementById` returns only the first element carrying an id.
 */
module Dom {
  import opened Wrappers

  /** Viewport-relative vertical bounds of an element. */
  datatype Rect = Rect(top: real, bottom: real)

  /** The ids present on the page, with the bounds of the element each one names. */
  type Layout = map<string, Rect>

  /**
   * `document.getElementById(id)`. This stands for the browser's lookup, not for code of
   * the site, so its contract describes the lookup directly: the empty id never names an
   * element, and any other id finds the element it names.
   */
  function GetElementById(layout: Layout, id: string): (r: Option<Rect>)
    ensures r.Some? <==> id != "" && id in layout
    ensures r.Some? ==> r.value == layout[id]
  {
    if id != "" && id in layout then Some(layout[id]) else None
  }
}
