/**
 * The `useActiveSection` hook: on every scroll event it walks an ordered list of
 * section ids and makes active the first one whose element covers the line
 * `offset` pixels below the top of the viewport (a half-open interval). When no
 * section covers the line and the page is scrolled less than `offset`, it falls back
 * to the first section.
 * It also computes where `scrollToSection` asks the window to scroll.
 */
module ActiveSection {
  import opened Wrappers
  import opened Dom

  /** The offset used when the caller gives none. */
  const DefaultOffset: real := 100.0

  /** Height kept clear for the fixed navigation bar when scrolling to a section. */
  const NavClearance: real := 80.0

  /**
   * The hook's match test, written in page coordinates as the hook computes it:
   * `scrollY + offset` lies in `[top + scrollY, bottom + scrollY)`. The scroll
   * position cancels out, leaving a test on the viewport-relative rect alone.
   */
  predicate Hit(r: Rect, scrollY: real, offset: real): (b: bool)
    ensures b <==> r.top <= offset < r.bottom
  {
    var scrollPosition := scrollY + offset;
    var elementTop := r.top + scrollY;
    var elementBottom := r.bottom + scrollY;
    scrollPosition >= elementTop && scrollPosition < elementBottom
  }

  /** The element named `id` exists and passes the match test. */
  predicate HitsId(layout: Layout, id: string, scrollY: real, offset: real)
  {
    GetElementById(layout, id).Some? && Hit(GetElementById(layout, id).value, scrollY, offset)
  }

  /** What the `for` loop leaves in `currentSection`: the first id that hits, or `""`. */
  function FirstHit(ids: seq<string>, layout: Layout, scrollY: real, offset: real): string
  {
    if ids == [] then ""
    else if HitsId(layout, ids[0], scrollY, offset) then ids[0]
    else FirstHit(ids[1..], layout, scrollY, offset)
  }

  /** The section the hook makes active: the loop's result, or the fallback near the page top. */
  function CurrentSection(ids: seq<string>, layout: Layout, scrollY: real, offset: real): string
  {
    var found := FirstHit(ids, layout, scrollY, offset);
    if found == "" && scrollY < offset then (if |ids| > 0 then ids[0] else "") else found
  }

  /** `handleScroll` up to the state update: a first-match search that stops at the first hit. */
  method ScanSections(sectionIds: seq<string>, layout: Layout, scrollY: real, offset: real)
    returns (currentSection: string)
    ensures currentSection == CurrentSection(sectionIds, layout, scrollY, offset)
    ensures currentSection == "" || currentSection in sectionIds
  {
    var scrollPosition := scrollY + offset;
    currentSection := "";
    var i := 0;
    while i < |sectionIds|
      invariant 0 <= i <= |sectionIds|
      invariant currentSection == ""
      invariant FirstHit(sectionIds[i..], layout, scrollY, offset) == FirstHit(sectionIds, layout, scrollY, offset)
    {
      var sectionId := sectionIds[i];
      assert sectionIds[i..][1..] == sectionIds[i + 1..];
      var element := GetElementById(layout, sectionId);
      if element.Some? {
        var elementTop := element.value.top + scrollY;
        var elementBottom := element.value.bottom + scrollY;
        if scrollPosition >= elementTop && scrollPosition < elementBottom {
          currentSection := sectionId;
          break;
        }
      }
      i := i + 1;
    }
    if currentSection == "" && scrollY < offset {
      currentSection := if |sectionIds| > 0 then sectionIds[0] else "";
    }
    CurrentSectionInIds(sectionIds, layout, scrollY, offset);
  }

  lemma {:induction false} FirstHitInIds(ids: seq<string>, layout: Layout, scrollY: real, offset: real)
    ensures FirstHit(ids, layout, scrollY, offset) == ""
         || FirstHit(ids, layout, scrollY, offset) in ids
  {
    if ids != [] && !HitsId(layout, ids[0], scrollY, offset) {
      FirstHitInIds(ids[1..], layout, scrollY, offset);
    }
  }

  /** The active section is `""` or one of the listed ids. */
  lemma CurrentSectionInIds(ids: seq<string>, layout: Layout, scrollY: real, offset: real)
    ensures CurrentSection(ids, layout, scrollY, offset) == ""
         || CurrentSection(ids, layout, scrollY, offset) in ids
  {
    FirstHitInIds(ids, layout, scrollY, offset);
  }

  /** The loop returns the id at the first position that hits, whatever comes after it. */
  lemma {:induction false} FirstHitIsFirst(ids: seq<string>, layout: Layout, scrollY: real, offset: real, k: nat)
    requires k < |ids| && HitsId(layout, ids[k], scrollY, offset)
    requires forall j :: 0 <= j < k ==> !HitsId(layout, ids[j], scrollY, offset)
    ensures FirstHit(ids, layout, scrollY, offset) == ids[k]
  {
    if k > 0 {
      assert !HitsId(layout, ids[0], scrollY, offset);
      FirstHitIsFirst(ids[1..], layout, scrollY, offset, k - 1);
    }
  }

  /** The loop finds nothing exactly when no listed id hits. */
  lemma {:induction false} FirstHitEmptyIffNoHit(ids: seq<string>, layout: Layout, scrollY: real, offset: real)
    ensures FirstHit(ids, layout, scrollY, offset) == ""
        <==> forall j :: 0 <= j < |ids| ==> !HitsId(layout, ids[j], scrollY, offset)
  {
    if ids != [] {
      FirstHitEmptyIffNoHit(ids[1..], layout, scrollY, offset);
      assert forall j :: 1 <= j < |ids| ==> ids[j] == ids[1..][j - 1];
    }
  }

  /** A hit wins over the fallback: the first id that hits becomes active. */
  lemma CurrentSectionFirstMatch(ids: seq<string>, layout: Layout, scrollY: real, offset: real, k: nat)
    requires k < |ids| && HitsId(layout, ids[k], scrollY, offset)
    requires forall j :: 0 <= j < k ==> !HitsId(layout, ids[j], scrollY, offset)
    ensures CurrentSection(ids, layout, scrollY, offset) == ids[k]
  {
    FirstHitIsFirst(ids, layout, scrollY, offset, k);
  }

  /**
   * With no hit, the first section is active while `scrollY < offset` (or `""` when
   * the list is empty), and no section is active once the page is scrolled further.
   */
  lemma CurrentSectionNoMatch(ids: seq<string>, layout: Layout, scrollY: real, offset: real)
    requires forall j :: 0 <= j < |ids| ==> !HitsId(layout, ids[j], scrollY, offset)
    ensures scrollY < offset && |ids| > 0 ==> CurrentSection(ids, layout, scrollY, offset) == ids[0]
    ensures scrollY < offset && |ids| == 0 ==> CurrentSection(ids, layout, scrollY, offset) == ""
    ensures scrollY >= offset ==> CurrentSection(ids, layout, scrollY, offset) == ""
  {
    FirstHitEmptyIffNoHit(ids, layout, scrollY, offset);
  }

  /**
   * When the sections on the page occupy disjoint vertical intervals, a section whose
   * interval holds the line at `offset` is the active one, wherever it is listed.
   */
  lemma CurrentSectionDisjoint(ids: seq<string>, layout: Layout, scrollY: real, offset: real, k: nat)
    requires forall a, b :: a in layout && b in layout && a != b ==>
               layout[a].bottom <= layout[b].top || layout[b].bottom <= layout[a].top
    requires k < |ids| && HitsId(layout, ids[k], scrollY, offset)
    ensures CurrentSection(ids, layout, scrollY, offset) == ids[k]
  {
    FirstHitEmptyIffNoHit(ids, layout, scrollY, offset);
    FirstHitHits(ids, layout, scrollY, offset);
    if FirstHit(ids, layout, scrollY, offset) != ids[k] {
      assert false;
    }
  }

  /** A non-empty result names an element that itself passes the match test. */
  lemma {:induction false} FirstHitHits(ids: seq<string>, layout: Layout, scrollY: real, offset: real)
    ensures FirstHit(ids, layout, scrollY, offset) != ""
        ==> HitsId(layout, FirstHit(ids, layout, scrollY, offset), scrollY, offset)
  {
    if ids != [] && !HitsId(layout, ids[0], scrollY, offset) {
      FirstHitHits(ids[1..], layout, scrollY, offset);
    }
  }

  /**
   * `scrollToSection`: the page offset `window.scrollTo` is asked for, or `None` (no
   * scroll requested) when no element carries the id. The request is the section's page
   * top less `NavClearance`; the browser's clamping to the page's scroll range is not
   * modelled.
   */
  function ScrollToSection(layout: Layout, sectionId: string, pageYOffset: real): (target: Option<real>)
    ensures target.None? <==> GetElementById(layout, sectionId).None?
    ensures target.Some? ==> (layout[sectionId].top + pageYOffset) - target.value == NavClearance
  {
    match GetElementById(layout, sectionId)
    case None => None
    case Some(element) =>
      var yOffset := -NavClearance;
      Some(element.top + pageYOffset + yOffset)
  }

  /** The hook's state: the section ids and offset it was created with, and the active section. */
  class Tracker {
    const sectionIds: seq<string>
    const offset: real
    var activeSection: string

    /** A new hook: `offset` defaults to 100 when not given; no section is active yet. */
    constructor (sectionIds: seq<string>, offset: Option<real>)
      ensures this.sectionIds == sectionIds
      ensures this.offset == (if offset.None? then DefaultOffset else offset.value)
      ensures activeSection == ""
    {
      this.sectionIds := sectionIds;
      this.offset := offset.GetOr(DefaultOffset);
      activeSection := "";
    }

    /** One scroll (or the initial check): recompute the active section. */
    method HandleScroll(layout: Layout, scrollY: real)
      modifies this
      ensures activeSection == CurrentSection(sectionIds, layout, scrollY, offset)
    {
      var currentSection := ScanSections(sectionIds, layout, scrollY, offset);
      activeSection := currentSection;
    }
  }
}
