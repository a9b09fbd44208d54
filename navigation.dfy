/**
 * The navigation bar. On every scroll it sets a "scrolled" flag past 10 pixels and
 * highlights the first nav entry whose section covers the line 100 pixels below the
 * viewport top, with both ends of the section included and no fallback. Clicking an
 * entry requests a scroll to its section's page top when the section exists and always
 * closes the mobile menu; the menu button flips the menu open or closed.
 */
module Navigation {
  import opened Wrappers
  import opened Dom
  import ActiveSection

  /** The `href` of each nav entry, in the order the bar lists them. */
  const NavHrefs: seq<string> :=
    ["#hero", "#challenge", "#solution", "#components", "#workflows", "#documentation", "#start"]

  /** The ids the page's sections carry; `start` is carried by two of them, `solution` by none. */
  const PageSectionIds: set<string> :=
    {"hero", "challenge", "features", "components", "workflows", "documentation", "start"}

  /** The fixed line, in viewport pixels, that the bar's match test uses. */
  const ActiveLine: real := 100.0

  /** Scroll distance beyond which the bar counts as scrolled. */
  const ScrolledThreshold: real := 10.0

  /** JavaScript's `s.substring(1)`. */
  function Substring1(s: string): string
  {
    if |s| == 0 then "" else s[1..]
  }

  /** `navItems.map(item => item.href.substring(1))`: each href without its leading `#`, in order. */
  function SectionIds(hrefs: seq<string>): (ids: seq<string>)
    ensures |ids| == |hrefs|
    ensures forall i :: 0 <= i < |hrefs| && |hrefs[i]| > 0 && hrefs[i][0] == '#' ==> "#" + ids[i] == hrefs[i]
  {
    var ids := seq(|hrefs|, i requires 0 <= i < |hrefs| => Substring1(hrefs[i]));
    assert forall i :: 0 <= i < |hrefs| && |hrefs[i]| > 0 && hrefs[i][0] == '#' ==> "#" + ids[i] == hrefs[i] by {
      forall i | 0 <= i < |hrefs| && |hrefs[i]| > 0 && hrefs[i][0] == '#' ensures "#" + ids[i] == hrefs[i] {
        assert ids[i] == hrefs[i][1..];
      }
    }
    ids
  }

  /** The bar's match test: the line at 100 lies in `[top, bottom]`, both ends included. */
  predicate NavHit(r: Rect)
  {
    r.top <= ActiveLine && r.bottom >= ActiveLine
  }

  predicate NavHitsId(layout: Layout, id: string)
  {
    GetElementById(layout, id).Some? && NavHit(GetElementById(layout, id).value)
  }

  /** The section the bar highlights: the first id that hits, or `""`. */
  function NavActive(ids: seq<string>, layout: Layout): string
  {
    if ids == [] then ""
    else if NavHitsId(layout, ids[0]) then ids[0]
    else NavActive(ids[1..], layout)
  }

  /** The `for` loop of `handleScroll`: stop at the first section that hits. */
  method FindActiveSection(sections: seq<string>, layout: Layout) returns (currentSection: string)
    ensures currentSection == NavActive(sections, layout)
    ensures currentSection == "" || currentSection in sections
  {
    currentSection := "";
    var i := 0;
    while i < |sections|
      invariant 0 <= i <= |sections|
      invariant currentSection == ""
      invariant NavActive(sections[i..], layout) == NavActive(sections, layout)
    {
      var section := sections[i];
      assert sections[i..][1..] == sections[i + 1..];
      var element := GetElementById(layout, section);
      if element.Some? {
        var rect := element.value;
        if rect.top <= 100.0 && rect.bottom >= 100.0 {
          currentSection := section;
          break;
        }
      }
      i := i + 1;
    }
    NavActiveInIds(sections, layout);
  }

  /** The highlighted section is `""` or one of the nav ids. */
  lemma {:induction false} NavActiveInIds(ids: seq<string>, layout: Layout)
    ensures NavActive(ids, layout) == "" || NavActive(ids, layout) in ids
  {
    if ids != [] && !NavHitsId(layout, ids[0]) {
      NavActiveInIds(ids[1..], layout);
    }
  }

  /**
   * The first id in list order whose section holds the line is highlighted; in
   * particular, of two sections that touch exactly at the line, the earlier one wins.
   */
  lemma {:induction false} NavActiveIsFirst(ids: seq<string>, layout: Layout, k: nat)
    requires k < |ids| && NavHitsId(layout, ids[k])
    requires forall j :: 0 <= j < k ==> !NavHitsId(layout, ids[j])
    ensures NavActive(ids, layout) == ids[k]
  {
    if k > 0 {
      assert !NavHitsId(layout, ids[0]);
      NavActiveIsFirst(ids[1..], layout, k - 1);
    }
  }

  /** Nothing is highlighted exactly when no section holds the line: there is no fallback. */
  lemma {:induction false} NavActiveEmptyIffNoHit(ids: seq<string>, layout: Layout)
    ensures NavActive(ids, layout) == "" <==> forall j :: 0 <= j < |ids| ==> !NavHitsId(layout, ids[j])
  {
    if ids != [] {
      NavActiveEmptyIffNoHit(ids[1..], layout);
      assert forall j :: 1 <= j < |ids| ==> ids[j] == ids[1..][j - 1];
    }
  }

  /** `solution` is listed but no section carries it, so it is never highlighted. */
  lemma NavNeverSolution(layout: Layout)
    requires layout.Keys <= PageSectionIds
    ensures NavActive(SectionIds(NavHrefs), layout) != "solution"
  {
    NavActiveHitsItself(SectionIds(NavHrefs), layout);
  }

  /** A non-empty result names a section that itself holds the line. */
  lemma {:induction false} NavActiveHitsItself(ids: seq<string>, layout: Layout)
    ensures NavActive(ids, layout) != "" ==> NavHitsId(layout, NavActive(ids, layout))
  {
    if ids != [] && !NavHitsId(layout, ids[0]) {
      NavActiveHitsItself(ids[1..], layout);
    }
  }

  /**
   * The two trackers differ only at section bottoms lying exactly on the line and in
   * the hook's fallback near the page top: once the page is scrolled at least 100
   * pixels and no section ends exactly on the line, the bar highlights what the hook
   * with its default offset makes active.
   */
  lemma {:induction false} NavAgreesWithHook(ids: seq<string>, layout: Layout, scrollY: real)
    requires scrollY >= ActiveSection.DefaultOffset
    requires forall id :: id in layout ==> layout[id].bottom != ActiveLine
    ensures NavActive(ids, layout) == ActiveSection.CurrentSection(ids, layout, scrollY, ActiveSection.DefaultOffset)
  {
    var offset := ActiveSection.DefaultOffset;
    NavMatchesFirstHit(ids, layout, scrollY);
    ActiveSection.FirstHitEmptyIffNoHit(ids, layout, scrollY, offset);
  }

  lemma {:induction false} NavMatchesFirstHit(ids: seq<string>, layout: Layout, scrollY: real)
    requires forall id :: id in layout ==> layout[id].bottom != ActiveLine
    ensures NavActive(ids, layout) == ActiveSection.FirstHit(ids, layout, scrollY, ActiveSection.DefaultOffset)
  {
    if ids != [] {
      assert NavHitsId(layout, ids[0]) == ActiveSection.HitsId(layout, ids[0], scrollY, ActiveSection.DefaultOffset);
      NavMatchesFirstHit(ids[1..], layout, scrollY);
    }
  }

  /**
   * Where the two rules part: sections touching exactly at the line. The bar picks the
   * earlier one (its bottom counts), the hook the later one (its bottom does not).
   */
  lemma TouchingSectionsDisagree()
    ensures var layout := map["challenge" := Rect(-400.0, 100.0), "components" := Rect(100.0, 700.0)];
            var ids := ["challenge", "components"];
            && NavActive(ids, layout) == "challenge"
            && ActiveSection.CurrentSection(ids, layout, 2000.0, ActiveSection.DefaultOffset) == "components"
  {
  }

  /** `querySelector(href)` for an id selector `#id`. */
  function QuerySelector(layout: Layout, href: string): Option<Rect>
    requires |href| > 1 && href[0] == '#'
  {
    GetElementById(layout, href[1..])
  }

  /** The bar's state. */
  class Bar {
    var activeSection: string
    var isScrolled: bool
    var isMobileMenuOpen: bool

    constructor ()
      ensures activeSection == "" && !isScrolled && !isMobileMenuOpen
    {
      activeSection := "";
      isScrolled := false;
      isMobileMenuOpen := false;
    }

    /** One scroll event: the scrolled flag and the highlighted section; the menu is untouched. */
    method HandleScroll(layout: Layout, scrollY: real)
      modifies this
      ensures isScrolled <==> scrollY > ScrolledThreshold
      ensures activeSection == NavActive(SectionIds(NavHrefs), layout)
      ensures isMobileMenuOpen == old(isMobileMenuOpen)
    {
      var scrolled := scrollY > 10.0;
      isScrolled := scrolled;
      var sections := SectionIds(NavHrefs);
      var currentSection := FindActiveSection(sections, layout);
      activeSection := currentSection;
    }

    /**
     * A click on a nav entry: returns the page offset `scrollIntoView` aims for (the
     * section's page top), or `None` when no element matches; the mobile menu is closed
     * either way.
     */
    method HandleClick(href: string, layout: Layout, scrollY: real) returns (scrollTo: Option<real>)
      requires |href| > 1 && href[0] == '#'
      modifies this
      ensures scrollTo.Some? <==> GetElementById(layout, href[1..]).Some?
      ensures scrollTo.Some? ==> layout[href[1..]].top + scrollY - scrollTo.value == 0.0
      ensures !isMobileMenuOpen
      ensures activeSection == old(activeSection) && isScrolled == old(isScrolled)
    {
      var target := QuerySelector(layout, href);
      if target.Some? {
        scrollTo := Some(scrollY + target.value.top);
      } else {
        scrollTo := None;
      }
      isMobileMenuOpen := false;
    }

    /** The mobile menu button. */
    method ToggleMobileMenu()
      modifies this
      ensures isMobileMenuOpen == !old(isMobileMenuOpen)
      ensures activeSection == old(activeSection) && isScrolled == old(isScrolled)
    {
      isMobileMenuOpen := !isMobileMenuOpen;
    }
  }
}
