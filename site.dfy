/** The page-level state that the script's closure keeps: the elements and
    nav links it rewrites, the one observer handle, the sidebar's `open`
    class and the body's `data-theme` attribute with the theme icon. */
module Portfolio {
  import opened Text
  import opened Router
  import opened Spy

  const DarkTheme: string := "dark"
  const LightTheme: string := "light"
  const SunIcon: string := "fas fa-sun"
  const MoonIcon: string := "fas fa-moon"

  /** The theme button: `dark` becomes `light`; anything else, an absent
      attribute included, becomes `dark`. Gives the new theme and icon class. */
  function ToggledTheme(current: Option<string>): (r: (string, string))
    ensures r.0 == LightTheme <==> current == Some(DarkTheme)
    ensures r.0 == DarkTheme <==> current != Some(DarkTheme)
    ensures r.1 == (if r.0 == LightTheme then SunIcon else MoonIcon)
  {
    if current == Some(DarkTheme) then (LightTheme, SunIcon) else (DarkTheme, MoonIcon)
  }

  /** From the first press on, the theme alternates between the two values. */
  lemma ThemeAlternates(current: Option<string>)
    ensures ToggledTheme(Some(ToggledTheme(current).0)).0 != ToggledTheme(current).0
    ensures ToggledTheme(Some(ToggledTheme(Some(ToggledTheme(current).0)).0)).0 == ToggledTheme(current).0
  {
  }

  class Site {
    var elements: seq<Element>
    const nav: array<Link>
    var spy: ScrollSpy?
    /** Every observer ever created; all but the current one are disconnected. */
    ghost var observers: set<ScrollSpy>
    var sidebarOpen: bool
    var theme: Option<string>
    var themeIcon: string

    ghost predicate Valid()
      reads this, observers
    {
      (spy != null ==> spy in observers && spy.live && spy.toc != nav) &&
      (forall o :: o in observers && o.live ==> o == spy) &&
      (forall i :: 0 <= i < |elements| ==> elements[i].toc != nav)
    }

    /** `DOMContentLoaded`: the state found in the document, then
        `handleHashChange()` for the hash the page was loaded with. */
    constructor Load(elements: seq<Element>, nav: array<Link>, sidebarOpen: bool,
                     theme: Option<string>, themeIcon: string, hash: string)
      requires forall i :: 0 <= i < |elements| ==> elements[i].toc != nav
      modifies nav
      ensures Valid() && this.nav == nav
      ensures this.elements == ShownPages(elements, HashToPageId(hash))
      ensures nav[..] == NavAfter(old(nav[..]), HashToPageId(hash))
      ensures !this.sidebarOpen && this.theme == theme && this.themeIcon == themeIcon
      ensures (spy != null) == SpyInstalled(elements, HashToPageId(hash))
      ensures spy != null ==>
        var k := FindById(elements, HashToPageId(hash)).value;
        fresh(spy) && spy.states == map[] &&
        spy.toc == elements[k].toc && spy.sections == elements[k].sections
    {
      this.elements := elements;
      this.nav := nav;
      this.sidebarOpen := sidebarOpen;
      this.theme := theme;
      this.themeIcon := themeIcon;
      spy := null;
      observers := {};
      new;
      HandleHashChange(hash);
    }

    /** `handleHashChange`: show the page named by the hash minus its `#`. */
    method HandleHashChange(hash: string)
      requires Valid()
      modifies this, nav, spy
      ensures Valid()
      ensures old(spy) != null ==> !old(spy).live
      ensures elements == ShownPages(old(elements), HashToPageId(hash))
      ensures nav[..] == NavAfter(old(nav[..]), HashToPageId(hash))
      ensures !sidebarOpen && theme == old(theme) && themeIcon == old(themeIcon)
      ensures (spy != null) == SpyInstalled(old(elements), HashToPageId(hash))
      ensures spy != null ==>
        var k := FindById(old(elements), HashToPageId(hash)).value;
        fresh(spy) && spy.states == map[] &&
        spy.toc == old(elements)[k].toc && spy.sections == old(elements)[k].sections
    {
      ShowPage(Drop(hash));
    }

    /** `showPage`: disconnect the old observer, clear every page, activate the
        element with the id, re-mark the nav links, set up a scroll-spy on a
        detail page, close the sidebar. */
    method ShowPage(pageId: string)
      requires Valid()
      modifies this, nav, spy
      ensures Valid()
      ensures old(spy) != null ==> !old(spy).live
      ensures elements == ShownPages(old(elements), PageIdFor(pageId))
      ensures nav[..] == NavAfter(old(nav[..]), PageIdFor(pageId))
      ensures !sidebarOpen && theme == old(theme) && themeIcon == old(themeIcon)
      ensures (spy != null) == SpyInstalled(old(elements), PageIdFor(pageId))
      ensures spy != null ==>
        var k := FindById(old(elements), PageIdFor(pageId)).value;
        fresh(spy) && spy.states == map[] &&
        spy.toc == old(elements)[k].toc && spy.sections == old(elements)[k].sections
    {
      var p := pageId;
      if p == "" {
        p := DefaultPage;
      }

      if spy != null {
        spy.Disconnect();
        spy := null;
      }

      HidePages();
      ghost var hidden := elements;
      RevealPage(p);
      ShownPagesFromHidden(old(elements), hidden, p);
      assert elements == ShownPages(old(elements), p);

      MarkNavLinks(p);
      CloseSidebar();
    }

    /** The page pass: `classList.remove('active')` on every `.page`. */
    method HidePages()
      requires Valid()
      modifies this`elements
      ensures Valid()
      ensures |elements| == |old(elements)|
      ensures forall j :: 0 <= j < |elements| ==> elements[j] == Deactivated(old(elements)[j])
    {
      var i := 0;
      while i < |elements|
        invariant 0 <= i <= |elements| == |old(elements)|
        invariant forall j :: 0 <= j < i ==> elements[j] == Deactivated(old(elements)[j])
        invariant forall j :: i <= j < |elements| ==> elements[j] == old(elements)[j]
      {
        if elements[i].isPage {
          elements := elements[i := elements[i].(active := false)];
        }
        i := i + 1;
      }
    }

    /** Lines 53-61: activate the element `getElementById(p)` returns and, on a
        detail page, set up its scroll-spy. */
    method RevealPage(p: string)
      requires Valid() && spy == null
      modifies this`elements, this`spy, this`observers
      ensures Valid()
      ensures elements == Revealed(old(elements), p)
      ensures (spy != null) == SpyInstalled(old(elements), p)
      ensures spy != null ==>
        var k := FindById(old(elements), p).value;
        fresh(spy) && spy.states == map[] &&
        spy.toc == old(elements)[k].toc && spy.sections == old(elements)[k].sections
    {
      var pageToShow := FindById(elements, p);
      if pageToShow.Some? {
        var k := pageToShow.value;
        elements := elements[k := elements[k].(active := true)];
        if IsDetail(p) {
          FindByIdIdsOnly(elements, old(elements), p);
          SetupScrollSpy(p);
        }
      }
    }

    /** The nav-link pass: clear each link, then mark it when the nav-link
        rule holds for its href. */
    method MarkNavLinks(p: string)
      modifies nav
      ensures nav[..] == NavAfter(old(nav[..]), p)
    {
      var n := 0;
      while n < nav.Length
        invariant 0 <= n <= nav.Length
        invariant forall j :: 0 <= j < n ==> nav[j] == Link(old(nav[j]).href, NavActive(old(nav[j]).href, p))
        invariant forall j :: n <= j < nav.Length ==> nav[j] == old(nav[j])
      {
        nav[n] := nav[n].(active := false);
        var linkHref := Drop(nav[n].href);
        if linkHref == p || (IsDetail(p) && linkHref == ProjectsLink) {
          nav[n] := nav[n].(active := true);
        }
        n := n + 1;
      }
    }

    /** `setupScrollSpy`: install an observer over the page's sections when it
        has both toc links and sections; otherwise leave none. */
    method SetupScrollSpy(pageId: string)
      requires Valid() && spy == null
      modifies this`spy, this`observers
      ensures Valid()
      ensures (spy != null) ==
        (var k := FindById(elements, pageId);
         k.Some? && elements[k.value].toc.Length > 0 && |elements[k.value].sections| > 0)
      ensures spy != null ==>
        var k := FindById(elements, pageId).value;
        fresh(spy) && spy.states == map[] &&
        spy.toc == elements[k].toc && spy.sections == elements[k].sections
    {
      var activePage := FindById(elements, pageId);
      if activePage.None? {
        return;
      }
      var tocLinks := elements[activePage.value].toc;
      var sections := elements[activePage.value].sections;
      if tocLinks.Length == 0 || |sections| == 0 {
        return;
      }
      var observer := new ScrollSpy(sections, tocLinks);
      spy := observer;
      observers := observers + {observer};
    }

    /** The host delivering a batch of intersection entries. Only the current
        observer is connected, so only it can rewrite toc links. */
    method Deliver(batch: seq<Entry>)
      requires Valid()
      modifies if spy == null then {} else {spy as object, spy.toc as object}
      ensures Valid() && spy == old(spy) && elements == old(elements)
      ensures spy != null ==>
        spy.states == ApplyBatch(old(spy.states), batch) &&
        spy.toc[..] == Relink(old(spy.toc[..]), ChosenId(spy.sections, spy.states))
    {
      if spy != null {
        spy.OnBatch(batch);
      }
    }

    /** The theme button's click handler. */
    method ToggleTheme()
      requires Valid()
      modifies this`theme, this`themeIcon
      ensures Valid()
      ensures theme == Some(ToggledTheme(old(theme)).0)
      ensures themeIcon == ToggledTheme(old(theme)).1
    {
      if theme == Some(DarkTheme) {
        theme := Some(LightTheme);
        themeIcon := SunIcon;
      } else {
        theme := Some(DarkTheme);
        themeIcon := MoonIcon;
      }
    }

    /** The mobile menu button: `classList.toggle('open')`. */
    method ToggleSidebar()
      requires Valid()
      modifies this`sidebarOpen
      ensures Valid() && sidebarOpen == !old(sidebarOpen)
    {
      sidebarOpen := !sidebarOpen;
    }

    /** `closeSidebar`: `classList.remove('open')`. */
    method CloseSidebar()
      requires Valid()
      modifies this`sidebarOpen
      ensures Valid() && !sidebarOpen
    {
      sidebarOpen := false;
    }
  }
}
