/** The pure part of the hash router (`showPage`, `handleHashChange`):
    which page id a fragment selects, and the `active` flags that the
    page pass and the nav-link pass leave behind. */
module Router {
  import opened Text

  /** An anchor: its `href` attribute and whether it has class `active`. */
  datatype Link = Link(href: string, active: bool)

  /** An element in document order that has an id or class `page`; a page
      without an id has id `""`, which is never looked up because the page
      id shown is never empty. `isPage` is class `page`;
      `toc` holds the element's table-of-contents anchors (".project-toc li a",
      an array because the scroll-spy rewrites them in place) and `sections`
      the ids of its section headings (".project-content h2"). */
  datatype Element = Element(id: string, isPage: bool, active: bool,
                             toc: array<Link>, sections: seq<string>)

  const DefaultPage: string := "home"
  const ProjectsLink: string := "projects"

  /** `if (!pageId) pageId = 'home'`: only the empty string is falsy. */
  function PageIdFor(pageId: string): (r: string)
    ensures r != ""
    ensures pageId != "" ==> r == pageId
    ensures pageId == "" ==> r == DefaultPage
  {
    if pageId == "" then DefaultPage else pageId
  }

  /** The page id `handleHashChange` ends up showing for `location.hash`. */
  function HashToPageId(hash: string): (r: string)
    ensures r != ""
    ensures |hash| <= 1 ==> r == DefaultPage
    ensures |hash| > 1 ==> r == hash[1..]
  {
    PageIdFor(Drop(hash))
  }

  /** A detail page: an id starting with `project-` or `util-`. */
  predicate IsDetail(p: string)
  {
    "project-" <= p || "util-" <= p
  }

  /** The nav-link rule: a direct match on the stripped href, or the
      `projects` link while a detail page is shown. */
  predicate NavActive(href: string, p: string)
  {
    Drop(href) == p || (IsDetail(p) && Drop(href) == ProjectsLink)
  }

  /** Element `i` is the first element in document order whose id is `id`,
      which is the one `getElementById` returns. */
  ghost predicate IsFirstWithId(els: seq<Element>, i: int, id: string)
  {
    0 <= i < |els| && els[i].id == id && forall j :: 0 <= j < i ==> els[j].id != id
  }

  /** `document.getElementById(id)` over the elements in document order. */
  function FindById(els: seq<Element>, id: string): (r: Option<nat>)
    ensures r.Some? ==> IsFirstWithId(els, r.value, id)
    ensures r.None? ==> forall i :: 0 <= i < |els| ==> els[i].id != id
  {
    if |els| == 0 then None
    else if els[0].id == id then Some(0)
    else match FindById(els[1..], id)
      case None => None
      case Some(k) => Some(k + 1)
  }

  /** `getElementById` looks at ids only, so two element lists with the same
      ids in the same order give the same answer. */
  lemma FindByIdIdsOnly(a: seq<Element>, b: seq<Element>, id: string)
    requires |a| == |b|
    requires forall i :: 0 <= i < |a| ==> a[i].id == b[i].id
    ensures FindById(a, id) == FindById(b, id)
  {

  }

  /** The page pass of line 48: class `active` is removed from every page. */
  function Deactivated(e: Element): Element
  {
    if e.isPage then e.(active := false) else e
  }

  /** The elements after `showPage(p)`: every page is cleared, then the
      element `getElementById(p)` returns (page or not) is made active. */
  function ShownPages(els: seq<Element>, p: string): (r: seq<Element>)
    ensures |r| == |els|
    ensures forall i :: 0 <= i < |els| ==>
      r[i].id == els[i].id && r[i].isPage == els[i].isPage &&
      r[i].toc == els[i].toc && r[i].sections == els[i].sections
  {
    var k := FindById(els, p);
    seq(|els|, i requires 0 <= i < |els| =>
      if k.Some? && k.value == i then els[i].(active := true) else Deactivated(els[i]))
  }

  /** The element `getElementById(p)` finds, made active; the rest unchanged. */
  function Revealed(els: seq<Element>, p: string): (r: seq<Element>)
    ensures |r| == |els|
  {
    match FindById(els, p)
    case None => els
    case Some(k) => els[k := els[k].(active := true)]
  }

  /** Clearing every page and then revealing `p` is `ShownPages`, which
      looks `p` up before the clearing: the clearing changes no id. */
  lemma ShownPagesFromHidden(els: seq<Element>, hidden: seq<Element>, p: string)
    requires |hidden| == |els|
    requires forall j :: 0 <= j < |els| ==> hidden[j] == Deactivated(els[j])
    ensures Revealed(hidden, p) == ShownPages(els, p)
    ensures SpyInstalled(hidden, p) == SpyInstalled(els, p)
  {

  }

  /** What `showPage(p)` does to the `active` flags: a page is active exactly
      when it is the first element with id `p`; any other element keeps its
      flag unless it is that element; an unknown `p` leaves no page active. */
  lemma ShownPagesActivation(els: seq<Element>, p: string)
    ensures forall i :: 0 <= i < |els| && els[i].isPage ==>
      (ShownPages(els, p)[i].active <==> IsFirstWithId(els, i, p))
    ensures forall i :: 0 <= i < |els| && !els[i].isPage ==>
      (ShownPages(els, p)[i].active <==> els[i].active || IsFirstWithId(els, i, p))
    ensures (forall i :: 0 <= i < |els| ==> els[i].id != p) ==>
      forall i :: 0 <= i < |els| && els[i].isPage ==> !ShownPages(els, p)[i].active
  {

  }

  /** The nav links after `showPage(p)`: each one is active exactly when the
      nav-link rule holds for its href; hrefs are untouched. */
  function NavAfter(links: seq<Link>, p: string): (r: seq<Link>)
    ensures |r| == |links|
    ensures forall i :: 0 <= i < |links| ==> r[i].href == links[i].href
  {
    seq(|links|, i requires 0 <= i < |links| => Link(links[i].href, NavActive(links[i].href, p)))
  }

  /** Whether `showPage(p)` leaves a live observer: the element exists, `p`
      names a detail page, and the element has toc links and sections. */
  predicate SpyInstalled(els: seq<Element>, p: string)
  {
    var k := FindById(els, p);
    k.Some? && IsDetail(p) && els[k.value].toc.Length > 0 && |els[k.value].sections| > 0
  }

  /** On a detail page the `projects` link lights up, a link to the detail
      page itself would too, and nothing else does. */
  lemma DetailPageHighlightsProjects(links: seq<Link>, p: string)
    requires IsDetail(p)
    ensures forall i :: 0 <= i < |links| ==>
      (NavAfter(links, p)[i].active <==>
        Drop(links[i].href) == ProjectsLink || Drop(links[i].href) == p)
  {
  }

  /** At most one nav link is active, provided the stripped hrefs are distinct
      and none of them is itself a detail-page id. */
  lemma NavAtMostOneActive(links: seq<Link>, p: string)
    requires forall i, j :: 0 <= i < j < |links| ==> Drop(links[i].href) != Drop(links[j].href)
    requires forall i :: 0 <= i < |links| ==> !IsDetail(Drop(links[i].href))
    ensures forall i, j ::
      0 <= i < |links| && 0 <= j < |links| && NavAfter(links, p)[i].active && NavAfter(links, p)[j].active
      ==> i == j
  {

  }

  /** Navigating to the fragment already shown changes no page, no nav link
      and not whether an observer is installed. */
  lemma ShowPageIdempotent(els: seq<Element>, links: seq<Link>, p: string)
    ensures ShownPages(ShownPages(els, p), p) == ShownPages(els, p)
    ensures NavAfter(NavAfter(links, p), p) == NavAfter(links, p)
    ensures SpyInstalled(ShownPages(els, p), p) == SpyInstalled(els, p)
  {

  }
}
