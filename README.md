# Hash router and scroll-spy of a single-page portfolio site

The site's script (`js/script.js`) shows one "page" element at a time, chosen by the URL
fragment. It keeps the sidebar's nav links in step with the page shown. On long detail pages
(ids starting `project-` or `util-`) it runs a scroll-spy that highlights the table-of-contents
entry of the first section currently under the viewport's trigger line. It also has a
dark/light theme button and a mobile sidebar toggle.

This project models that state machine in Dafny with the DOM replaced by explicit state:

- `text.dfy` (module `Text`): `Option` and `Drop`, which is JavaScript's `substring(1)`.
- `router.dfy` (module `Router`): elements in document order, links, `getElementById` as
  "first element with that id", and the page, nav-link and observer outcome of `showPage`
  as functions, with the lemmas about them.
- `scrollspy.dfy` (module `Spy`): the intersection map that persists across batches, the
  choice of the first flagged section, the toc rewrite, and the observer as class `ScrollSpy`
  whose `OnBatch` is the callback's three loops.
- `site.dfy` (module `Portfolio`): class `Site` holding the elements, the nav-link array, the
  one observer handle, the sidebar flag and the theme attribute with its icon. `ShowPage`,
  `HandleHashChange`, `SetupScrollSpy`, the toggles, and `Load`, which models `DOMContentLoaded`.

An element's toc anchors are an `array<Link>` shared by the page element and its
`ScrollSpy`, just as the callback's `tocLinks` are nodes inside the page. A ghost set of
every observer ever created, together with `Site.Valid()`, states that at most one observer
is live. A batch of intersection entries is an arbitrary input sequence. How the browser
computes `isIntersecting` is not modelled. Sections are identified by their position in the
page, which stands for the DOM node that is the map's key.

In these places the code behaves differently from what a reader might expect, and the model follows the code:

- `getElementById` finds any element with the id, not only a `.page` element, so a
  non-page element with that id gets class `active` too (`Router.ShownPagesActivation`).
- A scroll-spy is installed only when the element exists, has a detail-page id, and has at
  least one toc link and at least one section. The prefix alone is not enough.
- At most one nav link is active only when the stripped hrefs are distinct and none of them
  is a detail-page id (`Router.NavAtMostOneActive`). A nav link to `#project-1` would light
  up together with `#projects`.
- Re-navigating to the same fragment leaves the pages, nav links and sidebar as they were
  (`Router.ShowPageIdempotent`). The observer, though, is replaced by a fresh one whose map
  is empty.

## Model

| member | source | states |
|---|---|---|
| `Text.Drop` | js/script.js:128 | `substring(1)`: the empty string stays empty, otherwise the input is its first character followed by the result |
| `Router.PageIdFor` | js/script.js:37-39 | the page id is never empty; the empty id becomes `home` and any other id is kept |
| `Router.HashToPageId` | js/script.js:127-130 | a hash of length at most one selects `home`; a longer hash selects everything after its first character |
| `Router.FindById` | js/script.js:53 | the result is the first element in document order whose id matches, and there is none when no element has the id |
| `Router.FindByIdIdsOnly` | js/script.js:137-138 | the lookup depends only on the ids in order, so the clearing pass and the re-lookup in `setupScrollSpy` find the same element |
| `Router.ShownPages` | js/script.js:47-56 | `showPage` changes no element's id, page class, toc links or sections |
| `Router.ShownPagesActivation` | js/script.js:47-56 | afterwards a page is active exactly when it is the first element with id `p`; a non-page element keeps its flag unless it is that element; an unknown `p` leaves no page active |
| `Router.ShownPagesFromHidden` | js/script.js:48-56 | clearing every page and then revealing `p` yields the same elements and the same observer outcome as looking `p` up on the original elements |
| `Router.NavAfter` | js/script.js:64-73 | the nav pass keeps every link and its href in place, and only the active flags are rewritten |
| `Router.DetailPageHighlightsProjects` | js/script.js:70 | on a detail page a link is active exactly when its stripped href is `projects` or the page id itself, even when no page with that id exists |
| `Router.NavAtMostOneActive` | js/script.js:64-73 | with distinct stripped hrefs, none of them a detail id, at most one nav link is active after any navigation |
| `Router.ShowPageIdempotent` | js/script.js:35-78 | showing the same page twice gives the same pages and nav links as showing it once, and the same installed-or-not outcome for the observer |
| `Spy.ApplyBatchLaterWins` | js/script.js:148-150 | a section reported in a batch ends with the flag of its last entry in that batch |
| `Spy.ApplyBatchUnreported` | js/script.js:145-150 | a section the batch does not report keeps its earlier recorded state, or stays unrecorded |
| `Spy.FirstFlagged` | js/script.js:154-159 | the result is a flagged section with no flagged section before it, or there is no result when none is flagged |
| `Spy.ChosenId` | js/script.js:152-159 | the chosen id is `''` when no section is flagged, and otherwise the id of the first flagged section in document order |
| `Spy.EarlierSectionWins` | js/script.js:154-159 | when two sections are flagged, the one earlier in document order or a still earlier one is chosen, whatever the order of reports |
| `Spy.Relink` | js/script.js:161-166 | the toc rewrite keeps every link and its href, and only the active flags change |
| `Spy.TocAtMostOneActive` | js/script.js:161-166 | with distinct stripped hrefs, at most one toc link is active after a batch; when the chosen id is `''` and no href strips to `''`, none is |
| `Spy.ScrollSpy.constructor` | js/script.js:145-147 | a new observer is live, watches the given sections and toc links, and starts with an empty map |
| `Spy.ScrollSpy.Disconnect` | js/script.js:42-44 | a disconnected observer is no longer live, and its map is untouched |
| `Spy.ScrollSpy.OnBatch` | js/script.js:147-166 | the new map is the old one with the batch applied in order; each toc link is then active exactly when its stripped href equals the chosen section's id |
| `Portfolio.ToggledTheme` | js/script.js:10-18 | `dark` becomes `light`, and anything else (an absent attribute included) becomes `dark`; the icon is the sun exactly when the new theme is `light`, otherwise the moon |
| `Portfolio.ThemeAlternates` | js/script.js:10-18 | from the first press on, every press changes the theme and two presses restore it |
| `Portfolio.Site.Load` | js/script.js:133 | the initial load is `showPage` of the hash the page was loaded with, applied to the document's initial state, with no earlier observer; an observer it installs is fresh, starts with an empty map and watches the shown element's toc links and sections |
| `Portfolio.Site.HandleHashChange` | js/script.js:127-130 | the hash-change handler is `showPage` of the hash minus its first character, with `home` for an empty one; an observer it installs is fresh, starts with an empty map and watches the shown element's toc links and sections |
| `Portfolio.Site.ShowPage` | js/script.js:35-78 | the old observer is disconnected; pages and nav links are as `ShownPages` and `NavAfter` say; the sidebar is closed and the theme is unchanged; a fresh observer over the shown element's toc and sections exists exactly when `SpyInstalled` holds, and at most one observer is live |
| `Portfolio.Site.HidePages` | js/script.js:48-50 | every page loses its active flag, and every other element is unchanged |
| `Portfolio.Site.RevealPage` | js/script.js:53-61 | the element found by id is made active, and an observer is set up exactly when that element exists, the id is a detail id, and the element has toc links and sections |
| `Portfolio.Site.MarkNavLinks` | js/script.js:64-73 | the nav links become `NavAfter` of their old values |
| `Portfolio.Site.SetupScrollSpy` | js/script.js:136-147 | an observer over the element's own toc links and sections is created exactly when the element exists and both lists are non-empty; otherwise none is created |
| `Portfolio.Site.Deliver` | js/script.js:147 | a batch reaches only the current, live observer; toc links and the map change as `OnBatch` says, and pages are untouched |
| `Portfolio.Site.ToggleTheme` | js/script.js:7-19 | the theme attribute and icon become what `ToggledTheme` gives for the old attribute |
| `Portfolio.Site.ToggleSidebar` | js/script.js:23-25 | the sidebar's open state flips |
| `Portfolio.Site.CloseSidebar` | js/script.js:28-30 | the sidebar is closed |

## Left out

- The IntersectionObserver geometry (`rootMargin`, `threshold`) and how the browser decides
  `isIntersecting`: this is host layout work, so a batch is any sequence of entries.
- `window.scrollTo(0, 0)`, `scrollIntoView` and the table-of-contents click handler
  (lines 109-122): these only move the scroll position, which the model has no state for.
- Event wiring: `addEventListener`, `preventDefault`, the nav-link and project-card click
  handlers, and the breadcrumb delegation. Each of these only assigns `location.hash`.
  Navigation is modelled as a direct call to `HandleHashChange` or `ShowPage`.
- DOM querying (`querySelectorAll`, `getElementById`, `classList`): this is replaced by
  explicit sequences in document order. A nav link that is also one of the elements with an
  id is treated as unrelated, so that aliasing is not modelled.
- The asynchronous delivery of observer callbacks: events run to completion one at a time, so
  sequential method calls stand for them. The initial callback the browser sends after
  `observe` is an ordinary `Deliver`.
- `getAttribute('href')` returning `null` for an anchor without `href`: every link is given
  an href string.
- JavaScript strings are UTF-16 code units and Dafny's `char` is a Unicode scalar value, so
  `substring(1)` on a string that starts with an astral character is not modelled exactly.
- Percent-encoding of `location.hash` is left to the host: the hash is taken as given.
- The `fas fa-sun` and `fas fa-moon` icon assignment replaces the whole `className`, and is
  modelled as a single string.
- Missing fixed elements: the model assumes `#sidebar`, `#theme-toggle-btn`, `#theme-icon`
  and `#mobile-menu-btn` exist. In the script a missing one throws a `TypeError`. At lines 7
  or 23 that aborts the whole `DOMContentLoaded` setup. At line 29 it throws at the end of
  every `showPage`. At lines 14 and 17 it throws after `data-theme` has already been set.
- A `.nav-link` that is also a table-of-contents anchor would be one DOM node in both roles.
  `Site.Valid()` and `Site.Load`'s precondition keep the nav links and every toc array apart,
  so that aliasing is not modelled.
