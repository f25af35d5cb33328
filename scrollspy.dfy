/** The scroll-spy of a detail page (`setupScrollSpy` and its observer
    callback): a map from section to "intersecting" that outlives each batch,
    the choice of the first flagged section in document order, and the
    rewrite of the table-of-contents links. */
module Spy {
  import opened Text
  import opened Router

  /** One intersection entry: the observed section (its position among the
      page's sections, which stands for the DOM node `entry.target`) and
      `entry.isIntersecting`. The geometry that decides the flag is the
      host's; a batch is any sequence of entries. */
  datatype Entry = Entry(target: int, isIntersecting: bool)

  /** The map after `intersectingSections.set(...)` for each entry in order. */
  function ApplyBatch(m: map<int, bool>, batch: seq<Entry>): map<int, bool>
    decreases |batch|
  {
    if batch == [] then m
    else
      var e := batch[|batch| - 1];
      ApplyBatch(m, batch[..|batch| - 1])[e.target := e.isIntersecting]
  }

  /** A reported section carries the flag of its LAST entry in the batch. */
  lemma {:induction false} ApplyBatchLaterWins(m: map<int, bool>, batch: seq<Entry>, i: int)
    requires 0 <= i < |batch|
    requires forall j :: i < j < |batch| ==> batch[j].target != batch[i].target
    ensures batch[i].target in ApplyBatch(m, batch)
    ensures ApplyBatch(m, batch)[batch[i].target] == batch[i].isIntersecting
    decreases |batch|
  {
    if i < |batch| - 1 {
      var front := batch[..|batch| - 1];
      assert front[i] == batch[i];
      ApplyBatchLaterWins(m, front, i);
    }
  }

  /** A section the batch does not report keeps its earlier state (or stays
      unrecorded), because the map outlives each callback. */
  lemma {:induction false} ApplyBatchUnreported(m: map<int, bool>, batch: seq<Entry>, k: int)
    requires forall j :: 0 <= j < |batch| ==> batch[j].target != k
    ensures (k in ApplyBatch(m, batch)) == (k in m)
    ensures k in m ==> ApplyBatch(m, batch)[k] == m[k]
    decreases |batch|
  {
    if batch != [] {
      var front := batch[..|batch| - 1];
      assert forall j :: 0 <= j < |front| ==> front[j] == batch[j];
      ApplyBatchUnreported(m, front, k);
    }
  }

  /** `intersectingSections.get(section)` is truthy: recorded and true. */
  predicate Flagged(m: map<int, bool>, k: int)
  {
    k in m && m[k]
  }

  /** The first section at position `from` or later (below `n`) that is flagged. */
  function FirstFlagged(m: map<int, bool>, from: nat, n: nat): (r: Option<nat>)
    ensures r.Some? ==>
      from <= r.value < n && Flagged(m, r.value) && forall j :: from <= j < r.value ==> !Flagged(m, j)
    ensures r.None? ==> forall j :: from <= j < n ==> !Flagged(m, j)
    decreases n - from
  {
    if from >= n then None
    else if Flagged(m, from) then Some(from)
    else FirstFlagged(m, from + 1, n)
  }

  /** `activeSectionId`: the id of the first flagged section in document
      order, or `''` when no section is flagged. */
  function ChosenId(sections: seq<string>, m: map<int, bool>): (r: string)
    ensures (forall j :: 0 <= j < |sections| ==> !Flagged(m, j)) ==> r == ""
    ensures forall k ::
      0 <= k < |sections| && Flagged(m, k) && (forall j :: 0 <= j < k ==> !Flagged(m, j))
      ==> r == sections[k]
  {
    match FirstFlagged(m, 0, |sections|)
    case None => ""
    case Some(k) => sections[k]
  }

  /** When two sections are flagged, the later one in document order is never
      chosen: the choice is the earlier one or a section before it, whichever
      was reported more recently. */
  lemma EarlierSectionWins(sections: seq<string>, m: map<int, bool>, i: nat, j: nat)
    requires i < j < |sections|
    requires Flagged(m, i) && Flagged(m, j)
    ensures FirstFlagged(m, 0, |sections|).Some?
    ensures FirstFlagged(m, 0, |sections|).value <= i
    ensures ChosenId(sections, m) == sections[FirstFlagged(m, 0, |sections|).value]
  {
  }

  /** The toc links after a batch: each is active exactly when its stripped
      href is the chosen id. */
  function Relink(links: seq<Link>, id: string): (r: seq<Link>)
    ensures |r| == |links|
    ensures forall i :: 0 <= i < |links| ==> r[i].href == links[i].href
  {
    seq(|links|, i requires 0 <= i < |links| => Link(links[i].href, Drop(links[i].href) == id))
  }

  /** With distinct stripped hrefs at most one toc link is active, and none
      is when no section is flagged and no href strips to `''`. */
  lemma TocAtMostOneActive(links: seq<Link>, id: string)
    requires forall i, j :: 0 <= i < j < |links| ==> Drop(links[i].href) != Drop(links[j].href)
    ensures forall i, j ::
      0 <= i < |links| && 0 <= j < |links| && Relink(links, id)[i].active && Relink(links, id)[j].active
      ==> i == j
    ensures id == "" && (forall i :: 0 <= i < |links| ==> Drop(links[i].href) != "") ==>
      forall i :: 0 <= i < |links| ==> !Relink(links, id)[i].active
  {

  }

  /** A live `IntersectionObserver` together with the state its callback
      closes over: the sections in document order, the toc anchors (the same
      array the page element holds) and the persistent intersection map. */
  class ScrollSpy {
    const sections: seq<string>
    const toc: array<Link>
    var states: map<int, bool>
    var live: bool

    /** `new IntersectionObserver(...)` followed by `observe` on every section. */
    constructor (sections: seq<string>, toc: array<Link>)
      ensures this.sections == sections && this.toc == toc
      ensures states == map[] && live
    {
      this.sections := sections;
      this.toc := toc;
      states := map[];
      live := true;
    }

    /** `projectObserver.disconnect()`: no further batch reaches this observer. */
    method Disconnect()
      modifies this
      ensures !live && states == old(states)
    {
      live := false;
    }

    /** The observer callback for one batch of entries. */
    method OnBatch(batch: seq<Entry>)
      requires live
      modifies this, toc
      ensures live && states == ApplyBatch(old(states), batch)
      ensures toc[..] == Relink(old(toc[..]), ChosenId(sections, states))
    {
      // entries.forEach: record each entry, later entries overwriting earlier ones
      var i := 0;
      while i < |batch|
        invariant 0 <= i <= |batch|
        invariant states == ApplyBatch(old(states), batch[..i])
        invariant live && toc[..] == old(toc[..])
      {
        assert batch[..i + 1][..i] == batch[..i];
        states := states[batch[i].target := batch[i].isIntersecting];
        i := i + 1;
      }
      assert batch[..i] == batch;

      // for...of with break: the first flagged section in document order
      var activeSectionId := "";
      var k := 0;
      while k < |sections|
        invariant 0 <= k <= |sections|
        invariant activeSectionId == ""
        invariant live && toc[..] == old(toc[..])
        invariant states == ApplyBatch(old(states), batch)
        invariant forall j :: 0 <= j < k ==> !Flagged(states, j)
      {
        if Flagged(states, k) {
          activeSectionId := sections[k];
          break;
        }
        k := k + 1;
      }
      assert activeSectionId == ChosenId(sections, states);

      // tocLinks.forEach: clear, then mark the link whose href names the section
      var n := 0;
      while n < toc.Length
        invariant 0 <= n <= toc.Length
        invariant forall j :: 0 <= j < n ==>
          toc[j] == Link(old(toc[j]).href, Drop(old(toc[j]).href) == activeSectionId)
        invariant forall j :: n <= j < toc.Length ==> toc[j] == old(toc[j])
        invariant live && states == ApplyBatch(old(states), batch)
      {
        toc[n] := toc[n].(active := false);
        if Drop(toc[n].href) == activeSectionId {
          toc[n] := toc[n].(active := true);
        }
        n := n + 1;
      }
    }
  }
}
