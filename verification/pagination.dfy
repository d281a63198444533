/** The pagination bar (`CustomPagination`): which page numbers are shown,
    where the "…" gaps go, which button is active, and when Previous and
    Next react to a click. */
module Pagination {
  import opened Common

  /** One entry of the rendered list: a "…" placed before `page`, or the
      button for `page`. */
  datatype Item = Gap(page: int) | Button(page: int, active: bool)

  /** The integers from `lo` to `hi`. */
  function Between(lo: int, hi: int): (r: set<int>)
    ensures forall x :: x in r <==> lo <= x <= hi
    decreases hi - lo
  {
    if lo > hi then {} else {lo} + Between(lo + 1, hi)
  }

  /** The pages the bar shows: all of them for up to seven pages, otherwise
      the first four, the last two and the current page with its neighbours. */
  function Window(totalPages: int, currentPage: int): set<int> {
    if totalPages <= 7 then
      Between(1, totalPages)
    else
      {1, 2, 3, 4, totalPages - 1, totalPages} + Near(currentPage, currentPage + 1, totalPages)
  }

  /** The neighbours of the current page up to `upTo` that exist. */
  function Near(currentPage: int, upTo: int, totalPages: int): set<int> {
    Between(currentPage - 1, upTo) * Between(1, totalPages)
  }

  /** `Between` grows by its upper end. */
  lemma BetweenStep(lo: int, hi: int)
    ensures Between(lo, hi) == Between(lo, hi - 1) + (if lo <= hi then {hi} else {})
  {
  }

  /** The `pageSet` construction: the loops that add page numbers. */
  method BuildPageSet(totalPages: int, currentPage: int) returns (pageSet: set<int>)
    ensures pageSet == Window(totalPages, currentPage)
  {
    pageSet := {};
    if totalPages <= 7 {
      var i := 1;
      while i <= totalPages
        invariant 1 <= i <= (if totalPages >= 1 then totalPages + 1 else 1)
        invariant pageSet == Between(1, i - 1)
      {
        BetweenStep(1, i);
        pageSet := pageSet + {i};
        i := i + 1;
      }
      assert i - 1 == totalPages || (i == 1 && totalPages < 1);
      assert Between(1, totalPages) == Between(1, i - 1);
    } else {
      pageSet := pageSet + {1};
      pageSet := pageSet + {2};
      pageSet := pageSet + {3};
      pageSet := pageSet + {4};
      pageSet := pageSet + {totalPages - 1};
      pageSet := pageSet + {totalPages};
      var i := currentPage - 1;
      BetweenStep(currentPage - 1, i - 1);
      while i <= currentPage + 1
        invariant currentPage - 1 <= i <= currentPage + 2
        invariant pageSet ==
          {1, 2, 3, 4, totalPages - 1, totalPages} + Near(currentPage, i - 1, totalPages)
      {
        BetweenStep(currentPage - 1, i);
        if i > 0 && i <= totalPages {
          pageSet := pageSet + {i};
        }
        i := i + 1;
      }
      assert pageSet == {1, 2, 3, 4, totalPages - 1, totalPages} + Near(currentPage, currentPage + 1, totalPages);
    }
  }

  predicate StrictlyIncreasing(s: seq<int>) {
    forall i, j :: 0 <= i < j < |s| ==> s[i] < s[j]
  }

  /** The members of `s` in `[lo, hi]`, in increasing order. */
  function Ascending(s: set<int>, lo: int, hi: int): (r: seq<int>)
    ensures StrictlyIncreasing(r)
    ensures forall x :: x in r <==> x in s && lo <= x <= hi
    ensures forall i :: 0 <= i < |r| ==> lo <= r[i] <= hi
    decreases hi - lo
  {
    if lo > hi then []
    else
      var rest := Ascending(s, lo + 1, hi);
      if lo in s then [lo] + rest else rest
  }

  /** `Array.from(pageSet).filter(p => p >= 1 && p <= totalPages).sort((a, b) => a - b)`. */
  function SortedPages(pageSet: set<int>, totalPages: int): (pages: seq<int>)
    ensures StrictlyIncreasing(pages)
    ensures forall x :: x in pages <==> x in pageSet && 1 <= x <= totalPages
  {
    Ascending(pageSet, 1, totalPages)
  }

  /** A strictly increasing sequence is fixed by its members: whatever sort
      produced it, the sorted, filtered page list is `SortedPages`. */
  lemma {:induction false} SortedIsUnique(a: seq<int>, b: seq<int>)
    requires StrictlyIncreasing(a) && StrictlyIncreasing(b)
    requires forall x :: x in a <==> x in b
    ensures a == b
    decreases |a|
  {
    HeadIsMember(a);
    HeadIsMember(b);
    if a != [] && b != [] {
      assert a[0] == b[0] by {
        assert a[0] in b && b[0] in a;
      }
      forall x
        ensures x in a[1..] <==> x in b[1..]
      {
        if x in a[1..] {
          assert x in b && x > a[0];
        }
        if x in b[1..] {
          assert x in a && x > b[0];
        }
      }
      SortedIsUnique(a[1..], b[1..]);
      assert a == [a[0]] + a[1..] && b == [b[0]] + b[1..];
    }
  }

  lemma HeadIsMember(s: seq<int>)
    ensures s != [] ==> s[0] in s
  {
  }

  /** With at most seven pages every page is shown, in order. */
  lemma SmallBarShowsAll(totalPages: int, currentPage: int)
    requires totalPages <= 7
    ensures SortedPages(Window(totalPages, currentPage), totalPages) ==
      seq(if totalPages < 0 then 0 else totalPages, i => i + 1)
  {
    var n := if totalPages < 0 then 0 else totalPages;
    var all: seq<int> := seq(n, i => i + 1);
    forall x
      ensures x in all <==> x in SortedPages(Window(totalPages, currentPage), totalPages)
    {
      if 1 <= x <= totalPages {
        assert all[x - 1] == x;
      }
    }
    SortedIsUnique(all, SortedPages(Window(totalPages, currentPage), totalPages));
  }

  /** The list rendered for `pages`: a gap before every page that does not
      follow its predecessor directly, then the page's button, active when
      it is the current page. */
  function ItemsOf(pages: seq<int>, currentPage: int): seq<Item>
    decreases |pages|
  {
    if pages == [] then []
    else
      var k := |pages| - 1;
      ItemsOf(pages[..k], currentPage) +
      GapFor(pages, k) +
      [Button(pages[k], pages[k] == currentPage)]
  }

  /** The `pages.forEach` that pushes the list items. */
  method BuildItems(pages: seq<int>, currentPage: int) returns (items: seq<Item>)
    ensures items == ItemsOf(pages, currentPage)
  {
    items := [];
    var idx := 0;
    while idx < |pages|
      invariant 0 <= idx <= |pages|
      invariant items == ItemsOf(pages[..idx], currentPage)
    {
      assert pages[..idx + 1][..idx] == pages[..idx];
      if idx > 0 && pages[idx] != pages[idx - 1] + 1 {
        items := items + [Gap(pages[idx])];
      }
      var isActive := pages[idx] == currentPage;
      items := items + [Button(pages[idx], isActive)];
      idx := idx + 1;
    }
    assert pages[..idx] == pages;
  }

  /** The pages of the buttons, in list order. */
  function ButtonPages(items: seq<Item>): seq<int> {
    if items == [] then []
    else
      ButtonPages(items[..|items| - 1]) +
      (if items[|items| - 1].Button? then [items[|items| - 1].page] else [])
  }

  function GapCount(items: seq<Item>): nat {
    if items == [] then 0
    else GapCount(items[..|items| - 1]) + (if items[|items| - 1].Gap? then 1 else 0)
  }

  function ActiveCount(items: seq<Item>): nat {
    if items == [] then 0
    else ActiveCount(items[..|items| - 1]) + (if items[|items| - 1] == Button(items[|items| - 1].page, true) then 1 else 0)
  }

  /** The gaps sit only between buttons: the list starts and ends with a
      button, and every gap is directly followed by the button of the page
      it names (so no gap is leading, trailing or doubled). */
  predicate WellPlaced(items: seq<Item>) {
    (items != [] ==> items[0].Button? && items[|items| - 1].Button?) &&
    forall i :: 0 <= i < |items| && items[i].Gap? ==>
      i + 1 < |items| && items[i + 1].Button? && items[i + 1].page == items[i].page
  }

  /** The pages whose button gets a gap in front of it. */
  function GapPages(pages: seq<int>): set<int> {
    set k | 0 <= k < |pages| && GapBefore(pages, k) :: pages[k]
  }

  /** The gap, if any, rendered before the page at `k`. */
  function GapFor(pages: seq<int>, k: int): seq<Item>
    requires 0 <= k < |pages|
  {
    if GapBefore(pages, k) then [Gap(pages[k])] else []
  }

  /** The page at `k` does not follow its predecessor directly. */
  predicate GapBefore(pages: seq<int>, k: int)
    requires 0 <= k < |pages|
  {
    k > 0 && pages[k] != pages[k - 1] + 1
  }

  /** The list for `pages` is the list for all pages but the last, then
      the last page's gap, if any, and its button. */
  lemma ItemsOfLast(pages: seq<int>, currentPage: int)
    requires pages != []
    ensures var k := |pages| - 1;
      var items := ItemsOf(pages, currentPage);
      items[|items| - 1] == Button(pages[k], pages[k] == currentPage) &&
      items[..|items| - 1] == ItemsOf(pages[..k], currentPage) + GapFor(pages, k)
  {
    var k := |pages| - 1;
    var front := ItemsOf(pages[..k], currentPage) + GapFor(pages, k);
    assert (front + [Button(pages[k], pages[k] == currentPage)])[..|front|] == front;
  }

  /** The three counters over the list, one item appended. */
  lemma CountersSnoc(items: seq<Item>, x: Item)
    ensures ButtonPages(items + [x]) == ButtonPages(items) + (if x.Button? then [x.page] else [])
    ensures GapCount(items + [x]) == GapCount(items) + (if x.Gap? then 1 else 0)
    ensures ActiveCount(items + [x]) == ActiveCount(items) + (if x == Button(x.page, true) then 1 else 0)
  {
    assert (items + [x])[..|items|] == items;
  }

  /** The list for `pages`, one page appended, in the counters' terms. */
  lemma CountersOfLast(pages: seq<int>, currentPage: int)
    requires pages != []
    ensures var k := |pages| - 1;
      var prev := ItemsOf(pages[..k], currentPage);
      var p := pages[k];
      ButtonPages(ItemsOf(pages, currentPage)) == ButtonPages(prev) + [p] &&
      GapCount(ItemsOf(pages, currentPage)) == GapCount(prev) + (if GapBefore(pages, k) then 1 else 0) &&
      ActiveCount(ItemsOf(pages, currentPage)) == ActiveCount(prev) + (if p == currentPage then 1 else 0)
  {
    var k := |pages| - 1;
    var prev := ItemsOf(pages[..k], currentPage);
    var p := pages[k];
    var button := Button(p, p == currentPage);
    var items := ItemsOf(pages, currentPage);
    assert items == prev + GapFor(pages, k) + [button];
    if GapBefore(pages, k) {
      var mid := prev + [Gap(p)];
      assert items == mid + [button];
      CountersSnoc(prev, Gap(p));
      CountersSnoc(mid, button);
    } else {
      assert items == prev + [button];
      CountersSnoc(prev, button);
    }
  }

  /** The buttons show exactly the pages, in order. */
  lemma {:induction false} ItemsShowPages(pages: seq<int>, currentPage: int)
    ensures ButtonPages(ItemsOf(pages, currentPage)) == pages
    decreases |pages|
  {
    if pages != [] {
      var k := |pages| - 1;
      CountersOfLast(pages, currentPage);
      ItemsShowPages(pages[..k], currentPage);
      assert pages == pages[..k] + [pages[k]];
    }
  }

  /** Whether there is a gap before an earlier page does not depend on the
      pages after it. */
  lemma GapBeforePrefix(pages: seq<int>, k: int, j: int)
    requires 0 <= j < k <= |pages|
    ensures GapBefore(pages[..k], j) == GapBefore(pages, j)
  {
  }

  /** The gap pages of `pages` are those of all but its last page, and the
      last page when a gap precedes it. */
  lemma GapPagesLast(pages: seq<int>)
    requires pages != []
    ensures var k := |pages| - 1;
      GapPages(pages) == GapPages(pages[..k]) + (if GapBefore(pages, k) then {pages[k]} else {})
  {
    var k := |pages| - 1;
    var front := pages[..k];
    forall x | x in GapPages(pages)
      ensures x in GapPages(front) || (GapBefore(pages, k) && x == pages[k])
    {
      var j :| 0 <= j < |pages| && GapBefore(pages, j) && pages[j] == x;
      if j < k {
        GapBeforePrefix(pages, k, j);
        assert front[j] == x;
      }
    }
    forall x | x in GapPages(front)
      ensures x in GapPages(pages)
    {
      var j :| 0 <= j < |front| && GapBefore(front, j) && front[j] == x;
      GapBeforePrefix(pages, k, j);
      assert pages[j] == x;
    }
  }

  /** There is one gap per page that does not follow its predecessor. */
  lemma {:induction false} ItemsGapCount(pages: seq<int>, currentPage: int)
    requires StrictlyIncreasing(pages)
    ensures GapCount(ItemsOf(pages, currentPage)) == |GapPages(pages)|
    decreases |pages|
  {
    if pages != [] {
      var k := |pages| - 1;
      CountersOfLast(pages, currentPage);
      ItemsGapCount(pages[..k], currentPage);
      GapPagesLast(pages);
      if GapBefore(pages, k) {
        assert pages[k] !in GapPages(pages[..k]);
      }
    }
  }

  /** A button is active exactly when it is the current page's. */
  lemma {:induction false} ItemsActiveMarking(pages: seq<int>, currentPage: int)
    ensures var items := ItemsOf(pages, currentPage);
      forall i :: 0 <= i < |items| && items[i].Button? ==> (items[i].active <==> items[i].page == currentPage)
    decreases |pages|
  {
    if pages != [] {
      var k := |pages| - 1;
      var items := ItemsOf(pages, currentPage);
      ItemsOfLast(pages, currentPage);
      ItemsActiveMarking(pages[..k], currentPage);
      var prev := ItemsOf(pages[..k], currentPage);
      forall i | 0 <= i < |items| && items[i].Button?
        ensures items[i].active <==> items[i].page == currentPage
      {
        if i < |prev| {
          assert items[i] == items[..|items| - 1][i] == prev[i];
        }
      }
    }
  }

  /** With distinct pages, one button is active when the current page is
      shown and none otherwise. */
  lemma {:induction false} ItemsActiveCount(pages: seq<int>, currentPage: int)
    requires StrictlyIncreasing(pages)
    ensures ActiveCount(ItemsOf(pages, currentPage)) == (if currentPage in pages then 1 else 0)
    decreases |pages|
  {
    if pages != [] {
      var k := |pages| - 1;
      var front := pages[..k];
      CountersOfLast(pages, currentPage);
      ItemsActiveCount(front, currentPage);
      assert pages == front + [pages[k]];
      if pages[k] == currentPage {
        assert currentPage !in front;
      }
    }
  }

  /** No gap is leading, trailing or doubled. */
  lemma {:induction false} ItemsWellPlaced(pages: seq<int>, currentPage: int)
    ensures WellPlaced(ItemsOf(pages, currentPage))
    decreases |pages|
  {
    if pages != [] {
      var k := |pages| - 1;
      var items := ItemsOf(pages, currentPage);
      var prev := ItemsOf(pages[..k], currentPage);
      ItemsOfLast(pages, currentPage);
      ItemsWellPlaced(pages[..k], currentPage);
      assert items == items[..|items| - 1] + [items[|items| - 1]];
      if prev == [] {
        assert k == 0;
        assert !GapBefore(pages, k);
      } else {
        assert items[0] == items[..|items| - 1][0] == prev[0];
      }
      forall i | 0 <= i < |items| && items[i].Gap?
        ensures i + 1 < |items| && items[i + 1].Button? && items[i + 1].page == items[i].page
      {
        if i < |prev| {
          assert items[i] == items[..|items| - 1][i] == prev[i];
          if i + 1 < |prev| {
            assert items[i + 1] == items[..|items| - 1][i + 1] == prev[i + 1];
          }
        }
      }
    }
  }

  /** In a page list taken from `s`, a gap before a page means the page just
      below it is not shown. */
  lemma GapMeansMissingPredecessor(s: set<int>, totalPages: int, k: int)
    requires 0 < k < |SortedPages(s, totalPages)|
    requires SortedPages(s, totalPages)[k] != SortedPages(s, totalPages)[k - 1] + 1
    ensures SortedPages(s, totalPages)[k] - 1 !in s
    ensures SortedPages(s, totalPages)[k] >= 2
  {
    var pages := SortedPages(s, totalPages);
    var x := pages[k] - 1;
    assert pages[k - 1] < pages[k];
    assert pages[k] in pages && pages[k - 1] in pages;
    assert pages[k - 1] in s && 1 <= pages[k - 1];
  }

  /** Above seven pages, a gap can only come before the page just left of
      the current one or before the second-to-last page. */
  lemma GapsAroundWindow(totalPages: int, currentPage: int)
    requires totalPages > 7
    ensures GapPages(SortedPages(Window(totalPages, currentPage), totalPages)) <= {currentPage - 1, totalPages - 1}
  {
    var s := Window(totalPages, currentPage);
    var pages := SortedPages(s, totalPages);
    forall x | x in GapPages(pages)
      ensures x == currentPage - 1 || x == totalPages - 1
    {
      var k :| 0 < k < |pages| && pages[k] != pages[k - 1] + 1 && pages[k] == x;
      GapAt(totalPages, currentPage, k);
    }
  }

  /** One gap of a bar above seven pages, at index `k` of the page list. */
  lemma GapAt(totalPages: int, currentPage: int, k: int)
    requires totalPages > 7
    requires 0 < k < |SortedPages(Window(totalPages, currentPage), totalPages)|
    requires SortedPages(Window(totalPages, currentPage), totalPages)[k] !=
      SortedPages(Window(totalPages, currentPage), totalPages)[k - 1] + 1
    ensures SortedPages(Window(totalPages, currentPage), totalPages)[k] == currentPage - 1 ||
      SortedPages(Window(totalPages, currentPage), totalPages)[k] == totalPages - 1
  {
    var s := Window(totalPages, currentPage);
    var pages := SortedPages(s, totalPages);
    GapMeansMissingPredecessor(s, totalPages, k);
    assert pages[k] in pages;
    WindowPredecessor(totalPages, currentPage, pages[k]);
  }

  /** Above seven pages, a shown page whose predecessor is not shown is the
      page left of the current one or the second-to-last page. */
  lemma WindowPredecessor(totalPages: int, currentPage: int, x: int)
    requires totalPages > 7
    requires x in Window(totalPages, currentPage) && 2 <= x <= totalPages
    requires x - 1 !in Window(totalPages, currentPage)
    ensures x == currentPage - 1 || x == totalPages - 1
  {
    var near := Near(currentPage, currentPage + 1, totalPages);
    assert Window(totalPages, currentPage) == {1, 2, 3, 4, totalPages - 1, totalPages} + near;
  }

  lemma AtMostTwo(g: set<int>, a: int, b: int)
    requires g <= {a, b}
    ensures |g| <= 2
  {
    if a in g && b in g {
      assert g == {a, b};
    } else if a in g {
      assert g == {a};
    } else if b in g {
      assert g == {b};
    } else {
      assert g == {};
    }
  }

  lemma {:induction false} DistinctLength(s: seq<int>)
    requires StrictlyIncreasing(s)
    ensures |set x | x in s| == |s|
    decreases |s|
  {
    if s != [] {
      var tail := s[1..];
      DistinctLength(tail);
      assert (set x | x in s) == {s[0]} + (set x | x in tail);
      assert s[0] !in (set x | x in tail);
    }
  }

  lemma SubsetSize(a: set<int>, b: set<int>)
    requires a <= b
    ensures |a| <= |b|
  {
    assert b == a + (b - a);
  }

  /** Above seven pages the bar shows at most nine numbers and at most two
      gaps, none leading, trailing or doubled. */
  lemma LargeBarBounded(totalPages: int, currentPage: int)
    requires totalPages > 7
    ensures var pages := SortedPages(Window(totalPages, currentPage), totalPages);
      var items := ItemsOf(pages, currentPage);
      |pages| <= 9 && GapCount(items) <= 2 && WellPlaced(items)
  {
    var s := Window(totalPages, currentPage);
    var pages := SortedPages(s, totalPages);
    ItemsGapCount(pages, currentPage);
    ItemsWellPlaced(pages, currentPage);
    GapsAroundWindow(totalPages, currentPage);
    AtMostTwo(GapPages(pages), currentPage - 1, totalPages - 1);
    LargeBarAtMostNine(totalPages, currentPage);
  }

  /** Above seven pages at most nine page numbers are shown. */
  lemma LargeBarAtMostNine(totalPages: int, currentPage: int)
    requires totalPages > 7
    ensures |SortedPages(Window(totalPages, currentPage), totalPages)| <= 9
  {
    SortedPagesSize(Window(totalPages, currentPage), totalPages);
    WindowSize(totalPages, currentPage);
  }

  /** The page list has no more entries than the set it is taken from. */
  lemma SortedPagesSize(pageSet: set<int>, totalPages: int)
    ensures |SortedPages(pageSet, totalPages)| <= |pageSet|
  {
    var pages := SortedPages(pageSet, totalPages);
    DistinctLength(pages);
    SubsetSize((set x | x in pages), pageSet);
  }

  /** Above seven pages the window holds at most nine pages. */
  lemma WindowSize(totalPages: int, currentPage: int)
    requires totalPages > 7
    ensures |Window(totalPages, currentPage)| <= 9
  {
    var near := Near(currentPage, currentPage + 1, totalPages);
    var fixed := {1, 2, 3, 4, totalPages - 1, totalPages};
    assert Window(totalPages, currentPage) == fixed + near;
    NearSize(currentPage, totalPages);
    DisplaySize(1, 2, 3, 4, totalPages - 1, totalPages);
    UnionSize(fixed, near);
  }

  /** The current page and its existing neighbours are at most three pages. */
  lemma NearSize(currentPage: int, totalPages: int)
    ensures |Near(currentPage, currentPage + 1, totalPages)| <= 3
  {
    var near := Near(currentPage, currentPage + 1, totalPages);
    var around := {currentPage - 1, currentPage, currentPage + 1};
    forall x | x in near
      ensures x in around
    {
      assert x in Between(currentPage - 1, currentPage + 1);
    }
    SubsetSize(near, around);
    assert |around| <= 3 by {
      DisplaySize(currentPage - 1, currentPage, currentPage + 1, currentPage - 1, currentPage - 1, currentPage - 1);
      assert around == {currentPage - 1, currentPage, currentPage + 1, currentPage - 1, currentPage - 1, currentPage - 1};
    }
  }

  lemma DisplaySize(a: int, b: int, c: int, d: int, e: int, f: int)
    ensures |{a, b, c, d, e, f}| <= 6
  {
  }

  lemma UnionSize(a: set<int>, b: set<int>)
    ensures |a + b| <= |a| + |b|
  {
    assert a + b == a + (b - a);
    SubsetSize(b - a, b);
  }

  /** The Previous button: disabled on page 1; a click moves back one page
      only when the current page is past the first. */
  predicate PreviousDisabled(currentPage: int) {
    currentPage == 1
  }

  function PreviousClick(currentPage: int): (target: Option<int>)
    ensures target.Some? <==> currentPage > 1
    ensures target.Some? ==> target.value == currentPage - 1 && target.value >= 1
  {
    if currentPage > 1 then Some(currentPage - 1) else None
  }

  /** The Next button: disabled on the last page; a click moves on one page
      only when the current page is before the last. */
  predicate NextDisabled(currentPage: int, totalPages: int) {
    currentPage == totalPages
  }

  function NextClick(currentPage: int, totalPages: int): (target: Option<int>)
    ensures target.Some? <==> currentPage < totalPages
    ensures target.Some? ==> target.value == currentPage + 1 && target.value <= totalPages
  {
    if currentPage < totalPages then Some(currentPage + 1) else None
  }

  /** On a page inside the bar's range, a button reacts to a click exactly
      when it is not disabled, and the page it asks for is in range too. */
  lemma ClickMatchesDisabled(currentPage: int, totalPages: int)
    requires 1 <= currentPage <= totalPages
    ensures PreviousClick(currentPage).Some? <==> !PreviousDisabled(currentPage)
    ensures NextClick(currentPage, totalPages).Some? <==> !NextDisabled(currentPage, totalPages)
    ensures PreviousClick(currentPage).Some? ==> 1 <= PreviousClick(currentPage).value <= totalPages
    ensures NextClick(currentPage, totalPages).Some? ==> 1 <= NextClick(currentPage, totalPages).value <= totalPages
  {
  }

  /** The whole bar, as the component assembles it. */
  method Render(totalPages: int, currentPage: int) returns (pages: seq<int>, items: seq<Item>)
    ensures pages == SortedPages(Window(totalPages, currentPage), totalPages)
    ensures items == ItemsOf(pages, currentPage)
    ensures ButtonPages(items) == pages && WellPlaced(items)
    ensures ActiveCount(items) == (if currentPage in Window(totalPages, currentPage) && 1 <= currentPage <= totalPages then 1 else 0)
  {
    var pageSet := BuildPageSet(totalPages, currentPage);
    pages := SortedPages(pageSet, totalPages);
    items := BuildItems(pages, currentPage);
    ItemsShowPages(pages, currentPage);
    ItemsWellPlaced(pages, currentPage);
    ItemsActiveCount(pages, currentPage);
  }
}
