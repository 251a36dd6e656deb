/** The page list of the workspace
    (src/components/workspace/PageListSidebar.tsx): `pages.sort` by page
    number, which reorders the caller's array in place, and the buttons it
    shows, with the selected page marked current. */
module PageListSidebar {
  import opened Wrappers
  import opened ApiTypes

  predicate SortedByPageNumber(s: seq<PageResponse>) {
    forall i, j :: 0 <= i < j < |s| ==> s[i].pageNumber <= s[j].pageNumber
  }

  /** `pages.sort((a, b) => a.page_number - b.page_number)`: the array is
      reordered in place into ascending page number, keeping its pages. */
  method SortByPageNumber(a: array<PageResponse>)
    modifies a
    ensures SortedByPageNumber(a[..])
    ensures multiset(a[..]) == multiset(old(a[..]))
  {
    if a.Length == 0 {
      return;
    }
    var i := 1;
    while i < a.Length
      invariant 1 <= i <= a.Length
      invariant SortedByPageNumber(a[..i])
      invariant multiset(a[..]) == multiset(old(a[..]))
    {
      Insert(a, i);
      i := i + 1;
    }
    assert a[..a.Length] == a[..];
  }

  /** `s[..i + 1]` is sorted apart from position `j` ... */
  predicate SortedAround(s: seq<PageResponse>, j: int, i: int)
    requires 0 <= j <= i < |s|
  {
    forall k, l :: 0 <= k < l <= i && k != j && l != j ==> s[k].pageNumber <= s[l].pageNumber
  }

  /** ... and the page at `j` comes before every later one up to `i`. */
  predicate BelowLater(s: seq<PageResponse>, j: int, i: int)
    requires 0 <= j <= i < |s|
  {
    forall l :: j < l <= i ==> s[j].pageNumber < s[l].pageNumber
  }

  function Swapped(s: seq<PageResponse>, j: int): (r: seq<PageResponse>)
    requires 0 < j < |s|
    ensures |r| == |s| && multiset(r) == multiset(s)
    ensures r[j - 1] == s[j] && r[j] == s[j - 1]
    ensures forall k :: 0 <= k < |s| && k != j - 1 && k != j ==> r[k] == s[k]
  {
    s[j - 1 := s[j]][j := s[j - 1]]
  }

  /** Swapping the page at `j` with a larger neighbour below keeps the shape. */
  lemma {:induction false} SwapStep(s: seq<PageResponse>, j: int, i: int)
    requires 0 < j <= i < |s|
    requires SortedAround(s, j, i) && BelowLater(s, j, i)
    requires s[j - 1].pageNumber > s[j].pageNumber
    ensures SortedAround(Swapped(s, j), j - 1, i) && BelowLater(Swapped(s, j), j - 1, i)
  {
  }

  /** Once the page at `j` is not below its left neighbour, `s[..i + 1]` is sorted. */
  lemma {:induction false} InsertDone(s: seq<PageResponse>, j: int, i: int)
    requires 0 <= j <= i < |s|
    requires SortedAround(s, j, i) && BelowLater(s, j, i)
    requires j == 0 || s[j - 1].pageNumber <= s[j].pageNumber
    ensures SortedByPageNumber(s[..i + 1])
  {
    forall k, l | 0 <= k < l <= i ensures s[k].pageNumber <= s[l].pageNumber {
      if l == j && k < j - 1 {
        assert s[k].pageNumber <= s[j - 1].pageNumber;
      }
    }
  }

  /** The insertion step: the page at `i` sinks into the sorted `a[..i]`. */
  method Insert(a: array<PageResponse>, i: int)
    requires 0 < i < a.Length
    requires SortedByPageNumber(a[..i])
    modifies a
    ensures SortedByPageNumber(a[..i + 1])
    ensures multiset(a[..]) == multiset(old(a[..]))
  {
    var j := i;
    assert SortedAround(a[..], j, i) by {
      forall k, l | 0 <= k < l <= i && k != j && l != j ensures a[k].pageNumber <= a[l].pageNumber {
        assert a[..i][k] == a[k] && a[..i][l] == a[l];
      }
    }
    while j > 0 && a[j - 1].pageNumber > a[j].pageNumber
      invariant 0 <= j <= i
      invariant SortedAround(a[..], j, i) && BelowLater(a[..], j, i)
      invariant multiset(a[..]) == multiset(old(a[..]))
    {
      SwapStep(a[..], j, i);
      ghost var after := Swapped(a[..], j);
      a[j - 1], a[j] := a[j], a[j - 1];
      assert a[..] == after;
      j := j - 1;
    }
    InsertDone(a[..], j, i);
  }

  /** One entry of the list: the button of a page, which reports
      `pageNumber` when clicked. */
  datatype PageButton = PageButton(id: int, pageNumber: int, current: bool)

  datatype SidebarView = Skeletons(count: nat) | NoPagesMessage | PageButtons(buttons: seq<PageButton>)

  /** The buttons of the pages, in list order; a button is current exactly
      when the selection is its page number. */
  function ButtonsFor(pages: seq<PageResponse>, selected: Option<int>): (bs: seq<PageButton>)
    ensures |bs| == |pages|
    ensures forall i :: 0 <= i < |pages| ==> bs[i].id == pages[i].id && bs[i].pageNumber == pages[i].pageNumber
    ensures forall i :: 0 <= i < |pages| ==> (bs[i].current <==> selected == Some(pages[i].pageNumber))
  {
    seq(|pages|, i requires 0 <= i < |pages| => PageButton(pages[i].id, pages[i].pageNumber, selected == Some(pages[i].pageNumber)))
  }

  /** Nothing is current without a selection. */
  lemma {:induction false} NoSelectionNoCurrent(pages: seq<PageResponse>)
    ensures forall i :: 0 <= i < |pages| ==> !ButtonsFor(pages, None)[i].current
  {
  }

  /** When page numbers are distinct, at most one button is current. */
  lemma {:induction false} AtMostOneCurrent(pages: seq<PageResponse>, selected: Option<int>, i: int, j: int)
    requires forall k, l :: 0 <= k < l < |pages| ==> pages[k].pageNumber != pages[l].pageNumber
    requires 0 <= i < |pages| && 0 <= j < |pages|
    requires ButtonsFor(pages, selected)[i].current && ButtonsFor(pages, selected)[j].current
    ensures i == j
  {
  }

  /** The sidebar: five skeletons while loading, whatever the pages; the
      "no pages" message for an undefined (`null`) or empty list; otherwise
      the array is sorted in place and one button is shown per page. */
  method RenderSidebar(pages: array?<PageResponse>, isLoading: bool, selected: Option<int>) returns (view: SidebarView)
    modifies pages
    ensures isLoading ==> view == Skeletons(5)
    ensures isLoading && pages != null ==> pages[..] == old(pages[..])
    ensures !isLoading && (pages == null || pages.Length == 0) ==> view == NoPagesMessage
    ensures !isLoading && pages != null && pages.Length > 0 ==>
              && SortedByPageNumber(pages[..])
              && multiset(pages[..]) == multiset(old(pages[..]))
              && view == PageButtons(ButtonsFor(pages[..], selected))
  {
    if isLoading {
      view := Skeletons(5);
    } else if pages != null && pages.Length > 0 {
      SortByPageNumber(pages);
      view := PageButtons(ButtonsFor(pages[..], selected));
    } else {
      view := NoPagesMessage;
    }
  }
}
