/** The pagination navigation bar of the blog's post list (`IndexView.pagination_data`):
    from the current page number and the page count it computes which page numbers are
    drawn beside the current one, where an ellipsis goes, and whether page 1 and the last
    page are pinned as separate links. */
module Pagination {
  import opened PySeq

  function Min(a: int, b: int): int { if a <= b then a else b }
  function Max(a: int, b: int): int { if a <= b then b else a }

  /** The part of Django's paginator the view reads: `num_pages`, and the derived
      `page_range`, which Django defines as `range(1, num_pages + 1)`. */
  datatype Paginator = Paginator(numPages: nat) {
    function PageRange(): (r: seq<int>)
      ensures |r| == numPages
      ensures forall k :: 0 <= k < |r| ==> r[k] == k + 1
    {
      Range(1, numPages + 1)
    }
  }

  /** The part of Django's page object the view reads: its 1-based `number`. */
  datatype Page = Page(number: int)

  /** The dictionary the view merges into the template context: `Empty` is `{}`, `Nav`
      carries the six keys in the source's order. */
  datatype NavData =
    | Empty
    | Nav(left: seq<int>, right: seq<int>,
          leftHasMore: bool, rightHasMore: bool,
          first: bool, last: bool)

  /** What Django guarantees whenever it reports the list as paginated: more than one
      page, and a current page inside the page range. */
  predicate Paginated(paginator: Paginator, page: Page)
  {
    2 <= paginator.numPages && 1 <= page.number <= paginator.numPages
  }

  /** `IndexView.pagination_data`, branch for branch, with the source's hard-coded
      slices `page_range[number:number + 2]` and
      `page_range[(number - 3) if (number - 3) > 0 else 0:number - 1]`.
      Every `right[-1]` and `left[0]` is an `At` whose precondition Dafny discharges
      from `Paginated`, so under Django's guarantee none of them raises IndexError. */
  function PaginationData(paginator: Paginator, page: Page, isPaginated: bool): (r: NavData)
    requires isPaginated ==> Paginated(paginator, page)
    ensures r.Empty? <==> !isPaginated
  {
    if !isPaginated then Empty
    else
      var pageNumber := page.number;
      var totalPages := paginator.numPages;
      var pageRange := paginator.PageRange();
      if pageNumber == 1 then
        var right := Slice(pageRange, pageNumber, pageNumber + 2);
        Nav([], right,
            false, At(right, -1) < totalPages - 1,
            false, At(right, -1) < totalPages)
      else if pageNumber == totalPages then
        var left := Slice(pageRange, if pageNumber - 3 > 0 then pageNumber - 3 else 0, pageNumber - 1);
        Nav(left, [],
            At(left, 0) > 2, false,
            At(left, 0) > 1, false)
      else
        var left := Slice(pageRange, if pageNumber - 3 > 0 then pageNumber - 3 else 0, pageNumber - 1);
        var right := Slice(pageRange, pageNumber, pageNumber + 2);
        Nav(left, right,
            At(left, 0) > 2, At(right, -1) < totalPages - 1,
            At(left, 0) > 1, At(right, -1) < totalPages)
  }

  /** The navigation bar stated directly, for current page `p` of `n` pages and a window
      of `w` pages on each side: the pages `max(1, p - w) .. p - 1` to the left, the pages
      `p + 1 .. min(p + w, n)` to the right; an ellipsis wherever the window stops more
      than one page short of a boundary page, and a pinned boundary page wherever the
      window stops short of it at all. */
  function WindowPlan(p: int, n: int, w: nat): (r: NavData)
    requires 1 <= p <= n
    ensures r.Nav?
    ensures |r.left| == Min(w, p - 1) && |r.right| == Min(w, n - p)
  {
    Nav(Range(Max(1, p - w), p), Range(p + 1, Min(p + w, n) + 1),
        p - w > 2, p + w < n - 1,
        p - w > 1, p + w < n)
  }

  /** The lowest page number drawn in the window, the current page included. */
  function Lowest(r: NavData, p: int): int
    requires r.Nav?
  {
    if r.left == [] then p else r.left[0]
  }

  /** The highest page number drawn in the window, the current page included. */
  function Highest(r: NavData, p: int): int
    requires r.Nav?
  {
    if r.right == [] then p else r.right[|r.right| - 1]
  }

  /** `s` is an ascending run of consecutive page numbers. */
  predicate Consecutive(s: seq<int>)
  {
    forall k :: 0 < k < |s| ==> s[k] == s[k - 1] + 1
  }

  /** The window around current page `p` of `n` pages is as wide as `w` and the page
      range allow on each side, consists of consecutive pages inside [1, n], lies
      strictly left and right of `p`, and touches `p` on both sides. */
  predicate WellShaped(r: NavData, p: int, n: int, w: nat)
    requires r.Nav?
  {
    && Consecutive(r.left) && Consecutive(r.right)
    && |r.left| == Min(w, p - 1) && |r.right| == Min(w, n - p)
    && (forall k :: 0 <= k < |r.left| ==> 1 <= r.left[k] < p)
    && (forall k :: 0 <= k < |r.right| ==> p < r.right[k] <= n)
    && (r.left != [] ==> r.left[|r.left| - 1] == p - 1)
    && (r.right != [] ==> r.right[0] == p + 1)
  }

  /** The four flags mean what the template uses them for: page 1 is pinned exactly when
      the window does not reach it, and an ellipsis follows it exactly when at least one
      page lies between page 1 and the window; symmetrically for the last page. */
  predicate FlagsMeaning(r: NavData, p: int, n: int)
    requires r.Nav?
  {
    && (r.first <==> Lowest(r, p) > 1)
    && (r.leftHasMore <==> Lowest(r, p) > 2)
    && (r.last <==> Highest(r, p) < n)
    && (r.rightHasMore <==> Highest(r, p) < n - 1)
  }

  /** Page `x` of `n` seen from the other end of the page range. */
  function MirrorPages(s: seq<int>, n: int): seq<int>
  {
    seq(|s|, k requires 0 <= k < |s| => n + 1 - s[|s| - 1 - k])
  }

  /** The navigation bar read right to left: left and right windows exchange places
      (mirrored), and so do the flags of the two ends. */
  function Mirror(r: NavData, n: int): NavData
    requires r.Nav?
  {
    Nav(MirrorPages(r.right, n), MirrorPages(r.left, n),
        r.rightHasMore, r.leftHasMore, r.last, r.first)
  }
}
