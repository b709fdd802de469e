/** Properties of the pagination navigation bar: the source's hard-coded slices are the
    width-2 instance of the window plan, the windows are well shaped, the flags mean what
    the template needs, the bar is symmetric, and the cases the view distinguishes give
    the documented results. */
module PaginationProofs {
  import opened PySeq
  import opened Pagination

  /** A run of consecutive integers is determined by its first element. */
  lemma {:induction false} ConsecutiveFromFirst(s: seq<int>, k: int)
    requires Consecutive(s)
    requires 0 <= k < |s|
    ensures s[k] == s[0] + k
  {
    if k > 0 {
      ConsecutiveFromFirst(s, k - 1);
    }
  }

  /** The view's left slice `page_range[max(p - 3, 0):p - 1]` is pages max(1, p - 2) .. p - 1. */
  lemma LeftSlice(n: nat, p: int)
    requires 1 <= p <= n
    ensures Slice(Paginator(n).PageRange(), if p - 3 > 0 then p - 3 else 0, p - 1)
         == Range(Max(1, p - 2), p)
  {
    SliceOfRange(n, if p - 3 > 0 then p - 3 else 0, p - 1);
  }

  /** The view's right slice `page_range[p:p + 2]` is pages p + 1 .. min(p + 2, n). */
  lemma RightSlice(n: nat, p: int)
    requires 1 <= p <= n
    ensures Slice(Paginator(n).PageRange(), p, p + 2) == Range(p + 1, Min(p + 2, n) + 1)
  {
    SliceOfRange(n, p, p + 2);
  }

  /** With width 2, the view's slices of `page_range` and its comparisons against
      `right[-1]` and `left[0]` compute exactly the window plan. In particular the
      result depends on nothing but the current page number and the page count. */
  lemma SlicesAreWindowOfTwo(n: nat, p: int)
    requires 2 <= n && 1 <= p <= n
    ensures PaginationData(Paginator(n), Page(p), true) == WindowPlan(p, n, 2)
  {
    var left, right := Range(Max(1, p - 2), p), Range(p + 1, Min(p + 2, n) + 1);
    LeftSlice(n, p);
    RightSlice(n, p);
    if p < n {
      assert At(right, -1) == Min(p + 2, n);
    }
    if 1 < p {
      assert At(left, 0) == Max(1, p - 2);
    }
  }

  /** The window plan, for every width, is well shaped. */
  lemma WindowPlanWellShaped(p: int, n: int, w: nat)
    requires 1 <= p <= n
    ensures WellShaped(WindowPlan(p, n, w), p, n, w)
  {
  }

  /** The window plan's closed-form flags, for every width, mean what they should. */
  lemma WindowPlanFlags(p: int, n: int, w: nat)
    requires 1 <= p <= n
    ensures FlagsMeaning(WindowPlan(p, n, w), p, n)
  {
  }

  /** For any well-shaped bar whose flags mean what they should: an ellipsis is only
      drawn next to a pinned boundary page, and a boundary page is pinned exactly when
      it is neither the current page nor already in the window. */
  lemma FlagConsequences(r: NavData, p: int, n: int, w: nat)
    requires r.Nav? && 1 <= p <= n
    requires WellShaped(r, p, n, w) && FlagsMeaning(r, p, n)
    ensures r.leftHasMore ==> r.first
    ensures r.rightHasMore ==> r.last
    ensures r.first <==> p != 1 && 1 !in r.left
    ensures r.last <==> p != n && n !in r.right
  {
    if r.left != [] {
      forall k | 0 <= k < |r.left| ensures r.left[k] == r.left[0] + k {
        ConsecutiveFromFirst(r.left, k);
      }
      assert r.left[|r.left| - 1] == p - 1;
    }
    if r.right != [] {
      forall k | 0 <= k < |r.right| ensures r.right[k] == r.right[0] + k {
        ConsecutiveFromFirst(r.right, k);
      }
    }
  }

  /** The window plan read right to left is the window plan of the mirrored page. */
  lemma WindowPlanMirror(p: int, n: int, w: nat)
    requires 1 <= p <= n
    ensures WindowPlan(n + 1 - p, n, w) == Mirror(WindowPlan(p, n, w), n)
  {
    var r, m := WindowPlan(p, n, w), WindowPlan(n + 1 - p, n, w);
    var mr := Mirror(r, n);
    assert m.left == mr.left by {
      assert |m.left| == |mr.left|;
      forall k | 0 <= k < |m.left| ensures m.left[k] == mr.left[k] { }
    }
    assert m.right == mr.right by {
      assert |m.right| == |mr.right|;
      forall k | 0 <= k < |m.right| ensures m.right[k] == mr.right[k] { }
    }
  }

  /** The view's windows: consecutive pages inside [1, numPages], at most two on each
      side, strictly below (left) and above (right) the current page, adjacent to it, and
      as many as the page range allows. */
  lemma PaginationDataWindows(n: nat, p: int)
    requires 2 <= n && 1 <= p <= n
    ensures var r := PaginationData(Paginator(n), Page(p), true);
      && r.Nav? && WellShaped(r, p, n, 2)
      && |r.left| <= 2 && |r.right| <= 2
      && p !in r.left && p !in r.right
  {
    SlicesAreWindowOfTwo(n, p);
    WindowPlanWellShaped(p, n, 2);
  }

  /** The view's flags, as the comparisons the view makes on `right[-1]` and `left[0]`
      (a flag is false when its window is empty), and what follows from them: an
      ellipsis implies the pinned boundary page, and a pinned boundary page is never
      also in the window. */
  lemma PaginationDataFlags(n: nat, p: int)
    requires 2 <= n && 1 <= p <= n
    ensures var r := PaginationData(Paginator(n), Page(p), true);
      && r.Nav?
      && (r.rightHasMore <==> r.right != [] && r.right[|r.right| - 1] < n - 1)
      && (r.last <==> r.right != [] && r.right[|r.right| - 1] < n)
      && (r.leftHasMore <==> r.left != [] && r.left[0] > 2)
      && (r.first <==> r.left != [] && r.left[0] > 1)
      && (r.rightHasMore ==> r.last) && (r.leftHasMore ==> r.first)
      && (r.last <==> p != n && n !in r.right)
      && (r.first <==> p != 1 && 1 !in r.left)
  {
    var r := PaginationData(Paginator(n), Page(p), true);
    SlicesAreWindowOfTwo(n, p);
    WindowPlanWellShaped(p, n, 2);
    WindowPlanFlags(p, n, 2);
    FlagConsequences(r, p, n, 2);
  }

  /** Under Django's guarantee the view never indexes an empty window: on the first page
      `right` is non-empty, on the last page `left` is, and on an interior page both. */
  lemma PaginationDataIndexingSafe(n: nat, p: int)
    requires 2 <= n && 1 <= p <= n
    ensures var r := PaginationData(Paginator(n), Page(p), true);
      && r.Nav?
      && (p < n ==> r.right != [])
      && (1 < p ==> r.left != [])
  {
    SlicesAreWindowOfTwo(n, p);
  }

  /** The guarantee is needed: on a single page the view's `right` slice is empty, so
      `right[-1]` would raise IndexError. */
  lemma SinglePageRightIsEmpty()
    ensures Slice(Paginator(1).PageRange(), 1, 1 + 2) == []
  {
    SliceOfRange(1, 1, 3);
  }

  /** First page: nothing to the left, pages 2 .. min(3, n) to the right, page n pinned
      once there are more than three pages and an ellipsis once there are more than
      four. */
  lemma FirstPage(n: nat)
    requires 2 <= n
    ensures PaginationData(Paginator(n), Page(1), true)
         == Nav([], Range(2, Min(3, n) + 1), false, n > 4, false, n > 3)
  {
    SlicesAreWindowOfTwo(n, 1);
  }

  /** Last page: nothing to the right, pages max(1, n - 2) .. n - 1 to the left, page 1
      pinned once there are more than three pages and an ellipsis once there are more
      than four. */
  lemma LastPage(n: nat)
    requires 2 <= n
    ensures PaginationData(Paginator(n), Page(n), true)
         == Nav(Range(Max(1, n - 2), n), [], n > 4, false, n > 3, false)
  {
    SlicesAreWindowOfTwo(n, n);
  }

  /** The view's bar for the mirrored page is its bar mirrored. */
  lemma PaginationDataMirror(n: nat, p: int)
    requires 2 <= n && 1 <= p <= n
    ensures PaginationData(Paginator(n), Page(n + 1 - p), true)
         == Mirror(PaginationData(Paginator(n), Page(p), true), n)
  {
    SlicesAreWindowOfTwo(n, p);
    SlicesAreWindowOfTwo(n, n + 1 - p);
    WindowPlanMirror(p, n, 2);
  }

  /** The worked example of four pages: from page 4 the left window is [2, 3] and page 1
      is pinned; from page 1 the right window is [2, 3] and page 4 is pinned. */
  lemma ExampleFourPages()
    ensures PaginationData(Paginator(4), Page(4), true) == Nav([2, 3], [], false, false, true, false)
    ensures PaginationData(Paginator(4), Page(1), true) == Nav([], [2, 3], false, false, false, true)
  {
    FirstPage(4);
    LastPage(4);
    assert Range(2, 4) == [2, 3];
  }

  /** Interior pages: ten pages seen from page 5 draw both ellipses and both pinned pages;
      three pages seen from page 2 draw the whole range and no flag. */
  lemma ExampleInteriorPages()
    ensures PaginationData(Paginator(10), Page(5), true) == Nav([3, 4], [6, 7], true, true, true, true)
    ensures PaginationData(Paginator(3), Page(2), true) == Nav([1], [3], false, false, false, false)
  {
    SlicesAreWindowOfTwo(10, 5);
    SlicesAreWindowOfTwo(3, 2);
    assert Range(3, 5) == [3, 4] && Range(6, 8) == [6, 7];
    assert Range(1, 2) == [1] && Range(3, 4) == [3];
  }
}
