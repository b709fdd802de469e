# Pagination navigation bar of the blog post list

The blog's post list (`IndexView`) is paginated by Django. Its method
`pagination_data` builds the data for the navigation bar under the list. It takes
the current page number `p` and the page count `N`. It returns:

- `left`: up to two page numbers just before `p`;
- `right`: up to two page numbers just after `p`;
- `left_has_more` / `right_has_more`: whether an ellipsis is drawn between a pinned
  boundary page and the window;
- `first` / `last`: whether page 1 / page `N` is drawn as a separate link.

When the list is not paginated it returns the empty dictionary.

The model has three modules:

- `PySeq` (`py_seq.dfy`) gives the Python semantics the view relies on: `range(lo, hi)`,
  the clipping slice `s[i:j]`, and `s[i]` with negative indices. `s[i]` carries the
  precondition under which Python does not raise IndexError.
- `Pagination` (`pagination.dfy`) holds the view's inputs and result as datatypes. It
  holds `PaginationData`, which follows the view branch for branch with its literal
  slices `page_range[p:p+2]` and `page_range[max(p-3,0):p-1]`. It also holds a closed-form
  reference definition `WindowPlan(p, n, w)` for any window width `w`, and the predicates
  that say what a well-formed bar is.
- `PaginationProofs` (`pagination_proofs.dfy`) proves the properties. The main link is
  `SlicesAreWindowOfTwo`: the view's slices and comparisons are exactly `WindowPlan` with
  width 2. The other properties are proved for `WindowPlan` and carried over to the view.

The view's only inputs from Django are `paginator.num_pages`, `paginator.page_range`
(which Django defines as `range(1, num_pages + 1)`, so it is derived here from
`numPages`), `page.number` and `is_paginated`. The view reads `right[-1]` and `left[0]`
without checking that they exist. That is safe only because Django sets `is_paginated`
only when there are at least two pages, with the current page inside the range.
`PaginationData` states this as its precondition, and Dafny proves every index safe
under it.

## Model

| member | source | states |
|---|---|---|
| `PySeq.Range` | blog/views.py:121-122 | `page_range` is the run of consecutive integers `lo .. hi-1`: its length and the value at each position |
| `PySeq.Clip` | blog/views.py:128-161 | how Python places a slice bound (the slices at lines 128, 145, 160 and 161): the position always lies in `[0, len]`, and a bound already in range is kept |
| `PySeq.Slice` | blog/views.py:128-161 | Python's clipping slice, used at lines 128, 145, 160 and 161: the length is the distance between the clipped bounds (zero when they cross), and element `k` is the element at the clipped start plus `k`; it never fails |
| `PySeq.At` | blog/views.py:132-172 | Python's `s[i]`, used for `right[-1]` and `left[0]` at lines 132, 137, 149, 154, 164, 166, 170 and 172: negative indices count from the end (the result is `s[(i + len) % len]`, an element of `s`); the precondition is exactly the range where Python does not raise IndexError |
| `PySeq.SliceOfRange` | blog/views.py:128-161 | slicing `range(1, N+1)` gives the consecutive run that starts at the value at the clipped start, so index `i` holds page `i+1` |
| `Pagination.Paginator.PageRange` | blog/views.py:119-122 | the page range has `num_pages` entries and position `k` holds page `k+1` |
| `Pagination.PaginationData` | blog/views.py:88-183 | the result is the empty dictionary exactly when the list is not paginated; under Django's guarantee (`N >= 2`, `1 <= p <= N`) every `right[-1]` and `left[0]` is on a non-empty sequence |
| `Pagination.WindowPlan` | blog/views.py:124-173 | reference bar for width `w`: `left` has `min(w, p-1)` pages and `right` has `min(w, N-p)` pages |
| `PaginationProofs.SlicesAreWindowOfTwo` | blog/views.py:124-173 | in all three branches, the view's result equals `WindowPlan(p, N, 2)`; so width 2 matches the hard-coded slices exactly, and the result depends only on `(p, N)` |
| `PaginationProofs.WindowPlanWellShaped` | blog/views.py:156-161 | for every width, both windows are ascending consecutive runs inside `[1, N]`, `left` below `p` and `right` above it, adjacent to `p`, and as long as width and range allow |
| `PaginationProofs.WindowPlanFlags` | blog/views.py:163-173 | for every width, `first` holds iff the lowest page drawn is above 1, `left_has_more` iff it is above 2, `last` iff the highest page drawn is below `N`, `right_has_more` iff it is below `N-1` |
| `PaginationProofs.FlagConsequences` | blog/views.py:105-113 | for any well-shaped bar with meaningful flags: an ellipsis implies the pinned boundary page, and page 1 (page `N`) is pinned iff it is neither the current page nor in `left` (`right`) |
| `PaginationProofs.WindowPlanMirror` | blog/views.py:156-173 | the reference bar for page `N+1-p` is the bar for `p` read right to left: windows exchanged and mirrored, left and right flags exchanged |
| `PaginationProofs.PaginationDataWindows` | blog/views.py:156-161 | the view's `left` and `right` are consecutive runs inside `[1, N]`, each at most 2 long, neither containing `p`, `left` below `p` and `right` above it |
| `PaginationProofs.PaginationDataFlags` | blog/views.py:163-173 | the view's `right_has_more` iff `right[-1] < N-1` and `last` iff `right[-1] < N` (false when `right` is empty); `left_has_more` iff `left[0] > 2` and `first` iff `left[0] > 1`; hence `right_has_more ⇒ last`, `left_has_more ⇒ first`, `last ⇒ N ∉ right`, `first ⇒ 1 ∉ left` |
| `PaginationProofs.PaginationDataIndexingSafe` | blog/views.py:124-173 | with `N >= 2` and `1 <= p <= N`, `right` is non-empty whenever `p < N` and `left` whenever `p > 1`; so both are non-empty on an interior page |
| `PaginationProofs.SinglePageRightIsEmpty` | blog/views.py:124-132 | with a single page, the first-page slice `right` is empty, so `right[-1]` would fail; the `N >= 2` guarantee is needed |
| `PaginationProofs.FirstPage` | blog/views.py:124-138 | first page: `left` is empty, `right` is pages `2 .. min(3, N)`, `left_has_more` and `first` are false, `last` iff `N > 3`, `right_has_more` iff `N > 4` |
| `PaginationProofs.LastPage` | blog/views.py:140-155 | last page: `right` is empty, `left` is pages `max(1, N-2) .. N-1`, `right_has_more` and `last` are false, `first` iff `N > 3`, `left_has_more` iff `N > 4` |
| `PaginationProofs.PaginationDataMirror` | blog/views.py:124-173 | the view's bar for page `N+1-p` is its bar for page `p` mirrored |
| `PaginationProofs.ExampleFourPages` | blog/views.py:140-145 | the worked example: four pages on page 4 give `left = [2, 3]` with page 1 pinned and no ellipsis; on page 1 they give `right = [2, 3]` with page 4 pinned |
| `PaginationProofs.ExampleInteriorPages` | blog/views.py:156-173 | ten pages on page 5 give `left = [3, 4]`, `right = [6, 7]` and all four flags; three pages on page 2 give `left = [1]`, `right = [3]` and no flag |

## Left out

- Django ORM queries and persistence (`Post.objects…`, `increase_views` with `save`): database I/O.
- Markdown rendering, table-of-contents generation and the post excerpt: wrappers over external libraries.
- View plumbing: `get`, `get_object`, `get_context_data` and its `context.update`, comment forms and `search`. This is request and response handling. `is_paginated`, the paginator and the page are parameters of the model instead.
- Template tags, the RSS feed and URL routing: framework configuration and aggregate queries with no logic of their own.
- Argument validation: the code does not validate its arguments. It trusts Django's paginator, and on a single page or an out-of-range page it would raise IndexError or return an ill-formed bar. The model follows the code. Django's guarantee is a precondition, and no error result is modelled.
- Python `range` objects: slicing a `range` gives a `range`, not a list. Both are modelled as sequences of integers because the view only slices, indexes and returns them.
