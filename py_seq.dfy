/** The pieces of Python's sequence semantics that the pagination code relies on:
    `range(lo, hi)`, the clipping slice `s[i:j]` and the indexing `s[i]` that counts
    negative indices from the end. */
module PySeq {

  /** Python's `range(lo, hi)`: the consecutive integers lo, lo + 1, ..., hi - 1
      (empty when hi <= lo). */
  function Range(lo: int, hi: int): (r: seq<int>)
    ensures |r| == if lo < hi then hi - lo else 0
    ensures forall k :: 0 <= k < |r| ==> r[k] == lo + k
    decreases hi - lo
  {
    if lo < hi then [lo] + Range(lo + 1, hi) else []
  }

  /** How Python turns a slice bound `k` into a position of a sequence of length `n`:
      a negative bound counts from the end, and the result is clipped into [0, n]. */
  function Clip(k: int, n: nat): (b: nat)
    ensures b <= n
    ensures 0 <= k <= n ==> b == k
  {
    if k < 0 then (if k + n < 0 then 0 else k + n)
    else if k > n then n
    else k
  }

  /** Python's `s[i:j]` (step 1): never fails, an empty result when the clipped bounds
      cross. */
  function Slice<T>(s: seq<T>, i: int, j: int): (r: seq<T>)
    ensures |r| == if Clip(i, |s|) < Clip(j, |s|) then Clip(j, |s|) - Clip(i, |s|) else 0
    ensures forall k :: 0 <= k < |r| ==> r[k] == s[Clip(i, |s|) + k]
  {
    var a, b := Clip(i, |s|), Clip(j, |s|);
    if a < b then s[a..b] else []
  }

  /** Python's `s[i]`, where `s[-1]` is the last element. Python raises IndexError
      outside the range the precondition admits. */
  function At<T>(s: seq<T>, i: int): (r: T)
    requires -|s| <= i < |s|
    ensures r in s
    ensures r == s[(i + |s|) % |s|]
  {
    if i < 0 then s[|s| + i] else s[i]
  }

  /** Slicing `range(1, n + 1)` gives again a run of consecutive integers: the one that
      starts at the value held at the clipped start position. */
  lemma SliceOfRange(n: nat, i: int, j: int)
    ensures Slice(Range(1, n + 1), i, j) == Range(1 + Clip(i, n), 1 + Clip(j, n))
  {
    var s, t := Slice(Range(1, n + 1), i, j), Range(1 + Clip(i, n), 1 + Clip(j, n));
    assert |s| == |t|;
    forall k | 0 <= k < |s| ensures s[k] == t[k] { }
  }
}
