/** Substring search on strings as Rust's `str::split_once` and `str::rsplit_once`
    perform it: the first, respectively the last, place where a pattern starts. */
module TextSearch {
  import opened Wrappers

  /** `p` occurs in `s` starting at index `k`. */
  predicate OccursAt(s: string, p: string, k: int) {
    0 <= k && k + |p| <= |s| && s[k..k + |p|] == p
  }

  /** `k` is the start of the last occurrence of `p` in `s`. */
  ghost predicate IsLast(s: string, p: string, k: int) {
    OccursAt(s, p, k) && forall j :: k < j <= |s| ==> !OccursAt(s, p, j)
  }

  /** `k` is the start of the first occurrence of `p` in `s`. */
  ghost predicate IsFirst(s: string, p: string, k: int) {
    OccursAt(s, p, k) && forall j :: 0 <= j < k ==> !OccursAt(s, p, j)
  }

  /** `p` does not occur anywhere in `s`. */
  ghost predicate Absent(s: string, p: string) {
    forall j :: 0 <= j <= |s| ==> !OccursAt(s, p, j)
  }

  /** The last occurrence of `p` starting at or before `k`, searching backwards. */
  function LastAtOrBefore(s: string, p: string, k: int): (r: Option<nat>)
    requires k <= |s|
    ensures r.Some? ==> r.value <= k && OccursAt(s, p, r.value)
    ensures r.Some? ==> forall j :: r.value < j <= k ==> !OccursAt(s, p, j)
    ensures r.None? ==> forall j :: 0 <= j <= k ==> !OccursAt(s, p, j)
    decreases k + 1
  {
    if k < 0 then None
    else if OccursAt(s, p, k) then Some(k)
    else LastAtOrBefore(s, p, k - 1)
  }

  /** The first occurrence of `p` starting at or after `k`, searching forwards. */
  function FirstAtOrAfter(s: string, p: string, k: nat): (r: Option<nat>)
    requires k <= |s| + 1
    ensures r.Some? ==> k <= r.value && OccursAt(s, p, r.value)
    ensures r.Some? ==> forall j :: k <= j < r.value ==> !OccursAt(s, p, j)
    ensures r.None? ==> forall j :: k <= j <= |s| ==> !OccursAt(s, p, j)
    decreases |s| + 1 - k
  {
    if k > |s| then None
    else if OccursAt(s, p, k) then Some(k)
    else FirstAtOrAfter(s, p, k + 1)
  }

  /** Rust's `s.rsplit_once(p)`: the text before and after the last occurrence. */
  function RSplitOnce(s: string, p: string): (r: Option<(string, string)>)
    ensures r.None? <==> Absent(s, p)
    ensures r.Some? ==> s == r.value.0 + p + r.value.1 && IsLast(s, p, |r.value.0|)
  {
    match LastAtOrBefore(s, p, |s|)
    case None => None
    case Some(k) =>
      assert s == s[..k] + p + s[k + |p|..] by {
        assert s[k..k + |p|] == p;
        assert s == s[..k] + s[k..k + |p|] + s[k + |p|..];
      }
      Some((s[..k], s[k + |p|..]))
  }

  /** Rust's `s.split_once(p)`: the text before and after the first occurrence. */
  function SplitOnce(s: string, p: string): (r: Option<(string, string)>)
    ensures r.None? <==> Absent(s, p)
    ensures r.Some? ==> s == r.value.0 + p + r.value.1 && IsFirst(s, p, |r.value.0|)
  {
    match FirstAtOrAfter(s, p, 0)
    case None => None
    case Some(k) =>
      assert s == s[..k] + p + s[k + |p|..] by {
        assert s[k..k + |p|] == p;
        assert s == s[..k] + s[k..k + |p|] + s[k + |p|..];
      }
      Some((s[..k], s[k + |p|..]))
  }

  /** A string has at most one last occurrence of a pattern. */
  lemma LastIsUnique(s: string, p: string, k1: int, k2: int)
    requires IsLast(s, p, k1) && IsLast(s, p, k2)
    ensures k1 == k2
  {
  }

  /** A string has at most one first occurrence of a pattern. */
  lemma FirstIsUnique(s: string, p: string, k1: int, k2: int)
    requires IsFirst(s, p, k1) && IsFirst(s, p, k2)
    ensures k1 == k2
  {
  }

  /** An occurrence inside a slice is an occurrence in the whole string, shifted. */
  lemma OccursInSlice(s: string, p: string, lo: nat, hi: nat, j: int)
    requires lo <= hi <= |s|
    ensures OccursAt(s[lo..hi], p, j) ==> OccursAt(s, p, lo + j)
  {
    if OccursAt(s[lo..hi], p, j) {
      SliceOfSlice(s, p, lo, hi, j);
    }
  }

  lemma SliceOfSlice(s: string, p: string, lo: nat, hi: nat, j: int)
    requires lo <= hi <= |s|
    requires OccursAt(s[lo..hi], p, j)
    ensures OccursAt(s, p, lo + j)
  {
    var inner := s[lo..hi][j..j + |p|];
    forall t | 0 <= t < |p|
      ensures inner[t] == s[lo + j..lo + j + |p|][t]
    {
    }
    assert inner == s[lo + j..lo + j + |p|];
  }
}
