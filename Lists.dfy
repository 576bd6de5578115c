/** The two list idioms every screen uses on its React state:
    `list.filter(keep)` and `list.map(x => selected(x) ? update(x) : x)`. */
module Lists {

  /** `r` is `s` with some elements left out, the rest kept in order. */
  ghost predicate IsSubsequence<T>(r: seq<T>, s: seq<T>)
    decreases |s|
  {
    || r == []
    || (s != [] && ((r[0] == s[0] && IsSubsequence(r[1..], s[1..])) || IsSubsequence(r, s[1..])))
  }

  /** A subsequence is never longer than the sequence it comes from. */
  lemma {:induction false} SubsequenceLength<T>(r: seq<T>, s: seq<T>)
    requires IsSubsequence(r, s)
    ensures |r| <= |s|
    decreases |s|
  {
    if r != [] {
      if r[0] == s[0] && IsSubsequence(r[1..], s[1..]) {
        SubsequenceLength(r[1..], s[1..]);
      } else {
        SubsequenceLength(r, s[1..]);
      }
    }
  }

  /** `s.filter(keep)`: the elements of `s` that pass `keep`, in their original
      order, each as often as it occurs in `s`; nothing else. */
  function Filter<T(!new)>(s: seq<T>, keep: T -> bool): (r: seq<T>)
    ensures IsSubsequence(r, s)
    ensures forall x :: multiset(r)[x] == if keep(x) then multiset(s)[x] else 0
    ensures forall x :: x in r <==> x in s && keep(x)
    ensures forall i :: 0 <= i < |r| ==> keep(r[i])
  {
    if s == [] then []
    else
      var rest := Filter(s[1..], keep);
      assert s == [s[0]] + s[1..];
      assert multiset(s) == multiset{s[0]} + multiset(s[1..]);
      if keep(s[0]) then
        assert ([s[0]] + rest)[1..] == rest;
        [s[0]] + rest
      else
        rest
  }

  /** Filtering keeps everything when every element passes. */
  lemma {:induction false} FilterKeepsAll<T(!new)>(s: seq<T>, keep: T -> bool)
    requires forall i :: 0 <= i < |s| ==> keep(s[i])
    ensures Filter(s, keep) == s
  {
    if s != [] {
      FilterKeepsAll(s[1..], keep);
    }
  }

  /** Filtering the result of a filter again with the same test changes nothing. */
  lemma FilterIdempotent<T(!new)>(s: seq<T>, keep: T -> bool)
    ensures Filter(Filter(s, keep), keep) == Filter(s, keep)
  {
    FilterKeepsAll(Filter(s, keep), keep);
  }

  /** The number of elements that pass `test`. */
  function CountWhere<T>(s: seq<T>, test: T -> bool): (n: nat)
    ensures n <= |s|
    ensures n == 0 <==> forall i :: 0 <= i < |s| ==> !test(s[i])
    ensures n == |s| <==> forall i :: 0 <= i < |s| ==> test(s[i])
  {
    if s == [] then 0
    else
      var m := CountWhere(s[1..], test);
      assert forall i :: 1 <= i < |s| ==> s[1..][i - 1] == s[i];
      (if test(s[0]) then 1 else 0) + m
  }

  /** The length of a filter counts the elements that pass. */
  lemma {:induction false} FilterLength<T(!new)>(s: seq<T>, keep: T -> bool)
    ensures |Filter(s, keep)| == CountWhere(s, keep)
  {
    if s != [] {
      FilterLength(s[1..], keep);
    }
  }

  /** The filter of a non-empty list: its first element, if it passes, then
      the filter of the rest. */
  lemma FilterLengthStep<T(!new)>(s: seq<T>, keep: T -> bool)
    requires s != []
    ensures |Filter(s, keep)| == (if keep(s[0]) then 1 else 0) + |Filter(s[1..], keep)|
  {
  }

  /** `s.map(x => selected(x) ? update(x) : x)`: the same list, position by
      position, with every selected element replaced by its update. */
  function ReplaceWhere<T>(s: seq<T>, selected: T -> bool, update: T -> T): (r: seq<T>)
    ensures |r| == |s|
    ensures forall i :: 0 <= i < |s| ==> r[i] == if selected(s[i]) then update(s[i]) else s[i]
  {
    if s == [] then []
    else [if selected(s[0]) then update(s[0]) else s[0]] + ReplaceWhere(s[1..], selected, update)
  }
}
