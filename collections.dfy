/** The two collection helpers the resolvers are built from: lodash's `find`
    (the first element matching a pattern, or nothing) and
    `Array.prototype.filter` (the elements satisfying a test, in order).
    A lodash pattern such as `{ id: x }` is modelled as the predicate
    "every listed property equals its pattern value". */
module Collections {

  datatype Option<+T> = None | Some(value: T)

  /** `j` is the index of the first element of `s` that satisfies `p`. */
  ghost predicate IsFirstIndex<T>(s: seq<T>, p: T -> bool, j: int) {
    0 <= j < |s| && p(s[j]) && forall k | 0 <= k < j :: !p(s[k])
  }

  /** `r` is what a first-match search of `s` for `p` must give: nothing
      exactly when no element matches, otherwise the first match. */
  ghost predicate IsFirstMatch<T>(s: seq<T>, p: T -> bool, r: Option<T>) {
    && (r.None? <==> forall j | 0 <= j < |s| :: !p(s[j]))
    && forall j | IsFirstIndex(s, p, j) :: r == Some(s[j])
  }

  /** When the head of `s` does not match, the first match of `s` is one
      place further on than the first match of its tail. */
  lemma {:induction false} FirstIndexOfTail<T>(s: seq<T>, p: T -> bool)
    requires s != [] && !p(s[0])
    ensures forall j | IsFirstIndex(s, p, j) :: j > 0 && IsFirstIndex(s[1..], p, j - 1)
  {
  }

  /** Whenever some element matches, there is a first one. */
  lemma {:induction false} FirstIndexExists<T>(s: seq<T>, p: T -> bool, j: int)
    requires 0 <= j < |s| && p(s[j])
    ensures exists k :: IsFirstIndex(s, p, k) && k <= j
    decreases j
  {
    if forall k | 0 <= k < j :: !p(s[k]) {
      assert IsFirstIndex(s, p, j);
    } else {
      var k :| 0 <= k < j && p(s[k]);
      FirstIndexExists(s, p, k);
    }
  }

  /** lodash `find(s, pattern)`: scans from the front and returns the first
      element satisfying the pattern, or `undefined` (here `None`). */
  function Find<T>(s: seq<T>, p: T -> bool): (r: Option<T>)
    ensures IsFirstMatch(s, p, r)
  {
    if s == [] then None
    else if p(s[0]) then Some(s[0])
    else
      FirstIndexOfTail(s, p);
      var r := Find(s[1..], p);
      assert forall j | 0 <= j < |s| - 1 :: s[1..][j] == s[j + 1];
      r
  }

  /** The first-match specification determines the answer: any two results
      meeting it are equal. */
  lemma {:induction false} FirstMatchUnique<T>(s: seq<T>, p: T -> bool, r1: Option<T>, r2: Option<T>)
    requires IsFirstMatch(s, p, r1) && IsFirstMatch(s, p, r2)
    ensures r1 == r2
  {
    if !forall j | 0 <= j < |s| :: !p(s[j]) {
      var j :| 0 <= j < |s| && p(s[j]);
      FirstIndexExists(s, p, j);
    }
  }

  /** A found element satisfies the pattern and comes from the collection. */
  lemma {:induction false} FirstMatchFound<T>(s: seq<T>, p: T -> bool, x: T)
    requires IsFirstMatch(s, p, Some(x))
    ensures p(x) && x in s
  {
    var j :| 0 <= j < |s| && p(s[j]);
    FirstIndexExists(s, p, j);
  }

  /** `r` can be obtained from `s` by deleting elements, without reordering. */
  ghost predicate IsSubsequence<T>(r: seq<T>, s: seq<T>)
    decreases |s|
  {
    if r == [] then true
    else if s == [] then false
    else (r[0] == s[0] && IsSubsequence(r[1..], s[1..])) || IsSubsequence(r, s[1..])
  }

  /** `Array.prototype.filter`: the elements of `s` that satisfy `p`. */
  function Filter<T>(s: seq<T>, p: T -> bool): (r: seq<T>)
    ensures |r| <= |s|
  {
    if s == [] then []
    else if p(s[0]) then [s[0]] + Filter(s[1..], p) else Filter(s[1..], p)
  }

  /** `filter` keeps each element satisfying `p` as often as it occurs in
      `s`, and nothing else. */
  lemma {:induction false} FilterMultiset<T>(s: seq<T>, p: T -> bool)
    ensures forall x :: multiset(Filter(s, p))[x] == if p(x) then multiset(s)[x] else 0
  {
    if s != [] {
      FilterMultiset(s[1..], p);
      assert s == [s[0]] + s[1..];
    }
  }

  /** An element is kept exactly when it occurs in `s` and satisfies `p`. */
  lemma {:induction false} FilterMembers<T>(s: seq<T>, p: T -> bool)
    ensures forall x :: x in Filter(s, p) <==> x in s && p(x)
  {
    FilterMultiset(s, p);
    forall x ensures x in Filter(s, p) <==> x in s && p(x) {
      assert x in Filter(s, p) <==> multiset(Filter(s, p))[x] > 0;
      assert x in s <==> multiset(s)[x] > 0;
    }
  }

  /** `filter` decides the head, then filters the tail. */
  lemma FilterCons<T>(s: seq<T>, p: T -> bool)
    requires s != []
    ensures Filter(s, p) == (if p(s[0]) then [s[0]] else []) + Filter(s[1..], p)
  {
  }

  /** `filter` keeps the relative order of the elements it keeps. */
  lemma {:induction false} FilterIsSubsequence<T>(s: seq<T>, p: T -> bool)
    ensures IsSubsequence(Filter(s, p), s)
  {
    if s != [] {
      FilterIsSubsequence(s[1..], p);
      var r := Filter(s, p);
      if p(s[0]) {
        assert r[0] == s[0] && r[1..] == Filter(s[1..], p);
      } else {
        SubsequenceOfTail(r, s);
      }
    }
  }

  /** A subsequence of the tail is a subsequence of the whole. */
  lemma {:induction false} SubsequenceOfTail<T>(r: seq<T>, s: seq<T>)
    requires s != [] && IsSubsequence(r, s[1..])
    ensures IsSubsequence(r, s)
  {
  }

  /** A subsequence uses each value at most as often as the sequence has it. */
  lemma {:induction false} SubsequenceMultiset<T>(r: seq<T>, s: seq<T>)
    requires IsSubsequence(r, s)
    ensures multiset(r) <= multiset(s)
    decreases |s|
  {
    if r != [] {
      assert s == [s[0]] + s[1..];
      if r[0] == s[0] && IsSubsequence(r[1..], s[1..]) {
        SubsequenceMultiset(r[1..], s[1..]);
        assert r == [r[0]] + r[1..];
      } else {
        SubsequenceMultiset(r, s[1..]);
      }
    }
  }

  /** `filter` is the only order-preserving selection from `s` that keeps
      exactly the elements satisfying `p`: an independent characterisation
      of its result. */
  lemma {:induction false} FilterUnique<T>(r: seq<T>, s: seq<T>, p: T -> bool)
    requires IsSubsequence(r, s)
    requires forall x :: multiset(r)[x] == if p(x) then multiset(s)[x] else 0
    ensures r == Filter(s, p)
    decreases |s|
  {
    if s == [] {
      return;
    }
    assert s == [s[0]] + s[1..];
    if p(s[0]) {
      assert multiset(r)[s[0]] > 0;
      assert r != [];
      assert r == [r[0]] + r[1..];
      if r[0] == s[0] && IsSubsequence(r[1..], s[1..]) {
        forall x ensures multiset(r[1..])[x] == if p(x) then multiset(s[1..])[x] else 0 {
          assert multiset(r)[x] == multiset([r[0]])[x] + multiset(r[1..])[x];
        }
        FilterUnique(r[1..], s[1..], p);
      } else {
        SubsequenceMultiset(r, s[1..]);
        assert false;
      }
    } else {
      assert s[0] !in r;
      if r != [] {
        assert r[0] in r;
      }
      assert IsSubsequence(r, s[1..]);
      FilterUnique(r, s[1..], p);
    }
  }
}
