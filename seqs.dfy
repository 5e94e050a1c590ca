/** Order-preserving selection over sequences: the meaning of a boolean
    mask applied to a table (`df[mask]`) or of a filtering comprehension. */
module Seqs {

  function Min(a: int, b: int): int { if a <= b then a else b }

  function Max(a: int, b: int): int { if a >= b then a else b }

  /** `a` can be obtained from `b` by deleting elements: nothing is added
      and the original order is kept. */
  predicate IsSubsequence<T(==)>(a: seq<T>, b: seq<T>)
    decreases |b|
  {
    if a == [] then true
    else if b == [] then false
    else (a[0] == b[0] && IsSubsequence(a[1..], b[1..])) || IsSubsequence(a, b[1..])
  }

  lemma {:induction false} SubsequenceReflexive<T>(a: seq<T>)
    ensures IsSubsequence(a, a)
  {
    if a != [] {
      SubsequenceReflexive(a[1..]);
    }
  }

  /** A subsequence of a subsequence is a subsequence. */
  lemma {:induction false} SubsequenceTransitive<T>(a: seq<T>, b: seq<T>, c: seq<T>)
    requires IsSubsequence(a, b) && IsSubsequence(b, c)
    ensures IsSubsequence(a, c)
    decreases |c|
  {
    if a == [] {
    } else if b[0] == c[0] && IsSubsequence(b[1..], c[1..]) {
      if a[0] == b[0] && IsSubsequence(a[1..], b[1..]) {
        SubsequenceTransitive(a[1..], b[1..], c[1..]);
      } else {
        SubsequenceTransitive(a, b[1..], c[1..]);
      }
    } else {
      SubsequenceTransitive(a, b, c[1..]);
    }
  }

  /** The elements of `s` that satisfy `p`, in their original order. */
  function Keep<T(==,!new)>(s: seq<T>, p: T -> bool): (r: seq<T>)
    ensures IsSubsequence(r, s)
    ensures forall i :: 0 <= i < |r| ==> r[i] in s && p(r[i])
    ensures forall i :: 0 <= i < |s| && p(s[i]) ==> s[i] in r
    ensures (forall i :: 0 <= i < |s| ==> p(s[i])) ==> r == s
  {
    if s == [] then []
    else
      var rest := Keep(s[1..], p);
      assert s == [s[0]] + s[1..];
      if p(s[0]) then
        assert ([s[0]] + rest)[1..] == rest;
        [s[0]] + rest
      else
        rest
  }

  /** `Keep` keeps every element satisfying `p` as often as it occurs in `s`
      and drops every other element. */
  lemma {:induction false} KeepMultiset<T(!new)>(s: seq<T>, p: T -> bool)
    ensures forall v :: multiset(Keep(s, p))[v] == if p(v) then multiset(s)[v] else 0
  {
    if s != [] {
      KeepMultiset(s[1..], p);
      assert s == [s[0]] + s[1..];
    }
  }

  /** Two masks applied one after the other keep each element satisfying
      both conditions, as often as it occurs in the input. */
  lemma MaskCompose<T(!new)>(s: seq<T>, m: seq<T>, r: seq<T>, p: T -> bool, q: T -> bool)
    requires forall v :: multiset(m)[v] == if p(v) then multiset(s)[v] else 0
    requires forall v :: multiset(r)[v] == if q(v) then multiset(m)[v] else 0
    ensures forall v :: multiset(r)[v] == if p(v) && q(v) then multiset(s)[v] else 0
  {
  }

  /** What a mask keeps, stated by position: every kept element comes from
      the input and satisfies the condition, and every element of the input
      that satisfies it is kept. */
  lemma MaskMembers<T(!new)>(s: seq<T>, r: seq<T>, p: T -> bool)
    requires forall v :: multiset(r)[v] == if p(v) then multiset(s)[v] else 0
    ensures forall i :: 0 <= i < |r| ==> r[i] in s && p(r[i])
    ensures forall i :: 0 <= i < |s| && p(s[i]) ==> s[i] in r
  {
    forall i | 0 <= i < |r|
      ensures r[i] in s && p(r[i])
    {
      assert r[i] in multiset(r);
    }
    forall i | 0 <= i < |s| && p(s[i])
      ensures s[i] in r
    {
      assert s[i] in multiset(s);
    }
  }
}
