/**
 * Small facts about sequences used throughout the model: distinctness,
 * positions of first occurrence, sums, reversal and subsequences.
 */
module Sequences {

  /** No element occurs twice. */
  predicate Distinct<T(==)>(s: seq<T>)
  {
    forall i, j :: 0 <= i < j < |s| ==> s[i] != s[j]
  }

  /** Index of the first occurrence of `x` in `s`, or `|s|` when `x` is absent. */
  function Pos<T(==)>(s: seq<T>, x: T): (k: nat)
    ensures k <= |s|
    ensures x in s <==> k < |s|
    ensures x in s ==> s[k] == x
  {
    if s == [] then 0 else if s[0] == x then 0 else 1 + Pos(s[1..], x)
  }

  /** No occurrence of `x` lies before `Pos(s, x)`. */
  lemma {:induction false} PosIsFirst<T>(s: seq<T>, x: T)
    ensures forall j :: 0 <= j < Pos(s, x) ==> s[j] != x
  {
    if s != [] && s[0] != x {
      PosIsFirst(s[1..], x);
      assert forall j :: 0 < j < |s| ==> s[j] == s[1..][j - 1];
    }
  }

  /** Appending an element leaves the first occurrences of the earlier ones where they were. */
  lemma PosSnoc<T>(s: seq<T>, y: T, x: T)
    requires x in s
    ensures Pos(s + [y], x) == Pos(s, x)
  {
    var k, k' := Pos(s, x), Pos(s + [y], x);
    PosIsFirst(s, x);
    PosIsFirst(s + [y], x);
    assert (s + [y])[k] == x;
    assert k' <= k;
    assert s[k'] == x;
  }

  /** An element appended to a sequence that lacks it is first seen at the end. */
  lemma PosSnocNew<T>(s: seq<T>, x: T)
    requires x !in s
    ensures Pos(s + [x], x) == |s|
  {
  }

  /** A sequence without repetitions holds each of its elements exactly once. */
  lemma {:induction false} DistinctCount<T>(s: seq<T>, x: T)
    requires Distinct(s)
    ensures multiset(s)[x] == if x in s then 1 else 0
  {
    if s != [] {
      var p := s[..|s| - 1];
      assert s == p + [s[|s| - 1]];
      assert Distinct(p);
      assert s[|s| - 1] !in p;
      DistinctCount(p, x);
    }
  }

  /** A sequence in which no element is counted twice has no repetitions. */
  lemma CountsAtMostOne<T>(s: seq<T>)
    requires forall x :: multiset(s)[x] <= 1
    ensures Distinct(s)
  {
    forall i, j | 0 <= i < j < |s| ensures s[i] != s[j] {
      assert s == s[..j] + s[j..];
      assert s[i] in s[..j] && s[j] in s[j..];
      assert multiset(s)[s[i]] == multiset(s[..j])[s[i]] + multiset(s[j..])[s[i]];
      assert multiset(s[..j])[s[i]] >= 1 && multiset(s[j..])[s[j]] >= 1;
    }
  }

  /** A rearrangement of a sequence without repetitions has none either. */
  lemma DistinctPermutation<T>(a: seq<T>, b: seq<T>)
    requires Distinct(a) && multiset(a) == multiset(b)
    ensures Distinct(b)
  {
    forall x ensures multiset(b)[x] <= 1 {
      DistinctCount(a, x);
    }
    CountsAtMostOne(b);
  }

  function Sum(xs: seq<int>): int
  {
    if xs == [] then 0 else xs[0] + Sum(xs[1..])
  }

  function Min(a: int, b: int): int
  {
    if a <= b then a else b
  }

  /** The elements of `s` in the opposite order, like `Array.prototype.reverse`. */
  function Reversed<T>(s: seq<T>): (r: seq<T>)
    ensures |r| == |s|
    ensures forall i :: 0 <= i < |s| ==> r[i] == s[|s| - 1 - i]
  {
    seq(|s|, i requires 0 <= i < |s| => s[|s| - 1 - i])
  }

  /** `a` is obtained from `b` by deleting elements, keeping the order of the rest. */
  predicate IsSubseq<T(==)>(a: seq<T>, b: seq<T>)
  {
    if a == [] then true
    else if b == [] then false
    else (a[|a| - 1] == b[|b| - 1] && IsSubseq(a[..|a| - 1], b[..|b| - 1]))
         || IsSubseq(a, b[..|b| - 1])
  }
}
