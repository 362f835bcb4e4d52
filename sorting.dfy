/**
 * The two `Array.prototype.sort` calls of the charts. Both are stable sorts;
 * they are modelled here as insertion sorts, which order the items exactly
 * as any stable sort with the same comparison does.
 *
 * - Without a comparator, strings are compared character by character
 *   (`Sorting.StrLe`); this orders the date axis.
 * - With a comparator `totals[a] - totals[b]` (ascending) or
 *   `totals[b] - totals[a]` (descending), keys are ordered by their total;
 *   keys with equal totals keep the order they had before the sort.
 */
module Sorting {
  import opened Sequences

  // ---------------------------------------------------------------------
  // Default string order
  // ---------------------------------------------------------------------

  /** `a` comes no later than `b` in lexicographic order; a proper prefix comes first. */
  predicate StrLe(a: string, b: string)
  {
    |a| == 0 || (|b| > 0 && (a[0] < b[0] || (a[0] == b[0] && StrLe(a[1..], b[1..]))))
  }

  lemma {:induction false} StrLeTotal(a: string, b: string)
    ensures StrLe(a, b) || StrLe(b, a)
  {
    if |a| > 0 && |b| > 0 && a[0] == b[0] {
      StrLeTotal(a[1..], b[1..]);
    }
  }

  lemma {:induction false} StrLeAntisymmetric(a: string, b: string)
    requires StrLe(a, b) && StrLe(b, a)
    ensures a == b
  {
    if |a| > 0 && |b| > 0 {
      StrLeAntisymmetric(a[1..], b[1..]);
      assert a == [a[0]] + a[1..] && b == [b[0]] + b[1..];
    }
  }

  lemma {:induction false} StrLeTransitive(a: string, b: string, c: string)
    requires StrLe(a, b) && StrLe(b, c)
    ensures StrLe(a, c)
  {
    if |a| > 0 && |b| > 0 && |c| > 0 && a[0] == b[0] == c[0] {
      StrLeTransitive(a[1..], b[1..], c[1..]);
    }
  }

  predicate Ascending(r: seq<string>)
  {
    forall i, j :: 0 <= i < j < |r| ==> StrLe(r[i], r[j])
  }

  /** Each string strictly before every later one. */
  predicate StrictlyAscending(r: seq<string>)
  {
    forall i, j :: 0 <= i < j < |r| ==> StrLe(r[i], r[j]) && r[i] != r[j]
  }

  function InsertStr(x: string, r: seq<string>): seq<string>
  {
    if r == [] then [x]
    else if StrLe(x, r[0]) then [x] + r
    else [r[0]] + InsertStr(x, r[1..])
  }

  /** `Array.prototype.sort()` on strings with no comparator. */
  function SortStrings(s: seq<string>): seq<string>
  {
    if s == [] then [] else InsertStr(s[|s| - 1], SortStrings(s[..|s| - 1]))
  }

  /** Putting in front a string that comes no later than any element keeps a list ascending. */
  lemma ConsAscending(a: string, u: seq<string>)
    requires Ascending(u)
    requires forall k :: 0 <= k < |u| ==> StrLe(a, u[k])
    ensures Ascending([a] + u)
  {
    var res := [a] + u;
    forall i, j | 0 <= i < j < |res| ensures StrLe(res[i], res[j]) {
      if i > 0 {
        assert res[i] == u[i - 1] && res[j] == u[j - 1];
      } else {
        assert res[j] == u[j - 1];
      }
    }
  }

  /** A string no later than `x` and every element of `t` is no later than any element of a rearrangement of `t + [x]`. */
  lemma LeRearranged(a: string, x: string, t: seq<string>, u: seq<string>)
    requires multiset(u) == multiset(t) + multiset{x}
    requires StrLe(a, x)
    requires forall k :: 0 <= k < |t| ==> StrLe(a, t[k])
    ensures forall k :: 0 <= k < |u| ==> StrLe(a, u[k])
  {
    forall k | 0 <= k < |u| ensures StrLe(a, u[k]) {
      assert u[k] in multiset(t) + multiset{x};
      if u[k] != x {
        assert u[k] in t;
        var m :| 0 <= m < |t| && t[m] == u[k];
      }
    }
  }

  lemma {:induction false} InsertStrSpec(x: string, r: seq<string>)
    requires Ascending(r)
    ensures multiset(InsertStr(x, r)) == multiset(r) + multiset{x}
    ensures Ascending(InsertStr(x, r))
  {
    if r == [] {
    } else if StrLe(x, r[0]) {
      forall j | 0 <= j < |r| ensures StrLe(x, r[j]) {
        if j > 0 { StrLeTransitive(x, r[0], r[j]); }
      }
      ConsAscending(x, r);
    } else {
      var t := r[1..];
      assert r == [r[0]] + t;
      forall k | 0 <= k < |t| ensures StrLe(r[0], t[k]) {
        assert t[k] == r[k + 1];
      }
      assert Ascending(t) by {
        forall i, j | 0 <= i < j < |t| ensures StrLe(t[i], t[j]) {
          assert t[i] == r[i + 1] && t[j] == r[j + 1];
        }
      }
      InsertStrSpec(x, t);
      var u := InsertStr(x, t);
      StrLeTotal(x, r[0]);
      LeRearranged(r[0], x, t, u);
      ConsAscending(r[0], u);
    }
  }

  /** The default sort returns an ascending rearrangement of its input. */
  lemma {:induction false} SortStringsSpec(s: seq<string>)
    ensures multiset(SortStrings(s)) == multiset(s)
    ensures Ascending(SortStrings(s))
  {
    if s != [] {
      var p := s[..|s| - 1];
      assert s == p + [s[|s| - 1]];
      SortStringsSpec(p);
      InsertStrSpec(s[|s| - 1], SortStrings(p));
    }
  }

  /** Sorting a list of distinct strings leaves each strictly before the next. */
  lemma SortDistinctStrings(s: seq<string>)
    requires Distinct(s)
    ensures StrictlyAscending(SortStrings(s))
    ensures forall x :: x in SortStrings(s) <==> x in s
    ensures |SortStrings(s)| == |s|
  {
    var r := SortStrings(s);
    SortStringsSpec(s);
    DistinctPermutation(s, r);
    assert forall x :: x in r <==> x in multiset(r);
    assert |r| == |multiset(r)|;
  }

  // ---------------------------------------------------------------------
  // Stable sort by total
  // ---------------------------------------------------------------------

  /** The sort key: the key's total, negated for a descending sort. */
  function Rank(totals: map<string, int>, k: string, descending: bool): int
  {
    var t := if k in totals then totals[k] else 0;
    if descending then -t else t
  }

  /** `InsertByTotal` puts `x` after every key that ranks no higher. */
  function InsertByTotal(x: string, r: seq<string>, totals: map<string, int>, descending: bool): seq<string>
  {
    if r == [] then [x]
    else if Rank(totals, x, descending) < Rank(totals, r[0], descending) then [x] + r
    else [r[0]] + InsertByTotal(x, r[1..], totals, descending)
  }

  /** `keys.sort((a, b) => totals[a] - totals[b])`, or with `b` and `a` exchanged when `descending`. */
  function SortByTotal(keys: seq<string>, totals: map<string, int>, descending: bool): seq<string>
  {
    if keys == [] then []
    else InsertByTotal(keys[|keys| - 1], SortByTotal(keys[..|keys| - 1], totals, descending), totals, descending)
  }

  /** `a` goes before `b`: it ranks lower, or it ranks the same and came first in `order`. */
  predicate Precedes(a: string, b: string, totals: map<string, int>, descending: bool, order: seq<string>)
  {
    Rank(totals, a, descending) < Rank(totals, b, descending)
    || (Rank(totals, a, descending) == Rank(totals, b, descending) && Pos(order, a) < Pos(order, b))
  }

  /** Sorted by rank, and among equal ranks in the order of `order`. */
  predicate StablySorted(r: seq<string>, totals: map<string, int>, descending: bool, order: seq<string>)
  {
    forall i, j :: 0 <= i < j < |r| ==> Precedes(r[i], r[j], totals, descending, order)
  }

  /** Putting in front a key that precedes every other one keeps the list stably sorted. */
  lemma ConsStablySorted(a: string, u: seq<string>, totals: map<string, int>, descending: bool, order: seq<string>)
    requires StablySorted(u, totals, descending, order)
    requires forall k :: 0 <= k < |u| ==> Precedes(a, u[k], totals, descending, order)
    ensures StablySorted([a] + u, totals, descending, order)
  {
    var res := [a] + u;
    forall i, j | 0 <= i < j < |res| ensures Precedes(res[i], res[j], totals, descending, order) {
      if i > 0 {
        assert res[i] == u[i - 1] && res[j] == u[j - 1];
      } else {
        assert res[j] == u[j - 1];
      }
    }
  }

  lemma TailStablySorted(r: seq<string>, totals: map<string, int>, descending: bool, order: seq<string>)
    requires r != [] && StablySorted(r, totals, descending, order)
    ensures StablySorted(r[1..], totals, descending, order)
    ensures forall k :: 0 <= k < |r| - 1 ==> Precedes(r[0], r[1..][k], totals, descending, order)
  {
    var t := r[1..];
    forall i, j | 0 <= i < j < |t| ensures Precedes(t[i], t[j], totals, descending, order) {
      assert t[i] == r[i + 1] && t[j] == r[j + 1];
    }
    forall k | 0 <= k < |t| ensures Precedes(r[0], t[k], totals, descending, order) {
      assert t[k] == r[k + 1];
    }
  }

  /** A key that precedes `x` and every element of `t` precedes every element of any rearrangement of `t + [x]`. */
  lemma PrecedesRearranged(a: string, x: string, t: seq<string>, u: seq<string>,
                           totals: map<string, int>, descending: bool, order: seq<string>)
    requires multiset(u) == multiset(t) + multiset{x}
    requires Precedes(a, x, totals, descending, order)
    requires forall k :: 0 <= k < |t| ==> Precedes(a, t[k], totals, descending, order)
    ensures forall k :: 0 <= k < |u| ==> Precedes(a, u[k], totals, descending, order)
  {
    forall k | 0 <= k < |u| ensures Precedes(a, u[k], totals, descending, order) {
      assert u[k] in multiset(t) + multiset{x};
      if u[k] != x {
        assert u[k] in t;
        var m :| 0 <= m < |t| && t[m] == u[k];
      }
    }
  }

  /** A key ranking strictly below the first key of a stably sorted list can go in front of it. */
  lemma InsertAhead(x: string, r: seq<string>, totals: map<string, int>, descending: bool, order: seq<string>)
    requires r != [] && StablySorted(r, totals, descending, order)
    requires Rank(totals, x, descending) < Rank(totals, r[0], descending)
    ensures StablySorted([x] + r, totals, descending, order)
  {
    forall k | 0 <= k < |r| ensures Precedes(x, r[k], totals, descending, order) {
      if k > 0 {
        assert Precedes(r[0], r[k], totals, descending, order);
      }
    }
    ConsStablySorted(x, r, totals, descending, order);
  }

  lemma {:induction false} InsertByTotalSpec(x: string, r: seq<string>, totals: map<string, int>,
                                             descending: bool, order: seq<string>)
    requires StablySorted(r, totals, descending, order)
    requires forall i :: 0 <= i < |r| ==> Pos(order, r[i]) < Pos(order, x)
    ensures multiset(InsertByTotal(x, r, totals, descending)) == multiset(r) + multiset{x}
    ensures StablySorted(InsertByTotal(x, r, totals, descending), totals, descending, order)
  {
    if r == [] {
    } else if Rank(totals, x, descending) < Rank(totals, r[0], descending) {
      InsertAhead(x, r, totals, descending, order);
    } else {
      var t := r[1..];
      assert r == [r[0]] + t;
      TailStablySorted(r, totals, descending, order);
      InsertByTotalSpec(x, t, totals, descending, order);
      var u := InsertByTotal(x, t, totals, descending);
      assert Pos(order, r[0]) < Pos(order, x);
      PrecedesRearranged(r[0], x, t, u, totals, descending, order);
      ConsStablySorted(r[0], u, totals, descending, order);
    }
  }

  /**
   * The stable sort returns a rearrangement of its distinct keys, ordered by
   * rank, with keys of equal rank in their original order.
   */
  lemma {:induction false} SortByTotalSpec(keys: seq<string>, totals: map<string, int>, descending: bool)
    requires Distinct(keys)
    ensures multiset(SortByTotal(keys, totals, descending)) == multiset(keys)
    ensures StablySorted(SortByTotal(keys, totals, descending), totals, descending, keys)
  {
    if keys != [] {
      var p, x := keys[..|keys| - 1], keys[|keys| - 1];
      assert keys == p + [x];
      assert Distinct(p) && x !in p;
      SortByTotalSpec(p, totals, descending);
      var r := SortByTotal(p, totals, descending);
      forall i | 0 <= i < |r| ensures Pos(keys, r[i]) == Pos(p, r[i]) < Pos(keys, x) {
        assert r[i] in multiset(p);
        PosSnoc(p, x, r[i]);
      }
      forall i, j | 0 <= i < j < |r| ensures Precedes(r[i], r[j], totals, descending, keys) {
        assert Precedes(r[i], r[j], totals, descending, p);
      }
      InsertByTotalSpec(x, r, totals, descending, keys);
    }
  }

  /** The same, phrased for the callers: the sorted keys are exactly the input keys, each once. */
  lemma SortByTotalKeys(keys: seq<string>, totals: map<string, int>, descending: bool)
    requires Distinct(keys)
    ensures Distinct(SortByTotal(keys, totals, descending))
    ensures |SortByTotal(keys, totals, descending)| == |keys|
    ensures forall k :: k in SortByTotal(keys, totals, descending) <==> k in keys
    ensures StablySorted(SortByTotal(keys, totals, descending), totals, descending, keys)
  {
    var r := SortByTotal(keys, totals, descending);
    SortByTotalSpec(keys, totals, descending);
    DistinctPermutation(keys, r);
    assert forall x :: x in r <==> x in multiset(r);
    assert |r| == |multiset(r)|;
  }

  /**
   * `keys.sort(...)` by total, as the charts call it: on keys without
   * repetitions the result holds the same keys, each once, stably ordered.
   */
  method SortKeysByTotal(keys: seq<string>, totals: map<string, int>, descending: bool) returns (sorted: seq<string>)
    ensures Distinct(keys) ==> Distinct(sorted) && |sorted| == |keys|
    ensures Distinct(keys) ==> forall k :: k in sorted <==> k in keys
    ensures Distinct(keys) ==> StablySorted(sorted, totals, descending, keys)
  {
    sorted := SortByTotal(keys, totals, descending);
    if Distinct(keys) {
      SortByTotalKeys(keys, totals, descending);
    }
  }
}
