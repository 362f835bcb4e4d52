/**
 * Summing sales amounts per key. Both ranking charts walk the filtered rows
 * once, keeping a dictionary from key to running total and a list of the
 * keys in the order they were first seen.
 */
module Aggregation {
  import opened Sequences
  import opened Records

  /** Total sales of all rows. */
  function Total(rows: seq<Record>): nat
  {
    if rows == [] then 0 else Total(rows[..|rows| - 1]) + rows[|rows| - 1].salesAmount
  }

  /** The distinct values of column `c` among the rows. */
  function Values(rows: seq<Record>, c: Column): set<string>
  {
    if rows == [] then {} else Values(rows[..|rows| - 1], c) + {Cell(rows[|rows| - 1], c)}
  }

  /** Total sales of the rows whose column `c` holds `k`; zero for a key no row has. */
  function SumBy(rows: seq<Record>, c: Column, k: string): (total: nat)
    ensures k !in Values(rows, c) ==> total == 0
    ensures total <= Total(rows)
  {
    if rows == [] then 0
    else
      var last := rows[|rows| - 1];
      SumBy(rows[..|rows| - 1], c, k) + (if Cell(last, c) == k then last.salesAmount else 0)
  }

  /** The rows whose column `c` holds `k`, in order. */
  function Select(rows: seq<Record>, c: Column, k: string): seq<Record>
  {
    if rows == [] then []
    else
      var last := rows[|rows| - 1];
      Select(rows[..|rows| - 1], c, k) + (if Cell(last, c) == k then [last] else [])
  }

  /** The distinct values of column `c`, each once, in the order the rows first show them. */
  function FirstSeen(rows: seq<Record>, c: Column): (keys: seq<string>)
    ensures forall k :: k in keys <==> k in Values(rows, c)
  {
    if rows == [] then []
    else
      var p := FirstSeen(rows[..|rows| - 1], c);
      var k := Cell(rows[|rows| - 1], c);
      if k in p then p else p + [k]
  }

  /** Column `c` of every row, in table order. */
  function ColumnValues(rows: seq<Record>, c: Column): (cells: seq<string>)
    ensures |cells| == |rows|
    ensures forall i :: 0 <= i < |rows| ==> cells[i] == Cell(rows[i], c)
  {
    seq(|rows|, i requires 0 <= i < |rows| => Cell(rows[i], c))
  }

  /** The column holds exactly the values `Values` collects. */
  lemma {:induction false} ColumnValuesSet(rows: seq<Record>, c: Column, k: string)
    ensures k in ColumnValues(rows, c) <==> k in Values(rows, c)
  {
    if rows != [] {
      var p := rows[..|rows| - 1];
      assert ColumnValues(rows, c) == ColumnValues(p, c) + [Cell(rows[|rows| - 1], c)];
      ColumnValuesSet(p, c, k);
    }
  }

  /**
   * Where the last row leaves a key's position: an earlier key keeps its
   * positions in the key list and in the column; a new key sits at the end of both.
   */
  lemma FirstSeenPosStep(rows: seq<Record>, c: Column, a: string)
    requires rows != [] && a in Values(rows, c)
    ensures var p := rows[..|rows| - 1];
            a in Values(p, c) ==> Pos(FirstSeen(rows, c), a) == Pos(FirstSeen(p, c), a) < |FirstSeen(p, c)|
                                  && Pos(ColumnValues(rows, c), a) == Pos(ColumnValues(p, c), a) < |p|
    ensures var p := rows[..|rows| - 1];
            a !in Values(p, c) ==> Pos(FirstSeen(rows, c), a) == |FirstSeen(p, c)|
                                   && Pos(ColumnValues(rows, c), a) == |p|
  {
    var p := rows[..|rows| - 1];
    var k := Cell(rows[|rows| - 1], c);
    var q, col := FirstSeen(p, c), ColumnValues(p, c);
    assert ColumnValues(rows, c) == col + [k];
    ColumnValuesSet(p, c, a);
    if a in Values(p, c) {
      PosSnoc(col, k, a);
      if k !in q {
        PosSnoc(q, k, a);
      }
    } else {
      assert a == k;
      PosSnocNew(q, a);
      PosSnocNew(col, a);
    }
  }

  /**
   * The key list orders two values as the rows first show them: `a` comes
   * before `b` exactly when `a`'s first row comes before `b`'s.
   */
  lemma {:induction false} FirstSeenOrder(rows: seq<Record>, c: Column, a: string, b: string)
    requires a in Values(rows, c) && b in Values(rows, c)
    ensures Pos(FirstSeen(rows, c), a) < Pos(FirstSeen(rows, c), b)
            <==> Pos(ColumnValues(rows, c), a) < Pos(ColumnValues(rows, c), b)
  {
    var p := rows[..|rows| - 1];
    FirstSeenPosStep(rows, c, a);
    FirstSeenPosStep(rows, c, b);
    if a in Values(p, c) && b in Values(p, c) {
      FirstSeenOrder(p, c, a, b);
    } else if a !in Values(p, c) && b !in Values(p, c) {
      assert a == b;
    }
  }

  /** Every distinct value is listed exactly once. */
  lemma {:induction false} FirstSeenDistinct(rows: seq<Record>, c: Column)
    ensures Distinct(FirstSeen(rows, c))
    ensures |FirstSeen(rows, c)| == |Values(rows, c)|
  {
    if rows != [] {
      var p := rows[..|rows| - 1];
      var k := Cell(rows[|rows| - 1], c);
      var q := FirstSeen(p, c);
      FirstSeenDistinct(p, c);
      assert Values(rows, c) == Values(p, c) + {k};
      if k in q {
        assert FirstSeen(rows, c) == q;
        assert Values(rows, c) == Values(p, c);
      } else {
        assert FirstSeen(rows, c) == q + [k];
        assert k !in Values(p, c);
      }
    }
  }

  /** The sum of the per-key totals over a list of keys. */
  function KeyTotals(keys: seq<string>, rows: seq<Record>, c: Column): nat
  {
    if keys == [] then 0 else SumBy(rows, c, keys[0]) + KeyTotals(keys[1..], rows, c)
  }

  lemma {:induction false} KeyTotalsSnoc(keys: seq<string>, rows: seq<Record>, x: Record, c: Column)
    requires Distinct(keys)
    ensures KeyTotals(keys, rows + [x], c)
            == KeyTotals(keys, rows, c) + (if Cell(x, c) in keys then x.salesAmount else 0)
  {
    assert (rows + [x])[..|rows|] == rows;
    if keys != [] {
      assert Distinct(keys[1..]);
      assert keys[0] !in keys[1..];
      KeyTotalsSnoc(keys[1..], rows, x, c);
    }
  }

  /**
   * Conservation: when the keys are distinct and cover every value of the
   * column, the per-key totals add up to the total of all rows.
   */
  lemma {:induction false} KeyTotalsConserve(keys: seq<string>, rows: seq<Record>, c: Column)
    requires Distinct(keys)
    requires forall k :: k in Values(rows, c) ==> k in keys
    ensures KeyTotals(keys, rows, c) == Total(rows)
  {
    if rows == [] {
      KeyTotalsZero(keys, c);
    } else {
      var p, x := rows[..|rows| - 1], rows[|rows| - 1];
      assert rows == p + [x];
      KeyTotalsConserve(keys, p, c);
      KeyTotalsSnoc(keys, p, x, c);
    }
  }

  lemma {:induction false} KeyTotalsZero(keys: seq<string>, c: Column)
    ensures KeyTotals(keys, [], c) == 0
  {
    if keys != [] {
      KeyTotalsZero(keys[1..], c);
    }
  }

  /** A list of numbers that holds the per-key totals of `keys` sums to `KeyTotals`. */
  lemma {:induction false} SumOfKeyTotals(xs: seq<int>, keys: seq<string>, rows: seq<Record>, c: Column)
    requires |xs| == |keys|
    requires forall i :: 0 <= i < |xs| ==> xs[i] == SumBy(rows, c, keys[i])
    ensures Sum(xs) == KeyTotals(keys, rows, c)
  {
    if xs != [] {
      SumOfKeyTotals(xs[1..], keys[1..], rows, c);
    }
  }

  /** The total for one key is the total of the rows selected by that key. */
  lemma {:induction false} SumBySelect(rows: seq<Record>, c: Column, k: string)
    ensures SumBy(rows, c, k) == Total(Select(rows, c, k))
  {
    if rows != [] {
      var p, x := rows[..|rows| - 1], rows[|rows| - 1];
      var s := Select(p, c, k);
      SumBySelect(p, c, k);
      if Cell(x, c) == k {
        assert (s + [x])[..|s|] == s;
      } else {
        assert s + [] == s;
      }
    }
  }

  /** Selecting rows introduces no new values in any column. */
  lemma {:induction false} SelectValues(rows: seq<Record>, c: Column, k: string, d: Column)
    ensures Values(Select(rows, c, k), d) <= Values(rows, d)
  {
    if rows != [] {
      var p, x := rows[..|rows| - 1], rows[|rows| - 1];
      var s := Select(p, c, k);
      SelectValues(p, c, k, d);
      if Cell(x, c) == k {
        assert (s + [x])[..|s|] == s;
      } else {
        assert s + [] == s;
      }
    }
  }

  /** The dictionary the accumulation loop builds: each row adds its amount to its key's entry. */
  function TotalsByKey(rows: seq<Record>, c: Column): map<string, int>
  {
    if rows == [] then map[]
    else
      var m := TotalsByKey(rows[..|rows| - 1], c);
      var last := rows[|rows| - 1];
      var k := Cell(last, c);
      m[k := (if k in m then m[k] else 0) + last.salesAmount]
  }

  /** Every key's total is its entry in the dictionary, or zero when it has none. */
  lemma {:induction false} TotalsByKeySums(rows: seq<Record>, c: Column)
    ensures forall k :: SumBy(rows, c, k) == if k in TotalsByKey(rows, c) then TotalsByKey(rows, c)[k] else 0
  {
    if rows != [] {
      TotalsByKeySums(rows[..|rows| - 1], c);
    }
  }

  /** The dictionary has an entry for exactly the values of the column, holding each value's total. */
  lemma TotalsByKeySpec(rows: seq<Record>, c: Column)
    ensures forall k :: k in TotalsByKey(rows, c) <==> k in Values(rows, c)
    ensures forall k :: k in TotalsByKey(rows, c) ==> TotalsByKey(rows, c)[k] == SumBy(rows, c, k)
  {
    forall k ensures k in TotalsByKey(rows, c) <==> k in Values(rows, c) {
      TotalsByKeyDomain(rows, c, k);
    }
    TotalsByKeySums(rows, c);
  }

  /** The dictionary and the key list always name the same keys. */
  lemma {:induction false} TotalsByKeyDomain(rows: seq<Record>, c: Column, k: string)
    ensures k in TotalsByKey(rows, c) <==> k in FirstSeen(rows, c)
  {
    if rows != [] {
      TotalsByKeyDomain(rows[..|rows| - 1], c, k);
    }
  }

  /** Row `i` appends its key to the key list of the rows before it, unless the key is already there. */
  lemma FirstSeenStep(rows: seq<Record>, i: nat, c: Column)
    requires i < |rows|
    ensures FirstSeen(rows[..i + 1], c)
            == if Cell(rows[i], c) in FirstSeen(rows[..i], c) then FirstSeen(rows[..i], c)
               else FirstSeen(rows[..i], c) + [Cell(rows[i], c)]
  {
    assert rows[..i + 1][..i] == rows[..i];
  }

  /** Row `i` adds its amount to its key's entry, or starts the entry when there is none. */
  lemma TotalsByKeyStep(rows: seq<Record>, i: nat, c: Column)
    requires i < |rows|
    ensures var m, k := TotalsByKey(rows[..i], c), Cell(rows[i], c);
            k in m ==> TotalsByKey(rows[..i + 1], c) == m[k := m[k] + rows[i].salesAmount]
    ensures var m, k := TotalsByKey(rows[..i], c), Cell(rows[i], c);
            k !in m ==> TotalsByKey(rows[..i + 1], c) == m[k := rows[i].salesAmount]
  {
    assert rows[..i + 1][..i] == rows[..i];
  }

  /**
   * The accumulation loop of both ranking charts: one pass over the rows
   * that pushes each key the first time it appears and adds each row's
   * amount to its key's running total.
   */
  method Accumulate(rows: seq<Record>, c: Column) returns (keys: seq<string>, totals: map<string, int>)
    ensures keys == FirstSeen(rows, c)
    ensures forall k :: k in totals <==> k in Values(rows, c)
    ensures forall k :: k in totals ==> totals[k] == SumBy(rows, c, k)
  {
    keys, totals := [], map[];
    for i := 0 to |rows|
      invariant keys == FirstSeen(rows[..i], c)
      invariant totals == TotalsByKey(rows[..i], c)
    {
      var key := Cell(rows[i], c);
      var amount := rows[i].salesAmount;
      FirstSeenStep(rows, i, c);
      TotalsByKeyStep(rows, i, c);
      TotalsByKeyDomain(rows[..i], c, key);
      if key in totals {
        totals := totals[key := totals[key] + amount];
      } else {
        keys := keys + [key];
        totals := totals[key := amount];
      }
    }
    assert rows[..|rows|] == rows;
    TotalsByKeySpec(rows, c);
  }

  /**
   * The loop that reads the totals back in label order
   * (`for (let k of Y) X.push(totals[k])`).
   */
  method TotalsOf(labels: seq<string>, totals: map<string, int>) returns (xs: seq<int>)
    requires forall i :: 0 <= i < |labels| ==> labels[i] in totals
    ensures |xs| == |labels|
    ensures forall i :: 0 <= i < |labels| ==> xs[i] == totals[labels[i]]
  {
    xs := [];
    for i := 0 to |labels|
      invariant |xs| == i
      invariant forall j :: 0 <= j < i ==> xs[j] == totals[labels[j]]
    {
      xs := xs + [totals[labels[i]]];
    }
  }
}
