/**
 * `filterData`: the record table narrowed by the four filter arrays. Each
 * non-empty array keeps the records whose column value it lists; an empty
 * array restricts nothing. The year filter looks at the year part of the
 * order date only.
 */
module FilterEngine {
  import opened Sequences
  import opened Records

  /** One `.filter` pass: the records whose column `c` is listed in `vals`, in their original order. */
  function Keep(rows: seq<Record>, c: Column, vals: seq<string>): seq<Record>
  {
    if rows == [] then []
    else
      var last := rows[|rows| - 1];
      Keep(rows[..|rows| - 1], c, vals) + (if Cell(last, c) in vals then [last] else [])
  }

  /** A filter array only takes part when it is non-empty. */
  function Narrow(rows: seq<Record>, c: Column, vals: seq<string>): seq<Record>
  {
    if |vals| > 0 then Keep(rows, c, vals) else rows
  }

  /** The chain of up to four `.filter` passes of `filterData`: year, roast, size, loyalty card. */
  function FilterData(rows: seq<Record>, years: seq<string>, roasts: seq<string>,
                      sizes: seq<string>, loyalties: seq<string>): seq<Record>
  {
    var byYear := Narrow(rows, OrderYear, years);
    var byRoast := Narrow(byYear, RoastType, roasts);
    var bySize := Narrow(byRoast, Size, sizes);
    Narrow(bySize, LoyaltyCard, loyalties)
  }

  /** Record `r` passes the test of one filter array. */
  predicate Admits(r: Record, c: Column, vals: seq<string>)
  {
    |vals| == 0 || Cell(r, c) in vals
  }

  /** Record `r` passes every filter array at once. */
  predicate Passes(r: Record, years: seq<string>, roasts: seq<string>,
                   sizes: seq<string>, loyalties: seq<string>)
  {
    Admits(r, OrderYear, years) && Admits(r, RoastType, roasts)
    && Admits(r, Size, sizes) && Admits(r, LoyaltyCard, loyalties)
  }

  /** Reference definition: one pass keeping the records that pass all four tests together. */
  function Selected(rows: seq<Record>, years: seq<string>, roasts: seq<string>,
                    sizes: seq<string>, loyalties: seq<string>): seq<Record>
  {
    if rows == [] then []
    else
      var last := rows[|rows| - 1];
      Selected(rows[..|rows| - 1], years, roasts, sizes, loyalties)
      + (if Passes(last, years, roasts, sizes, loyalties) then [last] else [])
  }

  lemma NarrowSnoc(rows: seq<Record>, x: Record, c: Column, vals: seq<string>)
    ensures Narrow(rows + [x], c, vals) == Narrow(rows, c, vals) + (if Admits(x, c, vals) then [x] else [])
  {
    assert (rows + [x])[..|rows|] == rows;
  }

  /** The four successive passes select exactly the records passing the conjunction of the four tests. */
  lemma {:induction false} ConjunctionLaw(rows: seq<Record>, years: seq<string>, roasts: seq<string>,
                                          sizes: seq<string>, loyalties: seq<string>)
    ensures FilterData(rows, years, roasts, sizes, loyalties) == Selected(rows, years, roasts, sizes, loyalties)
  {
    if rows != [] {
      var p, x := rows[..|rows| - 1], rows[|rows| - 1];
      assert rows == p + [x];
      ConjunctionLaw(p, years, roasts, sizes, loyalties);
      var y1 := Narrow(p, OrderYear, years);
      var y2 := Narrow(y1, RoastType, roasts);
      var y3 := Narrow(y2, Size, sizes);
      NarrowSnoc(p, x, OrderYear, years);
      var e1 := if Admits(x, OrderYear, years) then [x] else [];
      var e2 := if Admits(x, OrderYear, years) && Admits(x, RoastType, roasts) then [x] else [];
      var e3 := if Admits(x, OrderYear, years) && Admits(x, RoastType, roasts) && Admits(x, Size, sizes) then [x] else [];
      if e1 == [x] { NarrowSnoc(y1, x, RoastType, roasts); } else { assert y1 + e1 == y1; }
      assert Narrow(y1 + e1, RoastType, roasts) == y2 + e2;
      if e2 == [x] { NarrowSnoc(y2, x, Size, sizes); } else { assert y2 + e2 == y2; }
      assert Narrow(y2 + e2, Size, sizes) == y3 + e3;
      if e3 == [x] { NarrowSnoc(y3, x, LoyaltyCard, loyalties); } else { assert y3 + e3 == y3; }
    }
  }

  /** With all four filter arrays empty, `filterData` hands back the whole table. */
  lemma FilterIdentity(rows: seq<Record>)
    ensures FilterData(rows, [], [], [], []) == rows
  {
  }

  /** With all four arrays empty the reference selection is the whole table too. */
  lemma {:induction false} SelectedIdentity(rows: seq<Record>)
    ensures Selected(rows, [], [], [], []) == rows
  {
    if rows != [] {
      SelectedIdentity(rows[..|rows| - 1]);
      assert rows == rows[..|rows| - 1] + [rows[|rows| - 1]];
    }
  }

  /**
   * A record occurs in the filtered table as often as in the table when it
   * passes every non-empty filter array, and not at all otherwise.
   */
  lemma {:induction false} SelectedCount(rows: seq<Record>, years: seq<string>, roasts: seq<string>,
                                         sizes: seq<string>, loyalties: seq<string>, r: Record)
    ensures multiset(Selected(rows, years, roasts, sizes, loyalties))[r]
            == if Passes(r, years, roasts, sizes, loyalties) then multiset(rows)[r] else 0
  {
    if rows != [] {
      var p, x := rows[..|rows| - 1], rows[|rows| - 1];
      assert rows == p + [x];
      SelectedCount(p, years, roasts, sizes, loyalties, r);
    }
  }

  /** The membership law of `filterData`, in both directions. */
  lemma FilterMembership(rows: seq<Record>, years: seq<string>, roasts: seq<string>,
                         sizes: seq<string>, loyalties: seq<string>, r: Record)
    ensures r in FilterData(rows, years, roasts, sizes, loyalties)
            <==> r in rows && Passes(r, years, roasts, sizes, loyalties)
  {
    ConjunctionLaw(rows, years, roasts, sizes, loyalties);
    SelectedCount(rows, years, roasts, sizes, loyalties, r);
  }

  /** The reference selection keeps the surviving records in their original order. */
  lemma {:induction false} SelectedSubseq(rows: seq<Record>, years: seq<string>, roasts: seq<string>,
                                          sizes: seq<string>, loyalties: seq<string>)
    ensures IsSubseq(Selected(rows, years, roasts, sizes, loyalties), rows)
  {
    if rows != [] {
      var p, x := rows[..|rows| - 1], rows[|rows| - 1];
      var s := Selected(p, years, roasts, sizes, loyalties);
      SelectedSubseq(p, years, roasts, sizes, loyalties);
      if Passes(x, years, roasts, sizes, loyalties) {
        assert (s + [x])[..|s|] == s;
      } else {
        assert s + [] == s;
      }
    }
  }

  /** `filterData` returns an order-preserving subsequence of the table. */
  lemma FilterSubseq(rows: seq<Record>, years: seq<string>, roasts: seq<string>,
                     sizes: seq<string>, loyalties: seq<string>)
    ensures IsSubseq(FilterData(rows, years, roasts, sizes, loyalties), rows)
  {
    ConjunctionLaw(rows, years, roasts, sizes, loyalties);
    SelectedSubseq(rows, years, roasts, sizes, loyalties);
  }

  /**
   * The year filter does not see past the year: two records that differ only
   * in their order date, with the same first four characters, are kept or
   * dropped together.
   */
  lemma YearFilterIgnoresMonth(r: Record, date: string, years: seq<string>, roasts: seq<string>,
                               sizes: seq<string>, loyalties: seq<string>)
    requires |r.orderDate| >= 4 && |date| >= 4 && r.orderDate[..4] == date[..4]
    ensures Passes(r, years, roasts, sizes, loyalties)
            <==> Passes(r.(orderDate := date), years, roasts, sizes, loyalties)
  {
  }
}
