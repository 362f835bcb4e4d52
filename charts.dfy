/**
 * The data-shaping halves of the three chart functions: each turns the
 * filtered rows into the series handed to the plotting library.
 */
module Charts {
  import opened Sequences
  import opened Records
  import opened Aggregation
  import opened Sorting

  /** One line of the total-sales chart: a coffee type's sales at each date of the shared axis. */
  datatype Trace = Trace(name: string, x: seq<string>, y: seq<int>)

  /** How many customers the top-customers chart shows. */
  const TopCount := 5

  // ---------------------------------------------------------------------
  // Total sales over time
  // ---------------------------------------------------------------------

  /** `Array.from(new Set(rows.map(date))).sort()`: the distinct dates, as strings, in sorted order. */
  function DateAxis(rows: seq<Record>): seq<string>
  {
    SortStrings(FirstSeen(rows, OrderDate))
  }

  /** The date axis lists every date of the rows exactly once, strictly ascending. */
  lemma DateAxisSpec(rows: seq<Record>)
    ensures StrictlyAscending(DateAxis(rows))
    ensures forall d :: d in DateAxis(rows) <==> d in Values(rows, OrderDate)
    ensures |DateAxis(rows)| == |Values(rows, OrderDate)|
  {
    FirstSeenDistinct(rows, OrderDate);
    SortDistinctStrings(FirstSeen(rows, OrderDate));
  }

  /** Sales of coffee type `t` on date `d`; zero when there were none. */
  function SalesOn(rows: seq<Record>, t: string, d: string): (total: nat)
    ensures d !in Values(rows, OrderDate) ==> total == 0
    ensures t !in Values(rows, CoffeeType) ==> total == 0
  {
    if rows == [] then 0
    else
      var last := rows[|rows| - 1];
      SalesOn(rows[..|rows| - 1], t, d) + (if last.coffeeType == t && last.orderDate == d then last.salesAmount else 0)
  }

  /** The sales of several coffee types on one date, added up. */
  function TypeSum(types: seq<string>, rows: seq<Record>, d: string): nat
  {
    if types == [] then 0 else SalesOn(rows, types[0], d) + TypeSum(types[1..], rows, d)
  }

  lemma {:induction false} SalesOnSelect(rows: seq<Record>, t: string, d: string)
    ensures SalesOn(rows, t, d) == SumBy(Select(rows, OrderDate, d), CoffeeType, t)
  {
    if rows != [] {
      var p, x := rows[..|rows| - 1], rows[|rows| - 1];
      var s := Select(p, OrderDate, d);
      SalesOnSelect(p, t, d);
      if x.orderDate == d {
        assert (s + [x])[..|s|] == s;
      } else {
        assert s + [] == s;
      }
    }
  }

  lemma {:induction false} TypeSumSelect(types: seq<string>, rows: seq<Record>, d: string)
    ensures TypeSum(types, rows, d) == KeyTotals(types, Select(rows, OrderDate, d), CoffeeType)
  {
    if types != [] {
      SalesOnSelect(rows, types[0], d);
      TypeSumSelect(types[1..], rows, d);
    }
  }

  /**
   * When the known coffee types are distinct and include the type of every
   * row, the traces' values at a date add up to all sales on that date.
   */
  lemma DailySalesByType(rows: seq<Record>, types: seq<string>, d: string)
    requires Distinct(types)
    requires forall t :: t in Values(rows, CoffeeType) ==> t in types
    ensures TypeSum(types, rows, d) == SumBy(rows, OrderDate, d)
  {
    var onDate := Select(rows, OrderDate, d);
    TypeSumSelect(types, rows, d);
    SelectValues(rows, OrderDate, d, CoffeeType);
    KeyTotalsConserve(types, onDate, CoffeeType);
    SumBySelect(rows, OrderDate, d);
  }

  /** The map `byDate` holds the per-date totals of type `t` over the rows `done`, as `SalesByDate`'s loop keeps it. */
  ghost predicate TypeAccumulated(done: seq<Record>, t: string, byDate: map<string, int>)
  {
    && (forall d :: d in byDate ==> byDate[d] == SalesOn(done, t, d))
    && (forall d :: d !in byDate ==> SalesOn(done, t, d) == 0)
  }

  lemma SalesOnSnoc(rows: seq<Record>, x: Record, t: string)
    ensures forall d :: SalesOn(rows + [x], t, d)
                        == SalesOn(rows, t, d) + (if x.coffeeType == t && x.orderDate == d then x.salesAmount else 0)
  {
    assert (rows + [x])[..|rows|] == rows;
  }

  lemma TypeAccumulatedSkip(done: seq<Record>, x: Record, t: string, byDate: map<string, int>)
    requires TypeAccumulated(done, t, byDate)
    requires x.coffeeType != t
    ensures TypeAccumulated(done + [x], t, byDate)
  {
    SalesOnSnoc(done, x, t);
  }

  lemma TypeAccumulatedSeen(done: seq<Record>, x: Record, t: string, byDate: map<string, int>)
    requires TypeAccumulated(done, t, byDate)
    requires x.coffeeType == t && x.orderDate in byDate
    ensures TypeAccumulated(done + [x], t, byDate[x.orderDate := byDate[x.orderDate] + x.salesAmount])
  {
    SalesOnSnoc(done, x, t);
  }

  lemma TypeAccumulatedNew(done: seq<Record>, x: Record, t: string, byDate: map<string, int>)
    requires TypeAccumulated(done, t, byDate)
    requires x.coffeeType == t && x.orderDate !in byDate
    ensures TypeAccumulated(done + [x], t, byDate[x.orderDate := x.salesAmount])
  {
    SalesOnSnoc(done, x, t);
  }

  /** The inner loop over the rows for one coffee type: sales per date. */
  method SalesByDate(rows: seq<Record>, coffeeType: string) returns (byDate: map<string, int>)
    ensures forall d :: d in byDate ==> byDate[d] == SalesOn(rows, coffeeType, d)
    ensures forall d :: d !in byDate ==> SalesOn(rows, coffeeType, d) == 0
  {
    byDate := map[];
    for i := 0 to |rows|
      invariant TypeAccumulated(rows[..i], coffeeType, byDate)
    {
      var row := rows[i];
      assert rows[..i + 1] == rows[..i] + [row];
      if row.coffeeType == coffeeType {
        var orderDate := row.orderDate;
        var salesAmount := row.salesAmount;
        if orderDate in byDate {
          TypeAccumulatedSeen(rows[..i], row, coffeeType, byDate);
          byDate := byDate[orderDate := byDate[orderDate] + salesAmount];
        } else {
          TypeAccumulatedNew(rows[..i], row, coffeeType, byDate);
          byDate := byDate[orderDate := salesAmount];
        }
      } else {
        TypeAccumulatedSkip(rows[..i], row, coffeeType, byDate);
      }
    }
    assert rows[..|rows|] == rows;
  }

  /** The loop over the date axis: the type's total at each date, zero where it sold nothing. */
  method FillSeries(x: seq<string>, byDate: map<string, int>) returns (y: seq<int>)
    ensures |y| == |x|
    ensures forall j :: 0 <= j < |x| ==> y[j] == if x[j] in byDate then byDate[x[j]] else 0
  {
    y := [];
    for j := 0 to |x|
      invariant |y| == j
      invariant forall k :: 0 <= k < j ==> y[k] == if x[k] in byDate then byDate[x[k]] else 0
    {
      if x[j] in byDate {
        y := y + [byDate[x[j]]];
      } else {
        y := y + [0];
      }
    }
  }

  /**
   * The series of the total-sales chart: one trace per known coffee type, in
   * that order, all on the same sorted date axis, each holding the type's
   * sales at every date of the axis.
   */
  method TotalSalesSeries(rows: seq<Record>, coffeeTypes: seq<string>) returns (traces: seq<Trace>)
    ensures |traces| == |coffeeTypes|
    ensures forall i :: 0 <= i < |traces| ==>
              traces[i].name == coffeeTypes[i] && traces[i].x == DateAxis(rows) && |traces[i].y| == |DateAxis(rows)|
    ensures forall i, j :: 0 <= i < |traces| && 0 <= j < |traces[i].y| ==>
              traces[i].y[j] == SalesOn(rows, coffeeTypes[i], DateAxis(rows)[j])
  {
    var x := SortStrings(FirstSeen(rows, OrderDate));
    traces := [];
    for i := 0 to |coffeeTypes|
      invariant |traces| == i
      invariant forall k :: 0 <= k < i ==>
                  traces[k].name == coffeeTypes[k] && traces[k].x == x && |traces[k].y| == |x|
      invariant forall k, j :: 0 <= k < i && 0 <= j < |traces[k].y| ==>
                  traces[k].y[j] == SalesOn(rows, coffeeTypes[k], x[j])
    {
      var byDate := SalesByDate(rows, coffeeTypes[i]);
      var y := FillSeries(x, byDate);
      traces := traces + [Trace(coffeeTypes[i], x, y)];
    }
  }

  /** Reading the totals of a stably ascending key list gives ascending totals with ties in first-seen order. */
  lemma AscendingTotals(x: seq<int>, y: seq<string>, totals: map<string, int>, order: seq<string>)
    requires StablySorted(y, totals, false, order)
    requires |x| == |y| && forall i :: 0 <= i < |y| ==> y[i] in totals && x[i] == totals[y[i]]
    ensures forall i, j :: 0 <= i < j < |y| ==>
              x[i] < x[j] || (x[i] == x[j] && Pos(order, y[i]) < Pos(order, y[j]))
  {
    forall i, j | 0 <= i < j < |y| ensures x[i] < x[j] || (x[i] == x[j] && Pos(order, y[i]) < Pos(order, y[j])) {
      assert Precedes(y[i], y[j], totals, false, order);
    }
  }

  // ---------------------------------------------------------------------
  // Sales by country
  // ---------------------------------------------------------------------

  /** A rearrangement of the first-seen keys names only keys the totals dictionary has. */
  lemma SortedKeysKnown(rows: seq<Record>, c: Column, totals: map<string, int>, y: seq<string>)
    requires forall k :: k in totals <==> k in Values(rows, c)
    requires forall k :: k in y <==> k in FirstSeen(rows, c)
    ensures forall i :: 0 <= i < |y| ==> y[i] in totals
  {
    forall i | 0 <= i < |y| ensures y[i] in totals {
      assert y[i] in y;
    }
  }

  /** What the country chart's series satisfies, given the results of the accumulation loop and the sort. */
  lemma CountrySeriesFacts(rows: seq<Record>, firstSeen: seq<string>, totals: map<string, int>,
                           x: seq<int>, y: seq<string>)
    requires firstSeen == FirstSeen(rows, Country)
    requires forall k :: k in totals <==> k in Values(rows, Country)
    requires forall k :: k in totals ==> totals[k] == SumBy(rows, Country, k)
    requires Distinct(y) && |y| == |firstSeen| && (forall k :: k in y <==> k in firstSeen)
    requires StablySorted(y, totals, false, firstSeen)
    requires |x| == |y| && forall i :: 0 <= i < |y| ==> y[i] in totals && x[i] == totals[y[i]]
    ensures forall c :: c in y <==> c in Values(rows, Country)
    ensures |y| == |Values(rows, Country)|
    ensures forall i :: 0 <= i < |y| ==> x[i] == SumBy(rows, Country, y[i])
    ensures forall i, j :: 0 <= i < j < |y| ==>
              x[i] < x[j] || (x[i] == x[j] && Pos(firstSeen, y[i]) < Pos(firstSeen, y[j]))
    ensures Sum(x) == Total(rows)
  {
    FirstSeenDistinct(rows, Country);
    AscendingTotals(x, y, totals, firstSeen);
    SumOfKeyTotals(x, y, rows, Country);
    KeyTotalsConserve(y, rows, Country);
  }

  /**
   * The series of the sales-by-country chart: every country once, with its
   * total, ascending by total, countries with equal totals in the order the
   * rows first show them; the totals add up to all sales.
   */
  method SalesByCountrySeries(rows: seq<Record>) returns (x: seq<int>, y: seq<string>)
    ensures Distinct(y)
    ensures forall c :: c in y <==> c in Values(rows, Country)
    ensures |y| == |Values(rows, Country)|
    ensures |x| == |y|
    ensures forall i :: 0 <= i < |y| ==> x[i] == SumBy(rows, Country, y[i])
    ensures forall i, j :: 0 <= i < j < |y| ==>
              x[i] < x[j]
              || (x[i] == x[j] && Pos(FirstSeen(rows, Country), y[i]) < Pos(FirstSeen(rows, Country), y[j]))
    ensures Sum(x) == Total(rows)
  {
    var salesByCountry;
    y, salesByCountry := Accumulate(rows, Country);
    ghost var firstSeen := y;
    FirstSeenDistinct(rows, Country);
    y := SortKeysByTotal(y, salesByCountry, false);
    SortedKeysKnown(rows, Country, salesByCountry, y);
    x := TotalsOf(y, salesByCountry);
    CountrySeriesFacts(rows, firstSeen, salesByCountry, x, y);
  }

  // ---------------------------------------------------------------------
  // Top customers
  // ---------------------------------------------------------------------

  /**
   * Reversing the first `k` keys of a stably descending list gives an
   * ascending list, and every key it keeps beats every key it drops.
   */
  lemma TopSelection(ranked: seq<string>, k: nat, totals: map<string, int>, order: seq<string>)
    requires Distinct(ranked) && k <= |ranked|
    requires StablySorted(ranked, totals, true, order)
    ensures Distinct(Reversed(ranked[..k]))
    ensures forall i, j :: 0 <= i < j < k ==>
              Precedes(Reversed(ranked[..k])[j], Reversed(ranked[..k])[i], totals, true, order)
    ensures forall c, i :: c in ranked && c !in Reversed(ranked[..k]) && 0 <= i < k ==>
              Precedes(Reversed(ranked[..k])[i], c, totals, true, order)
  {
    var y := Reversed(ranked[..k]);
    forall i, j | 0 <= i < j < k ensures y[i] != y[j] && Precedes(y[j], y[i], totals, true, order) {
      assert y[i] == ranked[k - 1 - i] && y[j] == ranked[k - 1 - j];
    }
    forall c, i | c in ranked && c !in y && 0 <= i < k ensures Precedes(y[i], c, totals, true, order) {
      var m := Pos(ranked, c);
      assert ranked[m] == c;
      forall j | 0 <= j < k ensures ranked[j] != c {
        assert y[k - 1 - j] == ranked[j];
      }
      assert k <= m;
      assert y[i] == ranked[k - 1 - i];
    }
  }

  /** The customers the chart keeps are among the ranked ones. */
  lemma TopKept(ranked: seq<string>, k: nat, y: seq<string>)
    requires k <= |ranked| && y == Reversed(ranked[..k])
    ensures forall i :: 0 <= i < |y| ==> y[i] in ranked
  {
    forall i | 0 <= i < |y| ensures y[i] in ranked {
      assert y[i] == ranked[k - 1 - i];
    }
  }

  /**
   * Every customer the chart leaves out totals less than each customer it
   * shows, or the same and was seen after that one.
   */
  predicate OmittedRankLower(rows: seq<Record>, y: seq<string>)
  {
    forall c, i :: c in Values(rows, CustomerName) && c !in y && 0 <= i < |y| ==>
      SumBy(rows, CustomerName, c) < SumBy(rows, CustomerName, y[i])
      || (SumBy(rows, CustomerName, c) == SumBy(rows, CustomerName, y[i])
          && Pos(FirstSeen(rows, CustomerName), y[i]) < Pos(FirstSeen(rows, CustomerName), c))
  }

  /** What the top-customers chart's series satisfies, given the results of the accumulation loop and the sort. */
  lemma TopSeriesFacts(rows: seq<Record>, totals: map<string, int>, ranked: seq<string>,
                       x: seq<int>, y: seq<string>)
    requires forall c :: c in totals <==> c in Values(rows, CustomerName)
    requires forall c :: c in totals ==> totals[c] == SumBy(rows, CustomerName, c)
    requires Distinct(ranked) && |ranked| == |FirstSeen(rows, CustomerName)| && (forall c :: c in ranked <==> c in FirstSeen(rows, CustomerName))
    requires StablySorted(ranked, totals, true, FirstSeen(rows, CustomerName))
    requires y == Reversed(ranked[..Min(TopCount, |ranked|)])
    requires |x| == |y| && forall i :: 0 <= i < |y| ==> y[i] in totals && x[i] == totals[y[i]]
    ensures |y| == Min(TopCount, |Values(rows, CustomerName)|)
    ensures Distinct(y)
    ensures forall i :: 0 <= i < |y| ==> y[i] in Values(rows, CustomerName)
    ensures forall i :: 0 <= i < |y| ==> x[i] == SumBy(rows, CustomerName, y[i])
    ensures forall i, j :: 0 <= i < j < |y| ==>
              x[i] < x[j] || (x[i] == x[j] && Pos(FirstSeen(rows, CustomerName), y[j]) < Pos(FirstSeen(rows, CustomerName), y[i]))
    ensures OmittedRankLower(rows, y)
  {
    var firstSeen := FirstSeen(rows, CustomerName);
    var k := Min(TopCount, |ranked|);
    FirstSeenDistinct(rows, CustomerName);
    TopSelection(ranked, k, totals, firstSeen);
    forall i, j | 0 <= i < j < |y|
      ensures x[i] < x[j] || (x[i] == x[j] && Pos(firstSeen, y[j]) < Pos(firstSeen, y[i]))
    {
      assert Precedes(y[j], y[i], totals, true, firstSeen);
    }
    forall c, i | c in Values(rows, CustomerName) && c !in y && 0 <= i < |y|
      ensures SumBy(rows, CustomerName, c) < SumBy(rows, CustomerName, y[i])
              || (SumBy(rows, CustomerName, c) == SumBy(rows, CustomerName, y[i]) && Pos(firstSeen, y[i]) < Pos(firstSeen, c))
    {
      assert c in ranked;
      assert Precedes(y[i], c, totals, true, firstSeen);
    }
  }

  /**
   * The series of the top-customers chart: the (at most) five customers with
   * the highest totals, with their totals, listed in ascending order. Ties
   * at the cut are won by the customer the rows show first; ties among
   * those shown are listed with the earlier-seen customer last.
   */
  method TopCustomersSeries(rows: seq<Record>) returns (x: seq<int>, y: seq<string>)
    ensures |y| == Min(TopCount, |Values(rows, CustomerName)|)
    ensures Distinct(y)
    ensures forall i :: 0 <= i < |y| ==> y[i] in Values(rows, CustomerName)
    ensures |x| == |y|
    ensures forall i :: 0 <= i < |y| ==> x[i] == SumBy(rows, CustomerName, y[i])
    ensures forall i, j :: 0 <= i < j < |y| ==>
              x[i] < x[j]
              || (x[i] == x[j] && Pos(FirstSeen(rows, CustomerName), y[j]) < Pos(FirstSeen(rows, CustomerName), y[i]))
    ensures OmittedRankLower(rows, y)
  {
    var customerNames, salesByCustomer := Accumulate(rows, CustomerName);
    ghost var firstSeen := customerNames;
    FirstSeenDistinct(rows, CustomerName);
    customerNames := SortKeysByTotal(customerNames, salesByCustomer, true);
    SortedKeysKnown(rows, CustomerName, salesByCustomer, customerNames);
    y := Reversed(customerNames[..Min(TopCount, |customerNames|)]);
    TopKept(customerNames, Min(TopCount, |customerNames|), y);
    x := TotalsOf(y, salesByCustomer);
    TopSeriesFacts(rows, salesByCustomer, customerNames, x, y);
  }
}
