# Coffee shop sales dashboard: filter-and-aggregate engine

The dashboard of CoffeeShopAnalysis shows a table of coffee order lines as
three charts: total sales over time per coffee type, sales by country, and
the five best customers. Four groups of buttons narrow the table by year,
roast type, size and loyalty card. This project models the part of
`output/plot.js` that decides what the charts show:

- the four filter arrays and `setFilter`, which toggles one value in the
  array a button names (`filter_state.dfy`, a class whose fields the method
  updates);
- `filterData`, the chain of `.filter` passes that narrows the table
  (`filter_engine.dfy`, functions);
- the data-shaping halves of `drawTotalSalesPlot`, `drawSalesByCountryPlot`
  and `drawTop5CustomersPlot` (`aggregation.dfy` and `charts.dfy`, methods
  with loops over a map accumulator and an insertion-order key list);
- the two `Array.prototype.sort` calls and the default string sort of the
  date axis (`sorting.dfy`, insertion sorts as functions; the two by total
  are stable).

`sequences.dfy` holds generic facts about sequences and `records.dfy` the
order-line record. Sales amounts are natural numbers of cents. The record
table, the list of coffee types and the filter values are parameters.

The main results:

- Filtering with four arrays in a row is the same as one pass that keeps the
  records passing all four tests. A record is in the result exactly when it
  is in the table and passes every non-empty array. The result keeps the
  table's order, and with all arrays empty it is the whole table.
- The year filter looks at the first four characters of the order date only.
  For dates in the loader's `YYYY-MM` form those are the year.
- `setFilter` removes a value that is present and appends one that is not.
  It changes only the named array, and an unknown name changes nothing.
  Toggling an absent value twice restores the array exactly. No array ever
  lists a value twice, so toggling any value twice restores its contents.
- Total sales: every trace uses the same strictly ascending axis of distinct
  dates. Each known coffee type gets one trace, in order. A trace's value at
  a date is that type's sales on that date, zero when there were none. When
  the types are distinct and cover the rows, the traces at a date add up to
  that date's sales.
- Keys are listed in the order of their first rows.
- Sales by country: every country appears once, with its total. Totals are
  ascending, equal totals stay in first-seen order, and they add up to all
  sales.
- Top customers: the chart shows min(5, number of customers) distinct
  customers with their totals, in ascending order. Every omitted customer
  totals less than every shown one, or ties with it and was seen later.

## Model

| member | source | states |
|---|---|---|
| Records.Cell | output/plot.js:3-10 | `row[COLUMN]` on a `Records.Record` (the eight-column order line whose indices plot.js:3-10 names, the sales amount at index 7), with the year column read through `YearOf` |
| Records.YearOf | output/plot.js:29 | `substring(0, 4)`: a prefix of the date, four characters long or the whole date when shorter |
| Records.YearOfMonthStamp | main.py:131 | for a date in the loader's `YYYY-MM` form, the year column is the date's first four characters, all digits |
| FilterEngine.Keep | output/plot.js:29-38 | one `.filter` pass: the records whose column value the array lists, in table order; specified by `NarrowSnoc`, `ConjunctionLaw` and `FilterMembership` |
| FilterEngine.Narrow | output/plot.js:28-39 | one guarded pass: `Keep` when the array is non-empty, the table untouched when it is empty; `NarrowSnoc` gives its step on one more record |
| FilterEngine.FilterData | output/plot.js:26-41 | `filterData`: the year, roast, size and loyalty passes in that order; specified by `ConjunctionLaw`, `FilterIdentity`, `FilterMembership` and `FilterSubseq` |
| FilterEngine.ConjunctionLaw | output/plot.js:26-41 | the four successive narrowing passes equal one pass keeping the records that pass every test at once |
| FilterEngine.FilterIdentity | output/plot.js:27-40 | with all four filter arrays empty the whole table comes back unchanged |
| FilterEngine.SelectedIdentity | output/plot.js:27-40 | with all four arrays empty the single-pass reference selection is the whole table too |
| FilterEngine.SelectedCount | output/plot.js:28-39 | a record occurs in the selection as often as in the table if it passes every non-empty array, and not at all otherwise |
| FilterEngine.FilterMembership | output/plot.js:28-39 | a record is in `filterData`'s output if and only if it is in the table and passes every non-empty array |
| FilterEngine.SelectedSubseq | output/plot.js:28-39 | the reference selection is an order-preserving subsequence of the table |
| FilterEngine.FilterSubseq | output/plot.js:28-39 | `filterData`'s output is an order-preserving subsequence of the table |
| FilterEngine.YearFilterIgnoresMonth | output/plot.js:29 | a record passes or fails the filters exactly as the same record with a different date sharing its first four characters does |
| Filters.Without | output/plot.js:194 | `filter(t => t !== v)`: `v` is gone, every other value keeps its count, order is kept, and the array is unchanged when `v` was absent |
| Filters.Toggled | output/plot.js:193-198 | one toggle of a filter array (the same code at 201-206, 209-214 and 217-222): `Without` when the value is present, append otherwise; specified by `ToggledMembership`, `ToggleTwiceAbsent`, `ToggleTwiceDistinct` and `ToggledDistinct` |
| Filters.ToggledMembership | output/plot.js:193-198 | after a toggle the value is present exactly when it was absent before; other values keep their counts |
| Filters.ToggleTwiceAbsent | output/plot.js:192-199 | adding an absent value and toggling it again gives back the same array |
| Filters.ToggleTwiceDistinct | output/plot.js:192-199 | on an array without repetitions, toggling a value twice gives back the same values |
| Filters.ToggledDistinct | output/plot.js:192-199 | toggling never introduces a repetition |
| Filters.FilterState.Valid | output/plot.js:192-222 | no filter array lists a value twice; the constructor establishes it and `SetFilter` preserves it |
| Filters.FilterState.constructor | output/plot.js:13-16 | all four filter arrays start empty, so the state is valid |
| Filters.FilterState.ArrayNamed | output/plot.js:192-216 | the filter array a `filterName` selects, empty for an unknown name; used by `IsActive` and `SetFilter`'s contract |
| Filters.FilterState.IsActive | output/plot.js:195-222 | whether a button's value is selected, the state the `classList` calls display; `SetFilter` ensures it flips on every toggle |
| Filters.FilterState.Filtered | output/plot.js:26-41 | `filterData` over the current arrays equals the single-pass reference selection |
| Filters.FilterState.SetFilter | output/plot.js:191-224 | the named array is toggled, the other three stay as they were, the button's value flips between selected and not, and an unknown name changes nothing; a valid state stays valid |
| Filters.ToggleRoundTrip | output/plot.js:191-224 | from a valid state, clicking the same button twice gives back the named array's values, keeps the state valid and leaves the other arrays alone |
| Filters.YearToggleRoundTrip | output/plot.js:192-199 | turning a year on and off again restores all four arrays and the filtered table |
| Aggregation.SumBy | output/plot.js:100-111 | a key's total is zero when no row holds the key and never exceeds the total of all rows |
| Aggregation.FirstSeen | output/plot.js:101-110 | the keys pushed by the accumulation loop are exactly the values of the column |
| Aggregation.FirstSeenOrder | output/plot.js:105-110 | two keys are listed in the order of their first rows: `a` precedes `b` exactly when `a`'s first row precedes `b`'s in the table |
| Aggregation.FirstSeenDistinct | output/plot.js:105-110 | the loop pushes each value once: the key list has no repetitions and is as long as the set of values |
| Aggregation.KeyTotalsConserve | output/plot.js:100-119 | the totals of distinct keys covering every value add up to the total of all rows |
| Aggregation.SumOfKeyTotals | output/plot.js:116-119 | a list holding each key's total sums to the keys' combined total |
| Aggregation.SumBySelect | output/plot.js:100-111 | a key's total is the total of the rows holding that key |
| Aggregation.TotalsByKey | output/plot.js:105-110 | the `salesByCountry` / `salesByCustomer` dictionary (also 151-156): each row adds its amount to its key's entry, creating the entry on first sight; specified by `TotalsByKeySums`, `TotalsByKeyDomain` and `TotalsByKeySpec` |
| Aggregation.TotalsByKeySums | output/plot.js:105-110 | each key's total is its entry in the loop's dictionary, or zero when the dictionary has no entry for it |
| Aggregation.TotalsByKeyDomain | output/plot.js:105-110 | the dictionary and the pushed key list always name the same keys |
| Aggregation.TotalsByKeySpec | output/plot.js:100-111 | the dictionary has an entry for exactly the column's values, each holding that value's total |
| Aggregation.Accumulate | output/plot.js:100-111 | the loop returns the keys in first-seen order, a map defined exactly on the column's values, and each key's summed sales |
| Aggregation.TotalsOf | output/plot.js:116-119 | reading the map back in label order gives one total per label, each the label's total |
| Sorting.SortStrings | output/plot.js:52 | `sort()` with no comparator, as an insertion sort (equal strings are identical, so stability does not arise); specified by `SortStringsSpec` and `SortDistinctStrings` |
| Sorting.Rank | output/plot.js:114-160 | the comparator's key: `totals[k]`, negated for the descending `totals[b] - totals[a]` of line 160; used by `SortByTotal` and `StablySorted` |
| Sorting.SortByTotal | output/plot.js:114-160 | `sort` with comparator `totals[a] - totals[b]` (line 114) or `totals[b] - totals[a]` (line 160), as a stable insertion sort; specified by `SortByTotalSpec` and `SortByTotalKeys` |
| Sorting.StrLeTotal | output/plot.js:52 | any two strings are comparable in the default sort order |
| Sorting.StrLeAntisymmetric | output/plot.js:52 | two strings each ordered before the other are equal |
| Sorting.StrLeTransitive | output/plot.js:52 | the default string order is transitive |
| Sorting.InsertStrSpec | output/plot.js:52 | inserting into an ascending list adds exactly the new string and keeps the list ascending |
| Sorting.SortStringsSpec | output/plot.js:52 | `sort()` returns an ascending rearrangement of its input |
| Sorting.SortDistinctStrings | output/plot.js:52 | sorting distinct strings gives a strictly ascending list with the same elements and length |
| Sorting.InsertByTotalSpec | output/plot.js:114 | inserting a later key into a stably sorted list adds exactly that key and keeps the list stably sorted |
| Sorting.SortByTotalSpec | output/plot.js:114 | the sort by total is a rearrangement ordered by total, with equal totals in their original order |
| Sorting.SortByTotalKeys | output/plot.js:160 | the sort by total keeps exactly the input keys, each once, in stable order (ascending, or descending with `b - a`) |
| Sorting.SortKeysByTotal | output/plot.js:114-160 | the sort call: on keys without repetitions the result holds the same keys, each once, ordered by total with ties in their original order |
| Charts.DateAxis | output/plot.js:52 | `Array.from(new Set(dates)).sort()`: the distinct dates in first-seen order, then sorted; specified by `DateAxisSpec` |
| Charts.TopCount | output/plot.js:162 | the `5` of `slice(0, 5)`; `TopCustomersSeries` ensures the series has `Min(TopCount, customers)` entries |
| Charts.DateAxisSpec | output/plot.js:52 | the date axis lists every date of the rows exactly once, strictly ascending |
| Charts.SalesOn | output/plot.js:56-66 | a type's sales on a date are zero when no row has that date or that type |
| Charts.DailySalesByType | output/plot.js:54-74 | when the coffee types are distinct and cover the rows, the traces at a date add up to all sales on that date |
| Charts.SalesByDate | output/plot.js:55-66 | the per-type loop maps each date to the type's sales on it, and a missing date means the type sold nothing then |
| Charts.FillSeries | output/plot.js:67-74 | the series has one value per axis date: the map's total there, or zero |
| Charts.TotalSalesSeries | output/plot.js:50-83 | one `Charts.Trace` (the `name`, `x`, `y` object of plot.js:76-80) per coffee type, in order, with the shared date axis and, at each date, the type's sales on that date |
| Charts.AscendingTotals | output/plot.js:114-119 | reading totals along a stably ascending key list gives ascending totals with ties in first-seen order |
| Charts.CountrySeriesFacts | output/plot.js:100-119 | from the loop's results: every country once, its total beside it, ascending with ties in first-seen order, and the totals add up to all sales |
| Charts.SalesByCountrySeries | output/plot.js:98-119 | the country series: each country exactly once with its total, ascending by total, equal totals in first-seen order, summing to all sales |
| Charts.TopSelection | output/plot.js:160-162 | the first `k` keys of a stably descending list, reversed, are ascending, and every kept key beats every dropped one |
| Charts.TopSeriesFacts | output/plot.js:160-166 | from the loop's results and the descending sort: min(5, customers) distinct customers with their totals, ascending, none omitted that ranks above a shown one |
| Charts.TopCustomersSeries | output/plot.js:144-166 | min(5, customers) distinct customers with their totals, ascending; every omitted customer totals less than each shown one, or ties and was seen later |

## Left out

- The `Plotly.react` calls, the `layout`, `config` and `BASE_CONFIG` objects, `init` and the trace objects' chart-type fields: rendering through an external library.
- `drawAllPlots`: it only feeds `filterData`'s result to the three chart functions. The model's chart methods take the filtered rows as a parameter, so the composition is the caller's.
- The `classList` calls in `setFilter`: a DOM side effect. `Filters.FilterState.IsActive` states the button's resulting state instead.
- The global `coffeeData` and `coffeeTypes` come from a generated data file. Here they are parameters.
- All of `main.py`: spreadsheet reading, the join of the three sheets and file writing are I/O. Its date format at main.py:131 is kept as `Records.IsMonthStamp`, the precondition of `Records.YearOfMonthStamp`.
- Floating-point sales amounts (`round(quantity * unit_price, 2)` at main.py:138): amounts are natural numbers of cents, so sums and comparisons are exact.
- JavaScript object quirks: `hasOwnProperty`, prototype keys and the loose `==` at output/plot.js:57 are plain map lookups and string equality.
- The in-place `Array.prototype.sort` calls (output/plot.js:52, 114, 160) are library calls with no loop in the source. They are modelled as insertion sorts over sequences, which order the items the same way; the two sorts by total are stable, as `Array.prototype.sort` is. The update in place is not modelled.
- Sorting.StrLe: compares characters as Unicode scalar values, whereas JavaScript compares UTF-16 code units. The orders differ only for characters outside the Basic Multilingual Plane.
- Records.YearOf: counts Unicode scalar values, whereas `substring(0, 4)` counts UTF-16 code units, so a date beginning with a character outside the Basic Multilingual Plane is cut differently. The loader's `YYYY-MM` dates are ASCII, where the two agree.
- Filters.FilterState.SetFilter: the `drawAllPlots()` call at its end is not modelled; see `drawAllPlots` above.
