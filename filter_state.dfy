/**
 * The four filter arrays of the dashboard and `setFilter`, which toggles one
 * value in the array named by the button that was pressed.
 */
module Filters {
  import opened Sequences
  import opened Records
  import FilterEngine

  /** `s.filter(t => t !== v)`: every occurrence of `v` removed, the rest in order. */
  function Without(s: seq<string>, v: string): (r: seq<string>)
    ensures v !in r
    ensures forall u :: u != v ==> multiset(r)[u] == multiset(s)[u]
    ensures IsSubseq(r, s)
    ensures v !in s ==> r == s
  {
    if s == [] then []
    else
      var p, last := s[..|s| - 1], s[|s| - 1];
      assert s == p + [last];
      var q := Without(p, v);
      if last == v then q
      else
        assert (q + [last])[..|q|] == q;
        q + [last]
  }

  /** One toggle of a filter array: remove `v` if it is there, otherwise append it. */
  function Toggled(s: seq<string>, v: string): seq<string>
  {
    if v in s then Without(s, v) else s + [v]
  }

  /** After a toggle `v` is listed exactly when it was not before; any other value keeps its count. */
  lemma ToggledMembership(s: seq<string>, v: string)
    ensures v in Toggled(s, v) <==> v !in s
    ensures forall u :: u != v ==> multiset(Toggled(s, v))[u] == multiset(s)[u]
  {
  }

  /** Adding a value that was absent and toggling it again restores the array exactly. */
  lemma {:induction false} ToggleTwiceAbsent(s: seq<string>, v: string)
    requires v !in s
    ensures Toggled(Toggled(s, v), v) == s
  {
    var t := s + [v];
    assert t[..|s|] == s;
    assert Without(t, v) == Without(s, v);
  }

  /**
   * On an array without repetitions, toggling the same value twice gives back
   * the same values (a removed value comes back at the end).
   */
  lemma ToggleTwiceDistinct(s: seq<string>, v: string)
    requires Distinct(s)
    ensures multiset(Toggled(Toggled(s, v), v)) == multiset(s)
  {
    if v in s {
      var w := Without(s, v);
      DistinctCount(s, v);
      assert Toggled(Toggled(s, v), v) == w + [v];
      assert forall u :: multiset(w + [v])[u] == multiset(s)[u];
    } else {
      ToggleTwiceAbsent(s, v);
    }
  }

  /** Toggling never introduces a repetition. */
  lemma ToggledDistinct(s: seq<string>, v: string)
    requires Distinct(s)
    ensures Distinct(Toggled(s, v))
  {
    var t := Toggled(s, v);
    forall x ensures multiset(t)[x] <= 1 {
      DistinctCount(s, x);
    }
    CountsAtMostOne(t);
  }

  /** A filter dimension name the buttons use. */
  predicate IsDimension(filterName: string)
  {
    filterName in {"year", "roast", "size", "loyalty"}
  }

  /** The four filter arrays; an empty array leaves its dimension unrestricted. */
  class FilterState {
    var yearFilters: seq<string>
    var roastFilters: seq<string>
    var sizeFilters: seq<string>
    var loyaltyFilters: seq<string>

    /** No filter array lists a value twice: `setFilter` only ever removes a present value or appends an absent one. */
    predicate Valid()
      reads this
    {
      Distinct(yearFilters) && Distinct(roastFilters) && Distinct(sizeFilters) && Distinct(loyaltyFilters)
    }

    constructor ()
      ensures yearFilters == [] && roastFilters == [] && sizeFilters == [] && loyaltyFilters == []
      ensures Valid()
    {
      yearFilters, roastFilters, sizeFilters, loyaltyFilters := [], [], [], [];
    }

    /** The array named by `filterName`, or the empty array for a name that is not a dimension. */
    function ArrayNamed(filterName: string): seq<string>
      reads this
    {
      if filterName == "year" then yearFilters
      else if filterName == "roast" then roastFilters
      else if filterName == "size" then sizeFilters
      else if filterName == "loyalty" then loyaltyFilters
      else []
    }

    /** Whether value `v` is currently selected in dimension `filterName` (the button's active state). */
    predicate IsActive(filterName: string, v: string)
      reads this
    {
      v in ArrayNamed(filterName)
    }

    /** `filterData()` over the current selection: the records passing every non-empty array. */
    function Filtered(rows: seq<Record>): (out: seq<Record>)
      reads this
      ensures out == FilterEngine.Selected(rows, yearFilters, roastFilters, sizeFilters, loyaltyFilters)
    {
      FilterEngine.ConjunctionLaw(rows, yearFilters, roastFilters, sizeFilters, loyaltyFilters);
      FilterEngine.FilterData(rows, yearFilters, roastFilters, sizeFilters, loyaltyFilters)
    }

    /**
     * Toggle `filterValue` in the array named by `filterName`. Only that array
     * changes; an unknown name changes nothing.
     */
    method SetFilter(filterName: string, filterValue: string)
      modifies this
      ensures yearFilters == if filterName == "year" then Toggled(old(yearFilters), filterValue) else old(yearFilters)
      ensures roastFilters == if filterName == "roast" then Toggled(old(roastFilters), filterValue) else old(roastFilters)
      ensures sizeFilters == if filterName == "size" then Toggled(old(sizeFilters), filterValue) else old(sizeFilters)
      ensures loyaltyFilters == if filterName == "loyalty" then Toggled(old(loyaltyFilters), filterValue) else old(loyaltyFilters)
      ensures IsDimension(filterName) ==> (IsActive(filterName, filterValue) <==> !old(IsActive(filterName, filterValue)))
      ensures !IsDimension(filterName) ==> unchanged(this)
      ensures old(Valid()) ==> Valid()
    {
      if Valid() {
        ToggledDistinct(yearFilters, filterValue);
        ToggledDistinct(roastFilters, filterValue);
        ToggledDistinct(sizeFilters, filterValue);
        ToggledDistinct(loyaltyFilters, filterValue);
      }
      if filterName == "year" {
        if filterValue in yearFilters {
          yearFilters := Without(yearFilters, filterValue);
        } else {
          yearFilters := yearFilters + [filterValue];
        }
      } else if filterName == "roast" {
        if filterValue in roastFilters {
          roastFilters := Without(roastFilters, filterValue);
        } else {
          roastFilters := roastFilters + [filterValue];
        }
      } else if filterName == "size" {
        if filterValue in sizeFilters {
          sizeFilters := Without(sizeFilters, filterValue);
        } else {
          sizeFilters := sizeFilters + [filterValue];
        }
      } else if filterName == "loyalty" {
        if filterValue in loyaltyFilters {
          loyaltyFilters := Without(loyaltyFilters, filterValue);
        } else {
          loyaltyFilters := loyaltyFilters + [filterValue];
        }
      }
    }
  }

  /** Turning a year filter on and then off again brings the selection back to what it was. */
  method YearToggleRoundTrip(state: FilterState, rows: seq<Record>, year: string)
    requires year !in state.yearFilters
    modifies state
    ensures state.yearFilters == old(state.yearFilters) && state.roastFilters == old(state.roastFilters)
    ensures state.sizeFilters == old(state.sizeFilters) && state.loyaltyFilters == old(state.loyaltyFilters)
    ensures state.Filtered(rows) == old(state.Filtered(rows))
  {
    state.SetFilter("year", year);
    state.SetFilter("year", year);
    ToggleTwiceAbsent(old(state.yearFilters), year);
  }

  /** From any reachable state, clicking the same button twice gives back the array's values and keeps the state valid. */
  method ToggleRoundTrip(state: FilterState, filterName: string, v: string)
    requires state.Valid() && IsDimension(filterName)
    modifies state
    ensures state.Valid()
    ensures multiset(state.ArrayNamed(filterName)) == old(multiset(state.ArrayNamed(filterName)))
    ensures forall name :: name != filterName ==> state.ArrayNamed(name) == old(state.ArrayNamed(name))
  {
    ghost var before := state.ArrayNamed(filterName);
    state.SetFilter(filterName, v);
    state.SetFilter(filterName, v);
    ToggleTwiceDistinct(before, v);
  }
}
