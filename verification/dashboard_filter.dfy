/**
 * The filter menu (`src/components/dashboard/dashboard-filter.tsx`): a click on
 * an option adds its mapped value to the category's list, unless the value is
 * already there.
 */
module DashboardFilter {
  import opened Wrappers
  import opened Seqs
  import opened Transactions
  import opened JsObject
  import opened Header

  /** No value occurs twice. */
  predicate NoDuplicates(vs: seq<string>)
  {
    forall i, j :: 0 <= i < j < |vs| ==> vs[i] != vs[j]
  }

  /** `filterOptions.find(...)?.valueMap?.[option] ?? option`: the one menu
      category, `transactionType`, maps its two Portuguese labels to the stored
      type names; everything else passes through. */
  function MapOption(category: string, option: string): (v: string)
    ensures category != "transactionType" ==> v == option
    ensures option != "Depósito" && option != "Saque" ==> v == option
  {
    if category == "transactionType" && option == "Depósito" then "deposit"
    else if category == "transactionType" && option == "Saque" then "withdrawal"
    else option
  }

  /** The two options of the menu select exactly the two record types the
      store's type filter compares against. */
  lemma MenuOptionsNameTypes()
    ensures MapOption("transactionType", "Depósito") == TypeName(Deposit)
    ensures MapOption("transactionType", "Saque") == TypeName(Withdrawal)
  {
  }

  /** `handleFilterClick(category, option)`: `Some` of the map handed to
      `onFilterChange`, or `None` when the value is already listed and the
      callback is not called. The caller's map is never changed. */
  function HandleFilterClick(filters: Record, category: string, option: string): (r: Option<Record>)
    ensures var current := Get(filters, category).GetOr([]);
      r.None? <==> MapOption(category, option) in current
    ensures r.Some? ==>
      Get(r.value, category) == Some(Get(filters, category).GetOr([]) + [MapOption(category, option)])
    ensures r.Some? ==> forall k :: k != category ==> Get(r.value, k) == Get(filters, k)
    ensures r.Some? && WellFormed(filters) ==> WellFormed(r.value)
    ensures r.Some? && NoDuplicates(Get(filters, category).GetOr([])) ==>
      NoDuplicates(Get(r.value, category).value)
  {
    var mapped := MapOption(category, option);
    var current := Get(filters, category).GetOr([]);
    if mapped in current then None
    else Some(Put(filters, category, current + [mapped]))
  }

  /** Clicking the same option twice adds it once. */
  lemma SecondClickIgnored(filters: Record, category: string, option: string)
    requires HandleFilterClick(filters, category, option).Some?
    ensures HandleFilterClick(HandleFilterClick(filters, category, option).value, category, option).None?
  {
  }

  /** Removing the chip of a value just added (`removeFilter` in the header)
      gives back the filters as they were, provided no list was already empty. */
  lemma ClickThenRemove(dates: seq<int>, filters: Record, category: string, option: string)
    requires category != "date"
    requires WellFormed(filters)
    requires Get(filters, category) != Some([])
    requires HandleFilterClick(filters, category, option).Some?
    ensures RemoveFilter(HeaderState(dates, HandleFilterClick(filters, category, option).value),
                         category, MapOption(category, option))
         == Ok(HeaderState(dates, filters))
  {
    var v := MapOption(category, option);
    var current := Get(filters, category).GetOr([]);
    var clicked := HandleFilterClick(filters, category, option).value;
    assert clicked == Put(filters, category, current + [v]);
    FilterKeepsAll(current, Without(v));
    FilterAppend(current, [v], Without(v));
    assert Filter([v], Without(v)) == [];
    assert Filter(current + [v], Without(v)) == current;
    if Get(filters, category).None? {
      DeletePutNew(filters, category, current + [v]);
    } else {
      PutPut(filters, category, current + [v], current);
      PutSame(filters, category);
    }
  }
}
