/**
 * The transactions table (`src/components/dashboard/transactions/transactions.tsx`):
 * the option lists of its three selects, the select and clear callbacks that
 * edit the filter object, and the pager under the table.
 */
module TransactionsView {
  import opened Wrappers
  import opened Seqs
  import opened Text
  import opened Transactions
  import opened Store
  import opened Pagination

  // ---------------------------------------------------------------------------
  // Option lists: `Array.from(new Set(values)).sort()`

  datatype Dimension = AccountDim | IndustryDim | StateDim

  function Field(t: Transaction, d: Dimension): string
  {
    match d
    case AccountDim => t.account
    case IndustryDim => t.industry
    case StateDim => t.state
  }

  /** `allTransactions.map((t) => t.<field>)`. */
  function Fields(xs: seq<Transaction>, d: Dimension): seq<string>
  {
    seq(|xs|, i requires 0 <= i < |xs| => Field(xs[i], d))
  }

  /** Strictly ascending in the default sort order, hence without repeats. */
  predicate StrictlySorted(s: seq<string>)
  {
    forall i, j :: 0 <= i < j < |s| ==> Less(s[i], s[j])
  }

  lemma {:induction false} LessAsymmetric(a: string, b: string)
    ensures Less(a, b) ==> !Less(b, a)
    decreases |a|
  {
    if |a| > 0 && |b| > 0 && a[0] == b[0] {
      LessAsymmetric(a[1..], b[1..]);
    }
  }

  /** Below the head of a sorted list is below every element. */
  lemma BelowHead(x: string, s: seq<string>)
    requires StrictlySorted(s) && |s| > 0 && Less(x, s[0])
    ensures forall j :: 0 <= j < |s| ==> Less(x, s[j])
  {
    forall j | 0 < j < |s| ensures Less(x, s[j]) {
      LessTransitive(x, s[0], s[j]);
    }
  }

  /** Adds `x` to a sorted list of distinct values, unless it is there. */
  function InsertSorted(x: string, s: seq<string>): (r: seq<string>)
    requires StrictlySorted(s)
    ensures StrictlySorted(r)
    ensures forall y :: y in r <==> y == x || y in s
  {
    if |s| == 0 then [x]
    else if x == s[0] then s
    else if Less(x, s[0]) then
      BelowHead(x, s);
      [x] + s
    else
      LessTotal(x, s[0]);
      var rest := InsertSorted(x, s[1..]);
      assert forall j :: 0 <= j < |rest| ==> rest[j] in rest;
      [s[0]] + rest
  }

  /** The distinct values of `xs`, sorted. */
  function UniqueSorted(xs: seq<string>): (r: seq<string>)
    ensures StrictlySorted(r)
    ensures forall y :: y in r <==> y in xs
  {
    if |xs| == 0 then []
    else InsertSorted(xs[|xs| - 1], UniqueSorted(xs[..|xs| - 1]))
  }

  /** The options of one select: every value of the field in the loaded period,
      once each, sorted. */
  function Options(all: seq<Transaction>, d: Dimension): (r: seq<string>)
    ensures StrictlySorted(r)
    ensures forall v :: v in r <==> v in Fields(all, d)
  {
    UniqueSorted(Fields(all, d))
  }

  /** A sorted list of distinct values is determined by its members. */
  lemma {:induction false} SortedSetsEqual(a: seq<string>, b: seq<string>)
    requires StrictlySorted(a) && StrictlySorted(b)
    requires forall y :: y in a <==> y in b
    ensures a == b
    decreases |a|
  {
    if |b| > 0 {
      assert b[0] in a;
    }
    if |a| > 0 {
      assert a[0] in b;
      assert |b| > 0;
      assert b[0] in a;
      LessAsymmetric(a[0], b[0]);
      assert a[0] == b[0];
      forall j | 0 < j < |a| ensures a[j] != a[0] {
        LessIrreflexive(a[0]);
      }
      forall j | 0 < j < |b| ensures b[j] != b[0] {
        LessIrreflexive(b[0]);
      }
      forall y ensures y in a[1..] <==> y in b[1..] {
        assert y in a[1..] <==> y in a && y != a[0];
        assert y in b[1..] <==> y in b && y != b[0];
      }
      SortedSetsEqual(a[1..], b[1..]);
    }
  }

  /** The options depend only on which values occur, not on record order or
      multiplicity: any sorted distinct list of exactly those values is the
      option list. */
  lemma OptionsDetermined(all: seq<Transaction>, d: Dimension, r: seq<string>)
    requires StrictlySorted(r)
    requires forall v :: v in r <==> v in Fields(all, d)
    ensures Options(all, d) == r
  {
    SortedSetsEqual(Options(all, d), r);
  }

  // ---------------------------------------------------------------------------
  // Editing the filters

  /** The table's filter object and search term. */
  datatype ViewState = ViewState(filters: FilterSet, searchTerm: string)

  /** The list a select edits. */
  function DimList(f: FilterSet, d: Dimension): Option<seq<string>>
  {
    match d
    case AccountDim => f.accounts
    case IndustryDim => f.industries
    case StateDim => f.states
  }

  /** `clearFilters()`: no dates, every list empty, and an empty search term. */
  function ClearFilters(): (v: ViewState)
    ensures Unconstrained(v.filters) && v.searchTerm == ""
    ensures !Truthy(v.filters.startDate) && !Truthy(v.filters.endDate)
    ensures forall d :: DimList(v.filters, d) == Some([])
    ensures v.filters.transactionTypes == Some([]) && v.filters.currencies == Some([])
  {
    ViewState(FilterSet(None, None, Some([]), Some([]), Some([]), Some([]), Some([])), "")
  }

  /** After clearing, filtering and searching select every record, in order. */
  lemma ClearedSelectsEverything(xs: seq<Transaction>)
    ensures SearchTransactions(FilterTransactions(xs, ClearFilters().filters), ClearFilters().searchTerm) == xs
  {
    UnconstrainedKeepsAll(xs, ClearFilters().filters);
    EmptySearchKeepsAll(xs);
  }

  /** The `onChange` of one select: a chosen value becomes the only one, the
      empty choice ("all") clears the list. */
  function SelectDimension(f: FilterSet, d: Dimension, x: string): (g: FilterSet)
    ensures DimList(g, d) == Some(if x != "" then [x] else [])
    ensures forall d' :: d' != d ==> DimList(g, d') == DimList(f, d')
    ensures g.startDate == f.startDate && g.endDate == f.endDate
    ensures g.transactionTypes == f.transactionTypes && g.currencies == f.currencies
  {
    var chosen := if x != "" then [x] else [];
    match d
    case AccountDim => f.(accounts := Some(chosen))
    case IndustryDim => f.(industries := Some(chosen))
    case StateDim => f.(states := Some(chosen))
  }

  /** A record passes a select's choice iff it passes with that select on "all"
      and, for a real choice, carries the chosen value. */
  lemma SelectKeeps(t: Transaction, f: FilterSet, d: Dimension, x: string)
    ensures Keep(t, SelectDimension(f, d, x)) <==>
            Keep(t, SelectDimension(f, d, "")) && (x == "" || Field(t, d) == x)
  {
  }

  /** The value a select shows, `filters.<list>[0] || ""`; reading `[0]` of an
      absent list is a `TypeError`. */
  function SelectedValue(f: FilterSet, d: Dimension): (r: Result<string>)
    ensures r.Ok? <==> DimList(f, d).Some?
    ensures r.Ok? && |DimList(f, d).value| == 0 ==> r.value == ""
    ensures r.Ok? && |DimList(f, d).value| > 0 ==> r.value == DimList(f, d).value[0]
  {
    match DimList(f, d)
    case None => Err("TypeError: cannot read properties of undefined")
    case Some(list) => Ok(if |list| > 0 then list[0] else "")
  }

  /** A select shows what was last chosen in it. */
  lemma SelectShowsChoice(f: FilterSet, d: Dimension, x: string)
    ensures SelectedValue(SelectDimension(f, d, x), d) == Ok(x)
  {
  }

  // ---------------------------------------------------------------------------
  // The pager

  datatype Button = Previous | Next

  /** The page a click on `b` asks `loadTransactionsPage` for, or `None` when the
      pager is hidden (loading, or nothing displayed) or the button disabled. */
  function RequestedPage(st: HookState, b: Button): (r: Option<int>)
    ensures r.Some? ==> !st.isLoading && |st.displayed| > 0
    ensures !st.isLoading && |st.displayed| > 0 ==>
      (r.Some? <==> if b == Previous then st.currentPage != 1
                    else st.currentPage != TotalPages(st.totalTransactions))
    ensures r.Some? ==> r.value == if b == Previous then st.currentPage - 1 else st.currentPage + 1
  {
    var totalPages := TotalPages(st.totalTransactions);
    if st.isLoading || |st.displayed| == 0 then None
    else match b
      case Previous => if st.currentPage == 1 then None else Some(st.currentPage - 1)
      case Next => if st.currentPage == totalPages then None else Some(st.currentPage + 1)
  }

  /** From a page between 1 and `totalPages`, the buttons only ask for pages in
      that range. */
  lemma RequestsStayInRange(st: HookState, b: Button)
    requires 1 <= st.currentPage <= TotalPages(st.totalTransactions)
    ensures var r := RequestedPage(st, b);
      r.Some? ==> 1 <= r.value <= TotalPages(st.totalTransactions)
  {
  }

  /** As written, "Anterior" goes through `loadTransactionsPage`, which appends:
      from page `p` of a period of at least `p - 1` full pages, the previous
      page's records are added again after those already displayed. */
  lemma PreviousPageAppendsAgain(data: seq<Transaction>, st: HookState, params: Params, now: int)
    requires SamePeriod(params, now)
    requires Consistent(st, data, params, now)
    requires st.currentPage >= 2
    requires |st.all| >= ITEMS_PER_PAGE * (st.currentPage - 1)
    ensures var p := st.currentPage;
      var r := LoadTransactionsPage(data, st, params, now, p - 1);
      && r.currentPage == p - 1
      && |r.displayed| == |st.displayed| + ITEMS_PER_PAGE
      && r.displayed[|st.displayed|..] == st.displayed[ITEMS_PER_PAGE * (p - 2)..ITEMS_PER_PAGE * (p - 1)]
  {
    var p := st.currentPage;
    var (s, e) := InitialBounds(params, now);
    assert PageBounds(params, now) == (Some(s), Some(e));
    var w := Period(data, params, now);
    var lo := ITEMS_PER_PAGE * (p - 2);
    assert (p - 1 - 1) * ITEMS_PER_PAGE == lo;
    assert LoadTransactions(data, ITEMS_PER_PAGE, lo, Some(s), Some(e)) == JsSlice(w, lo, lo + ITEMS_PER_PAGE);
    ShownWindowAgain(st, w);
  }

  /** Page `p - 1` of the list is the run of records the state already shows in
      that position. */
  lemma ShownWindowAgain(st: HookState, w: seq<Transaction>)
    requires ShowsPrefix(st, w)
    requires st.currentPage >= 2
    requires |w| >= ITEMS_PER_PAGE * (st.currentPage - 1)
    ensures var lo := ITEMS_PER_PAGE * (st.currentPage - 2);
      && |st.displayed| >= lo + ITEMS_PER_PAGE
      && JsSlice(w, lo, lo + ITEMS_PER_PAGE) == st.displayed[lo..lo + ITEMS_PER_PAGE]
  {
    var lo, hi := ITEMS_PER_PAGE * (st.currentPage - 2), ITEMS_PER_PAGE * (st.currentPage - 2) + ITEMS_PER_PAGE;
    var k := Min(ITEMS_PER_PAGE * st.currentPage, |w|);
    assert hi <= k;
    assert st.displayed == w[..k];
    assert w[..k][lo..hi] == w[lo..hi];
    assert JsSlice(w, lo, hi) == w[lo..hi];
  }

  /** The pager as evidently intended: a page click replaces the display with
      that page alone, taken from the period the initial load recorded, so it
      reads no clock. The recorded bounds and the period stay as they were. */
  function ShowPage(data: seq<Transaction>, h: PeriodHook, page: int): (r: PeriodHook)
    ensures r.bounds == h.bounds
    ensures r.st.displayed == LoadTransactions(data, ITEMS_PER_PAGE, (page - 1) * ITEMS_PER_PAGE,
                                               Some(h.bounds.0), Some(h.bounds.1))
    ensures forall t :: t in r.st.displayed ==>
      AfterStart(t, Some(h.bounds.0)) && BeforeEnd(t, Some(h.bounds.1))
    ensures r.st.currentPage == page && !r.st.isLoading
    ensures r.st.all == h.st.all && r.st.totalTransactions == h.st.totalTransactions
  {
    var offset := (page - 1) * ITEMS_PER_PAGE;
    WindowWithinBounds(data, ITEMS_PER_PAGE, offset, Some(h.bounds.0), Some(h.bounds.1));
    h.(st := h.st.(displayed := LoadTransactions(data, ITEMS_PER_PAGE, offset, Some(h.bounds.0), Some(h.bounds.1)),
                   currentPage := page, isLoading := false))
  }

  /** With the corrected pager, page `p` of the recorded period shows exactly
      that period's `p`-th run of `ITEMS_PER_PAGE` records, whatever was shown
      before, for every parameter combination and whatever the clock reads at
      the click. */
  lemma ShowPageShowsThatPage(data: seq<Transaction>, h: PeriodHook, params: Params, now: int, page: int)
    requires h.bounds == InitialBounds(params, now)
    requires h.st.all == Period(data, params, now)
    requires page >= 1
    ensures var r := ShowPage(data, h, page);
      && r.st.displayed == JsSlice(h.st.all, ITEMS_PER_PAGE * (page - 1), ITEMS_PER_PAGE * page)
      && |r.st.displayed| <= ITEMS_PER_PAGE
      && r.st.currentPage == page
  {
    assert (page - 1) * ITEMS_PER_PAGE == ITEMS_PER_PAGE * (page - 1);
    assert ITEMS_PER_PAGE * (page - 1) + ITEMS_PER_PAGE == ITEMS_PER_PAGE * page;
  }

  /** No record occurs twice. */
  predicate Distinct(w: seq<Transaction>)
  {
    forall m, n :: 0 <= m < n < |w| ==> w[m] != w[n]
  }

  /** Two different page windows of a list without repeats share no record. */
  lemma WindowsDisjoint(w: seq<Transaction>, p: int, q: int)
    requires Distinct(w)
    requires 1 <= p < q
    ensures var a := JsSlice(w, ITEMS_PER_PAGE * (p - 1), ITEMS_PER_PAGE * p);
      var b := JsSlice(w, ITEMS_PER_PAGE * (q - 1), ITEMS_PER_PAGE * q);
      forall i, j :: 0 <= i < |a| && 0 <= j < |b| ==> a[i] != b[j]
  {
    var a := JsSlice(w, ITEMS_PER_PAGE * (p - 1), ITEMS_PER_PAGE * p);
    var b := JsSlice(w, ITEMS_PER_PAGE * (q - 1), ITEMS_PER_PAGE * q);
    var loA, hiA := SliceIndex(ITEMS_PER_PAGE * (p - 1), |w|), SliceIndex(ITEMS_PER_PAGE * p, |w|);
    var loB := SliceIndex(ITEMS_PER_PAGE * (q - 1), |w|);
    assert hiA <= loB;
    forall i, j | 0 <= i < |a| && 0 <= j < |b| ensures a[i] != b[j] {
      assert a[i] == w[loA + i];
      assert b[j] == w[loB + j];
      assert loA + i < hiA;
    }
  }

  /** With the corrected pager, two different pages of a period without repeated
      records have no record in common. */
  lemma ShownPagesDisjoint(data: seq<Transaction>, h: PeriodHook, params: Params, now: int, p: int, q: int)
    requires h.bounds == InitialBounds(params, now)
    requires h.st.all == Period(data, params, now)
    requires Distinct(h.st.all)
    requires 1 <= p < q
    ensures var a := ShowPage(data, h, p).st.displayed;
      var b := ShowPage(data, h, q).st.displayed;
      forall i, j :: 0 <= i < |a| && 0 <= j < |b| ==> a[i] != b[j]
  {
    ShowPageShowsThatPage(data, h, params, now, p);
    ShowPageShowsThatPage(data, h, params, now, q);
    WindowsDisjoint(h.st.all, p, q);
  }
}
