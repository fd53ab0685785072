/**
 * The record store and its query functions (`src/utils/transactionUtils.ts`):
 * date-bounded loading sorted by date descending, offset/limit windows,
 * counting, the optional type restriction, the six-way conjunctive filter and
 * the case-insensitive search.
 *
 * The dataset is an immutable sequence passed to every function.
 */
module Store {
  import opened Wrappers
  import opened Seqs
  import opened Text
  import opened Transactions

  /** An optional numeric bound. JavaScript only applies it when it is truthy,
      so both an absent bound and the value 0 impose nothing. */
  type Bound = Option<int>

  predicate Truthy(b: Bound)
  {
    b.Some? && b.value != 0
  }

  predicate AfterStart(t: Transaction, start: Bound)
  {
    !Truthy(start) || t.date >= start.value
  }

  predicate BeforeEnd(t: Transaction, end: Bound)
  {
    !Truthy(end) || t.date <= end.value
  }

  predicate InPeriod(t: Transaction, start: Bound, end: Bound)
  {
    AfterStart(t, start) && BeforeEnd(t, end)
  }

  function StartPred(start: Bound): Transaction -> bool
  {
    t => AfterStart(t, start)
  }

  function EndPred(end: Bound): Transaction -> bool
  {
    t => BeforeEnd(t, end)
  }

  function PeriodPred(start: Bound, end: Bound): Transaction -> bool
  {
    t => InPeriod(t, start, end)
  }

  /** The two date passes shared by the three loaders: first `date >= start`,
      then `date <= end`, each skipped when its bound is not truthy. */
  function ByPeriod(xs: seq<Transaction>, start: Bound, end: Bound): (r: seq<Transaction>)
    ensures r == Filter(xs, PeriodPred(start, end))
    ensures forall t :: t in r <==> t in xs && InPeriod(t, start, end)
  {
    FilterFuse(xs, StartPred(start), EndPred(end), PeriodPred(start, end));
    Filter(Filter(xs, StartPred(start)), EndPred(end))
  }

  /** A pass whose bound is not truthy leaves the records as they were. */
  lemma InactiveBoundsKeepAll(xs: seq<Transaction>, start: Bound, end: Bound)
    requires !Truthy(start) && !Truthy(end)
    ensures ByPeriod(xs, start, end) == xs
  {
    FilterKeepsAll(xs, PeriodPred(start, end));
  }

  // ---------------------------------------------------------------------------
  // Sorting by date, most recent first (a stable sort, as `Array.prototype.sort`)

  predicate SortedByDateDesc(xs: seq<Transaction>)
  {
    forall i, j :: 0 <= i < j < |xs| ==> xs[i].date >= xs[j].date
  }

  /** Inserts `x` before the first record that is not more recent than it. */
  function InsertByDate(x: Transaction, s: seq<Transaction>): (r: seq<Transaction>)
    requires SortedByDateDesc(s)
    ensures |r| == |s| + 1
    ensures r[0] == x || (|s| > 0 && r[0] == s[0])
    ensures SortedByDateDesc(r)
    ensures multiset(r) == multiset(s) + multiset{x}
    decreases |s|
  {
    if |s| == 0 || s[0].date <= x.date then [x] + s
    else
      var rest := InsertByDate(x, s[1..]);
      assert s == [s[0]] + s[1..];
      assert rest[0].date <= s[0].date;
      [s[0]] + rest
  }

  /** The records of `xs` sorted by `date`, most recent first. */
  function SortByDateDesc(xs: seq<Transaction>): (r: seq<Transaction>)
    ensures SortedByDateDesc(r)
    ensures multiset(r) == multiset(xs)
    ensures |r| == |xs|
  {
    if |xs| == 0 then []
    else
      assert xs == [xs[0]] + xs[1..];
      InsertByDate(xs[0], SortByDateDesc(xs[1..]))
  }

  function DatePred(d: int): Transaction -> bool
  {
    (t: Transaction) => t.date == d
  }

  /** The records of `xs` dated exactly `d`, in order. */
  function OnDate(xs: seq<Transaction>, d: int): seq<Transaction>
  {
    Filter(xs, DatePred(d))
  }

  lemma {:induction false} InsertByDateStable(x: Transaction, s: seq<Transaction>, d: int)
    requires SortedByDateDesc(s)
    ensures OnDate(InsertByDate(x, s), d) == if x.date == d then [x] + OnDate(s, d) else OnDate(s, d)
    decreases |s|
  {
    if |s| == 0 || s[0].date <= x.date {
      assert ([x] + s)[1..] == s;
    } else {
      InsertByDateStable(x, s[1..], d);
      var rest := InsertByDate(x, s[1..]);
      assert ([s[0]] + rest)[1..] == rest;
    }
  }

  /** The sort is stable: records sharing a date keep their relative order. */
  lemma {:induction false} SortStable(xs: seq<Transaction>, d: int)
    ensures OnDate(SortByDateDesc(xs), d) == OnDate(xs, d)
  {
    if |xs| > 0 {
      SortStable(xs[1..], d);
      InsertByDateStable(xs[0], SortByDateDesc(xs[1..]), d);
    }
  }

  lemma OnDateCons(x: Transaction, xs: seq<Transaction>, d: int)
    ensures OnDate([x] + xs, d) == if x.date == d then [x] + OnDate(xs, d) else OnDate(xs, d)
  {
    assert ([x] + xs)[1..] == xs;
  }

  /** The first record of a date-descending sequence is the most recent. */
  lemma SortedHeadIsLatest(a: seq<Transaction>, y: Transaction)
    requires SortedByDateDesc(a) && y in a
    ensures y.date <= a[0].date
  {
    var k :| 0 <= k < |a| && a[k] == y;
  }

  /** A sequence is empty exactly when it has no record on the date of its
      first element. */
  lemma EmptyIffHeadDateEmpty(b: seq<Transaction>)
    ensures b == [] <==> OnDate(b, if |b| > 0 then b[0].date else 0) == []
  {
    if |b| > 0 {
      assert b[0] in OnDate(b, b[0].date);
    }
  }

  /** Two sequences with the same records on every date are both empty or
      both non-empty. */
  lemma SameDatesBothEmpty(a: seq<Transaction>, b: seq<Transaction>)
    requires forall d :: OnDate(a, d) == OnDate(b, d)
    ensures |a| == 0 <==> |b| == 0
  {
    if |a| > 0 {
      EmptyIffHeadDateEmpty(a);
      assert OnDate(b, a[0].date) != [];
    }
    if |b| > 0 {
      EmptyIffHeadDateEmpty(b);
      assert OnDate(a, b[0].date) != [];
    }
  }

  /** Two date-descending sequences with the same records on every date start
      with the same date. */
  lemma SameLatestDate(a: seq<Transaction>, b: seq<Transaction>)
    requires SortedByDateDesc(a) && SortedByDateDesc(b)
    requires |a| > 0 && |b| > 0
    requires forall d :: OnDate(a, d) == OnDate(b, d)
    ensures a[0].date == b[0].date
  {
    var m, n := a[0].date, b[0].date;
    assert b[0] in OnDate(b, n);
    assert OnDate(a, n) == OnDate(b, n);
    SortedHeadIsLatest(a, b[0]);
    assert a[0] in OnDate(a, m);
    assert OnDate(a, m) == OnDate(b, m);
    SortedHeadIsLatest(b, a[0]);
  }

  /** Equal sequences built by prepending have equal heads and equal tails. */
  lemma ConsInjective<T>(x: T, s: seq<T>, y: T, t: seq<T>)
    requires [x] + s == [y] + t
    ensures x == y && s == t
  {
    assert ([x] + s)[0] == x && ([y] + t)[0] == y;
    assert ([x] + s)[1..] == s && ([y] + t)[1..] == t;
  }

  /** Removing equal heads keeps the records of every date equal. */
  lemma SameDatesTail(a: seq<Transaction>, b: seq<Transaction>)
    requires |a| > 0 && |b| > 0 && a[0].date == b[0].date
    requires forall d :: OnDate(a, d) == OnDate(b, d)
    ensures a[0] == b[0]
    ensures forall d :: OnDate(a[1..], d) == OnDate(b[1..], d)
  {
    var x, y, s, t := a[0], b[0], a[1..], b[1..];
    assert a == [x] + s && b == [y] + t;
    OnDateCons(x, s, x.date);
    OnDateCons(y, t, x.date);
    assert OnDate(a, x.date) == OnDate(b, x.date);
    ConsInjective(x, OnDate(s, x.date), y, OnDate(t, x.date));
    forall d
      ensures OnDate(s, d) == OnDate(t, d)
    {
      OnDateCons(x, s, d);
      OnDateCons(y, t, d);
      assert OnDate(a, d) == OnDate(b, d);
      if x.date == d {
        ConsInjective(x, OnDate(s, d), y, OnDate(t, d));
      }
    }
  }

  /** A date-descending order is determined by the order within each date. */
  lemma {:induction false} SortedUnique(a: seq<Transaction>, b: seq<Transaction>)
    requires SortedByDateDesc(a) && SortedByDateDesc(b)
    requires forall d :: OnDate(a, d) == OnDate(b, d)
    ensures a == b
    decreases |a|
  {
    SameDatesBothEmpty(a, b);
    if |a| > 0 {
      SameLatestDate(a, b);
      SameDatesTail(a, b);
      SortedUnique(a[1..], b[1..]);
      assert a == [a[0]] + a[1..] && b == [b[0]] + b[1..];
    }
  }

  /** Sorting the records of `xs` selected by `p` gives the same sequence
      whether or not `xs` had been sorted beforehand. */
  lemma PresortIrrelevant(xs: seq<Transaction>, p: Transaction -> bool)
    ensures SortByDateDesc(Filter(SortByDateDesc(xs), p)) == SortByDateDesc(Filter(xs, p))
  {
    var lhs := SortByDateDesc(Filter(SortByDateDesc(xs), p));
    var rhs := SortByDateDesc(Filter(xs, p));
    forall d
      ensures OnDate(lhs, d) == OnDate(rhs, d)
    {
      SortStable(Filter(SortByDateDesc(xs), p), d);
      SortStable(Filter(xs, p), d);
      FilterCommutes(SortByDateDesc(xs), p, DatePred(d));
      FilterCommutes(xs, p, DatePred(d));
      SortStable(xs, d);
    }
    SortedUnique(lhs, rhs);
  }

  // ---------------------------------------------------------------------------
  // The three loaders

  /** The optional `transactionTypes` restriction of `loadAllTransactions`:
      absent or empty imposes nothing. */
  predicate OfType(t: Transaction, types: Option<seq<string>>)
  {
    types.None? || |types.value| == 0 || TypeName(t.txType) in types.value
  }

  function TypePred(types: Option<seq<string>>): Transaction -> bool
  {
    t => OfType(t, types)
  }

  function LoadPred(start: Bound, end: Bound, types: Option<seq<string>>): Transaction -> bool
  {
    t => InPeriod(t, start, end) && OfType(t, types)
  }

  /** The type pass after the date passes keeps each record of the period and
      of the listed types as often as it occurs in the dataset. */
  lemma LoadSelection(data: seq<Transaction>, start: Bound, end: Bound, types: Option<seq<string>>)
    ensures forall t :: multiset(Filter(ByPeriod(data, start, end), TypePred(types)))[t] ==
                        if InPeriod(t, start, end) && OfType(t, types) then multiset(data)[t] else 0
  {
    FilterFuse(data, PeriodPred(start, end), TypePred(types), LoadPred(start, end, types));
    forall t
      ensures multiset(Filter(data, LoadPred(start, end, types)))[t] ==
              if InPeriod(t, start, end) && OfType(t, types) then multiset(data)[t] else 0
    {
      FilterCount(data, LoadPred(start, end, types), t);
    }
  }

  /** `loadAllTransactions(startDate, endDate, transactionTypes)`: every record of
      the period (and of the listed types), most recent first. */
  function LoadAll(data: seq<Transaction>, start: Bound, end: Bound, types: Option<seq<string>>)
    : (r: seq<Transaction>)
    ensures SortedByDateDesc(r)
    ensures |r| <= |data|
  {
    SortByDateDesc(Filter(ByPeriod(data, start, end), TypePred(types)))
  }

  /** `LoadAll` holds exactly the matching records of the dataset, each as often
      as it occurs there. */
  lemma LoadAllSelects(data: seq<Transaction>, start: Bound, end: Bound, types: Option<seq<string>>)
    ensures var r := LoadAll(data, start, end, types);
      forall t :: multiset(r)[t] == if InPeriod(t, start, end) && OfType(t, types) then multiset(data)[t] else 0
  {
    LoadSelection(data, start, end, types);
  }

  /** Nothing outside the bounds and types is loaded. */
  lemma LoadAllWithinBounds(data: seq<Transaction>, start: Bound, end: Bound, types: Option<seq<string>>)
    ensures forall t :: t in LoadAll(data, start, end, types) ==>
                        AfterStart(t, start) && BeforeEnd(t, end) && OfType(t, types)
  {
    LoadAllSelects(data, start, end, types);
    var r := LoadAll(data, start, end, types);
    forall t | t in r ensures AfterStart(t, start) && BeforeEnd(t, end) && OfType(t, types) {
      assert multiset(r)[t] > 0;
    }
  }

  /** With no type restriction the type pass keeps everything. */
  lemma LoadAllUntyped(data: seq<Transaction>, start: Bound, end: Bound)
    ensures LoadAll(data, start, end, None) == SortByDateDesc(ByPeriod(data, start, end))
  {
    FilterKeepsAll(ByPeriod(data, start, end), TypePred(None));
  }

  /** `loadTransactions(limit, offset, startDate, endDate)`: the window
      `[offset, offset + limit)` of the period's records, most recent first. */
  function LoadTransactions(data: seq<Transaction>, limit: int, offset: int, start: Bound, end: Bound)
    : (r: seq<Transaction>)
    ensures r == JsSlice(LoadAll(data, start, end, None), offset, offset + limit)
    ensures 0 <= offset && 0 <= limit ==> |r| <= limit
  {
    LoadAllUntyped(data, start, end);
    var sorted := SortByDateDesc(ByPeriod(data, start, end));
    JsSlice(sorted, offset, offset + limit)
  }

  function InBoundsPred(start: Bound, end: Bound): Transaction -> bool
  {
    t => AfterStart(t, start) && BeforeEnd(t, end)
  }

  /** Every record of a window lies within the bounds. */
  lemma WindowWithinBounds(data: seq<Transaction>, limit: int, offset: int, start: Bound, end: Bound)
    ensures forall t :: t in LoadTransactions(data, limit, offset, start, end) ==>
                        AfterStart(t, start) && BeforeEnd(t, end)
  {
    var w := LoadAll(data, start, end, None);
    var inBounds := InBoundsPred(start, end);
    LoadAllWithinBounds(data, start, end, None);
    assert forall t :: t in w ==> inBounds(t);
    SliceKeeps(w, offset, offset + limit, inBounds);
    assert LoadTransactions(data, limit, offset, start, end) == JsSlice(w, offset, offset + limit);
  }

  /** `getTotalTransactionsCount(startDate, endDate)`. */
  function TotalCount(data: seq<Transaction>, start: Bound, end: Bound): (n: nat)
    ensures n == |LoadAll(data, start, end, None)|
  {
    LoadAllUntyped(data, start, end);
    |ByPeriod(data, start, end)|
  }

  /** Consecutive windows tile the sorted period: the window at `offset` followed
      by the window at `offset + limit` is the window of twice the size. */
  lemma WindowsTile(data: seq<Transaction>, limit: nat, offset: nat, start: Bound, end: Bound)
    ensures LoadTransactions(data, limit, offset, start, end)
          + LoadTransactions(data, limit, offset + limit, start, end)
         == LoadTransactions(data, 2 * limit, offset, start, end)
  {
    var w := LoadAll(data, start, end, None);
    TileParts(w, LoadTransactions(data, limit, offset, start, end),
              LoadTransactions(data, limit, offset + limit, start, end),
              LoadTransactions(data, 2 * limit, offset, start, end), limit, offset);
  }

  /** The window starting at 0 is the prefix of `LoadAll` of that length. */
  lemma FirstWindowIsPrefix(data: seq<Transaction>, limit: nat, start: Bound, end: Bound)
    ensures var w := LoadAll(data, start, end, None);
      LoadTransactions(data, limit, 0, start, end) == w[..if limit <= |w| then limit else |w|]
  {
  }

  /** Sorting the shared dataset in place (as `.sort` does when no bound is
      truthy) is unobservable: later loads return the same records in the same
      order as loads from the unsorted dataset. */
  lemma InPlaceSortUnobservable(data: seq<Transaction>, start: Bound, end: Bound, types: Option<seq<string>>)
    ensures LoadAll(SortByDateDesc(data), start, end, types) == LoadAll(data, start, end, types)
  {
    var p := LoadPred(start, end, types);
    var sorted := SortByDateDesc(data);
    FilterFuse(sorted, PeriodPred(start, end), TypePred(types), p);
    FilterFuse(data, PeriodPred(start, end), TypePred(types), p);
    PresortIrrelevant(data, p);
  }

  // ---------------------------------------------------------------------------
  // filterTransactions

  /** The filter object of `filterTransactions`; `None` stands for an absent field. */
  datatype FilterSet = FilterSet(
    startDate: Bound,
    endDate: Bound,
    accounts: Option<seq<string>>,
    industries: Option<seq<string>>,
    states: Option<seq<string>>,
    transactionTypes: Option<seq<string>>,
    currencies: Option<seq<string>>)

  /** One list-valued dimension: absent or empty accepts every value. */
  predicate Accepts(list: Option<seq<string>>, v: string)
  {
    list.None? || |list.value| == 0 || v in list.value
  }

  /** The six conjuncts of the filter callback. */
  predicate Keep(t: Transaction, f: FilterSet)
  {
    && InPeriod(t, f.startDate, f.endDate)
    && Accepts(f.accounts, t.account)
    && Accepts(f.industries, t.industry)
    && Accepts(f.states, t.state)
    && Accepts(f.transactionTypes, TypeName(t.txType))
    && Accepts(f.currencies, t.currency)
  }

  function KeepPred(f: FilterSet): Transaction -> bool
  {
    t => Keep(t, f)
  }

  /** `filterTransactions(transactions, filters)`. */
  function FilterTransactions(xs: seq<Transaction>, f: FilterSet): (r: seq<Transaction>)
    ensures IsSubseq(r, xs)
    ensures forall t :: t in r <==> t in xs && Keep(t, f)
    ensures forall t :: multiset(r)[t] == if Keep(t, f) then multiset(xs)[t] else 0
  {
    FilterIsSubseq(xs, KeepPred(f));
    forall t ensures multiset(Filter(xs, KeepPred(f)))[t] == if Keep(t, f) then multiset(xs)[t] else 0 {
      FilterCount(xs, KeepPred(f), t);
    }
    Filter(xs, KeepPred(f))
  }

  /** Filtering an already filtered list with the same filters changes nothing. */
  lemma FilterTransactionsIdempotent(xs: seq<Transaction>, f: FilterSet)
    ensures FilterTransactions(FilterTransactions(xs, f), f) == FilterTransactions(xs, f)
  {
    FilterIdempotent(xs, KeepPred(f));
  }

  /** Every dimension absent or empty. */
  predicate Unconstrained(f: FilterSet)
  {
    && !Truthy(f.startDate) && !Truthy(f.endDate)
    && (f.accounts.None? || |f.accounts.value| == 0)
    && (f.industries.None? || |f.industries.value| == 0)
    && (f.states.None? || |f.states.value| == 0)
    && (f.transactionTypes.None? || |f.transactionTypes.value| == 0)
    && (f.currencies.None? || |f.currencies.value| == 0)
  }

  /** With no dimension populated the filter is the identity. */
  lemma UnconstrainedKeepsAll(xs: seq<Transaction>, f: FilterSet)
    requires Unconstrained(f)
    ensures FilterTransactions(xs, f) == xs
  {
    FilterKeepsAll(xs, KeepPred(f));
  }

  // ---------------------------------------------------------------------------
  // searchTransactions

  /** `account` or `industry`, lower-cased, contains the lower-cased term. */
  predicate MatchesTerm(t: Transaction, term: string)
  {
    Contains(Lower(t.account), Lower(term)) || Contains(Lower(t.industry), Lower(term))
  }

  function TermPred(term: string): Transaction -> bool
  {
    t => MatchesTerm(t, term)
  }

  /** `searchTransactions(transactions, searchTerm)`. */
  function SearchTransactions(xs: seq<Transaction>, term: string): (r: seq<Transaction>)
    ensures IsSubseq(r, xs)
    ensures forall t :: t in r <==> t in xs && MatchesTerm(t, term)
    ensures forall t :: multiset(r)[t] == if MatchesTerm(t, term) then multiset(xs)[t] else 0
  {
    FilterIsSubseq(xs, TermPred(term));
    forall t ensures multiset(Filter(xs, TermPred(term)))[t] == if MatchesTerm(t, term) then multiset(xs)[t] else 0 {
      FilterCount(xs, TermPred(term), t);
    }
    Filter(xs, TermPred(term))
  }

  /** The empty term matches every record. */
  lemma EmptySearchKeepsAll(xs: seq<Transaction>)
    ensures SearchTransactions(xs, "") == xs
  {
    forall i | 0 <= i < |xs| ensures MatchesTerm(xs[i], "") {
      ContainsEmpty(Lower(xs[i].account));
    }
    FilterKeepsAll(xs, TermPred(""));
  }

  /** The case of the term does not matter. */
  lemma SearchIgnoresTermCase(xs: seq<Transaction>, term: string)
    ensures SearchTransactions(xs, term) == SearchTransactions(xs, Lower(term))
  {
    LowerIdempotent(term);
    FilterExtensional(xs, TermPred(term), TermPred(Lower(term)));
  }

  /** Search applied after the filters selects the same records, in the same
      order, as the filters applied after the search. */
  lemma SearchAndFilterCommute(xs: seq<Transaction>, f: FilterSet, term: string)
    ensures SearchTransactions(FilterTransactions(xs, f), term)
         == FilterTransactions(SearchTransactions(xs, term), f)
  {
    FilterCommutes(xs, KeepPred(f), TermPred(term));
  }
}
