/**
 * The pagination state of the transactions hook (`src/hooks/useTransactions.ts`)
 * as a record, with each callback a transition over it.
 *
 * The URL parameters arrive already parsed (`None` when a parameter is absent)
 * and the clock reading `now` is a parameter of every transition.
 */
module Pagination {
  import opened Wrappers
  import opened Seqs
  import opened Transactions
  import opened Store

  const ITEMS_PER_PAGE: nat := 10
  const DEFAULT_DAYS: nat := 30

  /** The parsed `startDate` / `endDate` query parameters. */
  datatype Params = Params(startDate: Option<int>, endDate: Option<int>)

  /** The hook's state variables. */
  datatype HookState = HookState(
    displayed: seq<Transaction>,
    all: seq<Transaction>,
    currentPage: int,
    isLoading: bool,
    totalTransactions: nat)

  /** The `useState` initial values. */
  function InitialState(): HookState
  {
    HookState([], [], 1, false, 0)
  }

  function Min(a: int, b: int): int
  {
    if a <= b then a else b
  }

  /** `Math.ceil(totalTransactions / ITEMS_PER_PAGE)`. */
  function TotalPages(total: nat): (p: nat)
    ensures p * ITEMS_PER_PAGE >= total
    ensures total > 0 ==> (p - 1) * ITEMS_PER_PAGE < total
    ensures p == 0 <==> total == 0
  {
    (total + ITEMS_PER_PAGE - 1) / ITEMS_PER_PAGE
  }

  /** The bounds `loadTransactionsPage` passes to the store: the start parameter
      as given (no lower bound when it is absent) and the end parameter, or
      `now`, moved to the end of its day when it is truthy. */
  function PageBounds(params: Params, now: int): (b: (Bound, Bound))
    ensures b.0 == params.startDate
    ensures params.endDate.GetOr(now) != 0 ==> b.1 == Some(EndOfDay(params.endDate.GetOr(now)))
    ensures params.endDate.GetOr(now) == 0 ==> !Truthy(b.1)
  {
    var end := params.endDate.GetOr(now);
    (params.startDate, Some(if end != 0 then EndOfDay(end) else end))
  }

  /** `loadTransactionsPage(page)`: appends the page's window of the store's
      list to the displayed records and makes `page` current. */
  function LoadTransactionsPage(data: seq<Transaction>, st: HookState, params: Params, now: int, page: int)
    : (r: HookState)
    ensures r.displayed == st.displayed + LoadTransactions(data, ITEMS_PER_PAGE, (page - 1) * ITEMS_PER_PAGE,
                                                           params.startDate, PageBounds(params, now).1)
    ensures r.currentPage == page && !r.isLoading
    ensures r.all == st.all && r.totalTransactions == st.totalTransactions
  {
    var (s, e) := PageBounds(params, now);
    var pageTransactions := LoadTransactions(data, ITEMS_PER_PAGE, (page - 1) * ITEMS_PER_PAGE, s, e);
    st.(displayed := st.displayed + pageTransactions, currentPage := page, isLoading := false)
  }

  /** A page load keeps the records already displayed, adds at most one page,
      and every added record lies within the page bounds. */
  lemma PageAppendsBoundedWindow(data: seq<Transaction>, st: HookState, params: Params, now: int, page: int)
    ensures var r := LoadTransactionsPage(data, st, params, now, page);
      && |st.displayed| <= |r.displayed| <= |st.displayed| + ITEMS_PER_PAGE
      && r.displayed[..|st.displayed|] == st.displayed
      && var (s, e) := PageBounds(params, now);
         forall t :: t in r.displayed[|st.displayed|..] ==> AfterStart(t, s) && BeforeEnd(t, e)
  {
    var r := LoadTransactionsPage(data, st, params, now, page);
    var offset := (page - 1) * ITEMS_PER_PAGE;
    var (s, e) := PageBounds(params, now);
    var window := LoadTransactions(data, ITEMS_PER_PAGE, offset, s, e);
    WindowWithinBounds(data, ITEMS_PER_PAGE, offset, s, e);
    assert r.displayed[..|st.displayed|] == st.displayed;
    assert r.displayed[|st.displayed|..] == window;
  }

  /** The period `loadInitialTransactions` loads: the end parameter (or `now`)
      moved to the end of its day, and the start parameter, or `DEFAULT_DAYS`
      days before that end when the start is absent or zero. */
  function InitialBounds(params: Params, now: int): (b: (int, int))
    ensures b.1 == EndOfDay(params.endDate.GetOr(now))
    ensures params.startDate.Some? && params.startDate.value != 0 ==> b.0 == params.startDate.value
    ensures !(params.startDate.Some? && params.startDate.value != 0) ==> b.0 == b.1 - DEFAULT_DAYS * DAY_MS
  {
    var end := EndOfDay(params.endDate.GetOr(now));
    var start := if params.startDate.Some? && params.startDate.value != 0 then params.startDate.value
                 else end - DEFAULT_DAYS * 24 * 60 * 60 * 1000;
    (start, end)
  }

  /** The full period of the initial load, most recent first. */
  function Period(data: seq<Transaction>, params: Params, now: int): seq<Transaction>
  {
    var (s, e) := InitialBounds(params, now);
    LoadAll(data, Some(s), Some(e), None)
  }

  /** `loadInitialTransactions()`: the first page replaces the displayed records,
      the whole period and its count are stored, and page 1 becomes current. */
  function LoadInitialTransactions(data: seq<Transaction>, st: HookState, params: Params, now: int)
    : (r: HookState)
    ensures r.all == Period(data, params, now)
    ensures r.totalTransactions == |r.all|
    ensures |r.displayed| <= ITEMS_PER_PAGE
    ensures r.displayed == r.all[..Min(ITEMS_PER_PAGE, |r.all|)]
    ensures r.currentPage == 1 && !r.isLoading
  {
    var (start, end) := InitialBounds(params, now);
    var total := TotalCount(data, Some(start), Some(end));
    var initial := LoadTransactions(data, ITEMS_PER_PAGE, 0, Some(start), Some(end));
    var all := LoadAll(data, Some(start), Some(end), None);
    FirstWindowIsPrefix(data, ITEMS_PER_PAGE, Some(start), Some(end));
    HookState(initial, all, 1, false, total)
  }

  /** `loadMoreTransactions()`: ignored while a load is in progress, otherwise
      the page after the current one. */
  function LoadMoreTransactions(data: seq<Transaction>, st: HookState, params: Params, now: int)
    : (r: HookState)
    ensures st.isLoading ==> r == st
    ensures !st.isLoading ==> r == LoadTransactionsPage(data, st, params, now, st.currentPage + 1)
  {
    if !st.isLoading then LoadTransactionsPage(data, st, params, now, st.currentPage + 1) else st
  }

  // ---------------------------------------------------------------------------
  // Pages of the same period concatenate to the period

  /** The state shows the first `currentPage` pages of the list `w`, which it
      holds as the whole period. */
  predicate ShowsPrefix(st: HookState, w: seq<Transaction>)
  {
    && st.all == w
    && st.totalTransactions == |w|
    && st.currentPage >= 1
    && !st.isLoading
    && st.displayed == w[..Min(ITEMS_PER_PAGE * st.currentPage, |w|)]
  }

  /** The state shows the first `currentPage` pages of the period loaded at the
      clock reading `now`. */
  predicate Consistent(st: HookState, data: seq<Transaction>, params: Params, now: int)
  {
    ShowsPrefix(st, Period(data, params, now))
  }

  /** Later pages use the same period as the initial load: the start parameter
      is truthy and the end (parameter or clock) is not zero. */
  predicate SamePeriod(params: Params, now: int)
  {
    params.startDate.Some? && params.startDate.value != 0 && params.endDate.GetOr(now) != 0
  }

  /** A "load more" at the clock reading `later` uses the period of an initial
      load at `now`: both readings give the same period, and without an
      `endDate` parameter they fall on the same day. */
  predicate SameDayPeriod(params: Params, now: int, later: int)
  {
    && SamePeriod(params, now)
    && SamePeriod(params, later)
    && (params.endDate.Some? || DayStart(later) == DayStart(now))
  }

  /** Clock readings on the same day (or an explicit end date) give the same
      period and the same page bounds. */
  lemma SameDayPeriodAgrees(data: seq<Transaction>, params: Params, now: int, later: int)
    requires SameDayPeriod(params, now, later)
    ensures InitialBounds(params, later) == InitialBounds(params, now)
    ensures Period(data, params, later) == Period(data, params, now)
    ensures PageBounds(params, later) == PageBounds(params, now)
  {
    assert EndOfDay(params.endDate.GetOr(later)) == EndOfDay(params.endDate.GetOr(now));
  }

  /** The initial load sets every state variable, so what was shown before it,
      the `useState` initial values included, leaves no trace. */
  lemma InitialLoadIgnoresPriorState(data: seq<Transaction>, st: HookState, params: Params, now: int)
    ensures LoadInitialTransactions(data, st, params, now) == LoadInitialTransactions(data, InitialState(), params, now)
  {
  }

  lemma InitialLoadConsistent(data: seq<Transaction>, st: HookState, params: Params, now: int)
    ensures Consistent(LoadInitialTransactions(data, st, params, now), data, params, now)
  {
  }

  /** Appending the window right after the shown prefix shows one page more. */
  lemma AppendNextWindow(st: HookState, w: seq<Transaction>)
    requires ShowsPrefix(st, w)
    ensures var p := st.currentPage;
      ShowsPrefix(st.(displayed := st.displayed + JsSlice(w, ITEMS_PER_PAGE * p, ITEMS_PER_PAGE * p + ITEMS_PER_PAGE),
                      currentPage := p + 1, isLoading := false), w)
  {
    SliceExtendsPrefix(w, ITEMS_PER_PAGE * st.currentPage, ITEMS_PER_PAGE);
  }

  /** When a later clock reading gives the initial period, loading more at that
      reading extends the displayed prefix of the period by exactly one page. */
  lemma LoadMoreExtendsPrefix(data: seq<Transaction>, st: HookState, params: Params, now: int, later: int)
    requires SameDayPeriod(params, now, later)
    requires Consistent(st, data, params, now)
    ensures Consistent(LoadMoreTransactions(data, st, params, later), data, params, now)
    ensures LoadMoreTransactions(data, st, params, later).currentPage == st.currentPage + 1
  {
    SameDayPeriodAgrees(data, params, now, later);
    var (s, e) := InitialBounds(params, now);
    assert PageBounds(params, later) == (Some(s), Some(e));
    NextPeriodWindow(data, st, params, now, s, e);
  }

  /** Appending the store window of the next page, taken with the period's own
      bounds, shows one more page of the period. */
  lemma NextPeriodWindow(data: seq<Transaction>, st: HookState, params: Params, now: int, s: int, e: int)
    requires (s, e) == InitialBounds(params, now)
    requires Consistent(st, data, params, now)
    ensures var p := st.currentPage;
      Consistent(st.(displayed := st.displayed + LoadTransactions(data, ITEMS_PER_PAGE, (p + 1 - 1) * ITEMS_PER_PAGE, Some(s), Some(e)),
                     currentPage := p + 1, isLoading := false), data, params, now)
  {
    var w := Period(data, params, now);
    var p := st.currentPage;
    assert (p + 1 - 1) * ITEMS_PER_PAGE == ITEMS_PER_PAGE * p;
    var window := JsSlice(w, ITEMS_PER_PAGE * p, ITEMS_PER_PAGE * p + ITEMS_PER_PAGE);
    assert LoadTransactions(data, ITEMS_PER_PAGE, ITEMS_PER_PAGE * p, Some(s), Some(e)) == window;
    AppendNextWindow(st, w);
  }

  /** Once the current page reaches `totalPages`, every record of the period is
      displayed exactly once, in order. */
  lemma AllPagesShowPeriod(data: seq<Transaction>, st: HookState, params: Params, now: int)
    requires Consistent(st, data, params, now)
    requires st.currentPage >= TotalPages(st.totalTransactions)
    ensures st.displayed == st.all
  {
    var n := st.totalTransactions;
    var p := TotalPages(n);
    assert ITEMS_PER_PAGE * st.currentPage >= ITEMS_PER_PAGE * p;
  }

  /** One step `f(s, c)` per clock reading `c` of `clocks`, in order. */
  function Run<S>(f: (S, int) -> S, s: S, clocks: seq<int>): S
    decreases |clocks|
  {
    if |clocks| == 0 then s else Run(f, f(s, clocks[0]), clocks[1..])
  }

  /** A property that each step keeps at an admissible reading, while advancing a
      counter by one, holds after a run over admissible readings, with the counter
      advanced by their number. */
  lemma {:induction false} RunKeeps<S>(f: (S, int) -> S, inv: S -> bool, rank: S -> int, ok: int -> bool,
                                       s: S, clocks: seq<int>)
    requires inv(s)
    requires forall i :: 0 <= i < |clocks| ==> ok(clocks[i])
    requires forall x, c :: inv(x) && ok(c) ==> inv(f(x, c)) && rank(f(x, c)) == rank(x) + 1
    ensures inv(Run(f, s, clocks)) && rank(Run(f, s, clocks)) == rank(s) + |clocks|
    decreases |clocks|
  {
    if |clocks| > 0 {
      var c := clocks[0];
      assert inv(s) && ok(c);
      assert inv(f(s, c)) && rank(f(s, c)) == rank(s) + 1;
      assert forall i :: 0 <= i < |clocks[1..]| ==> ok(clocks[1..][i]) by {
        forall i | 0 <= i < |clocks[1..]| ensures ok(clocks[1..][i]) {
          assert clocks[1..][i] == clocks[i + 1];
        }
      }
      RunKeeps(f, inv, rank, ok, f(s, c), clocks[1..]);
    }
  }

  function LoadMoreStep(data: seq<Transaction>, params: Params): (HookState, int) -> HookState
  {
    (st, now) => LoadMoreTransactions(data, st, params, now)
  }

  /** Successive calls of `loadMoreTransactions`, the i-th reading the clock as
      `clocks[i]`. */
  function LoadMoreTimes(data: seq<Transaction>, st: HookState, params: Params, clocks: seq<int>): HookState
  {
    Run(LoadMoreStep(data, params), st, clocks)
  }

  /** From a consistent state, loads of more at clock readings that all give the
      initial period keep the state consistent and advance it by one page each. */
  lemma LoadMoreKeepsConsistent(data: seq<Transaction>, s0: HookState, params: Params, now: int, clocks: seq<int>)
    requires forall i :: 0 <= i < |clocks| ==> SameDayPeriod(params, now, clocks[i])
    requires Consistent(s0, data, params, now)
    ensures Consistent(LoadMoreTimes(data, s0, params, clocks), data, params, now)
    ensures LoadMoreTimes(data, s0, params, clocks).currentPage == s0.currentPage + |clocks|
  {
    var f := LoadMoreStep(data, params);
    var inv := (st: HookState) => Consistent(st, data, params, now);
    var rank := (st: HookState) => st.currentPage;
    var ok := (c: int) => SameDayPeriod(params, now, c);
    forall x, c | inv(x) && ok(c)
      ensures inv(f(x, c)) && rank(f(x, c)) == rank(x) + 1
    {
      LoadMoreExtendsPrefix(data, x, params, now, c);
    }
    RunKeeps(f, inv, rank, ok, s0, clocks);
  }

  /** After the initial load and one load of more per clock reading, the first
      pages of the period are displayed, in order and without gaps. */
  lemma PagesConcatenate(data: seq<Transaction>, st: HookState, params: Params, now: int, clocks: seq<int>)
    requires forall i :: 0 <= i < |clocks| ==> SameDayPeriod(params, now, clocks[i])
    ensures var r := LoadMoreTimes(data, LoadInitialTransactions(data, st, params, now), params, clocks);
      Consistent(r, data, params, now) && r.currentPage == |clocks| + 1
  {
    var init := LoadInitialTransactions(data, st, params, now);
    InitialLoadConsistent(data, st, params, now);
    LoadMoreKeepsConsistent(data, init, params, now, clocks);
  }

  /** Scrolling to page `totalPages` displays every record of the period exactly
      once. */
  lemma ScrollingToLastPageShowsPeriod(data: seq<Transaction>, st: HookState, params: Params, now: int,
                                       clocks: seq<int>)
    requires forall i :: 0 <= i < |clocks| ==> SameDayPeriod(params, now, clocks[i])
    requires |clocks| + 1 >= TotalPages(|Period(data, params, now)|)
    ensures var init := LoadInitialTransactions(data, st, params, now);
      LoadMoreTimes(data, init, params, clocks).displayed == init.all
  {
    var init := LoadInitialTransactions(data, st, params, now);
    PagesConcatenate(data, st, params, now, clocks);
    var r := LoadMoreTimes(data, init, params, clocks);
    AllPagesShowPeriod(data, r, params, now);
  }

  /** The second window of a list holding more than one page is not empty. */
  lemma SecondPageNonEmpty(data: seq<Transaction>, s: Bound, e: int)
    requires |LoadAll(data, s, Some(e), None)| > ITEMS_PER_PAGE
    ensures |LoadTransactions(data, ITEMS_PER_PAGE, ITEMS_PER_PAGE, s, Some(e))| > 0
  {
    SecondWindowNonEmpty(LoadAll(data, s, Some(e), None));
  }

  lemma SecondWindowNonEmpty<T>(w: seq<T>)
    requires |w| > ITEMS_PER_PAGE
    ensures |JsSlice(w, ITEMS_PER_PAGE, ITEMS_PER_PAGE + ITEMS_PER_PAGE)| > 0
  {
    assert JsSlice(w, ITEMS_PER_PAGE, ITEMS_PER_PAGE + ITEMS_PER_PAGE) != [] by {
      assert w[ITEMS_PER_PAGE] in JsSlice(w, ITEMS_PER_PAGE, ITEMS_PER_PAGE + ITEMS_PER_PAGE);
    }
  }

  /** A period holding at most one page is displayed whole by the initial load. */
  lemma SmallPeriodShownWhole(data: seq<Transaction>, st: HookState, params: Params, now: int)
    requires |Period(data, params, now)| <= ITEMS_PER_PAGE
    ensures var init := LoadInitialTransactions(data, st, params, now);
      |init.displayed| == init.totalTransactions == |init.all|
  {
  }

  /** Without a start parameter the initial load covers only the last
      `DEFAULT_DAYS` days while later pages have no lower bound: when that window
      holds at most one page but the unbounded list holds more, loading more
      displays more records than the loaded period contains. */
  lemma LaterPagesIgnoreDefaultWindow(data: seq<Transaction>, st: HookState, params: Params, now: int)
    requires params.startDate.None?
    requires params.endDate.GetOr(now) != 0
    requires |Period(data, params, now)| <= ITEMS_PER_PAGE
    requires |LoadAll(data, None, Some(EndOfDay(params.endDate.GetOr(now))), None)| > ITEMS_PER_PAGE
    ensures var r := LoadMoreTransactions(data, LoadInitialTransactions(data, st, params, now), params, now);
      |r.displayed| > r.totalTransactions && r.totalTransactions == |r.all|
  {
    var init := LoadInitialTransactions(data, st, params, now);
    var e := EndOfDay(params.endDate.GetOr(now));
    assert PageBounds(params, now).1 == Some(e);
    SmallPeriodShownWhole(data, st, params, now);
    SecondPageNonEmpty(data, None, e);
    assert (init.currentPage + 1 - 1) * ITEMS_PER_PAGE == ITEMS_PER_PAGE;
  }

  /** Without an `endDate` parameter every call reads the clock again, so a load
      of more after midnight ends its period a day later than the initial load:
      when the initial period holds at most one page but the period ending at
      the later reading holds more, the display outgrows the loaded period. */
  lemma LaterDayMovesPeriodEnd(data: seq<Transaction>, st: HookState, params: Params, now: int, later: int)
    requires SamePeriod(params, now) && SamePeriod(params, later)
    requires params.endDate.None?
    requires |Period(data, params, now)| <= ITEMS_PER_PAGE
    requires |LoadAll(data, params.startDate, Some(EndOfDay(later)), None)| > ITEMS_PER_PAGE
    ensures var r := LoadMoreTransactions(data, LoadInitialTransactions(data, st, params, now), params, later);
      |r.displayed| > r.totalTransactions && r.totalTransactions == |r.all|
  {
    var init := LoadInitialTransactions(data, st, params, now);
    var e := EndOfDay(later);
    assert PageBounds(params, later).1 == Some(e);
    SmallPeriodShownWhole(data, st, params, now);
    SecondPageNonEmpty(data, params.startDate, e);
    assert (init.currentPage + 1 - 1) * ITEMS_PER_PAGE == ITEMS_PER_PAGE;
  }

  // ---------------------------------------------------------------------------
  // Corrected hook: the period is fixed once, by the initial load

  /** The corrected hook's state: the pagination state together with the period
      bounds computed by the initial load, which every later page reuses. */
  datatype PeriodHook = PeriodHook(st: HookState, bounds: (int, int))

  /** The initial load of the corrected hook, which records its period bounds. */
  function LoadInitialPeriod(data: seq<Transaction>, st: HookState, params: Params, now: int): (h: PeriodHook)
    ensures h.st == LoadInitialTransactions(data, st, params, now)
    ensures h.bounds == InitialBounds(params, now)
  {
    PeriodHook(LoadInitialTransactions(data, st, params, now), InitialBounds(params, now))
  }

  /** The page loader with the recorded bounds of the initial load (the 30-day
      default start included), so that every page is a window of the period the
      first page and the total count were taken from. It reads no clock. */
  function LoadPeriodPage(data: seq<Transaction>, st: HookState, bounds: (int, int), page: int)
    : (r: HookState)
    ensures r.currentPage == page && !r.isLoading
    ensures r.all == st.all && r.totalTransactions == st.totalTransactions
    ensures |st.displayed| <= |r.displayed| <= |st.displayed| + ITEMS_PER_PAGE
    ensures r.displayed[..|st.displayed|] == st.displayed
    ensures r.displayed[|st.displayed|..] == LoadTransactions(data, ITEMS_PER_PAGE, (page - 1) * ITEMS_PER_PAGE,
                                                              Some(bounds.0), Some(bounds.1))
    ensures forall t :: t in r.displayed[|st.displayed|..] ==>
      AfterStart(t, Some(bounds.0)) && BeforeEnd(t, Some(bounds.1))
  {
    var offset := (page - 1) * ITEMS_PER_PAGE;
    var window := LoadTransactions(data, ITEMS_PER_PAGE, offset, Some(bounds.0), Some(bounds.1));
    WindowWithinBounds(data, ITEMS_PER_PAGE, offset, Some(bounds.0), Some(bounds.1));
    assert (st.displayed + window)[|st.displayed|..] == window;
    st.(displayed := st.displayed + window, currentPage := page, isLoading := false)
  }

  /** `loadMoreTransactions` of the corrected hook. */
  function LoadMorePeriod(data: seq<Transaction>, h: PeriodHook): (r: PeriodHook)
    ensures r.bounds == h.bounds
    ensures h.st.isLoading ==> r == h
    ensures !h.st.isLoading ==> r.st == LoadPeriodPage(data, h.st, h.bounds, h.st.currentPage + 1)
  {
    if !h.st.isLoading then h.(st := LoadPeriodPage(data, h.st, h.bounds, h.st.currentPage + 1)) else h
  }

  /** The corrected state shows the first pages of the period its bounds record. */
  predicate PeriodConsistent(h: PeriodHook, data: seq<Transaction>, params: Params, now: int)
  {
    h.bounds == InitialBounds(params, now) && Consistent(h.st, data, params, now)
  }

  /** With the recorded bounds, loading more keeps the display a prefix of the
      period whatever the parameters are. */
  lemma LoadMorePeriodExtendsPrefix(data: seq<Transaction>, h: PeriodHook, params: Params, now: int)
    requires PeriodConsistent(h, data, params, now)
    ensures PeriodConsistent(LoadMorePeriod(data, h), data, params, now)
    ensures LoadMorePeriod(data, h).st.currentPage == h.st.currentPage + 1
  {
    var (s, e) := InitialBounds(params, now);
    NextPeriodWindow(data, h.st, params, now, s, e);
  }

  function LoadMorePeriodStep(data: seq<Transaction>): PeriodHook -> PeriodHook
  {
    h => LoadMorePeriod(data, h)
  }

  /** `n` successive applications of `f`. */
  function Iterate<S>(f: S -> S, s: S, n: nat): S
  {
    if n == 0 then s else f(Iterate(f, s, n - 1))
  }

  /** A property that each step keeps, while advancing a counter by one, holds
      after `n` steps with the counter advanced by `n`. */
  lemma {:induction false} IterateKeeps<S>(f: S -> S, inv: S -> bool, rank: S -> int, s: S, n: nat)
    requires inv(s)
    requires forall x :: inv(x) ==> inv(f(x)) && rank(f(x)) == rank(x) + 1
    ensures inv(Iterate(f, s, n)) && rank(Iterate(f, s, n)) == rank(s) + n
  {
    if n > 0 {
      IterateKeeps(f, inv, rank, s, n - 1);
    }
  }

  /** Any number of corrected "load more" calls keep the display a prefix of the
      recorded period and advance the page by that number, for every parameter
      combination and whatever the clock reads meanwhile. */
  lemma PeriodPagesConsistent(data: seq<Transaction>, h0: PeriodHook, params: Params, now: int, n: nat)
    requires PeriodConsistent(h0, data, params, now)
    ensures var r := Iterate(LoadMorePeriodStep(data), h0, n);
      PeriodConsistent(r, data, params, now) && r.st.currentPage == h0.st.currentPage + n
  {
    var f := LoadMorePeriodStep(data);
    var inv := (x: PeriodHook) => PeriodConsistent(x, data, params, now);
    var rank := (x: PeriodHook) => x.st.currentPage;
    forall x | inv(x)
      ensures inv(f(x)) && rank(f(x)) == rank(x) + 1
    {
      LoadMorePeriodExtendsPrefix(data, x, params, now);
    }
    IterateKeeps(f, inv, rank, h0, n);
  }

  /** After the corrected initial load and any number of further pages, the
      display is the period's first pages; scrolling to the last page shows the
      whole period. */
  lemma PeriodPagesShowPeriod(data: seq<Transaction>, st: HookState, params: Params, now: int, n: nat)
    ensures var h0 := LoadInitialPeriod(data, st, params, now);
      var r := Iterate(LoadMorePeriodStep(data), h0, n);
      && Consistent(r.st, data, params, now)
      && r.st.currentPage == n + 1
      && (n + 1 >= TotalPages(h0.st.totalTransactions) ==> r.st.displayed == h0.st.all)
  {
    var h0 := LoadInitialPeriod(data, st, params, now);
    InitialLoadConsistent(data, st, params, now);
    PeriodPagesConsistent(data, h0, params, now, n);
    var r := Iterate(LoadMorePeriodStep(data), h0, n);
    if n + 1 >= TotalPages(h0.st.totalTransactions) {
      AllPagesShowPeriod(data, r.st, params, now);
    }
  }
}
