/**
 * The derived data of the transactions hook (`src/hooks/useTransactions.ts`):
 * the summary totals (`dashboardData`) and the per-day money-flow series
 * (`moneyFlowData`), both computed over the loaded period.
 */
module Aggregation {
  import opened Seqs
  import opened Transactions

  /** The two running sums: deposits, and everything that is not a deposit. */
  datatype Column = DepositsCol | WithdrawalsCol

  /** What one record adds to a column. */
  function Part(t: Transaction, c: Column): int
  {
    match c
    case DepositsCol => if t.txType == Deposit then t.amount else 0
    case WithdrawalsCol => if t.txType == Deposit then 0 else t.amount
  }

  /** Column total over `xs`, accumulated in iteration order. */
  function Tally(xs: seq<Transaction>, c: Column): int
  {
    if |xs| == 0 then 0 else Tally(xs[..|xs| - 1], c) + Part(xs[|xs| - 1], c)
  }

  function Income(xs: seq<Transaction>): int
  {
    Tally(xs, DepositsCol)
  }

  function Expenses(xs: seq<Transaction>): int
  {
    Tally(xs, WithdrawalsCol)
  }

  /** Plain sum of amounts. */
  function SumAmounts(xs: seq<Transaction>): int
  {
    if |xs| == 0 then 0 else SumAmounts(xs[..|xs| - 1]) + xs[|xs| - 1].amount
  }

  function IsDeposit(): Transaction -> bool
  {
    (t: Transaction) => t.txType == Deposit
  }

  function IsNotDeposit(): Transaction -> bool
  {
    (t: Transaction) => t.txType != Deposit
  }

  datatype Summary = Summary(totalBalance: int, income: int, expenses: int)

  /** `dashboardData`: one pass over the period adding each amount to income or
      to expenses and to or from the balance. */
  method DashboardData(xs: seq<Transaction>) returns (s: Summary)
    ensures s.income == Income(xs)
    ensures s.expenses == Expenses(xs)
    ensures s.totalBalance == s.income - s.expenses
  {
    var totalBalance, income, expenses := 0, 0, 0;
    var i := 0;
    while i < |xs|
      invariant 0 <= i <= |xs|
      invariant income == Income(xs[..i])
      invariant expenses == Expenses(xs[..i])
      invariant totalBalance == income - expenses
    {
      assert xs[..i + 1][..i] == xs[..i];
      var amount := xs[i].amount;
      if xs[i].txType == Deposit {
        income := income + amount;
        totalBalance := totalBalance + amount;
      } else {
        expenses := expenses + amount;
        totalBalance := totalBalance - amount;
      }
      i := i + 1;
    }
    assert xs[..i] == xs;
    s := Summary(totalBalance, income, expenses);
  }

  /** Appending one record to a filtered sum adds its amount when it passes. */
  lemma SumFilterSnoc(p: seq<Transaction>, t: Transaction, keep: Transaction -> bool)
    ensures SumAmounts(Filter(p + [t], keep)) == SumAmounts(Filter(p, keep)) + (if keep(t) then t.amount else 0)
  {
    FilterAppend(p, [t], keep);
    var f := Filter(p, keep);
    if keep(t) {
      assert Filter([t], keep) == [t];
      assert (f + [t])[..|f|] == f;
    } else {
      assert Filter([t], keep) == [];
      assert f + [] == f;
    }
  }

  /** The filtered sum over `xs` is the one over all but its last record, plus
      that record's amount when it passes. */
  lemma SumFilterLast(xs: seq<Transaction>, keep: Transaction -> bool)
    requires |xs| > 0
    ensures SumAmounts(Filter(xs, keep)) ==
            SumAmounts(Filter(xs[..|xs| - 1], keep)) + (if keep(xs[|xs| - 1]) then xs[|xs| - 1].amount else 0)
  {
    var p, t := xs[..|xs| - 1], xs[|xs| - 1];
    SplitLast(xs);
    SumFilterSnoc(p, t, keep);
  }

  /** Income is the sum of the deposits' amounts. */
  lemma {:induction false} IncomeIsDepositSum(xs: seq<Transaction>)
    ensures Income(xs) == SumAmounts(Filter(xs, IsDeposit()))
  {
    if |xs| > 0 {
      IncomeIsDepositSum(xs[..|xs| - 1]);
      SumFilterLast(xs, IsDeposit());
    }
  }

  /** Expenses are the sum of every amount that is not a deposit. */
  lemma {:induction false} ExpensesIsOtherSum(xs: seq<Transaction>)
    ensures Expenses(xs) == SumAmounts(Filter(xs, IsNotDeposit()))
  {
    if |xs| > 0 {
      ExpensesIsOtherSum(xs[..|xs| - 1]);
      SumFilterLast(xs, IsNotDeposit());
    }
  }

  /** Every amount is counted once, as income or as an expense. */
  lemma {:induction false} TalliesCoverAmounts(xs: seq<Transaction>)
    ensures Income(xs) + Expenses(xs) == SumAmounts(xs)
  {
    if |xs| > 0 {
      TalliesCoverAmounts(xs[..|xs| - 1]);
    }
  }

  /** Income is the sum of the deposits' amounts, expenses the sum of every other
      amount, and together they account for every amount exactly once. */
  lemma IncomeAndExpensesPartition(xs: seq<Transaction>)
    ensures Income(xs) == SumAmounts(Filter(xs, IsDeposit()))
    ensures Expenses(xs) == SumAmounts(Filter(xs, IsNotDeposit()))
    ensures Income(xs) + Expenses(xs) == SumAmounts(xs)
  {
    IncomeIsDepositSum(xs);
    ExpensesIsOtherSum(xs);
    TalliesCoverAmounts(xs);
  }

  // ---------------------------------------------------------------------------
  // moneyFlowData

  /** One point of the series: a day-start and that day's two sums. */
  datatype DayFlow = DayFlow(date: int, deposits: int, withdrawals: int)

  function Get(f: DayFlow, c: Column): int
  {
    match c
    case DepositsCol => f.deposits
    case WithdrawalsCol => f.withdrawals
  }

  /** Column total over a series. */
  function Total(fs: seq<DayFlow>, c: Column): int
  {
    if |fs| == 0 then 0 else Get(fs[0], c) + Total(fs[1..], c)
  }

  /** Some record of `xs` falls on the day starting at `d`. */
  predicate SomeOnDay(xs: seq<Transaction>, d: int)
  {
    exists j :: 0 <= j < |xs| && DayStart(xs[j].date) == d
  }

  /** The series has a point for day `d`. */
  predicate HasDay(fs: seq<DayFlow>, d: int)
  {
    exists i :: 0 <= i < |fs| && fs[i].date == d
  }

  predicate DistinctDates(fs: seq<DayFlow>)
  {
    forall i, j :: 0 <= i < j < |fs| ==> fs[i].date != fs[j].date
  }

  predicate StrictlyAscending(fs: seq<DayFlow>)
  {
    forall i, j :: 0 <= i < j < |fs| ==> fs[i].date < fs[j].date
  }

  /** Column total of the records of `xs` on the day starting at `d`. */
  function DaySum(xs: seq<Transaction>, d: int, c: Column): int
  {
    if |xs| == 0 then 0
    else DaySum(xs[..|xs| - 1], d, c) + (if DayStart(xs[|xs| - 1].date) == d then Part(xs[|xs| - 1], c) else 0)
  }

  /** Adds one record to its day's point. */
  function Credit(f: DayFlow, t: Transaction): DayFlow
  {
    if t.txType == Deposit then f.(deposits := f.deposits + t.amount)
    else f.(withdrawals := f.withdrawals + t.amount)
  }

  /** One iteration of the `forEach`: create the day's entry when missing, then
      add the record to it. Entries keep their creation order. */
  function Upsert(acc: seq<DayFlow>, t: Transaction): seq<DayFlow>
  {
    var d := DayStart(t.date);
    if HasDay(acc, d) then
      seq(|acc|, i requires 0 <= i < |acc| => if acc[i].date == d then Credit(acc[i], t) else acc[i])
    else
      acc + [Credit(DayFlow(d, 0, 0), t)]
  }

  /** The `dailyData` object after the `forEach` over `xs`. */
  function Accumulate(xs: seq<Transaction>): seq<DayFlow>
  {
    if |xs| == 0 then [] else Upsert(Accumulate(xs[..|xs| - 1]), xs[|xs| - 1])
  }

  /** The accumulator's invariant: one entry per day present in `xs`, each
      holding that day's sums. */
  ghost predicate Tallies(acc: seq<DayFlow>, xs: seq<Transaction>)
  {
    && DistinctDates(acc)
    && (forall d :: HasDay(acc, d) <==> SomeOnDay(xs, d))
    && (forall i, c :: 0 <= i < |acc| ==> Get(acc[i], c) == DaySum(xs, acc[i].date, c))
    && (forall c :: Total(acc, c) == Tally(xs, c))
  }

  lemma {:induction false} DaySumAbsent(xs: seq<Transaction>, d: int, c: Column)
    requires !SomeOnDay(xs, d)
    ensures DaySum(xs, d, c) == 0
  {
    if |xs| > 0 {
      var p := xs[..|xs| - 1];
      DaySumAbsent(p, d, c);
    }
  }

  lemma {:induction false} TotalAppend(fs: seq<DayFlow>, f: DayFlow, c: Column)
    ensures Total(fs + [f], c) == Total(fs, c) + Get(f, c)
  {
    if |fs| > 0 {
      TotalAppend(fs[1..], f, c);
      assert (fs + [f])[1..] == fs[1..] + [f];
    }
  }

  /** Changing one point by `delta` changes the total by `delta`. */
  lemma {:induction false} TotalUpdate(a: seq<DayFlow>, b: seq<DayFlow>, k: nat, c: Column)
    requires |a| == |b| && k < |a|
    requires forall i :: 0 <= i < |a| && i != k ==> Get(a[i], c) == Get(b[i], c)
    ensures Total(b, c) == Total(a, c) + (Get(b[k], c) - Get(a[k], c))
  {
    if k > 0 {
      TotalUpdate(a[1..], b[1..], k - 1, c);
    } else {
      TotalSame(a[1..], b[1..], c);
    }
  }

  lemma {:induction false} TotalSame(a: seq<DayFlow>, b: seq<DayFlow>, c: Column)
    requires |a| == |b|
    requires forall i :: 0 <= i < |a| ==> Get(a[i], c) == Get(b[i], c)
    ensures Total(b, c) == Total(a, c)
  {
    if |a| > 0 {
      TotalSame(a[1..], b[1..], c);
    }
  }

  /** The days present after one more record: the old ones and its own. */
  lemma SomeOnDaySnoc(p: seq<Transaction>, t: Transaction)
    ensures forall e :: SomeOnDay(p + [t], e) <==> SomeOnDay(p, e) || e == DayStart(t.date)
  {
    var xs := p + [t];
    forall e ensures SomeOnDay(xs, e) <==> SomeOnDay(p, e) || e == DayStart(t.date) {
      if SomeOnDay(xs, e) {
        var j :| 0 <= j < |xs| && DayStart(xs[j].date) == e;
        if j < |p| {
          assert DayStart(p[j].date) == e;
        }
      }
      if SomeOnDay(p, e) {
        var j :| 0 <= j < |p| && DayStart(p[j].date) == e;
        assert DayStart(xs[j].date) == e;
      }
      assert DayStart(xs[|p|].date) == DayStart(t.date);
    }
  }

  /** The day sums after one more record: its own day gains its part. */
  lemma DaySumSnoc(p: seq<Transaction>, t: Transaction)
    ensures forall e, c :: DaySum(p + [t], e, c) == DaySum(p, e, c) + (if e == DayStart(t.date) then Part(t, c) else 0)
  {
    assert (p + [t])[..|p|] == p;
  }

  /** The column totals after one more record: its own column gains its amount. */
  lemma TallySnoc(p: seq<Transaction>, t: Transaction)
    ensures forall c :: Tally(p + [t], c) == Tally(p, c) + Part(t, c)
  {
    assert (p + [t])[..|p|] == p;
  }

  /** For a day already present, `Upsert` credits that day's point in place. */
  lemma UpsertInPlace(acc: seq<DayFlow>, t: Transaction)
    requires HasDay(acc, DayStart(t.date))
    ensures var r := Upsert(acc, t);
      && |r| == |acc|
      && (forall i :: 0 <= i < |r| ==> r[i].date == acc[i].date)
      && (forall i :: 0 <= i < |r| ==> r[i] == if acc[i].date == DayStart(t.date) then Credit(acc[i], t) else acc[i])
  {
  }

  /** A series with the same dates, point by point, has the same days. */
  lemma SameDates(acc: seq<DayFlow>, r: seq<DayFlow>)
    requires |r| == |acc|
    requires forall i :: 0 <= i < |r| ==> r[i].date == acc[i].date
    ensures DistinctDates(acc) ==> DistinctDates(r)
    ensures forall e :: HasDay(r, e) <==> HasDay(acc, e)
  {
    forall e ensures HasDay(r, e) <==> HasDay(acc, e) {
      if HasDay(r, e) {
        var i :| 0 <= i < |r| && r[i].date == e;
        assert acc[i].date == e;
      }
      if HasDay(acc, e) {
        var i :| 0 <= i < |acc| && acc[i].date == e;
        assert r[i].date == e;
      }
    }
  }

  /** A record of a day already present is added to that day's point. */
  lemma UpsertExisting(acc: seq<DayFlow>, p: seq<Transaction>, t: Transaction)
    requires Tallies(acc, p)
    requires HasDay(acc, DayStart(t.date))
    ensures Tallies(Upsert(acc, t), p + [t])
  {
    var xs := p + [t];
    var d := DayStart(t.date);
    var r := Upsert(acc, t);
    UpsertInPlace(acc, t);
    SameDates(acc, r);
    SomeOnDaySnoc(p, t);
    DaySumSnoc(p, t);
    TallySnoc(p, t);
    var k :| 0 <= k < |acc| && acc[k].date == d;
    forall c ensures Total(r, c) == Tally(xs, c) {
      TotalUpdate(acc, r, k, c);
    }
  }

  /** A record of a new day opens a point for that day at the end. */
  lemma UpsertNew(acc: seq<DayFlow>, p: seq<Transaction>, t: Transaction)
    requires Tallies(acc, p)
    requires !HasDay(acc, DayStart(t.date))
    ensures Tallies(Upsert(acc, t), p + [t])
  {
    var xs := p + [t];
    var d := DayStart(t.date);
    var r := Upsert(acc, t);
    SomeOnDaySnoc(p, t);
    DaySumSnoc(p, t);
    TallySnoc(p, t);
    var f := Credit(DayFlow(d, 0, 0), t);
    assert r == acc + [f];
    forall e ensures HasDay(r, e) <==> HasDay(acc, e) || e == d {
      if HasDay(r, e) {
        var i :| 0 <= i < |r| && r[i].date == e;
        if i < |acc| {
          assert acc[i].date == e;
        }
      }
      if HasDay(acc, e) {
        var i :| 0 <= i < |acc| && acc[i].date == e;
        assert r[i].date == e;
      }
      assert r[|acc|].date == d;
    }
    forall i, c | 0 <= i < |r| ensures Get(r[i], c) == DaySum(xs, r[i].date, c) {
      if i == |acc| {
        DaySumAbsent(p, d, c);
      }
    }
    forall c ensures Total(r, c) == Tally(xs, c) {
      TotalAppend(acc, f, c);
    }
  }

  /** One iteration of the `forEach` maintains the accumulator's invariant. */
  lemma UpsertTallies(acc: seq<DayFlow>, p: seq<Transaction>, t: Transaction)
    requires Tallies(acc, p)
    ensures Tallies(Upsert(acc, t), p + [t])
  {
    if HasDay(acc, DayStart(t.date)) {
      UpsertExisting(acc, p, t);
    } else {
      UpsertNew(acc, p, t);
    }
  }

  /** The `forEach` maintains the accumulator's invariant. */
  lemma {:induction false} AccumulateTallies(xs: seq<Transaction>)
    ensures Tallies(Accumulate(xs), xs)
  {
    if |xs| > 0 {
      var p := xs[..|xs| - 1];
      AccumulateTallies(p);
      assert xs == p + [xs[|xs| - 1]];
      UpsertTallies(Accumulate(p), p, xs[|xs| - 1]);
    }
  }

  /** Inserts `f` into an ascending series before the first later point. */
  function InsertFlow(f: DayFlow, s: seq<DayFlow>): (r: seq<DayFlow>)
    requires StrictlyAscending(s)
    requires !HasDay(s, f.date)
    ensures |r| == |s| + 1
    ensures r[0] == f || (|s| > 0 && r[0] == s[0])
    ensures StrictlyAscending(r)
    ensures forall g :: g in r <==> g == f || g in s
    ensures forall c :: Total(r, c) == Get(f, c) + Total(s, c)
    decreases |s|
  {
    if |s| == 0 || f.date < s[0].date then [f] + s
    else
      assert s[0].date != f.date;
      assert !HasDay(s[1..], f.date);
      var rest := InsertFlow(f, s[1..]);
      assert s == [s[0]] + s[1..];
      assert rest[0].date > s[0].date;
      assert ([s[0]] + rest)[1..] == rest;
      [s[0]] + rest
  }

  /** `.sort((a, b) => a.date - b.date)` on entries with distinct dates. */
  function SortFlows(fs: seq<DayFlow>): (r: seq<DayFlow>)
    requires DistinctDates(fs)
    ensures |r| == |fs|
    ensures StrictlyAscending(r)
    ensures forall g :: g in r <==> g in fs
    ensures forall c :: Total(r, c) == Total(fs, c)
  {
    if |fs| == 0 then []
    else
      var rest := SortFlows(fs[1..]);
      forall i | 0 <= i < |rest| ensures rest[i].date != fs[0].date {
        assert rest[i] in fs[1..];
        var j :| 0 <= j < |fs[1..]| && fs[1..][j] == rest[i];
        assert fs[j + 1] == rest[i];
      }
      assert fs == [fs[0]] + fs[1..];
      InsertFlow(fs[0], rest)
  }

  /** `moneyFlowData`: one point per day present in `xs`, ascending by day,
      holding that day's deposit and withdrawal sums. */
  function MoneyFlowData(xs: seq<Transaction>): (r: seq<DayFlow>)
    ensures StrictlyAscending(r)
    ensures forall d :: HasDay(r, d) <==> SomeOnDay(xs, d)
    ensures forall i :: 0 <= i < |r| ==>
              r[i].deposits == DaySum(xs, r[i].date, DepositsCol) &&
              r[i].withdrawals == DaySum(xs, r[i].date, WithdrawalsCol)
    ensures Total(r, DepositsCol) == Income(xs)
    ensures Total(r, WithdrawalsCol) == Expenses(xs)
  {
    var acc := Accumulate(xs);
    AccumulateTallies(xs);
    var r := SortFlows(acc);
    forall d ensures HasDay(r, d) <==> HasDay(acc, d) {
      if HasDay(r, d) {
        var i :| 0 <= i < |r| && r[i].date == d;
        assert r[i] in acc;
      }
      if HasDay(acc, d) {
        var i :| 0 <= i < |acc| && acc[i].date == d;
        assert acc[i] in r;
      }
    }
    forall i | 0 <= i < |r|
      ensures r[i].deposits == DaySum(xs, r[i].date, DepositsCol)
      ensures r[i].withdrawals == DaySum(xs, r[i].date, WithdrawalsCol)
    {
      assert r[i] in acc;
      var j :| 0 <= j < |acc| && acc[j] == r[i];
      assert Get(acc[j], DepositsCol) == DaySum(xs, acc[j].date, DepositsCol);
      assert Get(acc[j], WithdrawalsCol) == DaySum(xs, acc[j].date, WithdrawalsCol);
    }
    r
  }

  /** The series and the summary agree: summed over all days, deposits are the
      income and withdrawals the expenses. */
  lemma MoneyFlowMatchesSummary(xs: seq<Transaction>)
    ensures Total(MoneyFlowData(xs), DepositsCol) + Total(MoneyFlowData(xs), WithdrawalsCol)
         == SumAmounts(xs)
  {
    IncomeAndExpensesPartition(xs);
  }
}
