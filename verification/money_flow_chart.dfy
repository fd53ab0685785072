/**
 * The money-flow chart (`src/components/dashboard/overview/money-flow.tsx`):
 * the period is cut into daily, weekly or monthly buckets, and each daily point
 * of the money-flow series is added to the bucket carrying its label.
 *
 * Calendar arithmetic is a parameter: `interval(g, start, end)` stands for
 * `eachDayOfInterval` / `eachWeekOfInterval` / `eachMonthOfInterval`, and
 * `format(g, t)` for `format` with the granularity's pattern.
 */
module MoneyFlowChart {
  import opened Wrappers
  import opened Seqs
  import opened Transactions
  import opened Aggregation

  datatype Granularity = Daily | Weekly | Monthly

  /** Coarseness of a granularity, finest first. */
  function Rank(g: Granularity): nat
  {
    match g
    case Daily => 0
    case Weekly => 1
    case Monthly => 2
  }

  /** `differenceInDays(end, start)`: whole days, rounded toward zero. */
  function DaysDiff(start: int, end: int): (n: int)
    ensures start <= end ==> 0 <= n && n * DAY_MS <= end - start < (n + 1) * DAY_MS
    ensures end < start ==> n <= 0 && (n - 1) * DAY_MS < end - start <= n * DAY_MS
  {
    var ms := end - start;
    if ms >= 0 then ms / DAY_MS else -((-ms) / DAY_MS)
  }

  /** Swapping the two dates only flips the sign. */
  lemma DaysDiffAntisymmetric(a: int, b: int)
    ensures DaysDiff(b, a) == -DaysDiff(a, b)
  {
  }

  /** A whole number of days apart is that number of days. */
  lemma DaysDiffWholeDays(start: int, k: int)
    ensures DaysDiff(start, start + k * DAY_MS) == k
  {
    if k < 0 {
      assert (-k) * DAY_MS / DAY_MS == -k;
    } else {
      assert k * DAY_MS / DAY_MS == k;
    }
  }

  /** Up to 31 days daily, up to 90 weekly, beyond that monthly. */
  function GranularityFor(daysDiff: int): (g: Granularity)
    ensures g == Daily <==> daysDiff <= 31
    ensures g == Weekly <==> 31 < daysDiff <= 90
    ensures g == Monthly <==> 90 < daysDiff
  {
    if daysDiff <= 31 then Daily
    else if daysDiff <= 90 then Weekly
    else Monthly
  }

  /** A longer span never gets finer buckets. */
  lemma GranularityMonotone(a: int, b: int)
    requires a <= b
    ensures Rank(GranularityFor(a)) <= Rank(GranularityFor(b))
  {
  }

  /** The chart's period: each parsed parameter as given (a `Date` is truthy even
      at the epoch), otherwise January 1 of the current year and now. */
  function ChartRange(startParam: Option<int>, endParam: Option<int>, now: int, yearStart: int)
    : (r: (int, int))
    ensures r.0 == startParam.GetOr(yearStart) && r.1 == endParam.GetOr(now)
  {
    (if startParam.Some? then startParam.value else yearStart,
     if endParam.Some? then endParam.value else now)
  }

  /** One bucket of the chart. */
  datatype ChartPoint = ChartPoint(date: string, deposits: int, withdrawals: int)

  /** The label a timestamp gets at granularity `g`. */
  function KeyOf(format: (Granularity, int) -> string, g: Granularity): int -> string
  {
    t => format(g, t)
  }

  function LabelPred(tag: string, key: int -> string): DayFlow -> bool
  {
    (d: DayFlow) => key(d.date) == tag
  }

  /** `matchingData`: the points whose formatted date is the label. */
  function Matching(data: seq<DayFlow>, tag: string, key: int -> string): seq<DayFlow>
  {
    Filter(data, LabelPred(tag, key))
  }

  /** The bucket for `label`: the sums of its matching points, zero when none match. */
  function Bucket(tag: string, data: seq<DayFlow>, key: int -> string): (p: ChartPoint)
    ensures p.date == tag
    ensures p.deposits == Total(Matching(data, tag, key), DepositsCol)
    ensures p.withdrawals == Total(Matching(data, tag, key), WithdrawalsCol)
  {
    var m := Matching(data, tag, key);
    if |m| > 0 then ChartPoint(tag, Total(m, DepositsCol), Total(m, WithdrawalsCol))
    else ChartPoint(tag, 0, 0)
  }

  /** The labels of the interval's dates. */
  function Labels(dates: seq<int>, key: int -> string): seq<string>
  {
    seq(|dates|, i requires 0 <= i < |dates| => key(dates[i]))
  }

  /** `chartData` over the chart's period: the parsed `startDate` and `endDate`
      parameters, January 1 of this year and now standing in for a missing one.
      One bucket per interval element, in interval order. */
  function ChartData(startParam: Option<int>, endParam: Option<int>, now: int, yearStart: int,
                     data: seq<DayFlow>,
                     interval: (Granularity, int, int) -> seq<int>,
                     format: (Granularity, int) -> string): (r: seq<ChartPoint>)
    ensures var start, end := startParam.GetOr(yearStart), endParam.GetOr(now);
      var g := GranularityFor(DaysDiff(start, end));
      var dates := interval(g, start, end);
      && |r| == |dates|
      && (forall i :: 0 <= i < |r| ==> r[i].date == format(g, dates[i]))
      && (forall i :: 0 <= i < |r| ==>
            && r[i].deposits == Total(Matching(data, r[i].date, KeyOf(format, g)), DepositsCol)
            && r[i].withdrawals == Total(Matching(data, r[i].date, KeyOf(format, g)), WithdrawalsCol))
    ensures |data| == 0 ==> forall i :: 0 <= i < |r| ==> r[i].deposits == 0 && r[i].withdrawals == 0
  {
    var (start, end) := ChartRange(startParam, endParam, now, yearStart);
    var g := GranularityFor(DaysDiff(start, end));
    var key := KeyOf(format, g);
    var labels := Labels(interval(g, start, end), key);
    var emptyData := seq(|labels|, i requires 0 <= i < |labels| => ChartPoint(labels[i], 0, 0));
    if |data| == 0 then emptyData
    else seq(|emptyData|, i requires 0 <= i < |emptyData| => Bucket(emptyData[i].date, data, key))
  }

  // ---------------------------------------------------------------------------
  // Conservation: with distinct labels, no point is counted twice

  /** Column total over the chart. */
  function ChartTotal(r: seq<ChartPoint>, c: Column): int
  {
    if |r| == 0 then 0
    else (match c case DepositsCol => r[0].deposits case WithdrawalsCol => r[0].withdrawals)
         + ChartTotal(r[1..], c)
  }

  predicate DistinctLabels(ls: seq<string>)
  {
    forall i, j :: 0 <= i < j < |ls| ==> ls[i] != ls[j]
  }

  /** The points whose label is one of `ls`. */
  function InLabelsPred(ls: seq<string>, key: int -> string): DayFlow -> bool
  {
    (d: DayFlow) => key(d.date) in ls
  }

  /** Sum over the labels of each label's matching total. */
  function BucketsTotal(ls: seq<string>, data: seq<DayFlow>, key: int -> string, c: Column): int
  {
    if |ls| == 0 then 0 else Total(Matching(data, ls[0], key), c) + BucketsTotal(ls[1..], data, key, c)
  }

  /** Filtering by either of two disjoint predicates adds their totals. */
  lemma {:induction false} TotalSplit(data: seq<DayFlow>, p: DayFlow -> bool, q: DayFlow -> bool,
                                      pq: DayFlow -> bool, c: Column)
    requires forall i :: 0 <= i < |data| ==> !(p(data[i]) && q(data[i]))
    requires forall i :: 0 <= i < |data| ==> pq(data[i]) == (p(data[i]) || q(data[i]))
    ensures Total(Filter(data, pq), c) == Total(Filter(data, p), c) + Total(Filter(data, q), c)
  {
    if |data| > 0 {
      TotalSplit(data[1..], p, q, pq, c);
    }
  }

  /** With distinct labels, the buckets together hold exactly the points whose
      label is among them. */
  lemma {:induction false} BucketsConserve(ls: seq<string>, data: seq<DayFlow>, key: int -> string, c: Column)
    requires DistinctLabels(ls)
    ensures BucketsTotal(ls, data, key, c) == Total(Filter(data, InLabelsPred(ls, key)), c)
  {
    if |ls| == 0 {
      FilterNone(data, InLabelsPred(ls, key));
    } else {
      BucketsConserve(ls[1..], data, key, c);
      TotalSplit(data, LabelPred(ls[0], key), InLabelsPred(ls[1..], key), InLabelsPred(ls, key), c);
    }
  }

  /** A predicate that holds nowhere filters to nothing. */
  lemma {:induction false} FilterNone(data: seq<DayFlow>, p: DayFlow -> bool)
    requires forall i :: 0 <= i < |data| ==> !p(data[i])
    ensures Filter(data, p) == []
  {
    if |data| > 0 {
      FilterNone(data[1..], p);
    }
  }

  lemma {:induction false} ChartTotalIsBuckets(r: seq<ChartPoint>, ls: seq<string>, data: seq<DayFlow>,
                                               key: int -> string, c: Column)
    requires |r| == |ls|
    requires forall i :: 0 <= i < |r| ==> r[i].date == ls[i]
    requires forall i :: 0 <= i < |r| ==>
      && r[i].deposits == Total(Matching(data, r[i].date, key), DepositsCol)
      && r[i].withdrawals == Total(Matching(data, r[i].date, key), WithdrawalsCol)
    ensures ChartTotal(r, c) == BucketsTotal(ls, data, key, c)
  {
    if |r| > 0 {
      ChartTotalIsBuckets(r[1..], ls[1..], data, key, c);
    }
  }

  /** When the interval's labels are distinct, the chart's totals are the totals
      of the points falling on one of its labels; points outside every bucket
      are dropped, none is counted twice. */
  lemma ChartConservesTotals(startParam: Option<int>, endParam: Option<int>, now: int, yearStart: int,
                             data: seq<DayFlow>,
                             interval: (Granularity, int, int) -> seq<int>,
                             format: (Granularity, int) -> string, c: Column)
    requires var (start, end) := ChartRange(startParam, endParam, now, yearStart);
      var g := GranularityFor(DaysDiff(start, end));
      DistinctLabels(Labels(interval(g, start, end), KeyOf(format, g)))
    ensures var (start, end) := ChartRange(startParam, endParam, now, yearStart);
      var g := GranularityFor(DaysDiff(start, end));
      var ls := Labels(interval(g, start, end), KeyOf(format, g));
      ChartTotal(ChartData(startParam, endParam, now, yearStart, data, interval, format), c)
        == Total(Filter(data, InLabelsPred(ls, KeyOf(format, g))), c)
  {
    var (start, end) := ChartRange(startParam, endParam, now, yearStart);
    var g := GranularityFor(DaysDiff(start, end));
    var key := KeyOf(format, g);
    var ls := Labels(interval(g, start, end), key);
    var r := ChartData(startParam, endParam, now, yearStart, data, interval, format);
    ChartTotalIsBuckets(r, ls, data, key, c);
    BucketsConserve(ls, data, key, c);
  }

  /** When every point's label names a bucket and the labels are distinct, the
      chart shows the whole money flow: its totals are the income and expenses. */
  lemma ChartShowsAllFlow(startParam: Option<int>, endParam: Option<int>, now: int, yearStart: int,
                          xs: seq<Transaction>,
                          interval: (Granularity, int, int) -> seq<int>,
                          format: (Granularity, int) -> string)
    requires var (start, end) := ChartRange(startParam, endParam, now, yearStart);
      var g := GranularityFor(DaysDiff(start, end));
      DistinctLabels(Labels(interval(g, start, end), KeyOf(format, g)))
    requires var (start, end) := ChartRange(startParam, endParam, now, yearStart);
      var g := GranularityFor(DaysDiff(start, end));
      forall d :: d in MoneyFlowData(xs) ==> format(g, d.date) in Labels(interval(g, start, end), KeyOf(format, g))
    ensures ChartTotal(ChartData(startParam, endParam, now, yearStart, MoneyFlowData(xs), interval, format), DepositsCol)
      == Income(xs)
    ensures ChartTotal(ChartData(startParam, endParam, now, yearStart, MoneyFlowData(xs), interval, format), WithdrawalsCol)
      == Expenses(xs)
  {
    var (start, end) := ChartRange(startParam, endParam, now, yearStart);
    var g := GranularityFor(DaysDiff(start, end));
    var key := KeyOf(format, g);
    var ls := Labels(interval(g, start, end), key);
    var data := MoneyFlowData(xs);
    FilterKeepsAll(data, InLabelsPred(ls, key));
    ChartConservesTotals(startParam, endParam, now, yearStart, data, interval, format, DepositsCol);
    ChartConservesTotals(startParam, endParam, now, yearStart, data, interval, format, WithdrawalsCol);
  }
}
