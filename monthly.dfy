/** Grouping contracts into (year, month) buckets, as the commission report, the performance
    report and the commission panel all do, and the sums the buckets keep. */
module MonthlyGrouping {
  import opened Wrappers
  import opened Seqs
  import opened Contracts

  /** One month's bucket: its pt-BR name and year, the number of contracts, and the summed
      value and commission (missing commission counted as 0). */
  datatype MonthlyBucket = MonthlyBucket(month: string, year: int, contracts: nat, value: real, commission: real)

  /** The key the sort compares: the timestamp of the first day of the bucket's month orders
      buckets as this month count does. */
  function ChronoKey(b: MonthlyBucket): int
  {
    b.year * 12 + MonthNumber(b.month)
  }

  predicate Earlier(a: MonthlyBucket, b: MonthlyBucket)
  {
    ChronoKey(a) < ChronoKey(b)
  }

  /** The (year, month) a contract is filed under. */
  function MonthKey(c: Contract): (int, int)
  {
    (c.date.year, c.date.month as int)
  }

  /** An empty bucket for a month. */
  function EmptyBucket(year: int, month: Month0): MonthlyBucket
  {
    MonthlyBucket(MonthName(month), year, 0, 0.0, 0.0)
  }

  /** Adds one contract to a bucket; a missing commission adds 0. */
  function AddTo(b: MonthlyBucket, c: Contract): MonthlyBucket
  {
    b.(contracts := b.contracts + 1, value := b.value + c.value, commission := b.commission + CommissionOrZero(c))
  }

  /** The bucket a month accumulates over `cs`, adding the contracts of that month one by one
      in order, as the `forEach` does. */
  function Summary(cs: seq<Contract>, year: int, month: Month0): MonthlyBucket
    decreases |cs|
  {
    if cs == [] then EmptyBucket(year, month)
    else
      var prior := Summary(cs[..|cs| - 1], year, month);
      if MonthKey(cs[|cs| - 1]) == (year, month as int) then AddTo(prior, cs[|cs| - 1]) else prior
  }

  function InMonthPred(year: int, month: Month0): Contract -> bool
  {
    (c: Contract) => MonthKey(c) == (year, month as int)
  }

  /** The contracts dated in the given month of the given year. */
  function InMonth(cs: seq<Contract>, year: int, month: Month0): seq<Contract>
  {
    Filter(cs, InMonthPred(year, month))
  }

  /** A month's bucket holds the month's name and year, the number of contracts of that month
      and the sums of their values and commissions. */
  lemma {:induction false} SummaryCountsMonth(cs: seq<Contract>, year: int, month: Month0)
    ensures Summary(cs, year, month)
            == MonthlyBucket(MonthName(month), year, |InMonth(cs, year, month)|,
                             Total(InMonth(cs, year, month), Value), Total(InMonth(cs, year, month), Commission))
    decreases |cs|
  {
    if cs != [] {
      var init, last := cs[..|cs| - 1], cs[|cs| - 1];
      var p := InMonthPred(year, month);
      SummaryCountsMonth(init, year, month);
      assert cs == init + [last];
      FilterSnoc(init, last, p);
      if p(last) {
        TotalAppend(Filter(init, p), [last], Value);
        TotalAppend(Filter(init, p), [last], Commission);
      }
    }
  }

  /** The (year, month) pairs that occur among the contracts' dates. */
  ghost function MonthsOf(cs: seq<Contract>): set<(int, int)>
  {
    set c | c in cs :: MonthKey(c)
  }

  /** The (year, month) pairs the buckets stand for. */
  ghost function BucketMonths(bs: seq<MonthlyBucket>): set<(int, int)>
  {
    set b | b in bs :: (b.year, MonthNumber(b.month))
  }

  /** `bs` is the monthly grouping of `cs`: one bucket for every month that occurs and for no
      other, each holding that month's count and sums, in strictly chronological order. */
  ghost predicate IsMonthlyGrouping(cs: seq<Contract>, bs: seq<MonthlyBucket>)
  {
    && StrictlySorted(bs, Earlier)
    && (forall b :: b in bs ==> 0 <= MonthNumber(b.month) < 12 && b == Summary(cs, b.year, MonthNumber(b.month)))
    && BucketMonths(bs) == MonthsOf(cs)
  }

  lemma MonthsOfInit(cs: seq<Contract>)
    requires cs != []
    ensures MonthsOf(cs) == MonthsOf(cs[..|cs| - 1]) + {MonthKey(cs[|cs| - 1])}
  {
    InitMembers(cs);
  }

  lemma MonthsOfEmpty(cs: seq<Contract>)
    ensures cs == [] <==> MonthsOf(cs) == {}
  {
    if cs != [] {
      assert MonthKey(cs[0]) in MonthsOf(cs);
    }
  }

  /** A grouping has no buckets exactly when there are no contracts. */
  lemma GroupingEmpty(cs: seq<Contract>, bs: seq<MonthlyBucket>)
    requires IsMonthlyGrouping(cs, bs)
    ensures cs == [] <==> bs == []
  {
    MonthsOfEmpty(cs);
    if bs != [] {
      assert (bs[0].year, MonthNumber(bs[0].month)) in BucketMonths(bs);
    }
  }

  /** A month without contracts summarises to an empty bucket. */
  lemma {:induction false} SummaryOfAbsentMonth(cs: seq<Contract>, year: int, month: Month0)
    requires (year, month as int) !in MonthsOf(cs)
    ensures Summary(cs, year, month) == EmptyBucket(year, month)
    decreases |cs|
  {
    if cs != [] {
      var init, last := cs[..|cs| - 1], cs[|cs| - 1];
      MonthsOfInit(cs);
      SummaryOfAbsentMonth(init, year, month);
    }
  }

  /** The summary of a month has that month's name and year. */
  lemma {:induction false} SummaryKey(cs: seq<Contract>, year: int, month: Month0)
    ensures Summary(cs, year, month).year == year
    ensures MonthNumber(Summary(cs, year, month).month) == month
    ensures ChronoKey(Summary(cs, year, month)) == year * 12 + month
    decreases |cs|
  {
    if cs != [] {
      SummaryKey(cs[..|cs| - 1], year, month);
    } else {
      MonthNumberOfName(month);
    }
  }

  lemma EarlierIsTransitive()
    ensures Transitive(Earlier)
  {
  }

  /** What `GroupByMonth` knows after the first `i` contracts: `order` lists the dictionary's
      keys once each in insertion order, the keys are the months seen so far, and each entry is
      that month's summary so far. */
  ghost predicate Accumulated(cs: seq<Contract>, i: nat, order: seq<(int, int)>, monthlyData: map<(int, int), MonthlyBucket>)
    requires i <= |cs|
  {
    && Distinct(order)
    && (forall k :: k in order <==> k in monthlyData)
    && monthlyData.Keys == MonthsOf(cs[..i])
    && (forall k :: k in monthlyData ==> 0 <= k.1 < 12 && monthlyData[k] == Summary(cs[..i], k.0, k.1))
  }

  /** One iteration of the `forEach` keeps `Accumulated`. */
  lemma AccumulateStep(cs: seq<Contract>, i: nat, order: seq<(int, int)>, monthlyData: map<(int, int), MonthlyBucket>)
    requires i < |cs| && Accumulated(cs, i, order, monthlyData)
    ensures var key := MonthKey(cs[i]);
            var prior := if key in monthlyData then monthlyData[key] else EmptyBucket(cs[i].date.year, cs[i].date.month);
            Accumulated(cs, i + 1, if key in monthlyData then order else order + [key], monthlyData[key := AddTo(prior, cs[i])])
  {
    var c := cs[i];
    var key := MonthKey(c);
    assert cs[..i + 1][..i] == cs[..i];
    MonthsOfInit(cs[..i + 1]);
    if key !in monthlyData {
      SummaryOfAbsentMonth(cs[..i], c.date.year, c.date.month);
    }
  }

  /** `calculateMonthlyComissions` and the `monthlyPerformance` reduce: accumulate the buckets in
      a dictionary keyed by (year, month), take its values in insertion order and sort them
      chronologically. */
  method GroupByMonth(cs: seq<Contract>) returns (buckets: seq<MonthlyBucket>)
    ensures IsMonthlyGrouping(cs, buckets)
  {
    var monthlyData: map<(int, int), MonthlyBucket> := map[];
    var order: seq<(int, int)> := [];
    for i := 0 to |cs|
      invariant Accumulated(cs, i, order, monthlyData)
    {
      var contract := cs[i];
      var monthKey := MonthKey(contract);
      AccumulateStep(cs, i, order, monthlyData);
      var bucket := EmptyBucket(contract.date.year, contract.date.month);
      if monthKey in monthlyData {
        bucket := monthlyData[monthKey];
      } else {
        order := order + [monthKey];
      }
      monthlyData := monthlyData[monthKey := AddTo(bucket, contract)];
    }
    assert cs[..|cs|] == cs;
    var values := CollectValues(order, monthlyData);
    ValuesGrouping(cs, order, monthlyData, values);
    buckets := InsertionSort(values, Earlier);
    SortingKeepsGrouping(cs, values);
  }

  /** `Object.values(monthlyData)`: the entries in the order their keys were inserted. */
  method CollectValues(order: seq<(int, int)>, monthlyData: map<(int, int), MonthlyBucket>) returns (values: seq<MonthlyBucket>)
    requires forall k :: k in order ==> k in monthlyData
    ensures |values| == |order| && forall t :: 0 <= t < |order| ==> values[t] == monthlyData[order[t]]
  {
    values := [];
    for j := 0 to |order|
      invariant |values| == j
      invariant forall t :: 0 <= t < j ==> values[t] == monthlyData[order[t]]
    {
      values := values + [monthlyData[order[j]]];
    }
  }

  /** Buckets that are a grouping up to their order. */
  ghost predicate UnsortedGrouping(cs: seq<Contract>, values: seq<MonthlyBucket>)
  {
    && PairwiseOrdered(values, Earlier)
    && (forall b :: b in values ==> 0 <= MonthNumber(b.month) < 12 && b == Summary(cs, b.year, MonthNumber(b.month)))
    && BucketMonths(values) == MonthsOf(cs)
  }

  /** The dictionary's values, one per distinct key, are a grouping up to their order. */
  lemma ValuesGrouping(cs: seq<Contract>, order: seq<(int, int)>, monthlyData: map<(int, int), MonthlyBucket>,
                       values: seq<MonthlyBucket>)
    requires Accumulated(cs, |cs|, order, monthlyData) && cs[..|cs|] == cs
    requires |values| == |order| && forall t :: 0 <= t < |order| ==> values[t] == monthlyData[order[t]]
    ensures UnsortedGrouping(cs, values)
  {
    ValuesKeys(cs, order, monthlyData, values);
    ValuesOrdered(order, values);
    ValuesSummaries(cs, order, monthlyData, values);
    ValuesMonths(cs, order, monthlyData, values);
  }

  /** Each value is the bucket of its key's month. */
  lemma ValuesKeys(cs: seq<Contract>, order: seq<(int, int)>, monthlyData: map<(int, int), MonthlyBucket>,
                   values: seq<MonthlyBucket>)
    requires forall k :: k in order ==> k in monthlyData
    requires forall k :: k in monthlyData ==> 0 <= k.1 < 12 && monthlyData[k] == Summary(cs, k.0, k.1)
    requires |values| == |order| && forall t :: 0 <= t < |order| ==> values[t] == monthlyData[order[t]]
    ensures forall t :: 0 <= t < |values| ==>
              && 0 <= order[t].1 < 12
              && values[t].year == order[t].0 && MonthNumber(values[t].month) == order[t].1
              && ChronoKey(values[t]) == order[t].0 * 12 + order[t].1
  {
    forall t | 0 <= t < |values|
      ensures 0 <= order[t].1 < 12
      ensures values[t].year == order[t].0 && MonthNumber(values[t].month) == order[t].1
      ensures ChronoKey(values[t]) == order[t].0 * 12 + order[t].1
    {
      assert order[t] in order;
      SummaryKey(cs, order[t].0, order[t].1);
    }
  }

  /** Values under different keys fall in different months, so `Earlier` ranks any two. */
  lemma ValuesOrdered(order: seq<(int, int)>, values: seq<MonthlyBucket>)
    requires Distinct(order) && |values| == |order|
    requires forall t :: 0 <= t < |values| ==> 0 <= order[t].1 < 12 && ChronoKey(values[t]) == order[t].0 * 12 + order[t].1
    ensures PairwiseOrdered(values, Earlier)
  {
    forall i, j | 0 <= i < |values| && 0 <= j < |values| && i != j
      ensures Earlier(values[i], values[j]) || Earlier(values[j], values[i])
    {
      MonthCountInjective(order[i].0, order[i].1, order[j].0, order[j].1);
    }
  }

  /** Every value is its month's summary. */
  lemma ValuesSummaries(cs: seq<Contract>, order: seq<(int, int)>, monthlyData: map<(int, int), MonthlyBucket>,
                        values: seq<MonthlyBucket>)
    requires forall k :: k in order ==> k in monthlyData
    requires forall k :: k in monthlyData ==> 0 <= k.1 < 12 && monthlyData[k] == Summary(cs, k.0, k.1)
    requires |values| == |order| && forall t :: 0 <= t < |order| ==> values[t] == monthlyData[order[t]]
    requires forall t :: 0 <= t < |values| ==> values[t].year == order[t].0 && MonthNumber(values[t].month) == order[t].1
    ensures forall b :: b in values ==> 0 <= MonthNumber(b.month) < 12 && b == Summary(cs, b.year, MonthNumber(b.month))
  {
    forall b | b in values
      ensures 0 <= MonthNumber(b.month) < 12 && b == Summary(cs, b.year, MonthNumber(b.month))
    {
      var t :| 0 <= t < |values| && values[t] == b;
      assert order[t] in order;
    }
  }

  /** The values stand for exactly the months of the contracts. */
  lemma ValuesMonths(cs: seq<Contract>, order: seq<(int, int)>, monthlyData: map<(int, int), MonthlyBucket>,
                     values: seq<MonthlyBucket>)
    requires forall k :: k in order <==> k in monthlyData
    requires monthlyData.Keys == MonthsOf(cs)
    requires |values| == |order|
    requires forall t :: 0 <= t < |values| ==> values[t].year == order[t].0 && MonthNumber(values[t].month) == order[t].1
    ensures BucketMonths(values) == MonthsOf(cs)
  {
    forall b | b in values ensures (b.year, MonthNumber(b.month)) in MonthsOf(cs) {
      var t :| 0 <= t < |values| && values[t] == b;
      assert order[t] in order;
    }
    forall k | k in MonthsOf(cs) ensures k in BucketMonths(values) {
      var t :| 0 <= t < |order| && order[t] == k;
      assert values[t] in values;
    }
  }

  /** Different months have different month counts. */
  lemma MonthCountInjective(y1: int, m1: int, y2: int, m2: int)
    requires 0 <= m1 < 12 && 0 <= m2 < 12
    requires (y1, m1) != (y2, m2)
    ensures y1 * 12 + m1 != y2 * 12 + m2
  {
    if y1 < y2 {
      assert y1 * 12 + m1 < (y1 + 1) * 12 <= y2 * 12 + m2;
    } else if y2 < y1 {
      assert y2 * 12 + m2 < (y2 + 1) * 12 <= y1 * 12 + m1;
    }
  }

  /** Sorting the buckets chronologically makes the grouping. */
  lemma SortingKeepsGrouping(cs: seq<Contract>, values: seq<MonthlyBucket>)
    requires UnsortedGrouping(cs, values)
    ensures IsMonthlyGrouping(cs, InsertionSort(values, Earlier))
  {
    var buckets := InsertionSort(values, Earlier);
    EarlierIsTransitive();
    InsertionSortSorted(values, Earlier);
    SameElements(values, buckets);
    BucketMonthsOfSameElements(values, buckets);
  }

  lemma BucketMonthsOfSameElements(a: seq<MonthlyBucket>, b: seq<MonthlyBucket>)
    requires forall x :: x in a <==> x in b
    ensures BucketMonths(a) == BucketMonths(b)
  {
  }

  /** What one bucket contributes to a sum over buckets. */
  function BucketMeasure(b: MonthlyBucket, m: Measure): real
  {
    match m
    case Count => b.contracts as real
    case Value => b.value
    case Commission => b.commission
  }

  /** The sum of one measure over the buckets, added left to right from 0. */
  function BucketTotal(bs: seq<MonthlyBucket>, m: Measure): real
    decreases |bs|
  {
    if bs == [] then 0.0 else BucketTotal(bs[..|bs| - 1], m) + BucketMeasure(bs[|bs| - 1], m)
  }

  /** Leaving out one month's contracts does not change another month's bucket. */
  lemma {:induction false} SummaryWithoutMonth(cs: seq<Contract>, year: int, month: Month0, otherYear: int, otherMonth: Month0)
    requires otherYear != year || otherMonth != month
    ensures Summary(Filter(cs, Not(InMonthPred(year, month))), otherYear, otherMonth) == Summary(cs, otherYear, otherMonth)
    decreases |cs|
  {
    if cs != [] {
      var init, last := cs[..|cs| - 1], cs[|cs| - 1];
      var keep := Not(InMonthPred(year, month));
      SummaryWithoutMonth(init, year, month, otherYear, otherMonth);
      var f := Filter(init, keep);
      if keep(last) {
        assert Filter(cs, keep) == f + [last];
        assert (f + [last])[..|f + [last]| - 1] == f;
      } else {
        assert Filter(cs, keep) == f;
        assert MonthKey(last) != (otherYear, otherMonth as int);
      }
    }
  }

  /** Leaving out one month's contracts leaves out exactly that month. */
  lemma MonthsWithoutMonth(cs: seq<Contract>, year: int, month: Month0)
    ensures MonthsOf(Filter(cs, Not(InMonthPred(year, month)))) == MonthsOf(cs) - {(year, month as int)}
  {
    var keep := Not(InMonthPred(year, month));
    var rest := Filter(cs, keep);
    FilterContents(cs, keep);
    forall k | k in MonthsOf(cs) - {(year, month as int)} ensures k in MonthsOf(rest) {
      var c :| c in cs && MonthKey(c) == k;
      assert keep(c);
    }
  }

  /** The buckets partition the contracts: summing a measure over the buckets gives the sum
      over the contracts. For Count: the bucket counts add up to the number of contracts. */
  lemma {:induction false} GroupingTotals(cs: seq<Contract>, bs: seq<MonthlyBucket>, m: Measure)
    requires IsMonthlyGrouping(cs, bs)
    ensures BucketTotal(bs, m) == Total(cs, m)
    decreases |bs|
  {
    if bs == [] {
      MonthsOfEmpty(cs);
    } else {
      var last := bs[|bs| - 1];
      assert last in bs;
      var y, mo: Month0 := last.year, MonthNumber(last.month);
      assert last == Summary(cs, y, mo);
      var p := InMonthPred(y, mo);
      RestIsGrouping(cs, bs);
      GroupingTotals(Filter(cs, Not(p)), bs[..|bs| - 1], m);
      TotalSplit(cs, p, m);
      MonthMeasure(cs, y, mo, m);
    }
  }

  /** A month's bucket holds, for every measure, the sum over that month's contracts. */
  lemma MonthMeasure(cs: seq<Contract>, year: int, month: Month0, m: Measure)
    ensures BucketMeasure(Summary(cs, year, month), m) == Total(InMonth(cs, year, month), m)
  {
    SummaryCountsMonth(cs, year, month);
    TotalCountIsLength(InMonth(cs, year, month));
  }

  /** Removing the last month's contracts leaves the grouping without its last bucket. */
  lemma RestIsGrouping(cs: seq<Contract>, bs: seq<MonthlyBucket>)
    requires IsMonthlyGrouping(cs, bs) && bs != []
    ensures 0 <= MonthNumber(bs[|bs| - 1].month) < 12
    ensures IsMonthlyGrouping(Filter(cs, Not(InMonthPred(bs[|bs| - 1].year, MonthNumber(bs[|bs| - 1].month)))), bs[..|bs| - 1])
  {
    assert bs[|bs| - 1] in bs;
    RestBuckets(cs, bs);
    RestMonths(cs, bs);
  }

  /** The earlier buckets are untouched by removing the last month's contracts. */
  lemma RestBuckets(cs: seq<Contract>, bs: seq<MonthlyBucket>)
    requires IsMonthlyGrouping(cs, bs) && bs != []
    requires 0 <= MonthNumber(bs[|bs| - 1].month) < 12
    ensures var rest := Filter(cs, Not(InMonthPred(bs[|bs| - 1].year, MonthNumber(bs[|bs| - 1].month))));
            forall b :: b in bs[..|bs| - 1] ==> 0 <= MonthNumber(b.month) < 12 && b == Summary(rest, b.year, MonthNumber(b.month))
  {
    var init, last := bs[..|bs| - 1], bs[|bs| - 1];
    var y, mo: Month0 := last.year, MonthNumber(last.month);
    forall b | b in init
      ensures 0 <= MonthNumber(b.month) < 12
      ensures b == Summary(Filter(cs, Not(InMonthPred(y, mo))), b.year, MonthNumber(b.month))
    {
      var t :| 0 <= t < |init| && init[t] == b;
      assert Earlier(bs[t], bs[|bs| - 1]);
      assert b in bs;
      SummaryWithoutMonth(cs, y, mo, b.year, MonthNumber(b.month));
    }
  }

  /** Removing the last month's contracts removes exactly the last bucket's month. */
  lemma RestMonths(cs: seq<Contract>, bs: seq<MonthlyBucket>)
    requires StrictlySorted(bs, Earlier) && BucketMonths(bs) == MonthsOf(cs) && bs != []
    requires 0 <= MonthNumber(bs[|bs| - 1].month) < 12
    ensures BucketMonths(bs[..|bs| - 1]) == MonthsOf(Filter(cs, Not(InMonthPred(bs[|bs| - 1].year, MonthNumber(bs[|bs| - 1].month)))))
  {
    var init, last := bs[..|bs| - 1], bs[|bs| - 1];
    var y, mo: Month0 := last.year, MonthNumber(last.month);
    var k := (y, mo as int);
    forall b | b in init ensures (b.year, MonthNumber(b.month)) != k {
      var t :| 0 <= t < |init| && init[t] == b;
      assert Earlier(bs[t], bs[|bs| - 1]);
    }
    BucketMonthsOfInit(bs);
    assert k !in BucketMonths(init);
    MonthsWithoutMonth(cs, y, mo);
    assert BucketMonths(init) == (BucketMonths(init) + {k}) - {k};
  }

  lemma BucketMonthsOfInit(bs: seq<MonthlyBucket>)
    requires bs != []
    ensures BucketMonths(bs) == BucketMonths(bs[..|bs| - 1]) + {(bs[|bs| - 1].year, MonthNumber(bs[|bs| - 1].month))}
  {
    InitMembers(bs);
  }
}
