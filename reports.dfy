/** The reports page: the date-range filter every report starts from, the contracts-by-status
    cards, the commissions report and the performance report. */
module Reports {
  import opened Seqs
  import opened Contracts
  import opened MonthlyGrouping

  /** The period the reports cover; both ends are included. */
  datatype DateFilter = DateFilter(startDate: Date, endDate: Date)

  /** The initial period: the first of January of the current year up to today. */
  function DefaultDateFilter(today: Date): DateFilter
  {
    DateFilter(Date(today.year, 0, 1), today)
  }

  function InRangePred(f: DateFilter): Contract -> bool
  {
    (c: Contract) => DateLe(f.startDate, c.date) && DateLe(c.date, f.endDate)
  }

  /** `getFilteredContracts`: the contracts dated inside the period, in their original order. */
  function FilteredContracts(cs: seq<Contract>, f: DateFilter): (r: seq<Contract>)
    ensures forall c :: c in r ==> c in cs && DateLe(f.startDate, c.date) && DateLe(c.date, f.endDate)
    ensures forall c :: c in cs && DateLe(f.startDate, c.date) && DateLe(c.date, f.endDate) ==> c in r
    ensures forall c :: multiset(r)[c] ==
                         if DateLe(f.startDate, c.date) && DateLe(c.date, f.endDate) then multiset(cs)[c] else 0
    ensures IsSubsequence(r, cs)
  {
    FilterContents(cs, InRangePred(f));
    Filter(cs, InRangePred(f))
  }

  /** A period that ends before it starts keeps nothing. */
  lemma EmptyPeriod(cs: seq<Contract>, f: DateFilter)
    requires !DateLe(f.startDate, f.endDate)
    ensures FilteredContracts(cs, f) == []
  {
    forall c | c in cs ensures !InRangePred(f)(c) {
      if DateLe(f.startDate, c.date) && DateLe(c.date, f.endDate) {
        DateLeTransitive(f.startDate, c.date, f.endDate);
      }
    }
    FilterNone(cs, InRangePred(f));
  }

  /** The initial period keeps exactly this year's contracts up to today. */
  lemma DefaultPeriodIsYearToDate(cs: seq<Contract>, today: Date, c: Contract)
    ensures c in FilteredContracts(cs, DefaultDateFilter(today))
            <==> c in cs && c.date.year == today.year && DateLe(c.date, today)
  {
  }

  /** A status's entry in the tally; a status missing from it counts 0. */
  function CountOf(counts: map<string, nat>, status: string): nat
  {
    if status in counts then counts[status] else 0
  }

  /** `contractsByStatus`: the tally of statuses built by the reduce. */
  function CountByStatus(cs: seq<Contract>): map<string, nat>
    decreases |cs|
  {
    if cs == [] then map[]
    else
      var acc := CountByStatus(cs[..|cs| - 1]);
      var status := cs[|cs| - 1].status;
      acc[status := CountOf(acc, status) + 1]
  }

  /** The tally holds a status exactly when some contract has it, and then it holds the number
      of contracts that have it. */
  lemma {:induction false} CountByStatusCounts(cs: seq<Contract>, status: string)
    ensures CountOf(CountByStatus(cs), status) == StatusCount(cs, status)
    ensures status in CountByStatus(cs) <==> StatusCount(cs, status) > 0
    decreases |cs|
  {
    if cs != [] {
      CountByStatusCounts(cs[..|cs| - 1], status);
    }
  }

  /** The statuses that get a card, in display order, and their colours. */
  const CardStatuses: seq<string> := ["Ativo", "Pendente", "Concluido", "Cancelado"]
  const CardColors: seq<string> := ["success", "warning", "info", "danger"]

  datatype StatusCard = StatusCard(status: string, color: string, count: nat)

  /** `statusCards`: one card per listed status with its tally, 0 when the status is absent. */
  function StatusCards(cs: seq<Contract>): (r: seq<StatusCard>)
    ensures |r| == |CardStatuses|
    ensures forall i :: 0 <= i < |r| ==> r[i].status == CardStatuses[i] && r[i].color == CardColors[i]
    ensures forall i :: 0 <= i < |r| ==> r[i].count == StatusCount(cs, CardStatuses[i])
    ensures forall i :: 0 <= i < |r| && (forall c :: c in cs ==> c.status != CardStatuses[i]) ==> r[i].count == 0
  {
    var counts := CountByStatus(cs);
    var r := seq(4, i requires 0 <= i < 4 => StatusCard(CardStatuses[i], CardColors[i], CountOf(counts, CardStatuses[i])));
    forall i | 0 <= i < 4
      ensures r[i].count == StatusCount(cs, CardStatuses[i])
      ensures (forall c :: c in cs ==> c.status != CardStatuses[i]) ==> r[i].count == 0
    {
      CountByStatusCounts(cs, CardStatuses[i]);
      FilterContents(cs, HasStatus(CardStatuses[i]));
      if forall c :: c in cs ==> c.status != CardStatuses[i] {
        FilterNone(cs, HasStatus(CardStatuses[i]));
      }
    }
    r
  }

  /** The card counts together never exceed the number of contracts, and equal it exactly
      when every contract has one of the four carded statuses. */
  lemma StatusCardsPartition(cs: seq<Contract>)
    ensures var r := StatusCards(cs);
            r[0].count + r[1].count + r[2].count + r[3].count <= |cs|
    ensures var r := StatusCards(cs);
            r[0].count + r[1].count + r[2].count + r[3].count == |cs|
            <==> forall c :: c in cs ==> c.status in CardStatuses
  {
    StatusCountsPartition(cs, CardStatuses);
    var s := CardStatuses;
    assert s[..3][..2] == s[..2] && s[..2][..1] == s[..1] && s[..1][..0] == [];
    assert SumCounts(cs, s[..1]) == StatusCount(cs, s[0]);
    assert SumCounts(cs, s[..2]) == SumCounts(cs, s[..1]) + StatusCount(cs, s[1]);
    assert SumCounts(cs, s[..3]) == SumCounts(cs, s[..2]) + StatusCount(cs, s[2]);
    assert SumCounts(cs, s) == SumCounts(cs, s[..3]) + StatusCount(cs, s[3]);
  }

  /** `averageMonthly`: the commission total spread over the months, with at least one month as
      divisor, so that no months gives 0. */
  function AverageMonthly(bs: seq<MonthlyBucket>): (r: real)
    ensures r * (if |bs| > 1 then |bs| else 1) as real == BucketTotal(bs, Commission)
  {
    BucketTotal(bs, Commission) / (if |bs| > 1 then |bs| else 1) as real
  }

  /** Over a grouping, the commission total is the filtered contracts' commission total, and
      the average is 0 when there are no contracts. */
  lemma CommissionTotals(cs: seq<Contract>, bs: seq<MonthlyBucket>)
    requires IsMonthlyGrouping(cs, bs)
    ensures BucketTotal(bs, Commission) == Total(cs, Commission)
    ensures cs == [] ==> AverageMonthly(bs) == 0.0
    ensures cs != [] ==> AverageMonthly(bs) * |bs| as real == Total(cs, Commission)
  {
    GroupingTotals(cs, bs, Commission);
    GroupingEmpty(cs, bs);
    AverageOverMonths(bs);
  }

  /** With months, the average is the total over their number; without, it is 0. */
  lemma AverageOverMonths(bs: seq<MonthlyBucket>)
    ensures bs == [] ==> AverageMonthly(bs) == 0.0
    ensures bs != [] ==> AverageMonthly(bs) * |bs| as real == BucketTotal(bs, Commission)
  {
    if bs != [] {
      assert (if |bs| > 1 then |bs| else 1) == |bs|;
    }
  }

  /** The seed of the `bestMonth` reduce, shown as "N/A". */
  const NoBestMonth := MonthlyBucket("", 0, 0, 0.0, 0.0)

  /** `bestMonth`: the reduce that replaces the best so far only by a bucket with a strictly
      greater commission total. */
  function BestMonth(bs: seq<MonthlyBucket>): (r: MonthlyBucket)
    ensures r == NoBestMonth || r in bs
    ensures forall b :: b in bs ==> b.commission <= r.commission
    ensures r.commission >= 0.0
    ensures r != NoBestMonth ==> r.commission > 0.0
    decreases |bs|
  {
    if bs == [] then NoBestMonth
    else
      var best := BestMonth(bs[..|bs| - 1]);
      var current := bs[|bs| - 1];
      InitMembers(bs);
      if current.commission > best.commission then current else best
  }

  /** The best month is shown (instead of "N/A") exactly when some month has a positive
      commission total. */
  lemma BestMonthShown(bs: seq<MonthlyBucket>)
    ensures BestMonth(bs).commission > 0.0 <==> exists b :: b in bs && b.commission > 0.0
    ensures BestMonth(bs).commission <= 0.0 ==> BestMonth(bs) == NoBestMonth
  {
  }

  /** Of several months with the greatest total, the earliest wins. */
  lemma {:induction false} BestMonthIsEarliest(bs: seq<MonthlyBucket>)
    requires BestMonth(bs) != NoBestMonth
    ensures exists i :: 0 <= i < |bs| && bs[i] == BestMonth(bs)
                        && forall j :: 0 <= j < i ==> bs[j].commission < bs[i].commission
    decreases |bs|
  {
    var init, current := bs[..|bs| - 1], bs[|bs| - 1];
    var best := BestMonth(init);
    if current.commission > best.commission {
      var i := |bs| - 1;
      forall j | 0 <= j < i ensures bs[j].commission < bs[i].commission {
        assert bs[j] in init;
      }
    } else {
      BestMonthIsEarliest(init);
      var i :| 0 <= i < |init| && init[i] == best
               && forall j :: 0 <= j < i ==> init[j].commission < init[i].commission;
      assert bs[i] == best;
      forall j | 0 <= j < i ensures bs[j].commission < bs[i].commission {
        assert bs[j] == init[j];
      }
    }
  }

  /** The commissions report on a period. */
  datatype CommissionReport = CommissionReport(monthly: seq<MonthlyBucket>, total: real, averageMonthly: real, best: MonthlyBucket)

  /** `renderCommissionsReport`: the period's contracts grouped by month, with the total, the
      monthly average and the best month. */
  method CommissionsReport(contracts: seq<Contract>, f: DateFilter) returns (report: CommissionReport)
    ensures IsMonthlyGrouping(FilteredContracts(contracts, f), report.monthly)
    ensures report.total == Total(FilteredContracts(contracts, f), Commission)
    ensures report.averageMonthly == AverageMonthly(report.monthly)
    ensures report.best == BestMonth(report.monthly)
  {
    var filtered := FilteredContracts(contracts, f);
    var monthly := GroupByMonth(filtered);
    CommissionTotals(filtered, monthly);
    report := CommissionReport(monthly, BucketTotal(monthly, Commission), AverageMonthly(monthly), BestMonth(monthly));
  }

  /** `conversionRate`: the share, in percent, of active and completed contracts; 0 with no
      contracts. */
  function ConversionRate(cs: seq<Contract>): (r: real)
    ensures 0.0 <= r <= 100.0
    ensures cs == [] ==> r == 0.0
    ensures r == 100.0 <==> cs != [] && forall c :: c in cs ==> c.status == "Ativo" || c.status == "Concluido"
  {
    var converted := StatusCount(cs, "Ativo") + StatusCount(cs, "Concluido");
    ConvertedCount(cs);
    if |cs| > 0 then
      Percentage(converted as real, |cs| as real);
      converted as real / |cs| as real * 100.0
    else 0.0
  }

  /** Active and completed contracts together number at most all contracts, and all of them
      exactly when every contract is active or completed. */
  lemma ConvertedCount(cs: seq<Contract>)
    ensures StatusCount(cs, "Ativo") + StatusCount(cs, "Concluido") <= |cs|
    ensures StatusCount(cs, "Ativo") + StatusCount(cs, "Concluido") == |cs|
            <==> forall c :: c in cs ==> c.status == "Ativo" || c.status == "Concluido"
  {
    var s := ["Ativo", "Concluido"];
    StatusCountsPartition(cs, s);
    assert s[..1][..0] == [];
    assert SumCounts(cs, s[..1]) == StatusCount(cs, s[0]);
    assert SumCounts(cs, s) == SumCounts(cs, s[..1]) + StatusCount(cs, s[1]);
    assert forall c: Contract :: c.status in s <==> c.status == "Ativo" || c.status == "Concluido";
  }

  /** A part of a positive whole, in percent. */
  lemma Percentage(part: real, whole: real)
    requires 0.0 <= part <= whole && whole > 0.0
    ensures 0.0 <= part / whole * 100.0 <= 100.0
    ensures part / whole * 100.0 == 100.0 <==> part == whole
  {
    var q := part / whole;
    assert q * whole == part;
    if q * 100.0 == 100.0 {
      assert q == 1.0;
    }
    if part == whole {
      assert (q - 1.0) * whole == 0.0;
      assert q == 1.0;
    }
  }

  /** `averageTicket`: the mean contract value; 0 with no contracts. */
  function AverageTicket(cs: seq<Contract>): (r: real)
    ensures cs == [] ==> r == 0.0
    ensures cs != [] ==> r * |cs| as real == Total(cs, Value)
  {
    if |cs| > 0 then Total(cs, Value) / |cs| as real else 0.0
  }

  /** The mean lies between the smallest and the largest contract value. */
  lemma AverageTicketBounds(cs: seq<Contract>, lo: real, hi: real)
    requires cs != []
    requires forall c :: c in cs ==> lo <= c.value <= hi
    ensures lo <= AverageTicket(cs) <= hi
  {
    TotalBounds(cs, Value, lo, hi);
    var n := |cs| as real;
    var r := AverageTicket(cs);
    assert n * lo <= r * n <= n * hi;
  }

  /** `monthlyGoal`. */
  const MonthlyGoal: real := 50000.0

  /** `goalAchievement`: the last month's value as a percentage of the goal; 0 with no months. */
  function GoalAchievement(bs: seq<MonthlyBucket>): (r: real)
    ensures bs == [] ==> r == 0.0
    ensures bs != [] ==> r * MonthlyGoal == bs[|bs| - 1].value * 100.0
  {
    if bs == [] then 0.0 else bs[|bs| - 1].value / MonthlyGoal * 100.0
  }

  /** Over a grouping, the goal is measured on the latest month that has contracts: no contract
      is dated later, and the percentage is that month's total value over the goal. */
  lemma GoalUsesLatestMonth(cs: seq<Contract>, bs: seq<MonthlyBucket>)
    requires IsMonthlyGrouping(cs, bs) && cs != []
    ensures bs != []
    ensures 0 <= MonthNumber(bs[|bs| - 1].month) < 12
    ensures forall c :: c in cs ==> c.date.year * 12 + c.date.month <= ChronoKey(bs[|bs| - 1])
    ensures var last := bs[|bs| - 1];
            GoalAchievement(bs) * MonthlyGoal == Total(InMonth(cs, last.year, MonthNumber(last.month)), Value) * 100.0
  {
    MonthsOfEmpty(cs);
    var last := bs[|bs| - 1];
    assert last in bs;
    forall c | c in cs ensures c.date.year * 12 + c.date.month <= ChronoKey(last) {
      assert MonthKey(c) in BucketMonths(bs);
      var b :| b in bs && MonthKey(c) == (b.year, MonthNumber(b.month));
      var i :| 0 <= i < |bs| && bs[i] == b;
      if i < |bs| - 1 {
        assert Earlier(bs[i], last);
      }
    }
    SummaryCountsMonth(cs, last.year, MonthNumber(last.month));
  }

  /** The performance report on a period. */
  datatype PerformanceReport = PerformanceReport(
    totalContracts: nat, activeContracts: nat, completedContracts: nat,
    conversionRate: real, totalValue: real, averageTicket: real,
    monthly: seq<MonthlyBucket>, goalAchievement: real)

  /** `renderPerformanceReport`: counts, conversion rate, average ticket, the monthly buckets and
      the goal percentage of the period's contracts. */
  method Performance(contracts: seq<Contract>, f: DateFilter) returns (report: PerformanceReport)
    ensures var filtered := FilteredContracts(contracts, f);
            && report.totalContracts == |filtered|
            && report.activeContracts == StatusCount(filtered, "Ativo")
            && report.completedContracts == StatusCount(filtered, "Concluido")
            && report.conversionRate == ConversionRate(filtered)
            && report.totalValue == Total(filtered, Value)
            && report.averageTicket == AverageTicket(filtered)
            && IsMonthlyGrouping(filtered, report.monthly)
            && report.goalAchievement == GoalAchievement(report.monthly)
  {
    var filtered := FilteredContracts(contracts, f);
    var monthly := GroupByMonth(filtered);
    report := PerformanceReport(
      |filtered|, StatusCount(filtered, "Ativo"), StatusCount(filtered, "Concluido"),
      ConversionRate(filtered), Total(filtered, Value), AverageTicket(filtered),
      monthly, GoalAchievement(monthly));
  }
}
