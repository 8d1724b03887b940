/** The commission panel: a year's commissions per month and in total, and the year and month
    choices offered to the user. */
module CommissionPanel {
  import opened Seqs
  import opened Text
  import opened Contracts
  import opened MonthlyGrouping

  /** A contract earns commission in the selected year when it is dated in that year and its
      status is active, completed or pending; cancelled and finished contracts do not. */
  predicate IsValidContract(c: Contract, selectedYear: int)
  {
    c.date.year == selectedYear && (c.status == "Ativo" || c.status == "Concluido" || c.status == "Pendente")
  }

  function ValidPred(selectedYear: int): Contract -> bool
  {
    (c: Contract) => IsValidContract(c, selectedYear)
  }

  /** `validContracts`: the contracts that earn commission in the year, in their order. */
  function ValidContracts(cs: seq<Contract>, selectedYear: int): (r: seq<Contract>)
    ensures forall c :: c in r ==> c in cs && IsValidContract(c, selectedYear)
    ensures forall c :: c in cs && IsValidContract(c, selectedYear) ==> c in r
    ensures forall c :: multiset(r)[c] == if IsValidContract(c, selectedYear) then multiset(cs)[c] else 0
    ensures IsSubsequence(r, cs)
  {
    FilterContents(cs, ValidPred(selectedYear));
    Filter(cs, ValidPred(selectedYear))
  }

  /** `calculateComissions`: the valid contracts grouped by month, and the running total of
      their commissions (missing commission counted as 0). */
  method CalculateComissions(contracts: seq<Contract>, selectedYear: int)
    returns (monthlyComissions: seq<MonthlyBucket>, total: real)
    ensures IsMonthlyGrouping(ValidContracts(contracts, selectedYear), monthlyComissions)
    ensures total == Total(ValidContracts(contracts, selectedYear), Commission)
  {
    var validContracts := ValidContracts(contracts, selectedYear);
    total := 0.0;
    for i := 0 to |validContracts|
      invariant total == Total(validContracts[..i], Commission)
    {
      assert validContracts[..i + 1][..i] == validContracts[..i];
      total := total + CommissionOrZero(validContracts[i]);
    }
    assert validContracts[..|validContracts|] == validContracts;
    monthlyComissions := GroupByMonth(validContracts);
  }

  /** The panel's figures agree: the total is the sum of the monthly totals, and the monthly
      contract counts add up to the number of valid contracts. */
  lemma PanelTotalsAgree(cs: seq<Contract>, selectedYear: int, bs: seq<MonthlyBucket>)
    requires IsMonthlyGrouping(ValidContracts(cs, selectedYear), bs)
    ensures BucketTotal(bs, Commission) == Total(ValidContracts(cs, selectedYear), Commission)
    ensures BucketTotal(bs, Count) == |ValidContracts(cs, selectedYear)| as real
  {
    var valid := ValidContracts(cs, selectedYear);
    GroupingTotals(valid, bs, Commission);
    GroupingTotals(valid, bs, Count);
    TotalCountIsLength(valid);
  }

  /** Every month of the panel lies in the selected year, so there are at most twelve. */
  lemma AtMostTwelveMonths(cs: seq<Contract>, selectedYear: int, bs: seq<MonthlyBucket>)
    requires IsMonthlyGrouping(ValidContracts(cs, selectedYear), bs)
    ensures forall b :: b in bs ==> b.year == selectedYear
    ensures |bs| <= 12
  {
    var valid := ValidContracts(cs, selectedYear);
    forall b | b in bs ensures b.year == selectedYear && 0 <= MonthNumber(b.month) < 12 {
      assert (b.year, MonthNumber(b.month)) in MonthsOf(valid);
    }
    if bs != [] {
      assert bs[0] in bs && bs[|bs| - 1] in bs;
      KeysSpread(bs, |bs| - 1);
    }
  }

  /** Strictly increasing month counts grow by at least one per position. */
  lemma {:induction false} KeysSpread(bs: seq<MonthlyBucket>, i: nat)
    requires StrictlySorted(bs, Earlier) && i < |bs|
    ensures ChronoKey(bs[i]) >= ChronoKey(bs[0]) + i
  {
    if i > 0 {
      KeysSpread(bs, i - 1);
      assert Earlier(bs[i - 1], bs[i]);
    }
  }

  /** The panel's state. */
  class Panel {
    var contracts: seq<Contract>
    var selectedYear: int
    var selectedMonth: Month0
    var monthlyComissions: seq<MonthlyBucket>
    var totalAccumulated: real

    /** The figures shown are those of the current contracts and year; they are only
        recomputed while there are contracts, so with none they may be stale. */
    ghost predicate Current()
      reads this
    {
      && IsMonthlyGrouping(ValidContracts(contracts, selectedYear), monthlyComissions)
      && totalAccumulated == Total(ValidContracts(contracts, selectedYear), Commission)
    }

    /** Mounting the panel: the given contracts, the current year and month selected, and the
        figures computed by the effect when there are contracts. */
    constructor(initial: seq<Contract>, currentYear: int, currentMonth: Month0)
      ensures contracts == initial && selectedYear == currentYear && selectedMonth == currentMonth
      ensures |initial| > 0 ==> Current()
      ensures |initial| == 0 ==> monthlyComissions == [] && totalAccumulated == 0.0
    {
      contracts := initial;
      selectedYear := currentYear;
      selectedMonth := currentMonth;
      monthlyComissions := [];
      totalAccumulated := 0.0;
      if |initial| > 0 {
        var monthly, total := CalculateComissions(initial, currentYear);
        monthlyComissions := monthly;
        totalAccumulated := total;
      }
    }

    /** The effect on `[contracts, selectedYear]`: recompute when there are contracts. */
    method Recalculate()
      modifies this`monthlyComissions, this`totalAccumulated
      ensures |contracts| > 0 ==> Current()
      ensures |contracts| == 0 ==> monthlyComissions == old(monthlyComissions) && totalAccumulated == old(totalAccumulated)
    {
      if |contracts| > 0 {
        var monthly, total := CalculateComissions(contracts, selectedYear);
        monthlyComissions := monthly;
        totalAccumulated := total;
      }
    }

    /** Choosing another year. */
    method SelectYear(year: int)
      modifies this`selectedYear, this`monthlyComissions, this`totalAccumulated
      ensures selectedYear == year
      ensures |contracts| > 0 ==> Current()
      ensures |contracts| == 0 ==> monthlyComissions == old(monthlyComissions) && totalAccumulated == old(totalAccumulated)
    {
      selectedYear := year;
      Recalculate();
    }

    /** `loadContracts` after a successful fetch. */
    method LoadContracts(loaded: seq<Contract>)
      modifies this`contracts, this`monthlyComissions, this`totalAccumulated
      ensures contracts == loaded
      ensures |loaded| > 0 ==> Current()
      ensures |loaded| == 0 ==> monthlyComissions == old(monthlyComissions) && totalAccumulated == old(totalAccumulated)
    {
      contracts := loaded;
      Recalculate();
    }

    /** Choosing a month changes nothing the figures depend on. */
    method SelectMonth(month: Month0)
      modifies this`selectedMonth
      ensures selectedMonth == month
    {
      selectedMonth := month;
    }
  }

  predicate Later(a: int, b: int)
  {
    a > b
  }

  /** `getAvailableYears`: every contract year once, newest first. */
  method AvailableYears(contracts: seq<Contract>) returns (years: seq<int>)
    ensures StrictlySorted(years, Later)
    ensures forall y :: y in years ==> exists c :: c in contracts && c.date.year == y
    ensures forall c :: c in contracts ==> c.date.year in years
  {
    var found := UniqueInOrder(seq(|contracts|, i requires 0 <= i < |contracts| => contracts[i].date.year));
    SortDistinct(found, Later);
    years := InsertionSort(found, Later);
    forall c | c in contracts ensures c.date.year in years {
      var i :| 0 <= i < |contracts| && contracts[i] == c;
      assert seq(|contracts|, i requires 0 <= i < |contracts| => contracts[i].date.year)[i] == c.date.year;
    }
  }

  /** `getAvailableMonths`: every contract month name once, in character order. */
  method AvailableMonths(contracts: seq<Contract>) returns (months: seq<string>)
    ensures StrictlySorted(months, CodeUnitLess)
    ensures forall m :: m in months ==> exists c :: c in contracts && MonthName(c.date.month) == m
    ensures forall c :: c in contracts ==> MonthName(c.date.month) in months
  {
    var names := seq(|contracts|, i requires 0 <= i < |contracts| => MonthName(contracts[i].date.month));
    var found := UniqueInOrder(names);
    CodeUnitOrderIsTransitive();
    forall a, b | a in found && b in found && a != b ensures CodeUnitLess(a, b) || CodeUnitLess(b, a) {
      CodeUnitLessTotal(a, b);
    }
    SortDistinct(found, CodeUnitLess);
    months := InsertionSort(found, CodeUnitLess);
    forall c | c in contracts ensures MonthName(c.date.month) in months {
      var i :| 0 <= i < |contracts| && contracts[i] == c;
      assert names[i] == MonthName(c.date.month);
    }
  }
}
