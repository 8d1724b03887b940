/** Contracts as the reporting components read them: structured dates, the pt-BR month
    names and the sums over a list of contracts. */
module Contracts {
  import opened Wrappers
  import opened Seqs
  import opened Text

  /** A zero-based month index, as JavaScript's `Date.prototype.getMonth` returns it. */
  type Month0 = m: int | 0 <= m < 12

  /** A day of the month. */
  type Day = d: int | 1 <= d <= 31 witness 1

  /** A calendar date; time of day and time zone are not modelled. */
  datatype Date = Date(year: int, month: Month0, day: Day)

  /** Calendar order on dates: by year, then month, then day. */
  predicate DateLe(a: Date, b: Date)
  {
    a.year < b.year
    || (a.year == b.year && (a.month < b.month || (a.month == b.month && a.day <= b.day)))
  }

  lemma DateLeTransitive(a: Date, b: Date, c: Date)
    requires DateLe(a, b) && DateLe(b, c)
    ensures DateLe(a, c)
  {
  }

  /** A contract record. `commission` is absent for records stored without one. */
  datatype Contract = Contract(
    id: int,
    clientName: string,
    clientEmail: string,
    clientPhone: string,
    product: string,
    value: real,
    description: string,
    paymentTerms: string,
    duration: string,
    status: string,
    date: Date,
    commission: Option<real>)

  /** The pt-BR long month names, in calendar order. */
  const MonthNames: seq<string> := [
    "janeiro", "fevereiro", "março", "abril", "maio", "junho",
    "julho", "agosto", "setembro", "outubro", "novembro", "dezembro"]

  /** The pt-BR long name of month `m`, as the locale formatting of a date gives it. */
  function MonthName(m: Month0): string
  {
    MonthNames[m]
  }

  /** `getMonthNumber`: the position of the lower-cased name in the table, or -1. */
  function MonthNumber(month: string): (r: int)
    ensures -1 <= r < 12
    ensures r == -1 <==> Lower(month) !in MonthNames
    ensures 0 <= r ==> MonthNames[r] == Lower(month)
  {
    IndexOf(MonthNames, Lower(month))
  }

  /** The month names are written in lower case and are pairwise different. */
  lemma MonthNamesLowercaseAndDistinct()
    ensures forall m: Month0 :: Lower(MonthNames[m]) == MonthNames[m]
    ensures Distinct(MonthNames)
  {
    forall m: Month0 ensures Lower(MonthNames[m]) == MonthNames[m] {
      LowerOfLowercase(MonthNames[m]);
    }
  }

  /** Reading back the name of month `m` gives `m`. */
  lemma MonthNumberOfName(m: Month0)
    ensures MonthNumber(MonthName(m)) == m
  {
    MonthNamesLowercaseAndDistinct();
    var r := MonthNumber(MonthName(m));
    assert MonthNames[r] == MonthNames[m];
  }

  /** Reading is case-insensitive: an upper-case spelling gives the same month. */
  lemma MonthNumberIgnoresCase(a: string, b: string)
    requires Lower(a) == Lower(b)
    ensures MonthNumber(a) == MonthNumber(b)
  {
  }

  /** A contract's commission, 0 when it has none. */
  function CommissionOrZero(c: Contract): real
  {
    c.commission.GetOr(0.0)
  }

  /** What a sum over contracts adds up, one term per contract. */
  datatype Measure = Count | Value | Commission

  function ContractMeasure(c: Contract, m: Measure): real
  {
    match m
    case Count => 1.0
    case Value => c.value
    case Commission => CommissionOrZero(c)
  }

  /** The sum of one measure over the contracts, added left to right from 0 as the reports'
      reduce calls do. */
  function Total(cs: seq<Contract>, m: Measure): real
    decreases |cs|
  {
    if cs == [] then 0.0 else Total(cs[..|cs| - 1], m) + ContractMeasure(cs[|cs| - 1], m)
  }

  lemma {:induction false} TotalAppend(a: seq<Contract>, b: seq<Contract>, m: Measure)
    ensures Total(a + b, m) == Total(a, m) + Total(b, m)
    decreases |b|
  {
    if b == [] {
      assert a + b == a;
    } else {
      assert (a + b)[..|a + b| - 1] == a + b[..|b| - 1];
      TotalAppend(a, b[..|b| - 1], m);
    }
  }

  /** Counting is summing ones. */
  lemma {:induction false} TotalCountIsLength(cs: seq<Contract>)
    ensures Total(cs, Count) == |cs| as real
    decreases |cs|
  {
    if cs != [] {
      TotalCountIsLength(cs[..|cs| - 1]);
    }
  }

  /** A sum splits into the part where `p` holds and the part where it does not. */
  lemma {:induction false} TotalSplit(cs: seq<Contract>, p: Contract -> bool, m: Measure)
    ensures Total(cs, m) == Total(Filter(cs, p), m) + Total(Filter(cs, Not(p)), m)
    decreases |cs|
  {
    if cs != [] {
      var init, last := cs[..|cs| - 1], cs[|cs| - 1];
      TotalSplit(init, p, m);
      if p(last) {
        TotalAppend(Filter(init, p), [last], m);
      } else {
        TotalAppend(Filter(init, Not(p)), [last], m);
      }
    }
  }

  /** A sum of non-negative terms is non-negative. */
  lemma {:induction false} TotalNonNegative(cs: seq<Contract>, m: Measure)
    requires forall c :: c in cs ==> ContractMeasure(c, m) >= 0.0
    ensures Total(cs, m) >= 0.0
    decreases |cs|
  {
    if cs != [] {
      TotalNonNegative(cs[..|cs| - 1], m);
    }
  }

  /** Bounds on every term bound the sum. */
  lemma TotalBounds(cs: seq<Contract>, m: Measure, lo: real, hi: real)
    requires forall c :: c in cs ==> lo <= ContractMeasure(c, m) <= hi
    ensures |cs| as real * lo <= Total(cs, m) <= |cs| as real * hi
  {
    TotalAtLeast(cs, m, lo);
    TotalAtMost(cs, m, hi);
  }

  lemma {:induction false} TotalAtLeast(cs: seq<Contract>, m: Measure, lo: real)
    requires forall i :: 0 <= i < |cs| ==> lo <= ContractMeasure(cs[i], m)
    ensures |cs| as real * lo <= Total(cs, m)
    decreases |cs|
  {
    if cs != [] {
      var init := cs[..|cs| - 1];
      TotalAtLeast(init, m, lo);
      ScaleSucc(|init|, lo);
    }
  }

  lemma {:induction false} TotalAtMost(cs: seq<Contract>, m: Measure, hi: real)
    requires forall i :: 0 <= i < |cs| ==> ContractMeasure(cs[i], m) <= hi
    ensures Total(cs, m) <= |cs| as real * hi
    decreases |cs|
  {
    if cs != [] {
      var init := cs[..|cs| - 1];
      TotalAtMost(init, m, hi);
      ScaleSucc(|init|, hi);
    }
  }

  lemma ScaleSucc(n: nat, x: real)
    ensures (n + 1) as real * x == n as real * x + x
  {
  }

  /** The contract has exactly this status. */
  function HasStatus(status: string): Contract -> bool
  {
    (c: Contract) => c.status == status
  }

  /** The status is one of `statuses`. */
  function StatusIn(statuses: seq<string>): Contract -> bool
  {
    (c: Contract) => c.status in statuses
  }

  /** How many contracts have this status. */
  function StatusCount(cs: seq<Contract>, status: string): nat
  {
    |Filter(cs, HasStatus(status))|
  }

  /** The counts of the statuses in `statuses`, added up. */
  function SumCounts(cs: seq<Contract>, statuses: seq<string>): nat
    decreases |statuses|
  {
    if statuses == [] then 0
    else SumCounts(cs, statuses[..|statuses| - 1]) + StatusCount(cs, statuses[|statuses| - 1])
  }

  /** The counts of pairwise different statuses add up to the number of contracts having one of
      them: no contract is counted twice. */
  lemma {:induction false} SumCountsIsFilterCount(cs: seq<Contract>, statuses: seq<string>)
    requires Distinct(statuses)
    ensures SumCounts(cs, statuses) == |Filter(cs, StatusIn(statuses))|
    decreases |statuses|
  {
    if statuses == [] {
      FilterNone(cs, StatusIn(statuses));
    } else {
      var init, last := statuses[..|statuses| - 1], statuses[|statuses| - 1];
      SumCountsIsFilterCount(cs, init);
      FilterDisjointCount(cs, StatusIn(init), HasStatus(last));
      assert statuses == init + [last];
      forall c | c in cs ensures StatusIn(statuses)(c) == Or(StatusIn(init), HasStatus(last))(c) {
      }
      FilterCongruence(cs, StatusIn(statuses), Or(StatusIn(init), HasStatus(last)));
    }
  }

  /** Hence the counts of pairwise different statuses add up to at most the number of
      contracts, and to exactly that number when every contract's status is among them. */
  lemma StatusCountsPartition(cs: seq<Contract>, statuses: seq<string>)
    requires Distinct(statuses)
    ensures SumCounts(cs, statuses) == |Filter(cs, StatusIn(statuses))|
    ensures SumCounts(cs, statuses) <= |cs|
    ensures SumCounts(cs, statuses) == |cs| <==> forall c :: c in cs ==> c.status in statuses
  {
    SumCountsIsFilterCount(cs, statuses);
    FilterKeepsAll(cs, StatusIn(statuses));
  }
}
