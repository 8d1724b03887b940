/** The solar economics calculator: four closed-form formulas over exact rationals. */
module SolarCalculation {

  /** Average solar irradiance proxy (kWh/m² per day), days per month and derate factor. */
  const IrradiancePerDay: real := 4.5
  const DaysPerMonth: real := 30.0
  const DerateFactor: real := 0.8
  /** Fixed installation surcharge added to every system. */
  const InstallationSurcharge: real := 1500.0

  /** Monthly generation (kWh) of a system of `systemPower` kWp: 4.5 · 30 · 0.8 = 108 kWh per kWp. */
  function MonthlyGeneration(systemPower: real): (r: real)
    ensures r == systemPower * 108.0
  {
    systemPower * IrradiancePerDay * DaysPerMonth * DerateFactor
  }

  /** Price of the system: power times cost per kWp, plus the surcharge. */
  function TotalSystemValue(systemPower: real, costPerKWp: real): (r: real)
    ensures systemPower >= 0.0 && costPerKWp >= 0.0 ==> r >= InstallationSurcharge
    ensures r - InstallationSurcharge == systemPower * costPerKWp
  {
    systemPower * costPerKWp + InstallationSurcharge
  }

  /** Monthly savings, computed in the source's subtraction form. The consumption terms
      cancel: the result is the whole generation priced at the tariff, with no cap at
      the consumption. */
  function MonthlySavings(consumption: real, generation: real, tariff: real): (r: real)
    ensures r == generation * tariff
  {
    consumption * tariff - (consumption - generation) * tariff
  }

  /** Months until cumulative savings pay for the system. The source divides without a
      guard; a zero divisor is excluded here. */
  function PaybackPeriod(totalValue: real, monthlySavings: real): (r: real)
    requires monthlySavings != 0.0
    ensures r * monthlySavings == totalValue
    ensures totalValue > 0.0 && monthlySavings > 0.0 ==> r > 0.0
  {
    totalValue / monthlySavings
  }

  /** A system without power generates nothing. */
  lemma GenerationAtZero()
    ensures MonthlyGeneration(0.0) == 0.0
  {
  }

  /** Generation is strictly increasing in system power. */
  lemma GenerationStrictlyIncreasing(p: real, q: real)
    requires p < q
    ensures MonthlyGeneration(p) < MonthlyGeneration(q)
  {
  }

  /** Savings never clamp at the consumption: when generation exceeds consumption and the
      tariff is positive, the savings exceed the value of the whole consumption. */
  lemma SavingsDoNotClamp(consumption: real, generation: real, tariff: real)
    requires generation > consumption && tariff > 0.0
    ensures MonthlySavings(consumption, generation, tariff) > consumption * tariff
  {
    assert (generation - consumption) * tariff > 0.0;
  }

  /** When generation equals consumption the savings are the consumption priced at the tariff. */
  lemma SavingsAtBalance(consumption: real, tariff: real)
    ensures MonthlySavings(consumption, consumption, tariff) == consumption * tariff
  {
  }

  /** Savings are non-negative for non-negative generation and tariff. */
  lemma SavingsNonNegative(consumption: real, generation: real, tariff: real)
    requires generation >= 0.0 && tariff >= 0.0
    ensures MonthlySavings(consumption, generation, tariff) >= 0.0
  {
  }

  /** The worked example: 3.5 kWp, 500 kWh, tariff 0.85, 4000 per kWp. */
  lemma WorkedExample()
    ensures MonthlyGeneration(3.5) == 378.0
    ensures TotalSystemValue(3.5, 4000.0) == 15500.0
    ensures MonthlySavings(500.0, 378.0, 0.85) == 321.3
    ensures PaybackPeriod(15500.0, 321.3) * 321.3 == 15500.0
  {
  }
}
