/** The quick-proposal form: its data, the automatic calculation and the handlers that
    update the form state. */
module QuickProposalForm {
  import opened Wrappers
  import opened SolarCalculation

  /** The inputs of a quick proposal as the form holds them. */
  datatype FormData = FormData(
    clientId: string,
    clientName: Option<string>,
    monthlyConsumption: real,
    systemPower: real,
    energyTariff: real,
    costPerKWp: real)

  /** A client offered in the form's select; `monthlyConsumption` is the saved value, if any. */
  datatype Client = Client(id: Option<string>, name: string, company: string, monthlyConsumption: Option<real>)

  /** The results shown under the form. */
  datatype Calculations = Calculations(
    monthlyGeneration: real,
    totalSystemValue: real,
    monthlySavings: real,
    paybackPeriod: real,
    annualSavings: real,
    roiPercentage: real)

  /** The numeric inputs the form edits one at a time. */
  datatype Field = MonthlyConsumption | SystemPower | EnergyTariff | CostPerKWp

  /** Default tariff (currency per kWh) and default cost per kWp. */
  const DefaultTariff: real := 0.85
  const DefaultCostPerKWp: real := 4000.0

  /** The form's initial and reset state. */
  function DefaultForm(): (f: FormData)
    ensures f.clientId == "" && f.clientName == None
    ensures f.monthlyConsumption == 0.0 && f.systemPower == 0.0
    ensures f.energyTariff == DefaultTariff && f.costPerKWp == DefaultCostPerKWp
  {
    FormData("", None, 0.0, 0.0, DefaultTariff, DefaultCostPerKWp)
  }

  /** The gate of the calculation effect, and `isFormValid`: a client is chosen and all four
      numbers are positive. */
  predicate IsFormValid(f: FormData)
  {
    f.clientId != "" && f.monthlyConsumption > 0.0 && f.systemPower > 0.0
    && f.energyTariff > 0.0 && f.costPerKWp > 0.0
  }

  function SavingsFor(f: FormData): real
  {
    MonthlySavings(f.monthlyConsumption, MonthlyGeneration(f.systemPower), f.energyTariff)
  }

  /** The two divisors of the calculation (savings for the payback, system value for the
      return on investment) are non-zero. */
  predicate Computable(f: FormData)
  {
    SavingsFor(f) != 0.0 && TotalSystemValue(f.systemPower, f.costPerKWp) != 0.0
  }

  /** `calculateProposal`: the four calculator results and the two derived figures. */
  function CalculateProposal(f: FormData): (c: Calculations)
    requires Computable(f)
    ensures c.monthlyGeneration == f.systemPower * 108.0
    ensures c.totalSystemValue == f.systemPower * f.costPerKWp + 1500.0
    ensures c.monthlySavings == c.monthlyGeneration * f.energyTariff
    ensures c.paybackPeriod * c.monthlySavings == c.totalSystemValue
    ensures c.annualSavings == 12.0 * c.monthlySavings
    ensures c.roiPercentage * c.totalSystemValue == c.annualSavings * 100.0
  {
    var generation := MonthlyGeneration(f.systemPower);
    var value := TotalSystemValue(f.systemPower, f.costPerKWp);
    var savings := MonthlySavings(f.monthlyConsumption, generation, f.energyTariff);
    var payback := PaybackPeriod(value, savings);
    var annual := savings * 12.0;
    Calculations(generation, value, savings, payback, annual, annual / value * 100.0)
  }

  /** Under the gate both divisors are positive; the system value is at least the surcharge,
      and every figure is positive. */
  lemma ValidFormIsComputable(f: FormData)
    requires IsFormValid(f)
    ensures Computable(f)
    ensures CalculateProposal(f).totalSystemValue >= 1500.0
    ensures CalculateProposal(f).monthlySavings > 0.0
    ensures CalculateProposal(f).paybackPeriod > 0.0
    ensures CalculateProposal(f).roiPercentage > 0.0
  {
    var g := MonthlyGeneration(f.systemPower);
    assert g > 0.0;
    assert g * f.energyTariff > 0.0;
    assert f.systemPower * f.costPerKWp > 0.0;
    var c := CalculateProposal(f);
    assert c.annualSavings > 0.0;
    assert c.annualSavings / c.totalSystemValue > 0.0;
  }

  /** What the calculation effect stores: results exactly when the gate holds. */
  function CalculationsFor(f: FormData): (r: Option<Calculations>)
    ensures r.Some? <==> IsFormValid(f)
    ensures r.Some? ==> Computable(f) && r.value.totalSystemValue >= 1500.0
    ensures r.Some? ==> Computable(f) && r.value == CalculateProposal(f)
  {
    if IsFormValid(f) then
      ValidFormIsComputable(f);
      Some(CalculateProposal(f))
    else None
  }

  /** The client lookup of `handleClientChange`: the first client with that id. */
  function FindClient(clients: seq<Client>, clientId: string): (r: Option<Client>)
    ensures r.Some? ==> r.value in clients && r.value.id == Some(clientId)
    ensures r.None? <==> forall c :: c in clients ==> c.id != Some(clientId)
    ensures r.Some? ==> exists k :: 0 <= k < |clients| && clients[k] == r.value
                          && forall j :: 0 <= j < k ==> clients[j].id != Some(clientId)
    decreases |clients|
  {
    if clients == [] then None
    else if clients[0].id == Some(clientId) then Some(clients[0])
    else
      FindClient(clients[1..], clientId)
  }

  /** The consumption `handleClientChange` keeps: the client's saved consumption when it is
      present and non-zero, otherwise the previous value. */
  predicate HasSavedConsumption(client: Option<Client>)
  {
    client.Some? && client.value.monthlyConsumption.Some? && client.value.monthlyConsumption.value != 0.0
  }

  function ConsumptionAfterSelect(client: Option<Client>, previous: real): (r: real)
    ensures HasSavedConsumption(client) ==> r == client.value.monthlyConsumption.value
    ensures !HasSavedConsumption(client) ==> r == previous
  {
    match client
    case Some(c) =>
      (match c.monthlyConsumption
       case Some(v) => if v != 0.0 then v else previous
       case None => previous)
    case None => previous
  }

  /** The form component's state. */
  class ProposalForm {
    var clients: seq<Client>
    var formData: FormData
    var selectedClient: Option<Client>
    var calculations: Option<Calculations>

    /** The calculations agree with the form data, as the effect leaves them. */
    ghost predicate Synced()
      reads this
    {
      calculations == CalculationsFor(formData)
    }

    /** A fresh form over the loaded clients. */
    constructor (clients: seq<Client>)
      ensures this.clients == clients
      ensures formData == DefaultForm() && selectedClient == None && calculations == None
      ensures Synced()
    {
      this.clients := clients;
      formData := DefaultForm();
      selectedClient := None;
      calculations := None;
    }

    /** The effect that runs after every change of the form data. */
    method RecalculateEffect()
      modifies this`calculations
      ensures Synced()
      ensures IsFormValid(formData) ==> calculations == Some(CalculateProposal(formData))
      ensures !IsFormValid(formData) ==> calculations == None
    {
      if IsFormValid(formData) {
        ValidFormIsComputable(formData);
        calculations := Some(CalculateProposal(formData));
      } else {
        calculations := None;
      }
    }

    /** `handleClientChange`, followed by the calculation effect. */
    method ClientChange(clientId: string)
      modifies this`formData, this`selectedClient, this`calculations
      ensures selectedClient == FindClient(clients, clientId)
      ensures formData == old(formData).(
        clientId := clientId,
        monthlyConsumption := ConsumptionAfterSelect(FindClient(clients, clientId), old(formData).monthlyConsumption))
      ensures Synced()
    {
      var client := FindClient(clients, clientId);
      selectedClient := client;
      formData := formData.(clientId := clientId,
                            monthlyConsumption := ConsumptionAfterSelect(client, formData.monthlyConsumption));
      RecalculateEffect();
    }

    /** `handleInputChange` for one numeric field, followed by the calculation effect. */
    method InputChange(field: Field, value: real)
      modifies this`formData, this`calculations
      ensures formData == match field
        case MonthlyConsumption => old(formData).(monthlyConsumption := value)
        case SystemPower => old(formData).(systemPower := value)
        case EnergyTariff => old(formData).(energyTariff := value)
        case CostPerKWp => old(formData).(costPerKWp := value)
      ensures Synced()
    {
      match field {
        case MonthlyConsumption => formData := formData.(monthlyConsumption := value);
        case SystemPower => formData := formData.(systemPower := value);
        case EnergyTariff => formData := formData.(energyTariff := value);
        case CostPerKWp => formData := formData.(costPerKWp := value);
      }
      RecalculateEffect();
    }

    /** `handleReset`: back to the defaults with nothing selected and nothing calculated. */
    method Reset()
      modifies this`formData, this`selectedClient, this`calculations
      ensures formData == DefaultForm() && selectedClient == None && calculations == None
      ensures Synced()
    {
      formData := DefaultForm();
      selectedClient := None;
      calculations := None;
    }

    /** `handleSubmit`: the data handed to `onSubmit`, or None when nothing is submitted. */
    method Submit() returns (submitted: Option<FormData>)
      ensures submitted.Some? <==> calculations.Some? && selectedClient.Some?
      ensures submitted.Some? ==> submitted.value == formData
    {
      if calculations.Some? && selectedClient.Some? {
        submitted := Some(formData);
      } else {
        submitted := None;
      }
    }

    /** Whatever is submitted from a synchronised form passes the gate. */
    lemma SubmittedIsValid()
      requires Synced()
      requires calculations.Some?
      ensures IsFormValid(formData)
    {
    }
  }

  /** The reset form fails the gate, so the effect keeps the calculations cleared. */
  lemma DefaultFormInvalid()
    ensures !IsFormValid(DefaultForm())
    ensures CalculationsFor(DefaultForm()) == None
  {
  }
}
