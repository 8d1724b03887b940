/** The main page's contract list: the three sample contracts it starts with and the append
    performed when the new-contract form is submitted. */
module Menu {
  import opened Wrappers
  import opened Contracts

  /** The new-contract form; `value` is still text. */
  datatype ContractFormData = ContractFormData(
    clientName: string,
    clientEmail: string,
    clientPhone: string,
    product: string,
    value: string,
    description: string,
    paymentTerms: string,
    duration: string)

  /** The seller's share of a new contract's value. */
  const CommissionRate: real := 0.1

  /** The contract `addContract` builds: the form's text fields, the parsed value, the next id,
      status "Pendente", today's date and 10% commission. */
  function NewContract(form: ContractFormData, parsedValue: real, id: int, today: Date): (c: Contract)
    ensures c.id == id && c.status == "Pendente" && c.date == today && c.value == parsedValue
    ensures c.commission.Some? && c.commission.value * 10.0 == c.value
    ensures parsedValue >= 0.0 ==> c.commission.value >= 0.0
    ensures c.clientName == form.clientName && c.clientEmail == form.clientEmail
            && c.clientPhone == form.clientPhone && c.product == form.product
            && c.description == form.description && c.paymentTerms == form.paymentTerms
            && c.duration == form.duration
  {
    Contract(id, form.clientName, form.clientEmail, form.clientPhone, form.product, parsedValue,
             form.description, form.paymentTerms, form.duration, "Pendente", today,
             Some(parsedValue * CommissionRate))
  }

  /** The list's initial state. */
  function SampleContracts(): seq<Contract>
  {
    [Contract(1, "João Silva", "joao@email.com", "(11) 99999-9999", "Software ERP", 15000.0,
              "Implementação de sistema ERP completo", "30 dias", "12", "Ativo",
              Date(2024, 0, 15), Some(1500.0)),
     Contract(2, "Maria Santos", "maria@email.com", "(11) 88888-8888", "Sistema CRM", 8500.0,
              "Sistema de gestão de relacionamento com cliente", "à vista", "6", "Pendente",
              Date(2024, 0, 20), Some(850.0)),
     Contract(3, "Pedro Costa", "pedro@email.com", "(11) 77777-7777", "Consultoria TI", 12000.0,
              "Consultoria em infraestrutura de TI", "60 dias", "3", "Finalizado",
              Date(2024, 0, 10), Some(1200.0))]
  }

  /** The ids are 1, 2, ..., n in list order. */
  predicate SequentialIds(cs: seq<Contract>)
  {
    forall i :: 0 <= i < |cs| ==> cs[i].id == i + 1
  }

  /** The samples are numbered 1, 2, 3, and each commission is a tenth of the value. */
  lemma SampleContractsWellFormed()
    ensures SequentialIds(SampleContracts())
    ensures forall c :: c in SampleContracts() ==> c.commission.Some? && c.commission.value * 10.0 == c.value
  {
  }

  /** Appending with id `length + 1` keeps the ids sequential. */
  lemma AddKeepsSequentialIds(cs: seq<Contract>, form: ContractFormData, parsedValue: real, today: Date)
    requires SequentialIds(cs)
    ensures SequentialIds(cs + [NewContract(form, parsedValue, |cs| + 1, today)])
  {
  }

  /** The component's `contracts` state. */
  class Home {
    var contracts: seq<Contract>

    constructor()
      ensures contracts == SampleContracts()
    {
      contracts := SampleContracts();
    }

    /** `addContract`: one new contract at the end; the earlier ones stay as they were. */
    method AddContract(form: ContractFormData, parsedValue: real, today: Date)
      modifies this
      ensures contracts == old(contracts) + [NewContract(form, parsedValue, |old(contracts)| + 1, today)]
      ensures |contracts| == |old(contracts)| + 1 && contracts[..|old(contracts)|] == old(contracts)
      ensures SequentialIds(old(contracts)) ==> SequentialIds(contracts)
    {
      var contract := NewContract(form, parsedValue, |contracts| + 1, today);
      if SequentialIds(contracts) {
        AddKeepsSequentialIds(contracts, form, parsedValue, today);
      }
      contracts := contracts + [contract];
    }
  }
}
