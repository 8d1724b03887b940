/** The list of quick proposals and the three ways the page changes it:
    prepend a new proposal, delete by id, mark as sent. */
module QuickProposal {
  import opened Wrappers
  import opened Seqs
  import opened SolarCalculation
  import opened QuickProposalForm

  /** A stored proposal. `status` is one of "draft", "sent", "accepted", "rejected" in
      practice; it is kept as a string because the view also handles other values. */
  datatype Proposal = Proposal(
    id: Option<string>,
    clientId: string,
    clientName: string,
    systemPower: real,
    monthlyConsumption: real,
    energyTariff: real,
    costPerKWp: real,
    monthlyGeneration: real,
    totalSystemValue: real,
    monthlySavings: real,
    paybackPeriod: real,
    createdAt: string,
    updatedAt: Option<string>,
    status: string,
    notes: Option<string>)

  /** Placeholder name the page gives every new proposal. */
  const PlaceholderClientName: string := "Cliente Selecionado"

  /** `Math.round`: the nearest integer, halves rounded up. */
  function Round(x: real): (n: int)
    ensures n as real - 0.5 <= x < n as real + 0.5
  {
    (x + 0.5).Floor
  }

  /** The payback period of the form data has a non-zero divisor. */
  predicate PaybackDefined(data: FormData)
  {
    SavingsFor(data) != 0.0
  }

  /** The proposal `handleSubmitProposal` builds: the inputs copied from the form, the four
      figures computed by the calculator and rounded, status "draft". The id (taken from the
      clock in the source) and today's date are parameters. */
  function NewProposal(data: FormData, id: string, today: string): (p: Proposal)
    requires PaybackDefined(data)
    ensures p.id == Some(id) && p.status == "draft" && p.createdAt == today
    ensures p.clientId == data.clientId && p.clientName == PlaceholderClientName
    ensures p.systemPower == data.systemPower && p.monthlyConsumption == data.monthlyConsumption
    ensures p.energyTariff == data.energyTariff && p.costPerKWp == data.costPerKWp
    ensures p.monthlyGeneration == Round(MonthlyGeneration(data.systemPower)) as real
    ensures p.totalSystemValue == Round(TotalSystemValue(data.systemPower, data.costPerKWp)) as real
    ensures p.monthlySavings == Round(SavingsFor(data)) as real
    ensures p.paybackPeriod == Round(PaybackPeriod(TotalSystemValue(data.systemPower, data.costPerKWp),
                                                   SavingsFor(data))) as real
    ensures p.updatedAt == None && p.notes == None
  {
    var generation := MonthlyGeneration(data.systemPower);
    var value := TotalSystemValue(data.systemPower, data.costPerKWp);
    var savings := MonthlySavings(data.monthlyConsumption, generation, data.energyTariff);
    var payback := PaybackPeriod(value, savings);
    Proposal(Some(id), data.clientId, PlaceholderClientName,
             data.systemPower, data.monthlyConsumption, data.energyTariff, data.costPerKWp,
             Round(generation) as real, Round(value) as real, Round(savings) as real, Round(payback) as real,
             today, None, "draft", None)
  }

  /** The list `handleDeleteProposal` keeps: every proposal whose id differs, in order. */
  function WithoutId(ps: seq<Proposal>, proposalId: string): (r: seq<Proposal>)
    ensures forall p :: p in r ==> p in ps && p.id != Some(proposalId)
    ensures forall p :: p in ps && p.id != Some(proposalId) ==> p in r
    ensures forall p :: multiset(r)[p] == if p.id != Some(proposalId) then multiset(ps)[p] else 0
    ensures IsSubsequence(r, ps)
    ensures (forall p :: p in ps ==> p.id != Some(proposalId)) ==> r == ps
  {
    var keep := (p: Proposal) => p.id != Some(proposalId);
    FilterContents(ps, keep);
    Filter(ps, keep)
  }

  /** Deleting twice is deleting once. */
  lemma DeleteIdempotent(ps: seq<Proposal>, proposalId: string)
    ensures WithoutId(WithoutId(ps, proposalId), proposalId) == WithoutId(ps, proposalId)
  {
  }

  /** The list `handleSendProposal` stores: every proposal with the sent one's id gets status
      "sent", the others stay as they are. The comparison is on the optional id, so a proposal
      without id marks every proposal without id. */
  function MarkSent(ps: seq<Proposal>, id: Option<string>): (r: seq<Proposal>)
    ensures |r| == |ps|
    ensures forall i :: 0 <= i < |ps| && ps[i].id == id ==> r[i] == ps[i].(status := "sent")
    ensures forall i :: 0 <= i < |ps| && ps[i].id != id ==> r[i] == ps[i]
  {
    seq(|ps|, i requires 0 <= i < |ps| => if ps[i].id == id then ps[i].(status := "sent") else ps[i])
  }

  /** Sending twice is sending once. */
  lemma SendIdempotent(ps: seq<Proposal>, id: Option<string>)
    ensures MarkSent(MarkSent(ps, id), id) == MarkSent(ps, id)
  {
  }

  /** Sending changes nothing but the status of the matching proposals. */
  lemma SendChangesOnlyStatus(ps: seq<Proposal>, id: Option<string>, i: int)
    requires 0 <= i < |ps|
    ensures MarkSent(ps, id)[i].(status := ps[i].status) == ps[i]
    ensures MarkSent(ps, id)[i].status == (if ps[i].id == id then "sent" else ps[i].status)
  {
  }

  /** The page's proposal list. */
  class ProposalBoard {
    var proposals: seq<Proposal>

    constructor (initial: seq<Proposal>)
      ensures proposals == initial
    {
      proposals := initial;
    }

    /** `handleSubmitProposal`: the new rounded proposal goes in front of the old list. */
    method SubmitProposal(data: FormData, id: string, today: string)
      requires PaybackDefined(data)
      modifies this
      ensures proposals == [NewProposal(data, id, today)] + old(proposals)
      ensures |proposals| == |old(proposals)| + 1 && proposals[1..] == old(proposals)
    {
      proposals := [NewProposal(data, id, today)] + proposals;
    }

    /** `handleDeleteProposal`. */
    method DeleteProposal(proposalId: string)
      modifies this
      ensures proposals == WithoutId(old(proposals), proposalId)
    {
      proposals := WithoutId(proposals, proposalId);
    }

    /** `handleSendProposal`. */
    method SendProposal(proposal: Proposal)
      modifies this
      ensures proposals == MarkSent(old(proposals), proposal.id)
    {
      proposals := MarkSent(proposals, proposal.id);
    }
  }

  /** A valid form always has a defined payback period. */
  lemma ValidFormHasPayback(data: FormData)
    requires IsFormValid(data)
    ensures PaybackDefined(data)
  {
    ValidFormIsComputable(data);
  }
}
