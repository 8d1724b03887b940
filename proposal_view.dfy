/** The proposal detail view: status badge and label, the edit that recomputes a
    proposal, the savings projections and when the send action is offered. */
module ProposalView {
  import opened Wrappers
  import opened SolarCalculation
  import opened QuickProposalForm
  import opened QuickProposal

  /** The four statuses a proposal is created or moved into. */
  predicate IsKnownStatus(status: string)
  {
    status == "draft" || status == "sent" || status == "accepted" || status == "rejected"
  }

  /** `getStatusColor`: known statuses are their own badge class, anything else is "draft". */
  function StatusColor(status: string): (r: string)
    ensures IsKnownStatus(r)
    ensures IsKnownStatus(status) ==> r == status
    ensures !IsKnownStatus(status) ==> r == "draft"
  {
    match status
    case "draft" => "draft"
    case "sent" => "sent"
    case "accepted" => "accepted"
    case "rejected" => "rejected"
    case _ => "draft"
  }

  /** `getStatusText`: the Portuguese label of a known status; other statuses are shown as they are. */
  function StatusText(status: string): (r: string)
    ensures status == "draft" ==> r == "Rascunho"
    ensures status == "sent" ==> r == "Enviada"
    ensures status == "accepted" ==> r == "Aceita"
    ensures status == "rejected" ==> r == "Rejeitada"
    ensures !IsKnownStatus(status) ==> r == status
  {
    match status
    case "draft" => "Rascunho"
    case "sent" => "Enviada"
    case "accepted" => "Aceita"
    case "rejected" => "Rejeitada"
    case _ => status
  }

  /** Distinct known statuses get distinct labels. */
  lemma StatusTextInjectiveOnKnown(a: string, b: string)
    requires IsKnownStatus(a) && IsKnownStatus(b) && a != b
    ensures StatusText(a) != StatusText(b)
  {
  }

  /** `!proposal.id`: the proposal has no id or an empty one. */
  predicate HasNoId(p: Proposal)
  {
    p.id == None || p.id == Some("")
  }

  /** The record `handleSaveEdit` sends for update: client and inputs from the form, the four
      figures recomputed (not rounded), everything else kept from the original. None when the
      proposal has no id, in which case nothing is saved. */
  function EditedProposal(p: Proposal, data: FormData): (r: Option<Proposal>)
    requires PaybackDefined(data)
    ensures r.None? <==> HasNoId(p)
    ensures r.Some? ==> var q := r.value;
      && q.id == p.id && q.clientName == p.clientName && q.status == p.status
      && q.createdAt == p.createdAt && q.updatedAt == p.updatedAt && q.notes == p.notes
      && q.clientId == data.clientId && q.monthlyConsumption == data.monthlyConsumption
      && q.systemPower == data.systemPower && q.energyTariff == data.energyTariff
      && q.costPerKWp == data.costPerKWp
      && q.monthlyGeneration == data.systemPower * 108.0
      && q.totalSystemValue == data.systemPower * data.costPerKWp + 1500.0
      && q.monthlySavings == q.monthlyGeneration * data.energyTariff
      && q.paybackPeriod * q.monthlySavings == q.totalSystemValue
  {
    if HasNoId(p) then None
    else
      Some(p.(
        clientId := data.clientId,
        monthlyConsumption := data.monthlyConsumption,
        systemPower := data.systemPower,
        energyTariff := data.energyTariff,
        costPerKWp := data.costPerKWp,
        monthlyGeneration := MonthlyGeneration(data.systemPower),
        totalSystemValue := TotalSystemValue(data.systemPower, data.costPerKWp),
        monthlySavings := MonthlySavings(data.monthlyConsumption, MonthlyGeneration(data.systemPower), data.energyTariff),
        paybackPeriod := PaybackPeriod(
          TotalSystemValue(data.systemPower, data.costPerKWp),
          MonthlySavings(data.monthlyConsumption, MonthlyGeneration(data.systemPower), data.energyTariff))))
  }

  /** Editing twice with the same data gives the same record as editing once. */
  lemma EditIdempotent(p: Proposal, data: FormData)
    requires PaybackDefined(data)
    requires EditedProposal(p, data).Some?
    ensures EditedProposal(EditedProposal(p, data).value, data) == EditedProposal(p, data)
  {
  }

  /** The horizons (in years) of the savings projection. */
  const ProjectionYears: seq<nat> := [1, 5, 10, 20]

  /** The projected savings after 1, 5, 10 and 20 years. */
  function SavingsProjection(p: Proposal): (r: seq<real>)
    ensures |r| == |ProjectionYears|
    ensures forall k :: 0 <= k < |r| ==> r[k] == p.monthlySavings * 12.0 * ProjectionYears[k] as real
  {
    [p.monthlySavings * 12.0, p.monthlySavings * 60.0, p.monthlySavings * 120.0, p.monthlySavings * 240.0]
  }

  /** With non-negative monthly savings the projection never decreases with the horizon. */
  lemma ProjectionNonDecreasing(p: Proposal, i: int, j: int)
    requires p.monthlySavings >= 0.0
    requires 0 <= i <= j < 4
    ensures SavingsProjection(p)[i] <= SavingsProjection(p)[j]
  {
    var r := SavingsProjection(p);
    assert r[i] == p.monthlySavings * 12.0 * ProjectionYears[i] as real;
    assert r[j] == p.monthlySavings * 12.0 * ProjectionYears[j] as real;
    assert ProjectionYears[i] <= ProjectionYears[j];
  }

  /** The send button is shown for drafts only. */
  predicate SendOffered(p: Proposal)
  {
    p.status == "draft"
  }

  /** Once a proposal has been sent, its view no longer offers to send it. */
  lemma SentProposalNotOffered(ps: seq<Proposal>, p: Proposal, i: int)
    requires 0 <= i < |ps| && ps[i].id == p.id
    ensures !SendOffered(MarkSent(ps, p.id)[i])
  {
  }

  /** The view's own state: the edit-mode flag. */
  class ProposalViewer {
    var isEditMode: bool

    constructor ()
      ensures !isEditMode
    {
      isEditMode := false;
    }

    /** `handleEdit`. */
    method Edit()
      modifies this
      ensures isEditMode
    {
      isEditMode := true;
    }

    /** `handleCancelEdit`. */
    method CancelEdit()
      modifies this
      ensures !isEditMode
    {
      isEditMode := false;
    }

    /** `handleSaveEdit`: returns the record passed to the update service call, or None when the
        proposal has no id. Whether the service call succeeds is a parameter; edit mode is left
        only after a successful save. */
    method SaveEdit(p: Proposal, data: FormData, updateSucceeds: bool) returns (sent: Option<Proposal>)
      requires PaybackDefined(data)
      modifies this
      ensures sent == EditedProposal(p, data)
      ensures isEditMode == (if sent.Some? && updateSucceeds then false else old(isEditMode))
    {
      if HasNoId(p) {
        sent := None;
        return;
      }
      sent := EditedProposal(p, data);
      if updateSucceeds {
        isEditMode := false;
      }
    }
  }
}
