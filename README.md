# AlertaTec sales console — a Dafny model of its core

AlertaTec is a single-page sales console for a solar-energy reseller. Sellers record contracts,
follow their commissions, read reports and draw up quick solar proposals for clients. This
project models the logic behind those screens and proves properties of it:

- **Solar calculator** (`solar.dfy`): monthly generation, system price, monthly savings and
  payback period.
- **Quick-proposal form** (`proposal_form.dfy`): the form state and its handlers, the gate that
  decides whether results are shown, and the calculation itself.
- **Proposal list** (`quick_proposal.dfy`): building a new draft with rounded figures (it goes in
  front of the list), deleting by id, marking as sent.
- **Proposal detail view** (`proposal_view.dfy`): the status badge and label, the edit that
  recomputes a proposal, the savings projection and when sending is offered.
- **Contracts** (`contracts.dfy`): the record, structured dates, the pt-BR month names and
  reading them back, and sums and status counts over a list.
- **Monthly grouping** (`monthly.dfy`): the dictionary-and-sort procedure that both the
  commissions report and the commission panel use. It is proved to produce exactly one
  chronologically ordered bucket per month, each holding that month's count and sums.
- **Reports** (`reports.dfy`): the date-range filter, the status cards, the commissions report
  (total, monthly average, best month) and the performance report (conversion rate, average
  ticket, goal achievement).
- **Commission panel** (`commission_panel.dfy`): the year's valid contracts, their monthly
  commissions and total, the panel's state, and the year and month choices it offers.
- **Main page, dashboard and contract list** (`menu.dfy`, `dashboard.dfy`,
  `contract_list.dfy`): the sample contracts, adding a contract, the dashboard figures, the
  filter and search of the list, and the name of the downloaded contract file.
- **Authentication service** (`auth.dfy`): the error-message table, and the mapping of a
  signed-in account plus its stored profile onto the application's user record.
- **Shared modules**: `seqs.dfy` (filter, de-duplication, insertion sort) and `text.dfy`
  (lower-casing, substring search, replacing the first occurrence, lexicographic order) sit
  under these. `wrappers.dfy` holds `Option`, which stands for JavaScript's
  `undefined`/`null`.

Modelling conventions:

- Money and energy are exact `real`s.
- A date is `Date(year, month, day)` with a zero-based month, as `Date.prototype.getMonth`
  returns it. Dates are compared in calendar order.
- A month bucket is sorted by `year * 12 + month`, which orders months the same way
  `new Date(year, month).getTime()` does.
- JavaScript's `a || b` on strings is `OrElse`. A string counts as *truthy* when it is present
  and non-empty.
- The clock (`Date.now()`, today's date, `new Date().toISOString()`) is a parameter wherever
  the source reads it.
- Service calls and their outcome (success or failure) are parameters too, or they are left out.

Where a component keeps state (`useState`), the model has a `class` whose fields are that
state. Each handler is a method with a `modifies` clause, and its `ensures` give the new state.
The commission panel's grouping and its total, and the de-duplication of years and months, are
loops (`for`/`while`) carrying their invariants. Everything else is a function, with lemmas
about it.

## Model

| member | source | states |
|---|---|---|
| SolarCalculation.MonthlyGeneration | src/utils/solarCalculation.ts:1-4 | generation is 4.5 · 30 · 0.8 = 108 kWh per kWp of power |
| SolarCalculation.TotalSystemValue | src/utils/solarCalculation.ts:6-12 | the price exceeds power × cost per kWp by exactly the 1500 surcharge, so it is at least 1500 for non-negative inputs |
| SolarCalculation.MonthlySavings | src/utils/solarCalculation.ts:14-22 | the consumption terms cancel: savings are the whole generation priced at the tariff |
| SolarCalculation.PaybackPeriod | src/utils/solarCalculation.ts:24-30 | payback × monthly savings gives back the system value; positive for positive inputs |
| SolarCalculation.GenerationAtZero | src/utils/solarCalculation.ts:1-4 | a system without power generates nothing |
| SolarCalculation.GenerationStrictlyIncreasing | src/utils/solarCalculation.ts:1-4 | more power always means more generation |
| SolarCalculation.SavingsDoNotClamp | src/utils/solarCalculation.ts:14-22 | with generation above consumption, savings exceed the value of the whole consumption (no cap) |
| SolarCalculation.SavingsAtBalance | src/utils/solarCalculation.ts:14-22 | when generation equals consumption, savings are the consumption's value |
| SolarCalculation.SavingsNonNegative | src/utils/solarCalculation.ts:14-22 | savings are non-negative for non-negative generation and tariff |
| SolarCalculation.WorkedExample | src/utils/solarCalculation.ts:1-30 | 3.5 kWp, 500 kWh, 0.85, 4000 per kWp: 378 kWh, 15500, 321.3, payback × 321.3 = 15500 |
| QuickProposalForm.DefaultForm | src/pages/menu/components/QuickProposal/QuickProposalForm.tsx:31-37 | the initial form: no client, zero consumption and power, tariff 0.85, 4000 per kWp |
| QuickProposalForm.CalculateProposal | src/pages/menu/components/QuickProposal/QuickProposalForm.tsx:78-118 | the six results: generation 108 per kWp, value + 1500, savings = generation × tariff, payback × savings = value, annual = 12 × monthly, ROI × value = annual × 100 |
| QuickProposalForm.ValidFormIsComputable | src/pages/menu/components/QuickProposal/QuickProposalForm.tsx:53-65 | a form passing the gate has non-zero divisors; value ≥ 1500, and savings, payback and ROI are positive |
| QuickProposalForm.CalculationsFor | src/pages/menu/components/QuickProposal/QuickProposalForm.tsx:53-65 | results are present exactly when the gate holds, and are then the four calculator results of the form's inputs |
| QuickProposalForm.FindClient | src/pages/menu/components/QuickProposal/QuickProposalForm.tsx:120-131 | the first client with the id, or None exactly when no client has it |
| QuickProposalForm.ConsumptionAfterSelect | src/pages/menu/components/QuickProposal/QuickProposalForm.tsx:120-131 | the client's saved consumption when present and non-zero, else the previous value |
| QuickProposalForm.ProposalForm.constructor | src/pages/menu/components/QuickProposal/QuickProposalForm.tsx:31-37 | default form, nothing selected, nothing calculated, in sync |
| QuickProposalForm.ProposalForm.RecalculateEffect | src/pages/menu/components/QuickProposal/QuickProposalForm.tsx:53-65 | leaves the calculations in sync with the form data |
| QuickProposalForm.ProposalForm.ClientChange | src/pages/menu/components/QuickProposal/QuickProposalForm.tsx:120-131 | selects the found client, sets the id and the consumption, nothing else; in sync afterwards |
| QuickProposalForm.ProposalForm.InputChange | src/pages/menu/components/QuickProposal/QuickProposalForm.tsx:133-139 | changes exactly the one field; in sync afterwards |
| QuickProposalForm.ProposalForm.Reset | src/pages/menu/components/QuickProposal/QuickProposalForm.tsx:148-158 | back to the defaults with nothing selected or calculated |
| QuickProposalForm.ProposalForm.Submit | src/pages/menu/components/QuickProposal/QuickProposalForm.tsx:141-146 | submits the form data exactly when results and a client are present |
| QuickProposalForm.ProposalForm.SubmittedIsValid | src/pages/menu/components/QuickProposal/QuickProposalForm.tsx:174-179 | with results present, the synchronised form satisfies `isFormValid` |
| QuickProposalForm.DefaultFormInvalid | src/pages/menu/components/QuickProposal/QuickProposalForm.tsx:148-158 | the reset form fails the gate, so nothing is calculated |
| QuickProposal.Round | src/pages/menu/components/QuickProposal.tsx:142-156 | `Math.round`: the result is within half of the input, halves going up |
| QuickProposal.NewProposal | src/pages/menu/components/QuickProposal.tsx:127-156 | a draft with the given id and date, the form's inputs, the placeholder name and the four rounded calculator figures |
| QuickProposal.WithoutId | src/pages/menu/components/QuickProposal.tsx:186-188 | exactly the proposals with another id, each as often as in the list, in order; unchanged when none has the id |
| QuickProposal.DeleteIdempotent | src/pages/menu/components/QuickProposal.tsx:186-188 | deleting twice is deleting once |
| QuickProposal.MarkSent | src/pages/menu/components/QuickProposal.tsx:190-198 | same length; the proposals with the id get status "sent", the others are unchanged |
| QuickProposal.SendIdempotent | src/pages/menu/components/QuickProposal.tsx:190-198 | sending twice is sending once |
| QuickProposal.SendChangesOnlyStatus | src/pages/menu/components/QuickProposal.tsx:190-198 | sending changes nothing but the status |
| QuickProposal.ProposalBoard.constructor | src/pages/menu/components/QuickProposal.tsx:121-165 | the board starts with the given proposals |
| QuickProposal.ProposalBoard.SubmitProposal | src/pages/menu/components/QuickProposal.tsx:158 | the new proposal is put in front; the old list follows unchanged |
| QuickProposal.ProposalBoard.DeleteProposal | src/pages/menu/components/QuickProposal.tsx:186-188 | the list loses exactly the proposals with that id |
| QuickProposal.ProposalBoard.SendProposal | src/pages/menu/components/QuickProposal.tsx:190-198 | the list is marked as sent for that id |
| QuickProposal.ValidFormHasPayback | src/pages/menu/components/QuickProposal/QuickProposalForm.tsx:174-179 | a valid form always has a defined payback period |
| ProposalView.StatusColor | src/pages/menu/components/QuickProposal/ProposalViewModal.tsx:62-75 | known statuses keep their own badge, anything else is "draft"; the result is always a known status |
| ProposalView.StatusText | src/pages/menu/components/QuickProposal/ProposalViewModal.tsx:77-90 | the four Portuguese labels; unknown statuses are shown as they are |
| ProposalView.StatusTextInjectiveOnKnown | src/pages/menu/components/QuickProposal/ProposalViewModal.tsx:77-90 | different known statuses get different labels |
| ProposalView.EditedProposal | src/pages/menu/components/QuickProposal/ProposalViewModal.tsx:100-149 | None exactly when the proposal has no id; otherwise the form's inputs, the recomputed (unrounded) figures, and everything else kept |
| ProposalView.EditIdempotent | src/pages/menu/components/QuickProposal/ProposalViewModal.tsx:105-131 | editing twice with the same data is editing once |
| ProposalView.SavingsProjection | src/pages/menu/components/QuickProposal/ProposalViewModal.tsx:320-343 | the projections are monthly savings × 12 × 1, 5, 10 and 20 years |
| ProposalView.ProjectionNonDecreasing | src/pages/menu/components/QuickProposal/ProposalViewModal.tsx:320-343 | with non-negative savings, projections grow with the horizon |
| ProposalView.SentProposalNotOffered | src/pages/menu/components/QuickProposal/ProposalViewModal.tsx:350-355 | a proposal that was sent no longer shows the send action |
| ProposalView.ProposalViewer.constructor | src/pages/menu/components/QuickProposal/ProposalViewModal.tsx:92-94 | the view opens outside edit mode |
| ProposalView.ProposalViewer.Edit | src/pages/menu/components/QuickProposal/ProposalViewModal.tsx:92-94 | enters edit mode |
| ProposalView.ProposalViewer.CancelEdit | src/pages/menu/components/QuickProposal/ProposalViewModal.tsx:96-98 | leaves edit mode |
| ProposalView.ProposalViewer.SaveEdit | src/pages/menu/components/QuickProposal/ProposalViewModal.tsx:100-149 | sends the edited record; leaves edit mode only when there is an id and the update succeeds |
| Contracts.DateLeTransitive | src/pages/menu/components/Reports.tsx:112-120 | calendar order is transitive |
| Contracts.MonthNumber | src/pages/menu/components/Reports.tsx:366-382 | the index of the lower-cased name, and -1 exactly when it is not a month name |
| Contracts.MonthNumberOfName | src/pages/menu/components/ComissionPanel.tsx:110-126 | reading back a month's pt-BR name gives that month |
| Contracts.MonthNumberIgnoresCase | src/pages/menu/components/Reports.tsx:496-512 | spellings that differ only in case give the same month |
| Contracts.TotalAppend | src/pages/menu/components/Reports.tsx:533 | a sum over two lists joined is the sum of the two sums |
| Contracts.TotalCountIsLength | src/pages/menu/components/Reports.tsx:518 | counting contracts one by one gives the list's length |
| Contracts.TotalSplit | src/pages/menu/components/ComissionPanel.tsx:50-59 | a sum splits into the part a filter keeps and the part it drops |
| Contracts.TotalNonNegative | src/pages/menu/components/Reports.tsx:533 | non-negative terms give a non-negative sum |
| Contracts.TotalBounds | src/pages/menu/components/Reports.tsx:533-534 | bounds on every term bound the sum by length × bound |
| Contracts.StatusCountsPartition | src/pages/menu/components/Reports.tsx:233-259 | counts of distinct statuses add up to the number of contracts with one of them: at most all contracts, all of them exactly when every status is listed |
| MonthlyGrouping.SummaryCountsMonth | src/pages/menu/components/Reports.tsx:537-558 | a month's bucket holds the month's name and year, its contract count and the sums of their values and commissions |
| MonthlyGrouping.SummaryOfAbsentMonth | src/pages/menu/components/Reports.tsx:346-353 | a month with no contracts has only the empty bucket |
| MonthlyGrouping.GroupingEmpty | src/pages/menu/components/Reports.tsx:359-364 | the grouping has no buckets exactly when there are no contracts |
| MonthlyGrouping.GroupByMonth | src/pages/menu/components/Reports.tsx:327-364 | one bucket per month that occurs and none for any other, each its month's summary, strictly in chronological order |
| MonthlyGrouping.SortingKeepsGrouping | src/pages/menu/components/Reports.tsx:359-363 | sorting the dictionary's values chronologically makes the grouping |
| MonthlyGrouping.SummaryWithoutMonth | src/pages/menu/components/Reports.tsx:337-357 | leaving out one month's contracts leaves every other month's bucket unchanged |
| MonthlyGrouping.GroupingTotals | src/pages/menu/components/Reports.tsx:397-400 | summing a measure over the buckets gives its sum over the contracts; for counts, the number of contracts |
| Reports.FilteredContracts | src/pages/menu/components/Reports.tsx:112-120 | exactly the contracts dated within the period, both ends included, each as often as in the list, in their order |
| Reports.EmptyPeriod | src/pages/menu/components/Reports.tsx:112-120 | a period that ends before it starts keeps nothing |
| Reports.DefaultPeriodIsYearToDate | src/pages/menu/components/Reports.tsx:38-43 | the initial period keeps exactly this year's contracts up to today |
| Reports.CountByStatusCounts | src/pages/menu/components/Reports.tsx:233-236 | the tally has a status exactly when some contract has it, and then holds that status's count |
| Reports.StatusCards | src/pages/menu/components/Reports.tsx:238-259 | four cards in order with their colours and their status's count, 0 when absent |
| Reports.StatusCardsPartition | src/pages/menu/components/Reports.tsx:238-259 | card counts together are at most all contracts, and all of them exactly when every status is carded |
| Reports.AverageMonthly | src/pages/menu/components/Reports.tsx:401-402 | the total divided by the number of months, or by 1 when there are none |
| Reports.CommissionTotals | src/pages/menu/components/Reports.tsx:397-402 | the report's total is the period's commission total; the average is 0 with no contracts and total ÷ months otherwise |
| Reports.AverageOverMonths | src/pages/menu/components/Reports.tsx:401-402 | with months, average × months gives the total; with none, the average is 0 |
| Reports.BestMonth | src/pages/menu/components/Reports.tsx:403-406 | the empty seed or one of the buckets; no bucket has a greater total; a non-seed result has a positive total |
| Reports.BestMonthShown | src/pages/menu/components/Reports.tsx:438-440 | a month is shown instead of "N/A" exactly when some month has a positive total |
| Reports.BestMonthIsEarliest | src/pages/menu/components/Reports.tsx:403-406 | among tied best months the earliest wins |
| Reports.CommissionsReport | src/pages/menu/components/Reports.tsx:383-406 | the report groups the period's contracts by month, with their total, monthly average and best month |
| Reports.ConversionRate | src/pages/menu/components/Reports.tsx:526-530 | between 0 and 100; 0 with no contracts; 100 exactly when every contract is active or completed |
| Reports.ConvertedCount | src/pages/menu/components/Reports.tsx:518-530 | active plus completed are at most all contracts, and all of them exactly when nothing else occurs |
| Reports.Percentage | src/pages/menu/components/Reports.tsx:527-530 | a part of a positive whole lies between 0 and 100 percent, and is 100 exactly when it is the whole |
| Reports.AverageTicket | src/pages/menu/components/Reports.tsx:532-534 | mean × count is the total value; 0 with no contracts |
| Reports.AverageTicketBounds | src/pages/menu/components/Reports.tsx:532-534 | the mean lies between the smallest and the largest value |
| Reports.GoalAchievement | src/pages/menu/components/Reports.tsx:566-571 | the last bucket's value as a percentage of 50000; 0 without months |
| Reports.GoalUsesLatestMonth | src/pages/menu/components/Reports.tsx:560-571 | the goal is measured on the latest month with contracts, over that month's total value |
| Reports.Performance | src/pages/menu/components/Reports.tsx:514-571 | the performance figures of the period's contracts |
| CommissionPanel.ValidContracts | src/pages/menu/components/ComissionPanel.tsx:50-59 | exactly the contracts of the year whose status is active, completed or pending, each as often as in the list, in order |
| CommissionPanel.CalculateComissions | src/pages/menu/components/ComissionPanel.tsx:46-90 | the valid contracts' monthly grouping and their commission total (missing counts 0) |
| CommissionPanel.PanelTotalsAgree | src/pages/menu/components/ComissionPanel.tsx:61-89 | the panel's total is the sum of its monthly totals, and the monthly counts add up to the valid contracts |
| CommissionPanel.AtMostTwelveMonths | src/pages/menu/components/ComissionPanel.tsx:50-86 | every month shown lies in the selected year, so there are at most twelve |
| CommissionPanel.Panel.constructor | src/pages/menu/components/ComissionPanel.tsx:33-44 | mounting selects the current year and month and computes the figures when there are contracts |
| CommissionPanel.Panel.Recalculate | src/pages/menu/components/ComissionPanel.tsx:92-96 | with contracts the figures become current; without, they are left as they were |
| CommissionPanel.Panel.SelectYear | src/pages/menu/components/ComissionPanel.tsx:39-41 | switches the year, then the effect recomputes |
| CommissionPanel.Panel.LoadContracts | src/pages/menu/components/ComissionPanel.tsx:98-108 | replaces the contracts, then the effect recomputes |
| CommissionPanel.Panel.SelectMonth | src/pages/menu/components/ComissionPanel.tsx:42-44 | changes only the selected month |
| CommissionPanel.AvailableYears | src/pages/menu/components/ComissionPanel.tsx:135-142 | every contract year exactly once, newest first |
| CommissionPanel.AvailableMonths | src/pages/menu/components/ComissionPanel.tsx:144-153 | every contract month name exactly once, in character order |
| Menu.NewContract | src/pages/menu/Menu.tsx:61-70 | the form's fields, the parsed value, the given id, status "Pendente", today's date and a commission of a tenth of the value |
| Menu.SampleContractsWellFormed | src/pages/menu/Menu.tsx:16-59 | the samples are numbered 1, 2, 3, and each commission is a tenth of the value |
| Menu.AddKeepsSequentialIds | src/pages/menu/Menu.tsx:61-71 | appending with id length + 1 keeps the ids numbered 1 to n |
| Menu.Home.constructor | src/pages/menu/Menu.tsx:16-59 | the page starts with the three sample contracts |
| Menu.Home.AddContract | src/pages/menu/Menu.tsx:61-72 | one new contract at the end, earlier ones unchanged, ids kept sequential |
| Dashboard.TotalValueAppend | src/pages/menu/components/Dashboard.tsx:7-10 | the value total of two lists one after the other is the sum of their totals; appending a contract adds its value |
| Dashboard.TotalValueNonNegative | src/pages/menu/components/Dashboard.tsx:7-10 | with non-negative values the total is non-negative and at least every single value |
| Dashboard.CommissionIsTenthOfValue | src/pages/menu/components/Dashboard.tsx:7-14 | when every commission is a tenth of its value, the commission total is a tenth of the value total |
| Dashboard.TotalCommission | src/pages/menu/components/Dashboard.tsx:11-14 | defined exactly when every contract has a commission, and then their sum |
| Dashboard.ActiveAndPendingBounded | src/pages/menu/components/Dashboard.tsx:15-18 | active plus pending are at most all contracts |
| Dashboard.RecentContracts | src/pages/menu/components/Dashboard.tsx:20 | the last three (or fewer) contracts, newest first |
| Dashboard.AppendedIsMostRecent | src/pages/menu/components/Dashboard.tsx:20 | a contract just added is shown first, and the previous newest follow it |
| ContractList.FilteredContracts | src/pages/menu/components/ContractList.tsx:19-26 | exactly the contracts passing the status filter and the case-insensitive search, each as often as in the list, in order |
| ContractList.InitialListShowsAll | src/pages/menu/components/ContractList.tsx:16-26 | "all" with an empty search lists every contract |
| ContractList.SearchIgnoresCase | src/pages/menu/components/ContractList.tsx:22-24 | search terms that differ only in case list the same contracts |
| ContractList.SearchByLowercase | src/pages/menu/components/ContractList.tsx:22-24 | a term lists the same contracts as its lower-case form |
| ContractList.DownloadName | src/pages/menu/components/ContractList.tsx:46 | `contrato-` + the name with its first space turned into `-` + `.txt` |
| ContractList.DownloadNameKeepsLaterSpaces | src/pages/menu/components/ContractList.tsx:46 | only the first space is replaced; later spaces stay |
| AuthService.ErrorMessage | src/services/authService.ts:110-122 | a known code's own message, otherwise the generic one; never empty |
| AuthService.ErrorMessagesIdentifyCode | src/services/authService.ts:111-119 | the message of a known code identifies that code |
| AuthService.MapFirebaseUserToUser | src/services/authService.ts:24-43 | the id is the uid; each field takes its first truthy candidate; name and role are never empty; an email-derived name is the part before the first "@" |
| AuthService.ProfileOverridesAccount | src/services/authService.ts:30-41 | a complete stored profile decides every field but the id and the email |
| AuthService.WithoutProfile | src/services/authService.ts:105-108 | without a profile the role is "admin" and a display name is used as the name |
| Text.Lower | src/pages/menu/components/ContractList.tsx:21-24 | same length, each character lower-cased |
| Text.LowerIdempotent | src/pages/menu/components/ContractList.tsx:22-24 | lower-casing twice is lower-casing once |
| Text.ReplaceFirst | src/pages/menu/components/ContractList.tsx:46 | only the first occurrence is replaced; unchanged when the character does not occur |
| Text.BeforeFirst | src/services/authService.ts:33 | the prefix before the first separator: it has no separator and is followed by one (all of the string when there is none) |
| Text.CodeUnitLessTotal | src/pages/menu/components/ComissionPanel.tsx:152 | the default string order of `Array.prototype.sort` ranks any two different strings; the model compares by character, which equals code-unit order on Basic Multilingual Plane strings |
| Seqs.FilterContents | src/pages/menu/components/Reports.tsx:113-119 | a filter keeps exactly the passing elements, each with its multiplicity, in order, and everything when all pass |
| Seqs.UniqueInOrder | src/pages/menu/components/ComissionPanel.tsx:136-140 | a `Set` of the values: each exactly once, nothing else |
| Seqs.SortDistinct | src/pages/menu/components/ComissionPanel.tsx:141 | sorting distinct values with a total strict order gives a strictly sorted list of the same values |
| Seqs.InsertionSort | src/pages/menu/components/Reports.tsx:359-363 | the sorted list is a permutation of the input |
| Seqs.InsertionSortSorted | src/pages/menu/components/Reports.tsx:359-363 | with a transitive order that ranks any two elements, the result is strictly sorted |

## Left out

- Firestore, the authentication provider and every other service call (loading, saving, deleting
  and sending proposals and contracts; sign-in, registration, sign-out) are left out. Where a
  handler's effect depends on a call's outcome, the outcome is a parameter (`ProposalView.ProposalViewer.SaveEdit`).
  The loading flags, toasts, modals and `console.log` debug output are left out too.
- Rendering is left out: JSX, CSS classes beyond the status badge, number and currency
  formatting, `toLocaleDateString`.
- Dates are taken as structured calendar dates. The `YYYY-MM-DD` strings, their parsing,
  time zones and JavaScript's reading of years 0–99 as 1900–1999 are not modelled.
- Real arithmetic is exact. Floating-point rounding, `NaN` from `parseFloat` of a non-number,
  and `Infinity` are not modelled.
- SolarCalculation.PaybackPeriod: requires non-zero savings. The source divides unguarded and
  yields `Infinity` or `NaN`, which the model does not represent.
- QuickProposalForm.CalculateProposal: requires both divisors to be non-zero, for the same
  reason. The form only calculates under the gate, which implies this
  (`QuickProposalForm.ValidFormIsComputable`).
- QuickProposal.NewProposal and ProposalView.EditedProposal: require a defined payback, for the
  same reason.
- CommissionPanel.Panel.SelectMonth: takes a month index. The source's month select offers
  month names as option values and stores `Number` of the chosen one, which is `NaN`; that
  value is not modelled.
- Dashboard.TotalCommission: a missing commission makes the plain sum `NaN` in the source. The
  model returns None for it.
- The id of a new proposal (`Date.now()`), today's date and the current time are parameters.
- Lower-casing covers ASCII and the Latin-1 upper-case letters only. Other Unicode case
  mappings are not modelled.
- AuthService.ErrorMessage: models a lookup among the seven codes. Any other key is unknown. A
  code naming an inherited object property (such as "constructor") would yield that property
  in the source, which is not modelled.
- CommissionPanel.CalculateComissions: the source adds each commission to the running total
  inside the grouping's `forEach`. The model sums the valid contracts in a loop of its own,
  then groups them. Both visit the same contracts in the same order.
- One bucket shape (month, year, contracts, value, commission) serves the commissions report,
  the performance report and the panel. The commissions report and the panel read only its
  count and commission fields.
- The clients report and the consumption part of the reports are not part of this model, and
  neither are the other screens (landing page, login, registration, client forms, sidebar,
  routing, contexts), and the mock proposals the proposal page seeds itself with.
- The text of the generated contract file and its download are left out. Only the file name
  is modelled.
