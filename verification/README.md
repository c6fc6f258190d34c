# FreightCore: verified models of the money engine, ETA cascade, invoice PDF, LCL, rate limiter and document gate

This project models the parts of the freight backend where one call depends on what many earlier calls did,
and proves what those parts promise over all inputs and all runs.

**The shipment money engine.** Three services - payables, invoicing and shipment finance - write one set of
tables: cost lines, bills, revenue lines, invoices, notes, ledger entries and alarms (`Tables`). Each service is a
class whose methods change that session step by step (`Payables`, `Invoicing`, `Financial`); each method is proved
against a specification function that gives the new books or the refusal. `Engine` runs the twelve operations in
any order and number, a refused one being rolled back, and proves one invariant of all reachable books. Its parts
live beside what they are about: `Ledger` (correction chains, conservation), `Lockstep` (bills and shared cost
lines), `Settlement` (payments), `Receivables` (billing once, credits, documents against the ledger), `MarginAlarm`.
What one accepted operation does is also stated in plain amounts and rows, apart from the specification functions, by
the lemmas named `...Exactly` and, from the arguments of a run's operation, by `Requests`. Over runs, `AlarmRuns` adds
what the alarm shows, `MoneyRuns` and `InvoiceRuns` what can still be paid or credited, and `LedgerRuns` what both books
of the ledger come to.

Money is a whole number of ten-thousandths, the scale of the columns (`Money`). Rounding to two places is ANY
function to a nearest whole cent: every result holds however ties fall. Exchange rates are whole numbers of 10^-8
(`Exchange`).

**The ETA cascade.** `EtaCascade` has the recurrence and shows that it computes the least feasible schedule and
how reports compose; `EtaService` has the versioned history it is applied to; `EtaAlerts` the deviation alerts.

**The invoice PDF.** `PdfFile` writes any sequence of objects with its cross-reference table and trailer and reads
it back with an independent reader (ISO 32000-1:2008, sections 7.3.8, 7.5.4 and 7.5.5); `PdfLiteral` and
`PdfContent` do the same for the text lines of a page (section 7.3.4.2). `PdfReader` is a reader that spells every word
of the format itself and follows the document from trailer to text; `InvoicePdf` joins writer and reader. `Decimal`
and `Scan` hold numerals and searching.

**Smaller machines.** `LclAllocation` and `LclPacking` (sharing a cost with a remainder, greedy consolidation),
`RateLimit` (fixed windows over expiring counters), `Documents` (versions, role-gated approval, checklist gate).

## What does not hold as one might expect

Each of these is shown by a lemma with an input or a whole run, and beside it stands when the expectation does hold.

- The margin alarm looks at the ROUNDED profit: a loss below half a cent is silent (`MarginAlarm.SmallLossIsSilent`,
  `MarginAlarm.AlarmThreshold`). A bill's extra charges bypass it (`AlarmRuns.BillsBypassTheAlarm`); at any moment it
  shows the profit without those billed since the last added line and so is right exactly when
  those make no deeper loss (`AlarmRuns.AlarmsOverRuns`, `AlarmRuns.BillKeepsAlarmExactly`).
- Verifying a bill refuses APPROVED and PAID but not PARTIALLY_PAID ones: such a bill falls back to VERIFIED and can
  then be neither approved nor paid, for ever (`MoneyRuns.RunThatSticks`, `MoneyRuns.VerifyingSticksExactly`).
- A payment in fractions of a cent can stop half a cent short: the balance then rounds to nothing and is refused as
  paid, while the bill stays PARTIALLY_PAID (`MoneyRuns.RunThatStrands`, `Money.HalfEvenRounds`). These two are the
  only ways an approved bill with a positive total becomes unpayable, and neither ends (`MoneyRuns.PaymentsOverRuns`,
  `MoneyRuns.UnpayableIsForever`). Credits have the second one too (`InvoiceRuns.RunThatStrandsInvoice`,
  `InvoiceRuns.CreditsOverRuns`).
- A correction can part the posted ledger from what it records (`LedgerRuns.RunThatDisagrees`); it does exactly when it
  moves the net of an entry (`LedgerRuns.CorrectionKeepsAgreementExactly`).
- A request for revision does not reach the checklist, so the gate stays open on a document that waits for revision
  (`Documents.GateIgnoresRevision`); a cleared document is approved exactly when none was requested since
  (`Documents.ClearedDocumentStatus`).
- An ETD request does not cascade and can break a connection (`EtaService.DepartureReportBreaksConnection`); when it
  does is decided before the call (`EtaService.RequestKeepsConnection`, `EtaService.ConnectionSurvivesExactly`).
- A cascade can move a leg earlier, if it has an arrival but no departure (`EtaCascade.CascadeMayAdvance`); exactly when
  is `EtaCascade.ArrivalKeptExactly`. Only a report that moves an arrival earlier can lower that leg's alert
  (`EtaAlerts.LaterReportNeverCalms`).
- Greedy consolidation is maximal whenever no LATER matching bill has a negative size (`LclPacking.ChoiceIsMaximal`);
  for two bills the failing ones are characterised exactly (`LclPacking.NegativeSizeBreaksMaximality`).
- LCL shares of a consolidation without house bills sum to the cost only if it is zero
  (`LclAllocation.AllocationIsExact`). The last share can be negative (`LclAllocation.LastShareMayBeNegative`) but not
  once its exact share covers the others' rounding (`LclAllocation.LastShareFloor`). The converse is not stated:
  below that, the sign depends on how each of the other shares happens to round.
- A cross-reference entry has twenty bytes only while its offset is below 10^10 (`PdfFile.Format.RowIsTwentyBytes`),
  and beyond that the whole table is unreadable (`PdfFile.Format.OffsetsReadBack`). A text line is recovered as
  written, parentheses aside, exactly when it is latin-1 without CR (`PdfLiteral.ExactlyPrintable`).

Two smaller points, without a lemma of their own. An ESTIMATED cost line goes straight to BILLED, past ACCRUED, so the
lockstep ranks count both as unbilled. `tests/services/test_lcl.py` expects both 19000.00 and 17000.00 for one total
weight; by the code it is 17000.00, and the model follows the code.

## Model

| member | source | states |
|---|---|---|
| `Engine.RunIsSound` | app/db/session.py:50-57 | Main invariant: after ANY mix of the twelve operations of the three services from empty books, refused ones rolled back, bills and cost lines are in lockstep, payments and credits are bounded, every revenue line is billed at most once, original receivable entries equal the customer documents, correction chains are linear, posted entries carry the whole balance, and no shipment has two active margin alarms |
| `Engine.StepIsSound` | app/db/session.py:50-57 | One operation of any service, accepted or rolled back, keeps all of that at once |
| `Engine.RulesOverRuns` | app/db/session.py:50-57 | In every run every bill, cost line, revenue line, invoice and ledger entry obeys its rule below, and per shipment and currency debit minus credit over all entries equals that over the POSTED ones |
| `Engine.SoundBill` | app/modules/payables/service.py:580-651 | Rule of bills: its linked cost lines are at least VERIFIED, APPROVED, PAID once it is; payments exceed a positive total by at most half a cent, and none are made on another; the paid amount is their rounded sum; PAID exactly when that reaches a positive total; an approved bill and its payments point at postings of their own, all different, of its shipment and their currency and kind, which net to total minus payments |
| `Engine.SoundRules` | app/modules/payables/service.py:446-455 | Every state that keeps the main invariant obeys these rules; of cost lines: each stage one reached after it was created was also reached by some bill that links it |
| `Engine.StagesNeverFall` | app/modules/payables/service.py:639-649 | However a run continues, a cost line keeps its shipment, code and amount and its stage never falls |
| `Engine.PaidIsTerminal` | app/modules/payables/service.py:405-406 | A PAID bill is never changed again by any later operation |
| `Engine.SoundRevenueLine` | app/modules/invoicing/service.py:181-249 | Rule of revenue lines: no two invoice lines reference it, and unless it was created INVOICED it is INVOICED exactly when one does |
| `Engine.SoundInvoice` | app/modules/invoicing/service.py:181-190 | Rule of invoices: APPROVED or SENT means approved with an approver on record; credits exceed a positive total by at most half a cent, and none are given on another; CREDITED exactly when the rounded credits reach a positive total |
| `Engine.ChainedEntry` | app/modules/financial/service.py:548-596 | Rule of ledger entries: its chain starts at one original posting and ends at exactly one POSTED entry, and the two ends determine each other |
| `Engine.EntriesAreImmutable` | app/modules/financial/service.py:548-596 | However a run continues, a ledger entry keeps amounts, shipment, currency, kind and link; at most its status goes from POSTED to REVERSED |
| `AlarmRuns.AlarmsOverRuns` | app/modules/financial/service.py:456-512 | At every moment of every run each shipment has exactly one active alarm carrying a rounded loss, or none - of its profit plus the extra charges billed since its last revenue or cost line was added by hand; so the alarm is right exactly when the profit rounds to no loss, or those charges do not change it in cents |
| `AlarmRuns.AlarmsStayCurrent` | app/modules/financial/service.py:444-512 | In every run that records no bill, every shipment has at every moment exactly one active alarm carrying its rounded loss, or none when the rounded profit is not negative |
| `AlarmRuns.BillMovesProfit` | app/modules/payables/service.py:107-174 | A recorded bill lowers the profit of its own shipment by what it bills on lines no cost line answers, changes no other profit and touches no alarm |
| `AlarmRuns.AddedLineShowsProfit` | app/modules/financial/service.py:181-188 | From any books with at most one active alarm per shipment, which every run keeps, each accepted revenue or cost line leaves its shipment with exactly one active alarm carrying the rounded loss, or none |
| `AlarmRuns.BillKeepsAlarmExactly` | app/modules/payables/service.py:159-174 | A recorded bill leaves a current alarm current exactly when the old profit less its extra charges - both known before the call - rounds to no loss or to the same amount |
| `AlarmRuns.BillsBypassTheAlarm` | app/modules/payables/service.py:159-174 | An additional charge of a cent or more, billed on a shipment without revenue, leaves a loss and no alarm |
| `Engine.EveryStepIsAnEffect` | app/modules/financial/service.py:548-596 | Whatever any service does to the ledger is nothing, one fresh posting, or one correction of a POSTED entry |
| `Ledger.EffectKeepsChains` | app/modules/financial/service.py:548-596 | Postings and corrections keep every `reversal_of_id` chain linear, acyclic, on one shipment and currency, alternating REVERSED and REVERSAL, with a follower behind everything but POSTED entries |
| `Ledger.CorrectedExactly` | app/modules/financial/service.py:517-596 | A correction is accepted exactly of a POSTED entry with a reason of three characters and amounts that are not negative; it marks the entry REVERSED and appends its opposite and an entry of the amounts given, each linked to the one before, and changes nothing else |
| `Ledger.EffectKeepsBalance` | app/modules/financial/service.py:548-596 | They keep the balance of all entries equal to that of POSTED ones, per shipment and currency |
| `Ledger.Tip` | app/modules/financial/service.py:548-596 | Following corrections from any entry ends at a POSTED entry, never before it |
| `Ledger.Root` | app/modules/financial/service.py:548-596 | Following `reversal_of_id` back from any entry ends at an original posting |
| `Ledger.TipOfRoot` | app/modules/financial/service.py:548-596 | An entry and the original it goes back to end at the same POSTED entry |
| `Ledger.RootOfTip` | app/modules/financial/service.py:548-596 | An entry and the POSTED entry it ends at go back to the same original |
| `Ledger.ChainsPairRootsWithPosted` | app/modules/financial/service.py:548-596 | Originals and POSTED entries correspond one to one through their chains |
| `Ledger.CorrectionMovesBalance` | app/modules/financial/service.py:548-596 | A correction leaves the original postings alone and moves the balance by exactly new minus old net |
| `Ledger.NetSplits` | app/modules/financial/service.py:548-596 | The balance is what was originally posted plus what corrections changed |
| `Payables.PayableService.Match` | app/modules/payables/service.py:97-187 | The matching loop: one cost line per requested line by id, else by code as the table stood at the start, else a new BILLED additional charge; running sums of billed and variance |
| `Payables.PayableService.Record` | app/modules/payables/service.py:69-217 | Refuses an unknown shipment, a used bill number, no lines or a bad line without any change; otherwise the new bill with rounded totals and the matched cost table; what those amounts are is Payables.RecordedExactly |
| `Payables.PayableService.AdvanceLinked` | app/modules/payables/service.py:446-455 | Walking the bill lines moves exactly the linked cost lines that stand at one stage to the next, each once however often it is linked |
| `Payables.PayableService.Verify` | app/modules/payables/service.py:386-457 | Refuses APPROVED and PAID bills and, unless allowed, a material variance, without any change; otherwise VERIFIED with its verifier, and BILLED lines become VERIFIED |
| `Payables.PayableService.Approve` | app/modules/payables/service.py:475-536 | Refuses a second approval and an unverified bill; otherwise APPROVED, VERIFIED lines become APPROVED, and one payable entry of the total is posted and linked |
| `Payables.PayableService.Pay` | app/modules/payables/service.py:571-651 | Refuses non-positive, early, superfluous and excessive payments; otherwise one payment entry, the rounded paid amount, and PAID with its lines when that covers the total |
| `Payables.RecordAcceptedExactly` | app/modules/payables/service.py:69-127 | A bill is accepted exactly on a known shipment, under an unused number, with lines of positive amounts whose cost lines, where named by id, are of the shipment or were added before them in the same bill |
| `Payables.RecordedExactly` | app/modules/payables/service.py:129-217 | An accepted bill is the next row: subtotal, tax and total are the nearest cents of the requested amounts, the tax and their sum - equal in whole cents - and the variance is billed minus expected within n + 1 half-cents; every requested line is answered in order, the billed cost lines that were ESTIMATED or ACCRUED stand at BILLED and no other changes, and nothing but bills and cost lines differs |
| `Requests.AcceptedBill` | app/modules/payables/service.py:69-217 | The same of the operation of a run, from its own arguments |
| `Payables.VerifiedExactly` | app/modules/payables/service.py:405-455 | A verification is accepted exactly of a bill neither APPROVED nor PAID with a variance of at most 100.00 and, of a positive total, at most a tenth of it, unless a larger one is allowed; it changes that bill to VERIFIED with its verifier and its BILLED cost lines to VERIFIED, and nothing else |
| `Payables.ApprovedExactly` | app/modules/payables/service.py:493-536 | An approval is accepted exactly of a verified bill not yet approved; it posts its total as owed and moves its VERIFIED cost lines to APPROVED |
| `Payables.PaidExactly` | app/modules/payables/service.py:592-651 | An accepted payment adds one row and one entry of its amount in the currency given, or else that of the bill; the bill is PAID, with its APPROVED cost lines, exactly when the rounded sum reaches the total |
| `Payables.MatchingAnswers` | app/modules/payables/service.py:107-187 | Every requested line is billed once, in order and in full, against a cost line of the same shipment and of the requested code or id, and no existing cost line changes except in stage |
| `Payables.ExtrasAreMarked` | app/modules/payables/service.py:107-174 | A bill line is an additional charge exactly when its request names no cost line and no cost line of the shipment has its code |
| `Payables.StagedExactly` | app/modules/payables/service.py:141-172 | Matching moves exactly the billed cost lines that were ESTIMATED or ACCRUED, to BILLED; the lines it adds are additional and BILLED |
| `Payables.VarianceDrift` | app/modules/payables/service.py:129-189 | The summed variance is within n half-cents of billed minus expected, and equal to it in whole cents |
| `Lockstep.RecordKeepsLockstep` | app/modules/payables/service.py:129-174 | Recording a bill keeps bills and cost lines in lockstep, also on lines other bills already carried further |
| `Lockstep.VerifyKeepsLockstep` | app/modules/payables/service.py:436-455 | Verifying keeps lockstep and moves lines by at most one stage |
| `Lockstep.ApproveKeepsLockstep` | app/modules/payables/service.py:510-518 | Approving keeps lockstep and moves lines by at most one stage |
| `Lockstep.PayKeepsLockstep` | app/modules/payables/service.py:639-651 | Paying keeps lockstep and moves lines by at most one stage |
| `Lockstep.AdvanceKeepsLockstep` | app/modules/payables/service.py:510-518 | The common step: a bill that rises one level and takes along exactly its lines one stage below keeps every bill, shared lines included, in lockstep |
| `Settlement.PaymentKeepsPaidUp` | app/modules/payables/service.py:580-651 | An accepted payment keeps the sum within half a cent of the total, the paid amount its rounded sum, and PAID tied to it |
| `MoneyRuns.PaymentsOverRuns` | app/modules/payables/service.py:571-651 | Of every bill in every run: approved, with a positive total and not PAID, it owes at least half a cent, accepts a payment exactly when it was not verified again after approval and the payment is within the rounded balance, and accepts nothing at all exactly when it was verified again or owes half a cent that rounds to nothing; paid in whole cents, any bill is never overpaid, PAID exactly when paid to the cent of a positive total, and its rounded balance is its balance |
| `MoneyRuns.UnpayableIsForever` | app/modules/payables/service.py:405-590 | A bill that accepts nothing for one of those two reasons stays so, with the same payments, in every continuation |
| `MoneyRuns.VerifyingSticksExactly` | app/modules/payables/service.py:405-440 | An accepted verification leaves a bill that nothing accepts any more exactly when the bill was approved before |
| `MoneyRuns.RunThatSticks` | app/modules/payables/service.py:405-440 | Runs from empty books that verify a part-paid bill again and end with the rest owed for ever, for every charge and every part payment |
| `MoneyRuns.RunThatStrands` | app/modules/payables/service.py:584-587 | A run whose payment stops half a cent short of the total, where ties fall: PARTIALLY_PAID, never verified again, and unpayable |
| `Money.HalfEvenRounds` | app/modules/payables/service.py:584 | Ties to even is such a rounding, and it takes 1.125 to 1.12 and half a cent to nothing; so 1.125 paid on a bill of 1.13, or credited on an invoice over 1.13, strands it |
| `Settlement.TheBalanceSettles` | app/modules/payables/service.py:580-651 | An open bill accepts exactly the amounts up to its rounded balance; a payment settles it when it comes within half a cent of what is owed and not when it falls further short, and where payments come to whole cents exactly when it is what is owed |
| `Settlement.EntriesNetToBalance` | app/modules/payables/service.py:520-536 | The distinct postings of an approved bill and its payments net to what is still owed |
| `LedgerRuns.EntriesServeOneBill` | app/modules/payables/service.py:522-536 | In every run no ledger entry records two approvals, two payments of different bills, or one of each |
| `LedgerRuns.PayablesAreBills` | app/modules/payables/service.py:522-619 | In every run, per shipment and currency, the original payable entries come to payments in that currency less approved bills in that currency |
| `LedgerRuns.OriginalsAreRecorded` | app/modules/financial/service.py:548-596 | In every run, per shipment and currency, the original entries of either book, and the whole ledger, come to exactly what invoices, notes, bills and payments record |
| `LedgerRuns.PostedAgreesExactly` | app/modules/financial/service.py:548-596 | In every run the POSTED entries of either book, or both, come to that exactly when the corrections made there cancel out; so always when there were none |
| `Settlement.ReverifyingPartPaidSticks` | app/modules/payables/service.py:405-440 | A PARTIALLY_PAID bill can be verified again exactly when its variance is not material or is allowed, and then sits in VERIFIED with money owed |
| `Settlement.StuckStaysStuck` | app/modules/payables/service.py:493-501 | Such a bill is refused by approval and by payment, and verifying it once more changes no amount |
| `Invoicing.Selected` | app/modules/invoicing/service.py:95-106 | The eligible lines: those listed by id on the shipment, or without a list its ESTIMATED and QUOTED ones; each once |
| `Exchange.ExchangedIsNear` | app/modules/invoicing/service.py:147-149 | A converted amount is whole cents and within half a cent of amount times rate, however ties fall |
| `Invoicing.InvoiceService.BuildLine` | app/modules/invoicing/service.py:139-157 | One revenue line, converted at the locked rate exactly when its currency differs from the invoice currency and the rate is positive, with its tax and rounded total |
| `Invoicing.InvoiceService.BuildLines` | app/modules/invoicing/service.py:137-172 | The pricing loop: a line per selected revenue line and the running subtotal and tax |
| `Invoicing.InvoiceService.Price` | app/modules/invoicing/service.py:174-190 | The rounded grand total, approved at once by the actor up to the threshold and pending above it |
| `Invoicing.InvoiceService.Generate` | app/modules/invoicing/service.py:95-267 | Refuses an unknown shipment, no lines and any INVOICED line without any change; otherwise the invoice priced under the locked rate and the tax of its jurisdiction, its lines INVOICED, one receivable entry of the total; what that price is is Requests.AcceptedInvoice |
| `Invoicing.InvoiceService.Approve` | app/modules/invoicing/service.py:410-441 | PENDING_APPROVAL becomes APPROVED with the approver, APPROVED is left as it is, anything else is refused |
| `Invoicing.InvoiceService.Send` | app/modules/invoicing/service.py:467-505 | Only APPROVED or SENT invoices with a recipient become SENT |
| `Invoicing.InvoiceService.Credit` | app/modules/invoicing/service.py:562-640 | Refuses bad amounts, short reasons and more than the rounded remainder; otherwise one credit entry and note, CREDITED when the rounded credits reach the total |
| `Invoicing.InvoiceService.Debit` | app/modules/invoicing/service.py:684-739 | Refuses bad amounts, blank codes and short reasons; otherwise one debit entry and note on the invoice |
| `Invoicing.InvoiceAcceptedExactly` | app/modules/invoicing/service.py:86-111 | An invoice is accepted exactly on a known shipment with some eligible revenue line and none of them INVOICED |
| `Requests.AcceptedInvoice` | app/modules/invoicing/service.py:95-267 | An accepted invoice, from the arguments of the operation: it bills each eligible line once in table order - listed ones, or without a list the ESTIMATED and QUOTED ones - and marks exactly those; its subtotal is near their worth, its tax 16, 15, 5 or 0 percent of that, its total the nearest cent of both; approved by the actor up to 5000.00 and pending above; one receivable entry of the total in its currency |
| `Requests.TaxByJurisdiction` | app/modules/invoicing/tax.py:34-88 | The tax of every accepted invoice is within half a cent per line of 16, 15 or 5 percent of its subtotal for PK, SA and AE, and exactly nothing for any other jurisdiction or none |
| `Invoicing.InvoicedExactly` | app/modules/invoicing/service.py:174-267 | The part of this that does not depend on the rate and the tax, under any terms |
| `Invoicing.ApprovedAndSentExactly` | app/modules/invoicing/service.py:410-505 | Approval is accepted exactly of a pending or APPROVED invoice, sending exactly of an APPROVED or SENT one with a recipient; each changes that invoice as stated and nothing else |
| `Invoicing.CreditedExactly` | app/modules/invoicing/service.py:598-640 | An accepted credit note is credited and recorded in the currency given, or else that of the invoice, which is CREDITED exactly when the rounded credits reach its total |
| `Invoicing.DebitedExactly` | app/modules/invoicing/service.py:684-739 | A debit note is accepted exactly of a positive amount with a code and a reason; it is debited and recorded in the currency given, or else that of the invoice |
| `Invoicing.InvoiceTotalMatchesLines` | app/modules/invoicing/service.py:141-174 | An n-line invoice total equals the sum of its line totals in whole cents and is within n + 1 half-cents of it otherwise |
| `Invoicing.LineTotalsDrift` | app/modules/invoicing/service.py:157-161 | Line totals together are within n half-cents of subtotal plus tax, equal in whole cents |
| `Invoicing.TaxDrift` | app/modules/invoicing/service.py:156-161 | Summed per-line tax is whole cents and within n half-cents of rate times subtotal |
| `Invoicing.SubtotalDrift` | app/modules/invoicing/service.py:144-159 | The subtotal is within n half-cents of what its revenue lines are worth in the invoice currency: each amount as it is where the currencies agree, times the rate on file otherwise |
| `Invoicing.GeneratedLinesArePriced` | app/modules/invoicing/service.py:133-174 | Every accepted invoice is priced from the request - its jurisdiction, its currency and the rate on file - within these three bounds |
| `Tax.TaxIsNear` | app/modules/invoicing/tax.py:24-30 | Half-up tax is whole cents and within half a cent of rate times amount, half a cent going away from zero, negative amounts included; none when not applicable |
| `Tax.EvaluatedExactly` | app/modules/invoicing/tax.py:34-88 | The rate charged is 16, 15 and 5 percent for PK, SA and AE, nothing for any other jurisdiction, and nothing at all when exempt |
| `Receivables.IssuedBillsOnce` | app/modules/invoicing/service.py:95-249 | Invoicing lines that are not INVOICED references each selected one exactly once and never one that is referenced already |
| `Receivables.CreditKeepsInvoicesOk` | app/modules/invoicing/service.py:576-640 | An accepted credit keeps the sum of credits within half a cent of a positive total and CREDITED tied to it |
| `InvoiceRuns.CreditsOverRuns` | app/modules/invoicing/service.py:562-596 | Of every invoice in every run: it accepts a credit, given a reason, exactly up to its rounded balance, and some credit exactly when more than half a cent is left or half a cent that rounds up; CREDITED ones have at most half a cent left, others with a positive total at least that; credited in whole cents, never beyond the total and CREDITED exactly when a positive total is reached |
| `InvoiceRuns.RunThatStrandsInvoice` | app/modules/invoicing/service.py:586-596 | A run whose credit stops half a cent short of the total, where ties fall: neither CREDITED nor creditable |
| `Receivables.CreditKeepsLedger` | app/modules/invoicing/service.py:598-640 | A credit note moves original receivables and documents by the same amount in every shipment and currency |
| `Receivables.GenerateKeepsLedger` | app/modules/invoicing/service.py:254-265 | So does an invoice |
| `Receivables.DebitKeepsLedger` | app/modules/invoicing/service.py:700-739 | So does a debit note |
| `LedgerRuns.CorrectionKeepsAgreementExactly` | app/modules/financial/service.py:548-596 | In every run, where a book agrees, an accepted correction keeps that exactly when its entry is not of that shipment, currency and book, or keeps its debit minus credit |
| `LedgerRuns.RunThatDisagrees` | app/modules/financial/service.py:548-596 | A run from empty books after which receivables and documents differ: one invoice, its entry corrected to nothing |
| `Financial.ShipmentFinancialService.GetProfitability` | app/modules/financial/service.py:397-439 | Rounded revenue, rounded cost and rounded profit of one shipment, summed over both ledgers |
| `Financial.ShipmentFinancialService.SyncNegativeMargin` | app/modules/financial/service.py:444-512 | On a loss the active alarm is updated or one is opened; otherwise the active one is resolved |
| `Financial.ShipmentFinancialService.AddRevenue` | app/modules/financial/service.py:110-188 | Refuses negative amounts, blank codes and unknown shipments without any change; otherwise the line, then profit and alarm |
| `Financial.ShipmentFinancialService.AddCost` | app/modules/financial/service.py:266-354 | The same for a cost line of any stage |
| `Financial.AddedExactly` | app/modules/financial/service.py:115-354 | A revenue or cost line is accepted exactly of an amount that is not negative, with a code, on a known shipment; it is the next row as given, and only the alarms change besides |
| `Financial.ShipmentFinancialService.ReverseAndCorrectEntry` | app/modules/financial/service.py:517-596 | Refuses short reasons, negative amounts, unknown and non-POSTED entries; otherwise marks, reverses and corrects, each new entry linked to the one before |
| `MarginAlarm.SyncShowsProfit` | app/modules/financial/service.py:456-512 | From at most one active alarm of the shipment, one synchronisation leaves exactly one active alarm carrying the loss, or none, and does not touch other shipments |
| `MarginAlarm.RevenueLineSyncs` | app/modules/financial/service.py:181-188 | After an added revenue line profit has risen by its amount and the alarm shows the new rounded profit |
| `MarginAlarm.CostLineSyncs` | app/modules/financial/service.py:347-354 | After an added cost line profit has fallen by its amount and the alarm shows the new rounded profit |
| `MarginAlarm.AlarmThreshold` | app/modules/financial/service.py:456-457 | An alarm is active exactly when profit ROUNDS to a loss: always beyond half a cent, never below it |
| `MarginAlarm.AlarmInWholeCents` | app/modules/financial/service.py:456-457 | In whole cents it is active exactly when cost exceeds revenue, and carries the exact loss |
| `MarginAlarm.SmallLossIsSilent` | app/modules/financial/service.py:433-457 | A loss of 0.0040 raises no alarm under any rounding |
| `EtaCascade.CalculateLegCascade` | app/modules/eta/cascade.py:46-120 | Finds the first leg with the id; nothing for an unknown or last leg; otherwise an ETD and an ETA record for every leg after it |
| `EtaCascade.Propagate` | app/modules/eta/cascade.py:60-118 | The loop that carries the arrival from leg to leg |
| `EtaCascade.ScheduleIsFeasible` | app/modules/eta/cascade.py:84-118 | Every leg takes as long as planned where its plan moves forward and 86400 seconds otherwise, never departs before a current ETD, and leaves the connection time after every arrival |
| `EtaCascade.PlannedRecords` | app/modules/eta/cascade.py:99-118 | The records are, leg by leg and in order, its departure and then its arrival |
| `EtaCascade.ArrivalKeptExactly` | app/modules/eta/cascade.py:84-97 | A leg with an arrival is moved to an earlier one exactly when it has no departure and a day after its earliest connection is before that arrival; a departure is never moved earlier |
| `EtaCascade.CascadeMayAdvance` | app/modules/eta/cascade.py:84-97 | A leg without a departure that is moved from day 116 to the second day |
| `EtaCascade.ReportKeepsExactly` | app/modules/eta/cascade.py:84-118 | Of every leg of a chain, when a report leaves it its arrival or a later one: always before the reported leg, by the reported time at it, by that condition after it |
| `EtaCascade.ScheduleIsLeast` | app/modules/eta/cascade.py:84-118 | No feasible schedule is earlier at any leg, even one for a later arrival upstream |
| `EtaCascade.LeastIsUnique` | app/modules/eta/cascade.py:84-118 | A feasible schedule below every feasible one IS the result of the cascade |
| `EtaCascade.SchedulesCompose` | app/modules/eta/cascade.py:84-118 | A cascade over an already cascaded chain is one cascade of the later arrival |
| `EtaCascade.ReportsCompose` | app/modules/eta/cascade.py:84-118 | Two reports on one leg leave that leg at the second and everything downstream as one report of the later |
| `EtaCascade.ReportsRepeatAndCommute` | app/modules/eta/cascade.py:84-118 | A repeated report is a fixed point; two reports leave the same downstream legs in either order |
| `EtaCascade.DelayShrinks` | app/modules/eta/cascade.py:88-118 | Reporting d later moves every downstream time by between 0 and d, never by more than the leg before |
| `EtaCascade.ReportKeepsConnections` | app/modules/eta/cascade.py:88-118 | A report keeps every met connection and meets every one from the reported leg on |
| `EtaService.Service.RecordVersion` | app/modules/eta/service.py:38-192 | Refuses a bad type, source or leg without any change; otherwise appends the next version, sets the leg, and for an ETA appends and applies the cascade record by record |
| `EtaService.RecordsReschedule` | app/modules/eta/service.py:143-180 | Applying the planned records one after another moves every downstream leg as the schedule says and no other leg |
| `EtaService.StepIsReport` | app/modules/eta/service.py:114-192 | An accepted ETA request leaves the legs exactly as the report on the whole chain |
| `EtaService.AcceptedReport` | app/modules/eta/service.py:114-192 | An accepted ETA request leaves every leg after the reported one with its planned duration - a day where the plan has none - departing at its planned departure, or six hours after the leg before arrives where that is later or there is none |
| `EtaService.AcceptedExactly` | app/modules/eta/service.py:38-77 | A request is accepted exactly when its type is ETA or ETD, its source one of the six and its leg on the shipment |
| `EtaService.RecordedAsSent` | app/modules/eta/service.py:79-110 | An accepted request is recorded first, with its value and source, as the next version of its leg and type; an ETD request sets the departure of its leg and does nothing else |
| `EtaService.TwoStepsCompose` | app/modules/eta/service.py:114-192 | Two accepted ETA requests on one leg compose likewise at the service |
| `EtaService.RunIsConsistent` | app/modules/eta/service.py:79-110 | In every run, for every leg and type the versions are exactly 1..n in order and the leg shows the last one |
| `EtaService.HistoryIsAppendOnly` | app/modules/eta/service.py:92-104 | No recorded version is ever rewritten, moved or dropped |
| `EtaService.ConnectionsNeverLost` | app/modules/eta/service.py:114-192 | In runs of ETA requests a connection once met stays met |
| `EtaService.ReportedLegsConnect` | app/modules/eta/service.py:114-192 | Once a leg was reported, every connection from it on stays met for the rest of the run |
| `EtaService.RequestKeepsConnection` | app/modules/eta/service.py:106-110 | An accepted request of either type keeps a met connection exactly when it does not set the departure after it to less than the connection time past the arrival |
| `EtaService.ConnectionSurvivesExactly` | app/modules/eta/service.py:106-192 | Over any mix of ETA and ETD requests a met connection stays met at every later point exactly when every accepted request meets that condition as it comes |
| `EtaService.DepartureReportBreaksConnection` | app/modules/eta/service.py:106-110 | One ETD request that does not meet it, and the connection it breaks |
| `EtaAlerts.GroupByLeg` | app/modules/eta/alerts.py:31-37 | Groups exactly the ETA records of each leg, in order, every leg once |
| `EtaAlerts.AlertsGrow` | app/modules/eta/alerts.py:65-89 | A longer delay or a firm commitment never lowers the severity, and the customer is notified exactly of critical alerts |
| `EtaAlerts.AlertIsRaisedExactly` | app/modules/eta/alerts.py:65-91 | Over a history kept by the service a leg has an alert exactly when the ETA it shows is past its first one, by more than a day or, under a firm commitment, at all |
| `EtaAlerts.AlertIsExactly` | app/modules/eta/alerts.py:62-112 | That alert in full: critical and told to the customer past 604800 seconds or for any delay under a firm commitment, a warning past 259200, for information past 86400, none otherwise; with the delay and the first and last record |
| `EtaAlerts.LaterReportNeverCalms` | app/modules/eta/alerts.py:43-91 | An ETA request lowers no leg's alert, before, at or after the reported leg, unless it moves an arrival with records to an earlier one |
| `EtaAlerts.EvaluateEtaDeviations` | app/modules/eta/alerts.py:28-112 | One alert for every leg that calls for one, no other alert, no leg twice |
| `EtaAlerts.AlertComparesFirstWithCurrent` | app/modules/eta/alerts.py:43-65 | Over a history kept by the service the alert compares the first recorded ETA with the one the leg shows now, however the records are ordered |
| `Decimal.DigitsRoundTrip` | app/modules/invoicing/pdf.py:101-102 | A printed number reads back as itself |
| `Decimal.PaddedRoundTrip` | app/modules/invoicing/pdf.py:101 | A zero-padded number reads back as itself |
| `Decimal.DigitsWidth` | app/modules/invoicing/pdf.py:101 | A numeral fits k digits exactly when the number is below 10^k |
| `PdfFile.Format.AppendObjects` | app/modules/invoicing/pdf.py:93-98 | The writing loop notes the byte position of every object as it appends it |
| `PdfFile.Format.Assemble` | app/modules/invoicing/pdf.py:93-104 | Header, objects, cross-reference table with a row per noted offset, trailer, in whatever words the format has; that they are those of the standard is InvoicePdf.ReaderRoundTrip |
| `PdfFile.Format.RowIsTwentyBytes` | app/modules/invoicing/pdf.py:101 | A table entry is twenty bytes exactly while its offset is below 10^10 |
| `PdfFile.Format.EntryAtOffset` | app/modules/invoicing/pdf.py:95-98 | Every recorded offset is where that object begins, for any objects |
| `PdfFile.Format.StartXrefFound` | app/modules/invoicing/pdf.py:102 | `startxref` is recovered from the end of the file, whatever precedes it |
| `PdfFile.Format.OffsetsReadBack` | app/modules/invoicing/pdf.py:100-102 | Following `startxref` and the twenty-byte entries recovers every offset exactly when each is below 10^10, and nothing otherwise |
| `PdfFile.Format.TextsRoundTrip` | app/modules/invoicing/pdf.py:93-104 | Reading recovers every object text in order, for any number of objects and any bytes in them, exactly when the offsets fit |
| `PdfFile.Format.PlainReadBack` | app/modules/invoicing/pdf.py:95-98 | A non-stream object is recovered exactly when it neither poses as a stream nor hides an object end |
| `PdfFile.Format.StreamReadBack` | app/modules/invoicing/pdf.py:89 | `/Length` is the byte count, so a stream comes back whole even if it contains `endstream`, `endobj` or `xref` |
| `PdfFile.Format.FileRoundTrip` | app/modules/invoicing/pdf.py:85-104 | A reader that delimits streams by `/Length` and other objects by `endobj` recovers the objects exactly when the offsets fit and every non-stream object can be delimited |
| `PdfLiteral.LiteralReadBack` | app/modules/invoicing/pdf.py:79-83 | An escaped line read under the literal-string rules ends at its own parenthesis, whatever backslashes or operator-like text it holds |
| `PdfLiteral.ExactlyPrintable` | app/modules/invoicing/pdf.py:79-83 | What is read is the line with brackets for parentheses exactly when the line is latin-1 without CR |
| `PdfLiteral.AsReadAt` | app/modules/invoicing/pdf.py:79-83 | Of a line without CR each character is read back in its place: `[` and `]` for the parentheses, `?` beyond latin-1, itself otherwise |
| `PdfContent.Operators.ContentRoundTrip` | app/modules/invoicing/pdf.py:78-83 | Parsing the page content recovers all lines, in order, for any lines at all |
| `InvoicePdf.ReplacementsEscape` | app/modules/invoicing/pdf.py:79 | The three successive replacements escape character by character |
| `InvoicePdf.Generate` | app/modules/invoicing/pdf.py:78-104 | The five-object invoice document around the page content; the reader of InvoicePdf.ReaderRoundTrip gets all lines back from it, exactly when the offsets fit |
| `InvoicePdf.InvoiceRoundTrip` | app/modules/invoicing/pdf.py:78-104 | From its last bytes the document reads back to its five objects exactly when the offsets fit, and the page content to its lines always |
| `InvoicePdf.ReaderRoundTrip` | app/modules/invoicing/pdf.py:81-104 | A reader that spells every word of the format itself, finds table and trailer from the last bytes, counts a row only if it is in use, and follows /Root, /Pages, /Kids, the page box, font and /Contents to the text operators gets every line in order, exactly when the offsets fit the table, and nothing otherwise |
| `InvoicePdf.DocumentFollows` | app/modules/invoicing/pdf.py:85-91 | Following the references from the first object leads to the page, its font and its content, and so to all lines |
| `PdfReader.RootReadBack` | app/modules/invoicing/pdf.py:100-103 | Behind the rows of the table stands a trailer of the right size that names object 1 as the catalogue |
| `PdfReader.RowIsInUse` | app/modules/invoicing/pdf.py:101 | A row that the reader counts is marked as in use at its eighteenth byte |
| `LclAllocation.LclService.CalculateCostAllocation` | app/services/lcl_service.py:70-107 | Refuses an unknown consolidation; skips unknown house bills; shares in order, the last taking the remainder |
| `LclAllocation.KnownExactly` | app/services/lcl_service.py:81-87 | The house bills that exist share, as often as they are named, and no others |
| `LclAllocation.KnownWeigh` | app/services/lcl_service.py:84-86 | Each shares by the larger of its weight and a thousand times its cubic metres |
| `LclAllocation.AllocationIsExact` | app/services/lcl_service.py:89-101 | The shares sum to the master cost exactly when there is a house bill or the cost is zero |
| `LclAllocation.SharesAreFair` | app/services/lcl_service.py:92-99 | Each non-last share is its exact proportional share to the nearest cent, half a cent going away from zero; the last is within n - 1 half-cents of its own |
| `LclAllocation.SharesFollowWeight` | app/services/lcl_service.py:92-99 | Non-last shares are monotone in chargeable weight (antitone for a negative cost) |
| `LclAllocation.NoWeightNoShare` | app/services/lcl_service.py:93-99 | Without a positive total weight the last bill takes the whole cost and every other share is zero |
| `LclAllocation.LastShareFloor` | app/services/lcl_service.py:93-99 | The last share is non-negative once its exact share covers n - 1 half-cents, and of a non-negative cost and weight never further below zero than that |
| `LclAllocation.LastShareMayBeNegative` | app/services/lcl_service.py:93-95 | The remainder may be negative: any four equal bills sharing 0.02 |
| `LclPacking.GenerateSuggestions` | app/services/lcl_service.py:20-65 | For every master bill in id order, the greedy choice among the house bills in id order; none where nothing fits |
| `LclPacking.Pack` | app/services/lcl_service.py:39-50 | The greedy loop with its two running totals |
| `LclPacking.ChoiceFits` | app/services/lcl_service.py:43-50 | A choice stays within both capacities, whatever the sizes |
| `LclPacking.ChoiceIsFromInput` | app/services/lcl_service.py:34-50 | Only house bills of the input with the origin and the destination of the master bill are chosen, in order |
| `LclPacking.ChosenSnoc` | app/services/lcl_service.py:39-50 | The greedy step: the next bill on the lane is taken exactly when weight and volume fit beside those taken before it |
| `LclPacking.ChoiceIsMaximal` | app/services/lcl_service.py:43-50 | A skipped house bill does not fit beside the final totals when no matching bill after it has a negative size |
| `LclPacking.NegativeSizeBreaksMaximality` | app/services/lcl_service.py:43-50 | Of two bills on a lane, there are capacities that skip the first although it fits in the end exactly when the second has a negative size and the first is larger in it |
| `LclPacking.SuggestionsIgnoreOrder` | app/services/lcl_service.py:24-26 | With unique ids the suggestions are the same for every ordering of the input |
| `LclPacking.SuggestionsAreGood` | app/services/lcl_service.py:20-65 | Every suggestion reports, for a master bill of the input, the ids of house bills of the input with its origin and destination, in id order, within both capacities and, when no such bill has a negative size, leaving out none that fits; weight, volume and both percentages of capacity are the exact ones to the nearest cent |
| `LclPacking.NobodyIsForgotten` | app/services/lcl_service.py:20-65 | With no negative sizes every master bill that some matching house bill fits alone gets a suggestion |
| `RateLimit.RedisService.CheckRateLimit` | app/modules/redis/service.py:34-46 | Increment, expiry on the first hit, refusal above the limit with the seconds to the next window |
| `RateLimit.CountersAreFaithful` | app/modules/redis/service.py:38-41 | A window counter equals the number of requests of its window, never expires inside it and is gone by the end of the next, in whatever order times come |
| `RateLimit.AnswerIsByCount` | app/modules/redis/service.py:39-46 | A request is admitted exactly when fewer than `limit` came before it in its window |
| `RateLimit.AnswerIsExact` | app/modules/redis/service.py:37-46 | The answer in full: the limit, what is left of it after this request and the first multiple of the window after now while there is room, and otherwise the seconds until then |
| `RateLimit.AdmittedPerWindow` | app/modules/redis/service.py:39-46 | An aligned window admits the smaller of its requests and the limit |
| `RateLimit.RefusedOnlyWhenFull` | app/modules/redis/service.py:44-45 | A refusal means the window has already admitted `limit` requests |
| `RateLimit.BurstBound` | app/modules/redis/service.py:37-46 | Any `window_seconds` consecutive seconds admit at most twice the limit |
| `RateLimit.BurstBoundIsTight` | app/modules/redis/service.py:37-46 | Twice the limit is reached across a window edge, for every limit and every window of more than a second |
| `RateLimit.OneSecondBound` | app/modules/redis/service.py:37-46 | With windows of one second a second admits at most the limit |
| `RateLimit.RetryAfterIsHonoured` | app/modules/redis/service.py:43-46 | For non-decreasing times and a positive limit, the first request of the caller at or after `retry_after` is admitted |
| `RateLimit.RefusedUntilRetryAfter` | app/modules/redis/service.py:43-46 | Until `retry_after` has passed every further request of the caller is refused, so no shorter wait would do |
| `Documents.DocumentService.UploadDocument` | app/modules/documents/service.py:104-181 | Next version on the existing document or version 1 of a new one, pending review, item UPLOADED and linked, upload logged |
| `Documents.DocumentService.ApproveDocument` | app/modules/documents/service.py:371-412 | Refuses an unknown document and an actor outside the role gate of the type; otherwise APPROVED on document and item, logged |
| `Documents.DocumentService.RejectDocument` | app/modules/documents/service.py:440-470 | REJECTED on the document, MISSING on its item, logged |
| `Documents.DocumentService.RequestDocumentRevision` | app/modules/documents/service.py:487-508 | REVISION_REQUESTED on the document, logged, item untouched |
| `Documents.DocumentService.GenerateChecklist` | app/modules/documents/service.py:521-545 | Adds items for the types not yet on the checklist and changes no other |
| `Documents.DocumentService.ValidateTransition` | app/modules/documents/service.py:588-620 | Allows the transition exactly when every mandatory item is linked and APPROVED; lists as missing exactly the mandatory ones that are REQUIRED or unlinked, and as unapproved exactly the other ones not APPROVED |
| `Documents.ApprovedExactly` | app/modules/documents/service.py:375-412 | An approval is accepted exactly of a known document by an actor who, where its type has a gate, holds SUPER_ADMIN or one of the roles of the gate; it approves the document and its checklist item and logs the actor with these roles, and nothing else changes |
| `Documents.DisjointRolesAreRefused` | app/modules/documents/service.py:381-386 | Roles that share none with the gate, without SUPER_ADMIN, are refused |
| `Documents.DangerousGoodsGate` | app/modules/documents/service.py:381-386 | A dangerous-goods declaration is approved exactly by COMPLIANCE, COMPLIANCE_OFFICER or SUPER_ADMIN |
| `Documents.SentBackExactly` | app/modules/documents/service.py:440-508 | A rejection and a request for revision are accepted exactly of a known document; each sets its status and is logged, and only the rejection reaches the checklist, as MISSING |
| `Documents.UploadedExactly` | app/modules/documents/service.py:104-181 | An upload is the next version of the document of its shipment and type, pending review, and marks and links its checklist item; no other document changes |
| `Documents.ChecklistExactly` | app/modules/documents/service.py:521-545 | A checklist gets one item, REQUIRED and unlinked, for each type it did not have, as the first rule for it says, and keeps the others |
| `Documents.RunKeepsInv` | app/modules/documents/service.py:104-181 | In every run: versions of a document are exactly 1..n with the document holding the last, one document and one item per type, every logged approval of a gated type by an actor with SUPER_ADMIN or one of its roles, items mirroring the last decision on their own document |
| `Documents.GateIsExact` | app/modules/documents/service.py:588-620 | In every run the gate allows a transition exactly when, for each mandatory item, the last UPLOAD, APPROVE or REJECT logged for its document is an APPROVE by an actor who held SUPER_ADMIN or one of the roles its type asks for, if it asks for any |
| `Documents.ClearedDocumentStatus` | app/modules/documents/service.py:495-508 | A cleared document is APPROVED exactly when no revision was requested since its approval |
| `Documents.GateIgnoresRevision` | app/modules/documents/service.py:495-508 | The gap: after any authorised approval a request for revision does not close the gate |
| `Documents.HistoryIsAppendOnly` | app/modules/documents/service.py:144-176 | Logged actions and versions stay in place in every continuation |

## Left out

- Engine.SoundBill: nets one bill's entries by amount, because a payment may name another currency than the bill and the service does not convert it; by currency, LedgerRuns.PayablesAreBills accounts for them.
- Engine.SoundRevenueLine: the exact count excludes a line created as INVOICED by hand, which no invoice line references; a line created as PAID and listed by id is billed once like any other, as the code allows.
- AlarmRuns.AlarmsStayCurrent: covers runs without recorded bills, because recording does not synchronise the alarm; AlarmRuns.AlarmsOverRuns covers all runs.
- EtaService.ConnectionsNeverLost: covers runs of ETA requests, because an ETD request can break a connection; EtaService.ConnectionSurvivesExactly covers all runs.
- LclPacking.ChoiceIsMaximal: needs non-negative sizes of the matching bills after the skipped one; exact for two bills only, since in a longer list a negative size breaks maximality together with others or not at all.
- LclAllocation.LastShareFloor: one direction; the sign of a smaller last share depends on how each of the other shares rounds.
- LclAllocation.SharesAreFair: needs a positive total chargeable weight; without it there is no proportional share (LclAllocation.NoWeightNoShare).
- Tenants: one tenant is modelled; tenant filters in queries are not.
- Vendor, carrier, customer, quotation-line and recipient lookups: only their outcome for sending is a parameter; descriptions, dates, quantities and unit rates of lines carry no property.
- Stripping and upper-casing of codes, types and reasons: inputs arrive normalised; validation of status names is in the types.
- Floating point: sums are exact and rounding is to a nearest cent; the 28-digit Decimal context of LCL is taken as exact real arithmetic.
- Margin percent, quoted and actual breakdowns of the profitability report: sums like the modelled ones; as in the service, profit adds amounts of all currencies.
- Looking up an exchange rate: the newest rate on file for the invoice currency is an input; a rate below zero counts as none, like zero.
- COST_VARIANCE exceptions and the VARIANCE_DETECTED mark: the first has no effect on bills, the second is rolled back with the refusal that follows it.
- CARGO_LOSS exceptions opened or closed by the exception service, and cost or revenue lines written by other services such as quotation acceptance.
- Order of rows a query returns without an ordering: tables are read in insertion order.
- Audit rows, outbox events, invoice and note numbering.
- The database session as such: an operation is atomic, concurrent transactions are not modelled; a lookup that raises on two matching rows cannot meet two in any reachable state of the modelled services.
- Redis: one clock for application and store, and increment with expiry as one step; idempotency keys and locks.
- Several shipments in one ETA history: legs and versions of one shipment are modelled; the 6-hour connection and 24-hour default are in seconds.
- The alert fields that only format or repeat a value: recipients, message, rounded days.
- Formatting of the invoice's text lines: they are any strings.
- Checklist rules and their predicates: the rules to add are an input of the operation; file checks before an upload.
- Authentication, routers, workflow engine, customs, claims, rates, air consolidation: no property spans them and the core.
