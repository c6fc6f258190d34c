/**
 The rows the payables, invoicing and financial services share, for one tenant. Rows are never deleted,
 so a row's id is its position in its table. `created` columns remember the status a line was created with.
 */
module Tables {
  import opened Results
  import opened Money
  import opened Ledger

  // ---------------------------------------------------------------- cost side

  datatype Stage = Estimated | Accrued | Billed | Verified | Approved | Paid

  datatype CostLine = CostLine(shipment: nat, code: string, amount: int, stage: Stage, additional: bool, created: Stage)

  datatype Match = Matched | OverBilled | UnderBilled | AdditionalCharge | LineVerified

  datatype BillLine = BillLine(cost: nat, expected: int, billed: int, variance: int, match_: Match)

  datatype Payment = Payment(amount: int, currency: string, entry: nat)

  datatype BillStatus = Received | BillVerified | BillApproved | PartiallyPaid | BillPaid

  datatype Bill = Bill(
    shipment: nat, number: string, currency: string, lines: seq<BillLine>,
    subtotal: int, tax: int, total: int, variance: int, paid: int,
    status: BillStatus, verified: bool, approved: bool,
    verifiedBy: Option<nat>, approvedBy: Option<nat>, entry: Option<nat>, payments: seq<Payment>)

  // ---------------------------------------------------------------- revenue side

  datatype RevenueStatus = RevEstimated | Quoted | Invoiced | RevPaid

  datatype RevenueLine = RevenueLine(shipment: nat, code: string, amount: int, currency: string, status: RevenueStatus, created: RevenueStatus)

  datatype InvoiceLine = InvoiceLine(revenue: nat, amount: int, tax: int, total: int)

  datatype InvoiceStatus = PendingApproval | InvoiceApproved | Sent | Credited

  datatype Invoice = Invoice(
    shipment: nat, currency: string, lines: seq<InvoiceLine>, subtotal: int, tax: int, total: int,
    status: InvoiceStatus, approved: bool, approvedBy: Option<nat>)

  /** A credit or debit note. */
  datatype Note = Note(invoice: nat, amount: int, currency: string, entry: nat)

  // ---------------------------------------------------------------- alarms

  datatype AlarmStatus = Open | Acknowledged | UnderInvestigation | Resolved

  /** A CARGO_LOSS exception raised for a negative margin. */
  datatype Alarm = Alarm(shipment: nat, status: AlarmStatus, impact: int)

  datatype Books = Books(
    shipments: set<nat>, costs: seq<CostLine>, bills: seq<Bill>,
    revenues: seq<RevenueLine>, invoices: seq<Invoice>, credits: seq<Note>, debits: seq<Note>,
    entries: seq<Entry>, alarms: seq<Alarm>)

  /** The database session: one table per field. */
  class Session {
    const shipments: set<nat>
    var costs: seq<CostLine>
    var bills: seq<Bill>
    var revenues: seq<RevenueLine>
    var invoices: seq<Invoice>
    var credits: seq<Note>
    var debits: seq<Note>
    var entries: seq<Entry>
    var alarms: seq<Alarm>

    constructor (shipments: set<nat>)
      ensures Rows() == Books(shipments, [], [], [], [], [], [], [], [])
    {
      this.shipments := shipments;
      costs, bills, revenues, invoices, credits, debits, entries, alarms := [], [], [], [], [], [], [], [];
    }

    function Rows(): Books
      reads this
    {
      Books(shipments, costs, bills, revenues, invoices, credits, debits, entries, alarms)
    }
  }
}
