/** Validated procurement records, issue codes and policy settings.

    Text, dates and currencies need only equality and a total order, so they are integers.
    Quantities and prices are exact; the CSV schemas admit only positive quantities and
    non-negative prices. */
module Domain {
  import opened Prelude

  type Code = int
  type Quantity = q: real | q > 0.0 witness 1.0
  type Price = p: real | p >= 0.0

  datatype PoLine = PoLine(
    number: Code, line: int, supplier: Code, orderDate: int, currency: Code,
    item: Code, ordered: Quantity, price: Price)

  datatype Receipt = Receipt(
    receiptId: Code, line: int, poNumber: Code, poLine: int, date: int,
    item: Code, received: Quantity)

  datatype InvoiceLine = InvoiceLine(
    number: Code, line: int, supplier: Code, date: int, poNumber: Code, poLine: int,
    currency: Code, item: Code, quantity: Quantity, price: Price)

  datatype PoKey = PoKey(number: Code, line: int)
  datatype Identity = Identity(supplier: Code, number: Code, line: int)
  datatype Target = Target(poNumber: Code, poLine: int, item: Code)

  datatype Issue =
    | UnknownPo | UnknownItem | DuplicateInvoice | SupplierMismatch | CurrencyMismatch
    | MissingReceipt | QuantityExceedsPo | QuantityExceedsReceipt | PriceMismatch
    | ReceiptItemMismatch | OverReceived

  datatype Status = Matched | ReviewRequired

  datatype Rounding = HalfUp | HalfDown | HalfEven | Up | Down | Ceiling | Floor | ZeroFiveUp

  datatype Config = Config(toleranceRate: real, places: nat, rounding: Rounding)

  /** A non-empty list of invoice rows that claim the same identity. */
  type Group = g: seq<InvoiceLine> | g != [] witness [InvoiceLine(0, 1, 0, 0, 0, 1, 0, 0, 1.0, 0.0)]

  function KeyOfPo(po: PoLine): PoKey {
    PoKey(po.number, po.line)
  }

  function InvoiceDocument(invoice: InvoiceLine): (Code, Code) {
    (invoice.supplier, invoice.number)
  }

  /** What a receipt or an invoice line names when it means this PO line. */
  function PoTarget(po: PoLine): Target {
    Target(po.number, po.line, po.item)
  }

  function ReceiptTarget(r: Receipt): Target {
    Target(r.poNumber, r.poLine, r.item)
  }

  /** The loader rejects a PO file that repeats a (po_number, line_number) pair. */
  ghost predicate UniquePoKeys(orders: seq<PoLine>) {
    forall i, j :: 0 <= i < j < |orders| ==> KeyOfPo(orders[i]) != KeyOfPo(orders[j])
  }

  /** The loader rejects a receipt file that repeats a (receipt_id, line_number) pair. */
  ghost predicate UniqueReceiptKeys(receipts: seq<Receipt>) {
    forall i, j :: 0 <= i < j < |receipts| ==>
      (receipts[i].receiptId, receipts[i].line) != (receipts[j].receiptId, receipts[j].line)
  }

  /** The loader accepts an invoice file only when every row of one invoice document
      carries the same date and currency. */
  ghost predicate ConsistentDocuments(invoices: seq<InvoiceLine>) {
    forall a, b :: a in invoices && b in invoices && a.supplier == b.supplier && a.number == b.number
      ==> a.date == b.date && a.currency == b.currency
  }
}
