/** What three-way reconciliation disputes against what the invoice-to-PO mode disputes. */
module DisputeDominance {
  import opened Prelude
  import opened Domain
  import opened InvoiceHelpers
  import opened GroupExposure
  import ThreeWay
  import InvoicePo
  import ReceiptMonotone

  /** Receipts can only add issues to a line and take support away from it, so they can only
      raise its disputed amount. */
  lemma LineDisputesMore(
      invoice: InvoiceLine, orders: Orders, receipts: seq<Receipt>, before: seq<Group>,
      duplicate: bool, ambiguous: bool, config: Config)
    ensures ThreeWay.LineResult(invoice, orders, receipts, before, duplicate, !ambiguous, config).disputed
         >= InvoicePo.LineResult(invoice, orders, before, duplicate, ambiguous, config).disputed
  {
    match Resolve(invoice, orders)
    case Unresolved(_) =>
    case Resolved(po) =>
      var prior, received := Prior(before, orders, PoKeyOf(invoice)), ThreeWay.ReceivedFor(receipts, po);
      ThreeWay.LineIssuesMeaning(invoice, po, received, prior, duplicate, config);
      PoIssuesWithin(invoice, po, received, prior, duplicate, config);
      ReceiptMonotone.DisputeShrinks(
        invoice, po,
        ThreeWay.SupportedQuantity(invoice.quantity, po.ordered, received, prior, !ambiguous),
        InvoicePo.SupportedQuantity(invoice.quantity, po.ordered, prior, ambiguous),
        ThreeWay.LineIssues(invoice, po, received, prior, duplicate, config),
        InvoicePo.LineIssues(invoice, po, prior, duplicate, config), config);
  }

  lemma PoIssuesWithin(
      invoice: InvoiceLine, po: PoLine, received: Option<real>, prior: real, duplicate: bool, config: Config)
    ensures var three := ThreeWay.LineIssues(invoice, po, received, prior, duplicate, config);
            var two := InvoicePo.LineIssues(invoice, po, prior, duplicate, config);
            && two <= three
            && three * FULL_EXPOSURE_ISSUES == two * FULL_EXPOSURE_ISSUES
            && (PriceMismatch in three <==> PriceMismatch in two)
  {
  }

  /** On the same records, every line and every currency's total is disputed in three-way
      reconciliation for at least what the invoice-to-PO mode disputes. */
  lemma ThreeWayDisputesMore(
      lines: seq<PoLine>, receipts: seq<Receipt>, invoices: seq<InvoiceLine>, config: Config)
    ensures var three := ThreeWay.Report(lines, receipts, invoices, config);
            var two := InvoicePo.Report(lines, invoices, config);
            && |three.results| == |two.results| == |invoices|
            && (forall k :: 0 <= k < |invoices| ==> two.results[k].disputed <= three.results[k].disputed)
            && (forall c :: DisputedIn(two.summary.disputed, c) <= DisputedIn(three.summary.disputed, c))
  {
    var groups, orders := GroupsOf(invoices), OrdersOf(lines);
    var three: seq<seq<ThreeWay.ThreeWayResult>> := ThreeWay.RowsOf(groups, orders, receipts, config);
    var two: seq<seq<InvoicePo.InvoicePoResult>> := InvoicePo.RowsOf(groups, orders, config);
    forall i, j | 0 <= i < |groups| && 0 <= j < |groups[i]| ensures two[i][j].disputed <= three[i][j].disputed {
      LineDisputesMore(
        groups[i][j], orders, receipts, groups[..i], |groups[i]| > 1, Ambiguous(groups[i]), config);
    }
    GroupsElements(invoices);
    FlattenSameLength(groups, three);
    FlattenSameLength(three, two);
    forall k | 0 <= k < |invoices| ensures Flatten(two)[k].disputed <= Flatten(three)[k].disputed {
      var i, j := FlattenBoth(three, two, k);
    }
    forall c
      ensures DisputedIn(InvoicePo.Report(lines, invoices, config).summary.disputed, c)
           <= DisputedIn(ThreeWay.Report(lines, receipts, invoices, config).summary.disputed, c)
    {
      TotalsCompare(groups, two, three, config, c);
    }
  }

  lemma TotalsCompare(
      groups: seq<Group>, two: seq<seq<InvoicePo.InvoicePoResult>>, three: seq<seq<ThreeWay.ThreeWayResult>>,
      config: Config, c: Code)
    requires RowPerLine(groups, two) && RowPerLine(groups, three)
    requires forall i, j :: 0 <= i < |groups| && 0 <= j < |groups[i]| ==> two[i][j].disputed <= three[i][j].disputed
    ensures var less := ExposuresOf(groups, Columns(two, InvoicePo.DisputeOf));
            var more := ExposuresOf(groups, Columns(three, ThreeWay.DisputeOf));
            DisputedIn(Amounts(SortedCurrencies(less), less, config), c)
            <= DisputedIn(Amounts(SortedCurrencies(more), more, config), c)
  {
    ExposuresMonotone(groups, Columns(two, InvoicePo.DisputeOf), Columns(three, ThreeWay.DisputeOf), c);
    SummaryDisputes(ExposuresOf(groups, Columns(two, InvoicePo.DisputeOf)), config, c);
    SummaryDisputes(ExposuresOf(groups, Columns(three, ThreeWay.DisputeOf)), config, c);
  }
}
